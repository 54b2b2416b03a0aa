/** campus-rag/main.py, `rrf_fuse` and the list caps of `query`: reciprocal rank fusion of two rankings. */
module RankFusion {
  import opened Sequences

  datatype Field = Num(value: real) | Text(text: string) | Explanation(parts: map<string, real>)
  type Fields = map<string, Field>
  datatype Item = Item(chunkId: string, fields: Fields)
  datatype Hit = Hit(chunkId: string, rrf: real, fields: Fields)

  /**
   What a hit is judged and shown by: its confidence, the rounding to four places, the explanation made
   of its fields and its score, and the least confidence let through.
   */
  datatype Judge = Judge(confidence: Fields -> real, round: real -> real, explain: (Fields, real) -> map<string, real>, minimum: real)

  /** 1 / (60 + rank + 1), ranks counted from 0. Rounding is left aside. */
  function Weight(rank: nat): real {
    1.0 / (61 + rank) as real
  }

  /** The two dictionaries of `rrf_fuse`, `scores` and `payloads`, and their common insertion order. */
  datatype Table = Table(order: seq<string>, scores: map<string, real>, payloads: map<string, Fields>)

  const EMPTY := Table([], map[], map[])

  function ScoreOf(t: Table, key: string): real {
    if key in t.scores then t.scores[key] else 0.0
  }

  function FieldsOf(t: Table, key: string): Fields {
    if key in t.payloads then t.payloads[key] else map[]
  }

  /** One turn of either loop. */
  function Vote(t: Table, item: Item, rank: nat): Table {
    Table(
      if item.chunkId in t.scores then t.order else t.order + [item.chunkId],
      t.scores[item.chunkId := ScoreOf(t, item.chunkId) + Weight(rank)],
      t.payloads[item.chunkId := FieldsOf(t, item.chunkId) + item.fields])
  }

  function VoteAll(t: Table, items: seq<Item>): Table {
    if items == [] then t else Vote(VoteAll(t, items[..|items| - 1]), items[|items| - 1], |items| - 1)
  }

  function Tally(dense: seq<Item>, sparse: seq<Item>): Table {
    VoteAll(VoteAll(EMPTY, dense), sparse)
  }

  // ----- Sorting by score, highest first, ties in insertion order -----

  function Insert(sorted: seq<string>, key: string, score: string -> real): seq<string> {
    if sorted == [] then [key]
    else if score(sorted[|sorted| - 1]) < score(key) then
      Insert(sorted[..|sorted| - 1], key, score) + [sorted[|sorted| - 1]]
    else sorted + [key]
  }

  /** `sorted(keys, key=score, reverse=True)`, which Python promises to be stable. */
  function SortDescending(keys: seq<string>, score: string -> real): seq<string> {
    if keys == [] then [] else Insert(SortDescending(keys[..|keys| - 1], score), keys[|keys| - 1], score)
  }

  predicate Distinct(keys: seq<string>) {
    forall i, j | 0 <= i < j < |keys| :: keys[i] != keys[j]
  }

  /** Whether `a` may stand before `b`: a higher score, or the same score and inserted earlier. */
  predicate Before(a: string, b: string, score: string -> real, place: string -> int) {
    score(a) > score(b) || (score(a) == score(b) && place(a) < place(b))
  }

  ghost predicate Ordered(keys: seq<string>, score: string -> real, place: string -> int) {
    forall i, j | 0 <= i < j < |keys| :: Before(keys[i], keys[j], score, place)
  }

  lemma {:induction false} InsertMembers(sorted: seq<string>, key: string, score: string -> real)
    ensures multiset(Insert(sorted, key, score)) == multiset(sorted) + multiset{key}
  {
    if sorted != [] {
      var n := |sorted| - 1;
      assert sorted == sorted[..n] + [sorted[n]];
      InsertMembers(sorted[..n], key, score);
    }
  }

  lemma InsertedIn(sorted: seq<string>, key: string, score: string -> real, i: nat)
    requires i < |Insert(sorted, key, score)|
    ensures Insert(sorted, key, score)[i] == key || Insert(sorted, key, score)[i] in sorted
  {
    InsertMembers(sorted, key, score);
    var r := Insert(sorted, key, score);
    assert r[i] in multiset(r);
  }

  /** A key inserted later than those already sorted keeps the order. */
  lemma {:induction false} InsertOrders(sorted: seq<string>, key: string, score: string -> real, place: string -> int)
    requires Ordered(sorted, score, place)
    requires forall i | 0 <= i < |sorted| :: place(sorted[i]) < place(key)
    ensures Ordered(Insert(sorted, key, score), score, place)
  {
    if sorted != [] {
      var n := |sorted| - 1;
      if score(sorted[n]) < score(key) {
        InsertOrders(sorted[..n], key, score, place);
        var r := Insert(sorted[..n], key, score);
        forall i | 0 <= i < |r| ensures Before(r[i], sorted[n], score, place) {
          InsertedIn(sorted[..n], key, score, i);
        }
      }
    }
  }

  /** The sorted list holds the keys and is in order: by score, and by place among equal scores. */
  lemma {:induction false} SortOrders(keys: seq<string>, score: string -> real, place: string -> int)
    requires forall i, j | 0 <= i < j < |keys| :: place(keys[i]) < place(keys[j])
    ensures Ordered(SortDescending(keys, score), score, place)
    ensures multiset(SortDescending(keys, score)) == multiset(keys)
  {
    if keys != [] {
      var n := |keys| - 1;
      var front := SortDescending(keys[..n], score);
      SortOrders(keys[..n], score, place);
      assert keys == keys[..n] + [keys[n]];
      InsertMembers(front, keys[n], score);
      forall i | 0 <= i < |front| ensures place(front[i]) < place(keys[n]) {
        assert front[i] in multiset(front);
        assert front[i] in keys[..n];
      }
      InsertOrders(front, keys[n], score, place);
    }
  }

  // ----- The fused list -----

  function Ranked(t: Table): seq<string> {
    SortDescending(t.order, k => ScoreOf(t, k))
  }

  const WORKING := {"_dense_score", "_sparse_score", "_rrf_score"}

  function MakeHit(t: Table, key: string, judge: Judge): Hit {
    var scored := FieldsOf(t, key)["_rrf_score" := Num(ScoreOf(t, key))];
    var rated := scored["score" := Num(judge.round(judge.confidence(scored)))];
    Hit(key, ScoreOf(t, key), rated["explain" := Explanation(judge.explain(rated, ScoreOf(t, key)))] - WORKING)
  }

  /** Whether the confidence filter lets a key through. */
  predicate Confident(t: Table, key: string, judge: Judge) {
    judge.confidence(FieldsOf(t, key)["_rrf_score" := Num(ScoreOf(t, key))]) >= judge.minimum
  }

  function Emit(t: Table, keys: seq<string>, judge: Judge): seq<Hit> {
    if keys == [] then []
    else
      Emit(t, keys[..|keys| - 1], judge)
      + (if Confident(t, keys[|keys| - 1], judge) then [MakeHit(t, keys[|keys| - 1], judge)] else [])
  }

  function TopOf(keys: seq<string>, topK: nat): seq<string> {
    if topK <= |keys| then keys[..topK] else keys
  }

  /** `rrf_fuse(dense, sparse, top_k, query)` as a value. */
  function Fuse(dense: seq<Item>, sparse: seq<Item>, topK: nat, judge: Judge): seq<Hit> {
    var t := Tally(dense, sparse);
    Emit(t, TopOf(Ranked(t), topK), judge)
  }

  /** Either of the two loops over a ranking. */
  method CountVotes(start: Table, items: seq<Item>) returns (t: Table)
    ensures t == VoteAll(start, items)
  {
    var order, scores, payloads := start.order, start.scores, start.payloads;
    for rank := 0 to |items|
      invariant Table(order, scores, payloads) == VoteAll(start, items[..rank])
    {
      VoteAllSnoc(start, items, rank);
      var key := items[rank].chunkId;
      if key !in scores {
        order := order + [key];
      }
      scores := scores[key := (if key in scores then scores[key] else 0.0) + 1.0 / (60 + rank + 1) as real];
      payloads := payloads[key := (if key in payloads then payloads[key] else map[]) + items[rank].fields];
    }
    assert items[..|items|] == items;
    t := Table(order, scores, payloads);
  }

  method RrfFuse(dense: seq<Item>, sparse: seq<Item>, topK: nat, judge: Judge)
    returns (out: seq<Hit>)
    ensures out == Fuse(dense, sparse, topK, judge)
  {
    var t := CountVotes(EMPTY, dense);
    t := CountVotes(t, sparse);
    if |t.order| == 0 {
      return [];
    }
    var fused := TopOf(Ranked(t), topK);
    out := EmitLoop(t, fused, judge);
  }

  lemma VoteAllSnoc(t: Table, items: seq<Item>, n: nat)
    requires n < |items|
    ensures VoteAll(t, items[..n + 1]) == Vote(VoteAll(t, items[..n]), items[n], n)
  {
    assert items[..n + 1][..n] == items[..n];
  }

  /** The loop over the leading keys: the confidence filter and the clean-up of each payload. */
  method EmitLoop(t: Table, fused: seq<string>, judge: Judge) returns (out: seq<Hit>)
    ensures out == Emit(t, fused, judge)
  {
    out := [];
    for i := 0 to |fused|
      invariant out == Emit(t, fused[..i], judge)
    {
      var item := FieldsOf(t, fused[i])["_rrf_score" := Num(ScoreOf(t, fused[i]))];
      assert fused[..i + 1][..i] == fused[..i];
      var c := judge.confidence(item);
      if c < judge.minimum {
        continue;
      }
      item := item["score" := Num(judge.round(c))];
      item := item["explain" := Explanation(judge.explain(item, ScoreOf(t, fused[i])))];
      item := item - WORKING;
      out := out + [Hit(fused[i], ScoreOf(t, fused[i]), item)];
    }
    assert fused[..|fused|] == fused;
  }

  // ----- Scores -----

  function Ids(items: seq<Item>): (ids: seq<string>)
    ensures |ids| == |items| && forall i | 0 <= i < |ids| :: ids[i] == items[i].chunkId
  {
    seq(|items|, i requires 0 <= i < |items| => items[i].chunkId)
  }

  /** What one ranking adds to a key's score: the weights of all the places it occurs at. */
  function Contribution(items: seq<Item>, key: string): real {
    if items == [] then 0.0
    else
      var n := |items| - 1;
      Contribution(items[..n], key) + if items[n].chunkId == key then Weight(n) else 0.0
  }

  /** Insertion order lists each key once, and the two dictionaries have the same keys. */
  ghost predicate WellFormed(t: Table) {
    && Distinct(t.order)
    && (forall k :: k in t.order <==> k in t.scores)
    && t.payloads.Keys == t.scores.Keys
  }

  lemma VoteKeepsWellFormed(t: Table, item: Item, rank: nat)
    requires WellFormed(t)
    ensures WellFormed(Vote(t, item, rank))
  {
  }

  lemma {:induction false} VoteAllKeepsWellFormed(t: Table, items: seq<Item>)
    requires WellFormed(t)
    ensures WellFormed(VoteAll(t, items))
  {
    if items != [] {
      var n := |items| - 1;
      VoteAllKeepsWellFormed(t, items[..n]);
      VoteKeepsWellFormed(VoteAll(t, items[..n]), items[n], n);
    }
  }

  lemma {:induction false} VoteAllAdds(t: Table, items: seq<Item>, k: string)
    ensures ScoreOf(VoteAll(t, items), k) == ScoreOf(t, k) + Contribution(items, k)
    ensures k in VoteAll(t, items).scores <==> k in t.scores || k in Ids(items)
  {
    if items != [] {
      var n := |items| - 1;
      VoteAllAdds(t, items[..n], k);
      IdsSnoc(items);
    }
  }

  lemma TallyScores(dense: seq<Item>, sparse: seq<Item>)
    ensures WellFormed(Tally(dense, sparse))
    ensures forall k :: ScoreOf(Tally(dense, sparse), k) == Contribution(dense, k) + Contribution(sparse, k)
    ensures forall k :: k in Tally(dense, sparse).order <==> k in Ids(dense) || k in Ids(sparse)
  {
    VoteAllKeepsWellFormed(EMPTY, dense);
    VoteAllKeepsWellFormed(VoteAll(EMPTY, dense), sparse);
    forall k
      ensures ScoreOf(Tally(dense, sparse), k) == Contribution(dense, k) + Contribution(sparse, k)
      ensures k in Tally(dense, sparse).order <==> k in Ids(dense) || k in Ids(sparse)
    {
      VoteAllAdds(EMPTY, dense, k);
      VoteAllAdds(VoteAll(EMPTY, dense), sparse, k);
    }
  }

  lemma {:induction false} ContributionAbsent(items: seq<Item>, key: string)
    requires key !in Ids(items)
    ensures Contribution(items, key) == 0.0
  {
    if items != [] {
      var n := |items| - 1;
      assert forall i | 0 <= i < n :: Ids(items[..n])[i] == Ids(items)[i];
      assert Ids(items)[n] != key;
      ContributionAbsent(items[..n], key);
    }
  }

  /** In a list without duplicates a key earns the weight of its one place. */
  lemma {:induction false} ContributionAt(items: seq<Item>, i: nat)
    requires i < |items| && Distinct(Ids(items))
    ensures Contribution(items, items[i].chunkId) == Weight(i)
  {
    var n := |items| - 1;
    assert forall j | 0 <= j < n :: Ids(items[..n])[j] == Ids(items)[j];
    if i == n {
      ContributionAbsent(items[..n], items[n].chunkId);
    } else {
      ContributionAt(items[..n], i);
      assert Ids(items)[i] != Ids(items)[n];
    }
  }

  // ----- Payloads -----

  lemma {:induction false} VoteAllKeepsOthers(t: Table, items: seq<Item>, key: string)
    requires key !in Ids(items)
    ensures FieldsOf(VoteAll(t, items), key) == FieldsOf(t, key)
  {
    if items != [] {
      var n := |items| - 1;
      assert Ids(items) == Ids(items[..n]) + [items[n].chunkId];
      VoteAllKeepsOthers(t, items[..n], key);
    }
  }

  lemma {:induction false} VoteAllMerges(t: Table, items: seq<Item>, i: nat)
    requires i < |items| && Distinct(Ids(items))
    ensures FieldsOf(VoteAll(t, items), items[i].chunkId) == FieldsOf(t, items[i].chunkId) + items[i].fields
  {
    var n := |items| - 1;
    assert Ids(items) == Ids(items[..n]) + [items[n].chunkId];
    if i == n {
      assert forall j | 0 <= j < n :: Ids(items)[j] != Ids(items)[n];
      VoteAllKeepsOthers(t, items[..n], items[n].chunkId);
    } else {
      VoteAllMerges(t, items[..n], i);
      assert Ids(items)[i] != Ids(items)[n];
    }
  }

  /** What a ranking without duplicates says of a key: its item's fields, or nothing. */
  ghost predicate SaidOf(items: seq<Item>, key: string, said: Fields) {
    if key in Ids(items) then exists i | 0 <= i < |items| :: items[i].chunkId == key && items[i].fields == said else said == map[]
  }

  lemma MergeOne(t: Table, items: seq<Item>, key: string, said: Fields)
    requires Distinct(Ids(items)) && SaidOf(items, key, said)
    ensures FieldsOf(VoteAll(t, items), key) == FieldsOf(t, key) + said
  {
    if key in Ids(items) {
      var i :| 0 <= i < |items| && items[i].chunkId == key && items[i].fields == said;
      VoteAllMerges(t, items, i);
    } else {
      VoteAllKeepsOthers(t, items, key);
      assert FieldsOf(t, key) + map[] == FieldsOf(t, key);
    }
  }

  /** A key's payload joins what the two rankings say of it; where both name a field the sparse one wins. */
  lemma PayloadsMerge(dense: seq<Item>, sparse: seq<Item>, key: string, fromDense: Fields, fromSparse: Fields)
    requires Distinct(Ids(dense)) && Distinct(Ids(sparse))
    requires SaidOf(dense, key, fromDense) && SaidOf(sparse, key, fromSparse)
    ensures var merged := FieldsOf(Tally(dense, sparse), key);
            && merged.Keys == fromDense.Keys + fromSparse.Keys
            && forall f | f in merged :: merged[f] == if f in fromSparse then fromSparse[f] else fromDense[f]
  {
    MergeOne(EMPTY, dense, key, fromDense);
    MergeOne(VoteAll(EMPTY, dense), sparse, key, fromSparse);
    assert FieldsOf(EMPTY, key) + fromDense == fromDense;
  }

  // ----- The fused list is ordered, duplicate-free, within top_k, and leaves out nothing it should keep -----

  function Rank(key: string, keys: seq<string>): (i: nat)
    requires key in keys
    ensures i < |keys| && keys[i] == key
  {
    if keys[0] == key then 0 else 1 + Rank(key, keys[1..])
  }

  lemma RankOfIndex(keys: seq<string>, i: nat)
    requires i < |keys| && Distinct(keys)
    ensures Rank(keys[i], keys) == i
  {
    var r := Rank(keys[i], keys);
    assert keys[r] == keys[i];
  }

  function PlaceIn(keys: seq<string>): string -> int {
    k => if k in keys then Rank(k, keys) else -1
  }

  lemma PlacesGrow(keys: seq<string>)
    requires Distinct(keys)
    ensures forall i, j | 0 <= i < j < |keys| :: PlaceIn(keys)(keys[i]) < PlaceIn(keys)(keys[j])
  {
    forall i, j | 0 <= i < j < |keys| ensures PlaceIn(keys)(keys[i]) < PlaceIn(keys)(keys[j]) {
      RankOfIndex(keys, i);
      RankOfIndex(keys, j);
    }
  }

  /** `keys` are the ids of `ids`, in order of first appearance. */
  ghost predicate FirstSeen(keys: seq<string>, ids: seq<string>) {
    && (forall k :: k in keys <==> k in ids)
    && (forall i, j | 0 <= i < j < |keys| :: PlaceIn(ids)(keys[i]) < PlaceIn(ids)(keys[j]))
  }

  lemma {:induction false} RankSnoc(key: string, ids: seq<string>, id: string)
    requires key in ids || key == id
    ensures PlaceIn(ids + [id])(key) == if key in ids then PlaceIn(ids)(key) else |ids|
  {
    if ids != [] && ids[0] != key {
      assert (ids + [id])[1..] == ids[1..] + [id];
      RankSnoc(key, ids[1..], id);
    }
  }

  lemma VoteKeepsFirstSeen(t: Table, item: Item, rank: nat, ids: seq<string>)
    requires item.chunkId in t.order <==> item.chunkId in t.scores
    requires FirstSeen(t.order, ids)
    ensures FirstSeen(Vote(t, item, rank).order, ids + [item.chunkId])
  {
    var keys := Vote(t, item, rank).order;
    assert forall k :: k in keys <==> k in ids + [item.chunkId];
    forall i, j | 0 <= i < j < |keys|
      ensures PlaceIn(ids + [item.chunkId])(keys[i]) < PlaceIn(ids + [item.chunkId])(keys[j])
    {
      assert keys[i] == t.order[i] && keys[i] in ids;
      RankSnoc(keys[i], ids, item.chunkId);
      RankSnoc(keys[j], ids, item.chunkId);
      assert j < |t.order| ==> keys[j] == t.order[j];
    }
  }

  lemma {:induction false} VoteAllKeepsFirstSeen(t: Table, items: seq<Item>, ids: seq<string>)
    requires WellFormed(t) && FirstSeen(t.order, ids)
    ensures FirstSeen(VoteAll(t, items).order, ids + Ids(items))
  {
    if items == [] {
      assert ids + Ids(items) == ids;
    } else {
      var n := |items| - 1;
      VoteAllKeepsFirstSeen(t, items[..n], ids);
      ScoredIsListed(t, items[..n], items[n].chunkId);
      VoteKeepsFirstSeen(VoteAll(t, items[..n]), items[n], n, ids + Ids(items[..n]));
      IdsSnoc(items);
      Regroup(ids, Ids(items[..n]), [items[n].chunkId]);
    }
  }

  lemma ScoredIsListed(t: Table, items: seq<Item>, key: string)
    requires WellFormed(t)
    ensures key in VoteAll(t, items).order <==> key in VoteAll(t, items).scores
  {
    VoteAllKeepsWellFormed(t, items);
  }

  lemma IdsSnoc(items: seq<Item>)
    requires items != []
    ensures Ids(items) == Ids(items[..|items| - 1]) + [items[|items| - 1].chunkId]
  {
  }

  lemma TallyFirstSeen(dense: seq<Item>, sparse: seq<Item>)
    ensures FirstSeen(Tally(dense, sparse).order, Ids(dense) + Ids(sparse))
  {
    VoteAllKeepsFirstSeen(EMPTY, dense, []);
    assert [] + Ids(dense) == Ids(dense);
    VoteAllKeepsWellFormed(EMPTY, dense);
    VoteAllKeepsFirstSeen(VoteAll(EMPTY, dense), sparse, Ids(dense));
  }

  lemma RankedHolds(t: Table, place: string -> int)
    requires forall i, j | 0 <= i < j < |t.order| :: place(t.order[i]) < place(t.order[j])
    ensures Ordered(Ranked(t), k => ScoreOf(t, k), place)
    ensures forall k :: k in Ranked(t) <==> k in t.order
  {
    SortOrders(t.order, k => ScoreOf(t, k), place);
    forall k ensures k in Ranked(t) <==> k in t.order {
      assert k in Ranked(t) <==> k in multiset(Ranked(t));
      assert k in t.order <==> k in multiset(t.order);
    }
  }

  /** The ids of the two lists by score, and among equal scores in order of first appearance, the dense list first. */
  lemma RankedOrder(dense: seq<Item>, sparse: seq<Item>)
    ensures var score := k => Contribution(dense, k) + Contribution(sparse, k);
            Ordered(Ranked(Tally(dense, sparse)), score, PlaceIn(Ids(dense) + Ids(sparse)))
    ensures Distinct(Ranked(Tally(dense, sparse)))
    ensures forall k :: k in Ranked(Tally(dense, sparse)) <==> k in Ids(dense) || k in Ids(sparse)
  {
    var t := Tally(dense, sparse);
    var place := PlaceIn(Ids(dense) + Ids(sparse));
    TallyScores(dense, sparse);
    TallyFirstSeen(dense, sparse);
    RankedHolds(t, place);
    var keys := Ranked(t);
    forall i, j | 0 <= i < j < |keys|
      ensures Before(keys[i], keys[j], k => Contribution(dense, k) + Contribution(sparse, k), place)
    {
      assert Before(keys[i], keys[j], k => ScoreOf(t, k), place);
    }
  }

  /** Each hit comes from a confident key. */
  lemma {:induction false} EmittedFrom(t: Table, keys: seq<string>, judge: Judge, i: nat)
    requires i < |Emit(t, keys, judge)|
    ensures var hit := Emit(t, keys, judge)[i];
            hit.chunkId in keys && Confident(t, hit.chunkId, judge) && hit == MakeHit(t, hit.chunkId, judge)
  {
    var n := |keys| - 1;
    if i < |Emit(t, keys[..n], judge)| {
      EmittedFrom(t, keys[..n], judge, i);
    }
  }

  /**
   A hit passes the confidence filter, and shows its key's payload with the rounded confidence as its
   score and with its explanation, and none of the working fields.
   */
  lemma HitShowsPayload(t: Table, keys: seq<string>, judge: Judge, i: nat)
    requires i < |Emit(t, keys, judge)|
    ensures var hit := Emit(t, keys, judge)[i];
            var payload := FieldsOf(t, hit.chunkId);
            var scored := payload["_rrf_score" := Num(hit.rrf)];
            var score := Num(judge.round(judge.confidence(scored)));
            && hit.rrf == ScoreOf(t, hit.chunkId)
            && judge.confidence(scored) >= judge.minimum
            && hit.fields.Keys == payload.Keys + {"score", "explain"} - {"_dense_score", "_sparse_score", "_rrf_score"}
            && hit.fields["score"] == score
            && hit.fields["explain"] == Explanation(judge.explain(scored["score" := score], hit.rrf))
            && forall f | f in hit.fields && f != "score" && f != "explain" :: hit.fields[f] == payload[f]
  {
    EmittedFrom(t, keys, judge, i);
  }

  ghost predicate HasHit(out: seq<Hit>, key: string) {
    exists i | 0 <= i < |out| :: out[i].chunkId == key
  }

  /** Each confident key makes a hit. */
  lemma {:induction false} EmitsAll(t: Table, keys: seq<string>, judge: Judge, k: string)
    requires k in keys && Confident(t, k, judge)
    ensures HasHit(Emit(t, keys, judge), k)
  {
    var n := |keys| - 1;
    var front := Emit(t, keys[..n], judge);
    var out := Emit(t, keys, judge);
    if k == keys[n] {
      assert out[|front|].chunkId == k;
    } else {
      assert keys == keys[..n] + [keys[n]];
      EmitsAll(t, keys[..n], judge, k);
      var i :| 0 <= i < |front| && front[i].chunkId == k;
      assert out[i].chunkId == k;
    }
  }

  ghost predicate ByScore(t: Table, keys: seq<string>) {
    forall i, j | 0 <= i < j < |keys| :: ScoreOf(t, keys[i]) >= ScoreOf(t, keys[j])
  }

  /** One hit before another: a higher score, or the same score and an id that appears earlier. */
  predicate HitBefore(a: Hit, b: Hit, place: string -> int) {
    a.chunkId != b.chunkId && (a.rrf > b.rrf || (a.rrf == b.rrf && place(a.chunkId) < place(b.chunkId)))
  }

  ghost predicate HitsInOrder(out: seq<Hit>, place: string -> int) {
    forall i, j | 0 <= i < j < |out| :: HitBefore(out[i], out[j], place)
  }

  lemma {:induction false} EmitsInOrder(t: Table, keys: seq<string>, judge: Judge, place: string -> int)
    requires Ordered(keys, k => ScoreOf(t, k), place)
    ensures HitsInOrder(Emit(t, keys, judge), place)
    ensures |Emit(t, keys, judge)| <= |keys|
  {
    if keys != [] {
      var n := |keys| - 1;
      var front := Emit(t, keys[..n], judge);
      EmitsInOrder(t, keys[..n], judge, place);
      forall i | 0 <= i < |front| ensures HitBefore(front[i], MakeHit(t, keys[n], judge), place) {
        EmittedFrom(t, keys[..n], judge, i);
        var j :| 0 <= j < n && keys[..n][j] == front[i].chunkId;
        assert Before(keys[j], keys[n], k => ScoreOf(t, k), place);
      }
    }
  }

  lemma OrderedByScore(t: Table, keys: seq<string>, place: string -> int)
    requires Ordered(keys, k => ScoreOf(t, k), place)
    ensures ByScore(t, keys) && Distinct(keys)
  {
    forall i, j | 0 <= i < j < |keys| ensures ScoreOf(t, keys[i]) >= ScoreOf(t, keys[j]) && keys[i] != keys[j] {
      assert Before(keys[i], keys[j], k => ScoreOf(t, k), place);
    }
  }

  lemma RankedByScore(t: Table)
    requires WellFormed(t)
    ensures ByScore(t, Ranked(t)) && Distinct(Ranked(t))
    ensures forall k :: k in Ranked(t) <==> k in t.order
  {
    var place := PlaceIn(t.order);
    PlacesGrow(t.order);
    RankedHolds(t, place);
    OrderedByScore(t, Ranked(t), place);
  }

  /** Whether `topK` different ids score at least as much as `key`. */
  ghost predicate Outranked(t: Table, key: string, topK: nat) {
    var top := TopOf(Ranked(t), topK);
    |top| == topK && Distinct(top) && forall x | x in top :: ScoreOf(t, x) >= ScoreOf(t, key)
  }

  lemma BelowTopIsOutranked(t: Table, key: string, topK: nat)
    requires WellFormed(t) && key in t.order && key !in TopOf(Ranked(t), topK)
    ensures Outranked(t, key, topK)
  {
    RankedByScore(t);
    var ranked := Ranked(t);
    var top := TopOf(ranked, topK);
    var j :| 0 <= j < |ranked| && ranked[j] == key;
    assert forall i | 0 <= i < |top| :: top[i] == ranked[i];
    forall x | x in top ensures ScoreOf(t, x) >= ScoreOf(t, key) {
      var i :| 0 <= i < |top| && top[i] == x;
      assert ranked[i] == x;
    }
  }

  lemma HitOrOutranked(t: Table, key: string, topK: nat, judge: Judge)
    requires WellFormed(t) && key in t.order && Confident(t, key, judge)
    ensures HasHit(Emit(t, TopOf(Ranked(t), topK), judge), key) || Outranked(t, key, topK)
  {
    if key in TopOf(Ranked(t), topK) {
      EmitsAll(t, TopOf(Ranked(t), topK), judge, key);
    } else {
      BelowTopIsOutranked(t, key, topK);
    }
  }

  /** What a key's confidence is judged by: its payload and its score. */
  function Judged(dense: seq<Item>, sparse: seq<Item>, key: string): Fields {
    FieldsOf(Tally(dense, sparse), key)["_rrf_score" := Num(Contribution(dense, key) + Contribution(sparse, key))]
  }

  lemma TallyWellFormed(dense: seq<Item>, sparse: seq<Item>)
    ensures WellFormed(Tally(dense, sparse))
  {
    VoteAllKeepsWellFormed(EMPTY, dense);
    VoteAllKeepsWellFormed(VoteAll(EMPTY, dense), sparse);
  }

  lemma KeyScored(dense: seq<Item>, sparse: seq<Item>, k: string)
    ensures ScoreOf(Tally(dense, sparse), k) == Contribution(dense, k) + Contribution(sparse, k)
    ensures k in Tally(dense, sparse).order <==> k in Ids(dense) || k in Ids(sparse)
  {
    TallyScores(dense, sparse);
  }

  lemma TallyByScore(dense: seq<Item>, sparse: seq<Item>)
    ensures ByScore(Tally(dense, sparse), Ranked(Tally(dense, sparse)))
  {
    TallyWellFormed(dense, sparse);
    RankedByScore(Tally(dense, sparse));
  }

  lemma RankedIsListed(dense: seq<Item>, sparse: seq<Item>, k: string)
    requires k in Ranked(Tally(dense, sparse))
    ensures k in Ids(dense) || k in Ids(sparse)
    ensures ScoreOf(Tally(dense, sparse), k) == Contribution(dense, k) + Contribution(sparse, k)
  {
    TallyWellFormed(dense, sparse);
    RankedByScore(Tally(dense, sparse));
    KeyScored(dense, sparse, k);
  }

  lemma KeyHitOrOutranked(dense: seq<Item>, sparse: seq<Item>, key: string, topK: nat, judge: Judge)
    requires key in Tally(dense, sparse).order && Confident(Tally(dense, sparse), key, judge)
    ensures HasHit(Fuse(dense, sparse, topK, judge), key) || Outranked(Tally(dense, sparse), key, topK)
  {
    TallyWellFormed(dense, sparse);
    HitOrOutranked(Tally(dense, sparse), key, topK, judge);
  }

  lemma HitsComplete(dense: seq<Item>, sparse: seq<Item>, topK: nat, judge: Judge, k: string)
    requires k in Ids(dense) || k in Ids(sparse)
    ensures || HasHit(Fuse(dense, sparse, topK, judge), k)
            || judge.confidence(Judged(dense, sparse, k)) < judge.minimum
            || Outranked(Tally(dense, sparse), k, topK)
  {
    KeyScored(dense, sparse, k);
    ConfidentIff(dense, sparse, k, judge);
    if Confident(Tally(dense, sparse), k, judge) {
      KeyHitOrOutranked(dense, sparse, k, topK, judge);
    }
  }

  lemma HitsSound(dense: seq<Item>, sparse: seq<Item>, topK: nat, judge: Judge, i: nat)
    requires i < |Fuse(dense, sparse, topK, judge)|
    ensures var hit := Fuse(dense, sparse, topK, judge)[i];
            && (hit.chunkId in Ids(dense) || hit.chunkId in Ids(sparse))
            && hit.rrf == Contribution(dense, hit.chunkId) + Contribution(sparse, hit.chunkId)
            && judge.confidence(Judged(dense, sparse, hit.chunkId)) >= judge.minimum
  {
    FusedFrom(dense, sparse, topK, judge, i);
    var key := Fuse(dense, sparse, topK, judge)[i].chunkId;
    RankedIsListed(dense, sparse, key);
    ConfidentIff(dense, sparse, key, judge);
  }

  lemma ConfidentIff(dense: seq<Item>, sparse: seq<Item>, key: string, judge: Judge)
    ensures Confident(Tally(dense, sparse), key, judge) <==> judge.confidence(Judged(dense, sparse, key)) >= judge.minimum
  {
    KeyScored(dense, sparse, key);
  }

  lemma FusedFrom(dense: seq<Item>, sparse: seq<Item>, topK: nat, judge: Judge, i: nat)
    requires i < |Fuse(dense, sparse, topK, judge)|
    ensures var hit := Fuse(dense, sparse, topK, judge)[i];
            && hit.chunkId in Ranked(Tally(dense, sparse))
            && hit.rrf == ScoreOf(Tally(dense, sparse), hit.chunkId)
            && Confident(Tally(dense, sparse), hit.chunkId, judge)
  {
    var t := Tally(dense, sparse);
    EmittedFrom(t, TopOf(Ranked(t), topK), judge, i);
    assert Fuse(dense, sparse, topK, judge)[i].chunkId in Ranked(t);
  }

  lemma HitsOrdered(dense: seq<Item>, sparse: seq<Item>, topK: nat, judge: Judge)
    ensures var out := Fuse(dense, sparse, topK, judge);
            |out| <= topK && HitsInOrder(out, PlaceIn(Ids(dense) + Ids(sparse)))
  {
    var t := Tally(dense, sparse);
    var place := PlaceIn(Ids(dense) + Ids(sparse));
    TallyFirstSeen(dense, sparse);
    RankedHolds(t, place);
    var top := TopOf(Ranked(t), topK);
    forall i, j | 0 <= i < j < |top| ensures Before(top[i], top[j], k => ScoreOf(t, k), place) {
      assert top[i] == Ranked(t)[i] && top[j] == Ranked(t)[j];
    }
    EmitsInOrder(t, top, judge, place);
  }

  /**
   The fusion theorem: the hits have distinct ids from the two lists, number at most `topK`, come in
   order of reciprocal rank score and then of first appearance, and all pass the confidence filter; an
   id of either list is missing only if it fails the filter or `topK` ids score at least as much.
   */
  lemma FuseIsSound(dense: seq<Item>, sparse: seq<Item>, topK: nat, judge: Judge)
    ensures var out := Fuse(dense, sparse, topK, judge);
            |out| <= topK && HitsInOrder(out, PlaceIn(Ids(dense) + Ids(sparse)))
    ensures var out := Fuse(dense, sparse, topK, judge);
            forall i | 0 <= i < |out| ::
              && (out[i].chunkId in Ids(dense) || out[i].chunkId in Ids(sparse))
              && out[i].rrf == Contribution(dense, out[i].chunkId) + Contribution(sparse, out[i].chunkId)
              && judge.confidence(Judged(dense, sparse, out[i].chunkId)) >= judge.minimum
    ensures forall k | k in Ids(dense) || k in Ids(sparse) ::
              || HasHit(Fuse(dense, sparse, topK, judge), k)
              || judge.confidence(Judged(dense, sparse, k)) < judge.minimum
              || Outranked(Tally(dense, sparse), k, topK)
  {
    HitsOrdered(dense, sparse, topK, judge);
    var out := Fuse(dense, sparse, topK, judge);
    forall i | 0 <= i < |out|
      ensures out[i].chunkId in Ids(dense) || out[i].chunkId in Ids(sparse)
      ensures out[i].rrf == Contribution(dense, out[i].chunkId) + Contribution(sparse, out[i].chunkId)
      ensures judge.confidence(Judged(dense, sparse, out[i].chunkId)) >= judge.minimum
    {
      HitsSound(dense, sparse, topK, judge, i);
    }
    forall k | k in Ids(dense) || k in Ids(sparse)
      ensures HasHit(out, k) || judge.confidence(Judged(dense, sparse, k)) < judge.minimum || Outranked(Tally(dense, sparse), k, topK)
    {
      HitsComplete(dense, sparse, topK, judge, k);
    }
  }

  // ----- Consensus -----

  predicate InBoth(key: string, dense: seq<Item>, sparse: seq<Item>) {
    key in Ids(dense) && key in Ids(sparse)
  }

  predicate InOne(key: string, dense: seq<Item>, sparse: seq<Item>) {
    (key in Ids(dense)) != (key in Ids(sparse))
  }

  /** A place earns one part in 61 at the head of a list, one in 62 at the next place, and so on. */
  lemma WeightExact(rank: nat)
    ensures Weight(rank) * (60 + rank + 1) as real == 1.0
  {
    assert (60 + rank + 1) as real == (61 + rank) as real;
  }

  lemma WeightOrder(i: nat, j: nat)
    requires i <= j
    ensures Weight(i) >= Weight(j) > 0.0
  {
    var a, b := (61 + i) as real, (61 + j) as real;
    assert 1.0 / a - 1.0 / b == (b - a) / (a * b);
    assert (b - a) / (a * b) >= 0.0;
  }

  lemma ListScore(items: seq<Item>, key: string, last: nat)
    requires Distinct(Ids(items)) && |items| <= last + 1
    ensures key in Ids(items) ==> Weight(last) <= Contribution(items, key) <= Weight(0)
    ensures key !in Ids(items) ==> Contribution(items, key) == 0.0
  {
    if key in Ids(items) {
      var i :| 0 <= i < |items| && Ids(items)[i] == key;
      ContributionAt(items, i);
      WeightOrder(0, i);
      WeightOrder(i, last);
    } else {
      ContributionAbsent(items, key);
    }
  }

  /** With lists of at most 61 entries, being in both lists beats any place in one. */
  lemma ConsensusDominates(dense: seq<Item>, sparse: seq<Item>, both: string, one: string)
    requires Distinct(Ids(dense)) && Distinct(Ids(sparse))
    requires |dense| <= 61 && |sparse| <= 61
    requires InBoth(both, dense, sparse) && InOne(one, dense, sparse)
    ensures ScoreOf(Tally(dense, sparse), both) > ScoreOf(Tally(dense, sparse), one)
  {
    TallyScores(dense, sparse);
    ListScore(dense, both, 60);
    ListScore(sparse, both, 60);
    ListScore(dense, one, 60);
    ListScore(sparse, one, 60);
    assert Weight(60) == 1.0 / 121.0 && Weight(0) == 1.0 / 61.0;
  }

  /** Being in both lists always wins, for lists of up to `cap` entries. */
  ghost predicate ConsensusWins(cap: nat) {
    forall dense, sparse, both, one |
      && Distinct(Ids(dense)) && Distinct(Ids(sparse)) && |dense| <= cap && |sparse| <= cap
      && InBoth(both, dense, sparse) && InOne(one, dense, sparse)
    :: ScoreOf(Tally(dense, sparse), both) > ScoreOf(Tally(dense, sparse), one)
  }

  function Stars(n: nat): string {
    seq(n, i => '*')
  }

  /** `n` entries with ids of `from`, `from + 1`, ... stars. */
  function StarItems(from: nat, n: nat): (items: seq<Item>)
    ensures |items| == n && forall i | 0 <= i < n :: items[i].chunkId == Stars(from + i)
  {
    seq(n, i requires 0 <= i < n => Item(Stars(from + i), map[]))
  }

  lemma StarsDistinct(items: seq<Item>)
    requires forall i, j | 0 <= i < j < |items| :: |items[i].chunkId| != |items[j].chunkId|
    ensures Distinct(Ids(items))
  {
    forall i, j | 0 <= i < j < |items| ensures Ids(items)[i] != Ids(items)[j] {
      assert |items[i].chunkId| != |items[j].chunkId|;
    }
  }

  /** Two lists of 62 entries in which the entry last in both only ties with the entry first in one. */
  lemma ConsensusTies() returns (dense: seq<Item>, sparse: seq<Item>, both: string, one: string)
    ensures Distinct(Ids(dense)) && Distinct(Ids(sparse)) && |dense| == |sparse| == 62
    ensures InBoth(both, dense, sparse) && InOne(one, dense, sparse)
    ensures ScoreOf(Tally(dense, sparse), both) == ScoreOf(Tally(dense, sparse), one)
  {
    dense := StarItems(0, 62);
    sparse := StarItems(62, 61) + [Item(Stars(61), map[])];
    both, one := Stars(61), Stars(0);
    StarsDistinct(dense);
    StarsDistinct(sparse);
    assert Ids(dense)[61] == both && Ids(sparse)[61] == both && Ids(dense)[0] == one;
    forall i | 0 <= i < 62 ensures Ids(sparse)[i] != one {
      assert |Ids(sparse)[i]| >= 61;
    }
    TallyScores(dense, sparse);
    ContributionAt(dense, 61);
    ContributionAt(sparse, 61);
    ContributionAt(dense, 0);
    ContributionAbsent(sparse, one);
    assert Weight(61) == 1.0 / 122.0 && Weight(0) == 1.0 / 61.0;
  }

  /** The bound is exact: consensus always wins for lists of up to `cap` entries exactly when `cap` is at most 61. */
  lemma ConsensusWinsIff(cap: nat)
    ensures ConsensusWins(cap) <==> cap <= 61
  {
    if cap <= 61 {
      forall dense, sparse, both, one |
        && Distinct(Ids(dense)) && Distinct(Ids(sparse)) && |dense| <= cap && |sparse| <= cap
        && InBoth(both, dense, sparse) && InOne(one, dense, sparse)
        ensures ScoreOf(Tally(dense, sparse), both) > ScoreOf(Tally(dense, sparse), one)
      {
        ConsensusDominates(dense, sparse, both, one);
      }
    } else {
      var dense, sparse, both, one := ConsensusTies();
      assert !(ScoreOf(Tally(dense, sparse), both) > ScoreOf(Tally(dense, sparse), one));
    }
  }

  /** `min(max(req.top_k or 5, 1), 10)` */
  function ClampTopK(requested: int): (k: nat)
    ensures 1 <= k <= 10 && (1 <= requested <= 10 ==> k == requested)
    ensures (requested == 0 ==> k == 5) && (requested < 0 ==> k == 1) && (requested > 10 ==> k == 10)
  {
    var k := if requested == 0 then 5 else requested;
    if k < 1 then 1 else if k > 10 then 10 else k
  }

  /** As `query` cuts the lists to `top_k * 2`, every id in both lists is ranked before every id in one. */
  lemma QueryRanksConsensusFirst(requested: int, dense: seq<Item>, sparse: seq<Item>, i: nat, j: nat)
    requires Distinct(Ids(dense)) && Distinct(Ids(sparse))
    requires |dense| <= 2 * ClampTopK(requested) && |sparse| <= 2 * ClampTopK(requested)
    requires var ranked := Ranked(Tally(dense, sparse));
             i < |ranked| && j < |ranked| && InBoth(ranked[i], dense, sparse) && InOne(ranked[j], dense, sparse)
    ensures i < j
  {
    var ranked := Ranked(Tally(dense, sparse));
    TallyByScore(dense, sparse);
    ConsensusDominates(dense, sparse, ranked[i], ranked[j]);
  }
}
