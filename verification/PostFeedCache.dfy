/** app/campusApi/service/internal/data/campus_cache.go: versioned cache keys for lists of posts. */
module PostFeedCache {
  import opened Decimal
  import opened GoStrings
  import opened MarkedText
  import opened Wrappers

  const VISIBLE := 1

  datatype Query = Query(
    category: string, postType: string, sort: string, keyword: string, author: string, collectedBy: string,
    statuses: seq<int>, includeDeleted: bool,
    onlyOfficial: Option<bool>, onlyFeatured: Option<bool>, onlyPinned: Option<bool>, onlyReported: bool,
    offset: int, limit: int)

  /** `shouldCachePostList`, the cache being enabled. */
  predicate ShouldCache(q: Query) {
    if q.includeDeleted || q.keyword != "" || q.author != "" || q.collectedBy != "" || q.onlyReported then false
    else if q.onlyOfficial != None || q.onlyFeatured != None || q.onlyPinned != None then false
    else if |q.statuses| != 1 || q.statuses[0] != VISIBLE then false
    else if q.limit <= 0 || q.offset < 0 then false
    else
      var page := q.offset / q.limit + 1;
      1 <= page <= 3
  }

  /** What `postListCacheKey` digests. */
  function KeyPayload(version: int, q: Query): string {
    "v=" + OfInt(version)
    + "|" + ("category=" + TrimSpace(q.category))
    + "|" + ("post_type=" + TrimSpace(q.postType))
    + "|" + ("sort=" + TrimSpace(q.sort))
    + "|" + ("offset=" + OfInt(q.offset))
    + "|" + ("limit=" + OfInt(q.limit))
  }

  /** The query of the first three pages of visible posts that the six printed values stand for. */
  function Canonical(category: string, postType: string, sort: string, offset: int, limit: int): Query {
    Query(category, postType, sort, "", "", "", [VISIBLE], false, None, None, None, false, offset, limit)
  }

  /** The query with its codes trimmed. */
  function WithTrimmedCodes(q: Query): Query {
    q.(category := TrimSpace(q.category), postType := TrimSpace(q.postType), sort := TrimSpace(q.sort))
  }

  lemma PageBound(offset: nat, limit: nat)
    requires limit > 0
    ensures offset / limit <= 2 <==> offset < 3 * limit
  {
    var d := offset / limit;
    assert offset == d * limit + offset % limit;
    if d <= 2 {
      assert d * limit <= 2 * limit;
    } else {
      assert d * limit >= 3 * limit;
    }
  }

  /** The queries accepted for caching are exactly the canonical ones with 0 <= offset < 3 * limit. */
  lemma ShouldCacheIff(q: Query)
    ensures ShouldCache(q) <==>
              q == Canonical(q.category, q.postType, q.sort, q.offset, q.limit) && 0 <= q.offset < 3 * q.limit
  {
    if q.limit > 0 && q.offset >= 0 {
      PageBound(q.offset, q.limit);
    }
    assert |q.statuses| == 1 && q.statuses[0] == VISIBLE <==> q.statuses == [VISIBLE];
  }

  // ----- What a key tells of the query -----

  /** The marks before the second and the third code. */
  const TYPE_MARK := "|post_type="
  const SORT_MARK := "|sort="

  function CodesOf(q: Query): Codes {
    Codes(TrimSpace(q.category), TrimSpace(q.postType), TrimSpace(q.sort))
  }

  /** The three codes as they stand in a payload, with the marks between them. */
  function CodesText(q: Query): string {
    TextOf(CodesOf(q), TYPE_MARK, SORT_MARK)
  }

  lemma Labelled(front: string, name: string, value: string)
    ensures front + "|" + (name + value) == front + ("|" + name) + value
  {
  }

  lemma Front(front: string, c: string, tm: string, t: string, sm: string, s: string)
    ensures front + c + tm + t + sm + s == front + (c + tm + t + sm + s)
  {
  }

  /** A version, the codes as one text, and a page, as they stand in a payload. */
  function Parts(v: int, codes: string, offset: int, limit: int): string {
    "v=" + OfInt(v) + "|category=" + codes + "|" + ("offset=" + OfInt(offset)) + "|" + ("limit=" + OfInt(limit))
  }

  /** A payload is the version, the codes, the offset and the limit, with a separator before each of the last two. */
  lemma PayloadParts(version: int, q: Query)
    ensures KeyPayload(version, q) == Parts(version, CodesText(q), q.offset, q.limit)
  {
    var p0 := "v=" + OfInt(version);
    var p1 := p0 + "|category=" + TrimSpace(q.category);
    assert "|" + "category=" == "|category=" && "|" + "post_type=" == TYPE_MARK && "|" + "sort=" == SORT_MARK;
    Labelled(p0, "category=", TrimSpace(q.category));
    Labelled(p1, "post_type=", TrimSpace(q.postType));
    Labelled(p1 + TYPE_MARK + TrimSpace(q.postType), "sort=", TrimSpace(q.sort));
    Front(p0 + "|category=", TrimSpace(q.category), TYPE_MARK, TrimSpace(q.postType), SORT_MARK, TrimSpace(q.sort));
  }

  lemma LabelledEqual(name: string, a: string, b: string)
    requires name + a == name + b
    ensures a == b
  {
    assert (name + a)[|name|..] == a && (name + b)[|name|..] == b;
  }

  lemma LabelledFree(name: string, n: int)
    requires Free(name, '|')
    ensures Free(name + OfInt(n), '|')
  {
    PrintedFree(n, '|');
  }

  /** A printed number at the end of a text, after a separator, is determined by the whole. */
  lemma LastNumber(a: string, m: int, b: string, n: int, name: string)
    requires Free(name, '|') && a + "|" + (name + OfInt(m)) == b + "|" + (name + OfInt(n))
    ensures a == b && m == n
  {
    LabelledFree(name, m);
    LabelledFree(name, n);
    LastSeparator(a, name + OfInt(m), b, name + OfInt(n), '|');
    LabelledEqual(name, OfInt(m), OfInt(n));
    OfIntInjective(m, n);
  }

  lemma VersionFirst(v: int, s: string, w: int, t: string)
    requires "v=" + OfInt(v) + "|category=" + s == "v=" + OfInt(w) + "|category=" + t
    ensures v == w && s == t
  {
    LabelledFree("v=", v);
    LabelledFree("v=", w);
    var name := "category=";
    assert "|category=" == "|" + name;
    Labelled("v=" + OfInt(v), name, s);
    Labelled("v=" + OfInt(w), name, t);
    FirstSeparator("v=" + OfInt(v), name + s, "v=" + OfInt(w), name + t, '|');
    LabelledEqual(name, s, t);
    LabelledEqual("v=", OfInt(v), OfInt(w));
    OfIntInjective(v, w);
  }

  lemma PartsEqual(v: int, codes: string, offset: int, limit: int, w: int, codes': string, offset': int, limit': int)
    requires Parts(v, codes, offset, limit) == Parts(w, codes', offset', limit')
    ensures v == w && codes == codes' && offset == offset' && limit == limit'
  {
    var p, p' := "v=" + OfInt(v) + "|category=" + codes, "v=" + OfInt(w) + "|category=" + codes';
    LastNumber(p + "|" + ("offset=" + OfInt(offset)), limit, p' + "|" + ("offset=" + OfInt(offset')), limit', "limit=");
    LastNumber(p, offset, p', offset', "offset=");
    VersionFirst(v, codes, w, codes');
  }

  /** What a key determines, whatever the codes contain: the version, the page, and the codes as one text. */
  lemma KeyEqualIff(v: int, a: Query, w: int, b: Query)
    ensures KeyPayload(v, a) == KeyPayload(w, b)
       <==> v == w && CodesText(a) == CodesText(b) && a.offset == b.offset && a.limit == b.limit
  {
    PayloadParts(v, a);
    PayloadParts(w, b);
    if KeyPayload(v, a) == KeyPayload(w, b) {
      PartsEqual(v, CodesText(a), a.offset, a.limit, w, CodesText(b), b.offset, b.limit);
    }
  }

  // ----- When the codes can be read in two ways -----

  /** The guard: a code holds a mark at which it could be cut in two. */
  ghost predicate Ambiguous(q: Query) {
    Cuttable(CodesOf(q), TYPE_MARK, SORT_MARK)
  }

  lemma MarksAreMarks()
    ensures Marks(TYPE_MARK, SORT_MARK)
  {
    assert TYPE_MARK[1..] == "post_type=" && SORT_MARK[1..] == "sort=";
  }

  lemma CodesAreClean(q: Query)
    ensures AllClean(CodesOf(q))
  {
    TrimmedIsClean(q.category);
    TrimmedIsClean(q.postType);
    TrimmedIsClean(q.sort);
  }

  /** Some other query accepted for caching, spaces around its codes aside, has the same key. */
  ghost predicate Collides(version: int, q: Query) {
    exists w, b :: ShouldCache(b) && WithTrimmedCodes(b) != WithTrimmedCodes(q) && KeyPayload(w, b) == KeyPayload(version, q)
  }

  /**
   Key faithfulness: an accepted query none of whose codes holds a mark to be cut at shares its key with
   exactly the accepted queries that are the same in every field, up to spaces around the codes, at the
   same version.
   */
  lemma KeyFaithful(v: int, a: Query, w: int, b: Query)
    requires ShouldCache(a) && ShouldCache(b) && !Ambiguous(a)
    ensures KeyPayload(v, a) == KeyPayload(w, b) <==> v == w && WithTrimmedCodes(a) == WithTrimmedCodes(b)
  {
    KeyEqualIff(v, a, w, b);
    ShouldCacheIff(a);
    ShouldCacheIff(b);
    if CodesText(a) == CodesText(b) && CodesOf(a) != CodesOf(b) {
      CodesAreClean(a);
      CodesAreClean(b);
      MarksAreMarks();
      OtherReadingSplits(CodesOf(a), CodesOf(b), TYPE_MARK, SORT_MARK);
    }
  }

  /** And that is exactly when a key is faithful: with such a mark in a code, another accepted query has the same key. */
  lemma CollidesIff(version: int, q: Query)
    requires ShouldCache(q)
    ensures Collides(version, q) <==> Ambiguous(q)
  {
    if Ambiguous(q) {
      CodesAreClean(q);
      MarksAreMarks();
      var k := SplitReadsOtherwise(CodesOf(q), TYPE_MARK, SORT_MARK);
      TrimmedIsClean(k.first);
      TrimmedIsClean(k.second);
      TrimmedIsClean(k.third);
      var b := Canonical(k.first, k.second, k.third, q.offset, q.limit);
      ShouldCacheIff(q);
      ShouldCacheIff(b);
      KeyEqualIff(version, b, version, q);
      assert WithTrimmedCodes(b) == b;
      assert KeyPayload(version, b) == KeyPayload(version, q);
    } else if Collides(version, q) {
      var w, b :| ShouldCache(b) && WithTrimmedCodes(b) != WithTrimmedCodes(q) && KeyPayload(w, b) == KeyPayload(version, q);
      KeyFaithful(version, q, w, b);
    }
  }

  /** It does happen: a category that holds the mark of the type, and a type that does. */
  lemma MarksCollide(version: int) returns (a: Query, b: Query)
    ensures a == Canonical(TYPE_MARK, "", "recommend", 0, 20) && b == Canonical("", TYPE_MARK, "recommend", 0, 20)
    ensures ShouldCache(a) && ShouldCache(b) && WithTrimmedCodes(a) != WithTrimmedCodes(b)
    ensures KeyPayload(version, a) == KeyPayload(version, b)
  {
    a := Canonical(TYPE_MARK, "", "recommend", 0, 20);
    b := Canonical("", TYPE_MARK, "recommend", 0, 20);
    ShouldCacheIff(a);
    ShouldCacheIff(b);
    MarksAreMarks();
    TrimmedIsClean(TYPE_MARK);
    TrimmedIsClean("");
    KeyEqualIff(version, a, version, b);
    assert TYPE_MARK + TYPE_MARK + "" == "" + TYPE_MARK + TYPE_MARK;
  }

  // ----- The version counter -----

  /** The Redis counter, 0 while its key does not exist; a call may find the cache disabled or Redis not answering. */
  class FeedVersion {
    var version: nat

    constructor ()
      ensures version == 0
    {
      version := 0;
    }

    /** `bumpPostFeedCacheVersion` */
    method Bump(enabled: bool, answers: bool)
      modifies this
      ensures version == if enabled && answers then old(version) + 1 else old(version)
    {
      if !enabled {
        return;
      }
      if answers {
        version := version + 1;
      }
    }

    /** `postListCacheKey`, up to the digest, with the version `postFeedCacheVersion` reads. */
    method Key(q: Query, enabled: bool, answers: bool) returns (payload: string)
      ensures payload == KeyPayload(if enabled && answers then version else 0, q)
    {
      var read := 0;
      if enabled && answers {
        read := version;
      }
      payload := KeyPayload(read, q);
    }
  }

  // ----- Readers and writers -----

  datatype Post = Post(status: int, deleted: bool, text: string)
  type Posts = map<int, Post>

  /** What is cached of a list: the ids of its posts, and how many posts there are in all. */
  datatype Listing = Listing(ids: seq<int>, total: int)

  /** The two queries a list is read with; they need not see the same posts. */
  datatype Queries = Queries(count: (Posts, Query) -> int, page: (Posts, Query) -> seq<int>)

  predicate Shown(posts: Posts, id: int) {
    id in posts && !posts[id].deleted && posts[id].status == VISIBLE
  }

  /** `ListPostsByIDs` for a cached query: the posts of the list that can be shown now, in the list's order. */
  function Reload(posts: Posts, ids: seq<int>): seq<Post> {
    if ids == [] then []
    else (if Shown(posts, ids[0]) then [posts[ids[0]]] else []) + Reload(posts, ids[1..])
  }

  /**
   A list request computes its key and looks it up, then reloads the posts of the list it found; when
   there is none, or it cannot be read or reloaded, it counts, queries a page, and stores the list. A
   request may be abandoned at any point.
   */
  datatype Pc =
    | Idle
    | Keyed(q: Query, version: nat)
    | Found(q: Query, version: nat, listing: Listing)
    | Missed(q: Query, version: nat)
    | Counted(q: Query, version: nat, total: int)
    | Loaded(q: Query, version: nat, listing: Listing)
    | Wrote

  /** `version` is the Redis counter, 0 while it does not exist; `cache` is keyed by payload. */
  datatype State = State(posts: Posts, version: nat, cache: map<string, Listing>, threads: map<nat, Pc>)

  datatype Action =
    | Begin(thread: nat, q: Query)
    | Hit(thread: nat)
    | Serve(thread: nat)
    | Miss(thread: nat)
    | Count(thread: nat)
    | Load(thread: nat)
    | Store(thread: nat)
    | Abandon(thread: nat)
    | Expire(key: string)
    | Write(thread: nat, posts: Posts)
    | Bump(thread: nat)

  function PcOf(s: State, t: nat): Pc {
    if t in s.threads then s.threads[t] else Idle
  }

  predicate UnderWay(pc: Pc) {
    pc.Keyed? || pc.Found? || pc.Missed? || pc.Counted? || pc.Loaded?
  }

  predicate Enabled(s: State, a: Action) {
    match a
    case Begin(t, q) => PcOf(s, t).Idle? && ShouldCache(q)
    case Hit(t) => PcOf(s, t).Keyed? && KeyPayload(PcOf(s, t).version, PcOf(s, t).q) in s.cache
    case Serve(t) => PcOf(s, t).Found?
    case Miss(t) => PcOf(s, t).Keyed? || PcOf(s, t).Found?
    case Count(t) => PcOf(s, t).Missed?
    case Load(t) => PcOf(s, t).Counted?
    case Store(t) => PcOf(s, t).Loaded?
    case Abandon(t) => UnderWay(PcOf(s, t))
    case Expire(_) => true
    case Write(t, _) => PcOf(s, t).Idle?
    case Bump(t) => PcOf(s, t).Wrote?
  }

  function SetPc(s: State, t: nat, pc: Pc): State {
    s.(threads := s.threads[t := pc])
  }

  function Apply(s: State, a: Action, queries: Queries): State
    requires Enabled(s, a)
  {
    match a
    case Begin(t, q) => SetPc(s, t, Keyed(q, s.version))
    case Hit(t) =>
      var pc := PcOf(s, t);
      SetPc(s, t, Found(pc.q, pc.version, s.cache[KeyPayload(pc.version, pc.q)]))
    case Serve(t) => SetPc(s, t, Idle)
    case Miss(t) => SetPc(s, t, Missed(PcOf(s, t).q, PcOf(s, t).version))
    case Count(t) => SetPc(s, t, Counted(PcOf(s, t).q, PcOf(s, t).version, queries.count(s.posts, PcOf(s, t).q)))
    case Load(t) =>
      var pc := PcOf(s, t);
      SetPc(s, t, Loaded(pc.q, pc.version, Listing(queries.page(s.posts, pc.q), pc.total)))
    case Store(t) =>
      SetPc(s.(cache := s.cache[KeyPayload(PcOf(s, t).version, PcOf(s, t).q) := PcOf(s, t).listing]), t, Idle)
    case Abandon(t) => SetPc(s, t, Idle)
    case Expire(key) => s.(cache := s.cache - {key})
    case Write(t, posts) => SetPc(s.(posts := posts), t, Wrote)
    case Bump(t) => SetPc(s.(version := s.version + 1), t, Idle)
  }

  datatype Run = Run(states: seq<State>, actions: seq<Action>)

  ghost predicate IsStep(r: Run, queries: Queries, i: nat)
    requires i < |r.actions| && i + 1 < |r.states|
  {
    Enabled(r.states[i], r.actions[i]) && r.states[i + 1] == Apply(r.states[i], r.actions[i], queries)
  }

  ghost predicate IsRun(r: Run, queries: Queries) {
    && |r.states| == |r.actions| + 1
    && r.states[0].cache == map[] && r.states[0].threads == map[]
    && forall i | 0 <= i < |r.actions| :: IsStep(r, queries, i)
  }

  lemma {:induction false} VersionGrows(r: Run, queries: Queries, i: nat, j: nat)
    requires IsRun(r, queries) && i <= j < |r.states|
    ensures r.states[i].version <= r.states[j].version
    ensures (exists v | i <= v < j :: r.actions[v].Bump?) ==> r.states[i].version < r.states[j].version
  {
    if i < j {
      VersionGrows(r, queries, i, j - 1);
      assert IsStep(r, queries, j - 1);
      if v :| i <= v < j && r.actions[v].Bump? {
        assert v < j - 1 || r.actions[j - 1].Bump?;
      }
    }
  }

  /** A key computed before a bump never equals one computed after it, whatever the queries. */
  lemma BumpRetiresKeys(r: Run, queries: Queries, i: nat, j: nat, v: nat, a: Query, b: Query)
    requires IsRun(r, queries) && i <= v < j < |r.states| && r.actions[v].Bump?
    ensures KeyPayload(r.states[i].version, a) != KeyPayload(r.states[j].version, b)
  {
    VersionGrows(r, queries, i, j);
    KeyEqualIff(r.states[i].version, a, r.states[j].version, b);
  }

  /** A request under way began at `b`, when the version was the one it carries. */
  ghost predicate BeganAt(r: Run, b: nat, i: nat, t: nat, q: Query, version: nat) {
    && b < i < |r.states| == |r.actions| + 1
    && r.actions[b] == Begin(t, q) && r.states[b].version == version && ShouldCache(q)
  }

  /** A request keeps its query and version from its first step to its last. */
  lemma StepKeepsRequest(r: Run, queries: Queries, i: nat, t: nat)
    requires IsRun(r, queries) && i < |r.actions| && UnderWay(PcOf(r.states[i + 1], t))
    ensures var pc, pc' := PcOf(r.states[i], t), PcOf(r.states[i + 1], t);
            if r.actions[i].Begin? && r.actions[i].thread == t
            then r.actions[i] == Begin(t, pc'.q) && r.states[i].version == pc'.version && ShouldCache(pc'.q)
            else UnderWay(pc) && pc.q == pc'.q && pc.version == pc'.version
  {
    assert IsStep(r, queries, i);
  }

  lemma {:induction false} RequestSource(r: Run, queries: Queries, i: nat, t: nat) returns (b: nat)
    requires IsRun(r, queries) && i < |r.states| && UnderWay(PcOf(r.states[i], t))
    ensures BeganAt(r, b, i, t, PcOf(r.states[i], t).q, PcOf(r.states[i], t).version)
  {
    StepKeepsRequest(r, queries, i - 1, t);
    if r.actions[i - 1].Begin? && r.actions[i - 1].thread == t {
      b := i - 1;
    } else {
      b := RequestSource(r, queries, i - 1, t);
    }
  }

  /** A total was counted at `c`, by a request that began at `b` for `q` with the version `version`. */
  ghost predicate CountedAt(r: Run, queries: Queries, b: nat, c: nat, i: nat, t: nat, q: Query, version: nat, total: int) {
    && c < i < |r.states| && BeganAt(r, b, c, t, q, version)
    && r.actions[c].Count? && total == queries.count(r.states[c].posts, q)
  }

  /** And the page of a listing was read after that, at `j`. */
  ghost predicate LoadedAt(r: Run, queries: Queries, b: nat, c: nat, j: nat, i: nat, t: nat, q: Query, version: nat, listing: Listing) {
    && j < i < |r.states| == |r.actions| + 1
    && CountedAt(r, queries, b, c, j, t, q, version, listing.total)
    && r.actions[j].Load? && listing.ids == queries.page(r.states[j].posts, q)
  }

  lemma StepCounts(r: Run, queries: Queries, i: nat, t: nat)
    requires IsRun(r, queries) && i < |r.actions| && PcOf(r.states[i + 1], t).Counted?
    ensures var s, a, pc := r.states[i], r.actions[i], PcOf(r.states[i + 1], t);
            if a == Count(t) then PcOf(s, t) == Missed(pc.q, pc.version) && pc.total == queries.count(s.posts, pc.q) else PcOf(s, t) == pc
  {
    assert IsStep(r, queries, i);
  }

  lemma {:induction false} CountSource(r: Run, queries: Queries, i: nat, t: nat) returns (b: nat, c: nat)
    requires IsRun(r, queries) && i < |r.states| && PcOf(r.states[i], t).Counted?
    ensures var pc := PcOf(r.states[i], t); CountedAt(r, queries, b, c, i, t, pc.q, pc.version, pc.total)
  {
    StepCounts(r, queries, i - 1, t);
    if r.actions[i - 1] == Count(t) {
      c := i - 1;
      b := RequestSource(r, queries, c, t);
    } else {
      b, c := CountSource(r, queries, i - 1, t);
    }
  }

  lemma StepLoads(r: Run, queries: Queries, i: nat, t: nat)
    requires IsRun(r, queries) && i < |r.actions| && PcOf(r.states[i + 1], t).Loaded?
    ensures var s, a, pc := r.states[i], r.actions[i], PcOf(r.states[i + 1], t);
            if a == Load(t) then PcOf(s, t) == Counted(pc.q, pc.version, pc.listing.total) && pc.listing.ids == queries.page(s.posts, pc.q)
            else PcOf(s, t) == pc
  {
    assert IsStep(r, queries, i);
  }

  lemma {:induction false} LoadSource(r: Run, queries: Queries, i: nat, t: nat) returns (b: nat, c: nat, j: nat)
    requires IsRun(r, queries) && i < |r.states| && PcOf(r.states[i], t).Loaded?
    ensures var pc := PcOf(r.states[i], t); LoadedAt(r, queries, b, c, j, i, t, pc.q, pc.version, pc.listing)
  {
    StepLoads(r, queries, i - 1, t);
    if r.actions[i - 1] == Load(t) {
      j := i - 1;
      b, c := CountSource(r, queries, j, t);
    } else {
      b, c, j := LoadSource(r, queries, i - 1, t);
    }
  }

  /** Where a cached list comes from: a request stored it under its key, or it was there before. */
  ghost predicate StoredBy(s: State, t: nat, key: string, listing: Listing) {
    var pc := PcOf(s, t);
    pc.Loaded? && key == KeyPayload(pc.version, pc.q) && listing == pc.listing
  }

  lemma StepCaches(r: Run, queries: Queries, i: nat, key: string)
    requires IsRun(r, queries) && i < |r.actions| && key in r.states[i + 1].cache
    ensures var s, s' := r.states[i], r.states[i + 1];
            || (key in s.cache && s'.cache[key] == s.cache[key])
            || (r.actions[i].Store? && StoredBy(s, r.actions[i].thread, key, s'.cache[key]))
  {
    assert IsStep(r, queries, i);
  }

  lemma {:induction false} CacheSource(r: Run, queries: Queries, i: nat, key: string)
    returns (b: nat, c: nat, j: nat, t: nat, q: Query, version: nat)
    requires IsRun(r, queries) && i < |r.states| && key in r.states[i].cache
    ensures LoadedAt(r, queries, b, c, j, i, t, q, version, r.states[i].cache[key]) && key == KeyPayload(version, q)
  {
    StepCaches(r, queries, i - 1, key);
    if key in r.states[i - 1].cache && r.states[i].cache[key] == r.states[i - 1].cache[key] {
      b, c, j, t, q, version := CacheSource(r, queries, i - 1, key);
    } else {
      t := r.actions[i - 1].thread;
      b, c, j := LoadSource(r, queries, i - 1, t);
      q, version := PcOf(r.states[i - 1], t).q, PcOf(r.states[i - 1], t).version;
    }
  }

  lemma StepFinds(r: Run, queries: Queries, i: nat, t: nat)
    requires IsRun(r, queries) && i < |r.actions| && PcOf(r.states[i + 1], t).Found?
    ensures var s, a, pc := r.states[i], r.actions[i], PcOf(r.states[i + 1], t);
            if a == Hit(t) then
              && PcOf(s, t) == Keyed(pc.q, pc.version)
              && KeyPayload(pc.version, pc.q) in s.cache && s.cache[KeyPayload(pc.version, pc.q)] == pc.listing
            else PcOf(s, t) == pc
  {
    assert IsStep(r, queries, i);
  }

  /** The lookup that found the list a request is about to serve. */
  lemma {:induction false} FindSource(r: Run, queries: Queries, i: nat, t: nat) returns (h: nat)
    requires IsRun(r, queries) && i < |r.states| && PcOf(r.states[i], t).Found?
    ensures var pc := PcOf(r.states[i], t);
            && h < i && PcOf(r.states[h], t) == Keyed(pc.q, pc.version)
            && KeyPayload(pc.version, pc.q) in r.states[h].cache
            && r.states[h].cache[KeyPayload(pc.version, pc.q)] == pc.listing
  {
    StepFinds(r, queries, i - 1, t);
    if r.actions[i - 1] == Hit(t) {
      h := i - 1;
    } else {
      h := FindSource(r, queries, i - 1, t);
    }
  }

  /** What a served answer rests on: a count and a page read for `read`, by a request that began at `b'`. */
  ghost predicate AnsweredFrom(r: Run, queries: Queries, b': nat, c: nat, j: nat, i: nat, read: Query, listing: Listing) {
    && b' < c < j < i < |r.states|
    && listing.total == queries.count(r.states[c].posts, read)
    && listing.ids == queries.page(r.states[j].posts, read)
  }

  /**
   Freshness, for any number of requests and writers: the list served from the cache to a request that
   began at `b` was counted and read from the database, for a query with the same key, after every bump
   that came before `b`. As a writer bumps after it writes, no write completed before a request begins
   is missing from the list it is served. Unless the request's codes hold a mark to be cut at, the list
   was read for its own query, up to spaces around the codes.
   */
  lemma ServedListIsFresh(r: Run, queries: Queries, i: nat, t: nat)
    returns (b: nat, b': nat, c: nat, j: nat, q: Query, read: Query)
    requires IsRun(r, queries) && i < |r.actions| && r.actions[i] == Serve(t)
    ensures b < i && r.actions[b] == Begin(t, q) && PcOf(r.states[i], t).Found? && PcOf(r.states[i], t).q == q
    ensures AnsweredFrom(r, queries, b', c, j, i, read, PcOf(r.states[i], t).listing)
    ensures ShouldCache(read) && KeyPayload(r.states[b].version, read) == KeyPayload(r.states[b].version, q)
    ensures !Ambiguous(q) ==> WithTrimmedCodes(read) == WithTrimmedCodes(q)
    ensures forall v | 0 <= v < b && r.actions[v].Bump? :: v < c < j
  {
    assert IsStep(r, queries, i);
    var pc := PcOf(r.states[i], t);
    b := RequestSource(r, queries, i, t);
    q := pc.q;
    var h := FindSource(r, queries, i, t);
    var t', version';
    b', c, j, t', read, version' := CacheSource(r, queries, h, KeyPayload(pc.version, q));
    KeyEqualIff(version', read, pc.version, q);
    if !Ambiguous(q) {
      KeyFaithful(pc.version, q, version', read);
    }
    forall v | 0 <= v < b && r.actions[v].Bump? ensures v < c {
      if b' <= v {
        VersionGrows(r, queries, b', b);
        assert false;
      }
    }
  }

  predicate StoresUnder(s: State, a: Action, key: string) {
    a.Store? && PcOf(s, a.thread).Loaded? && KeyPayload(PcOf(s, a.thread).version, PcOf(s, a.thread).q) == key
  }

  /** The list cached under `key` at `i` is the one stored at `q`: nothing was stored under that key since, nor did it expire. */
  ghost predicate StoredAt(r: Run, q: nat, i: nat, key: string) {
    && q < i < |r.states| == |r.actions| + 1 && StoresUnder(r.states[q], r.actions[q], key)
    && forall v | q < v < i :: r.actions[v] != Expire(key) && !StoresUnder(r.states[v], r.actions[v], key)
  }

  lemma StepKeepsKey(r: Run, queries: Queries, i: nat, key: string)
    requires IsRun(r, queries) && i < |r.actions|
    requires r.actions[i] != Expire(key) && !StoresUnder(r.states[i], r.actions[i], key)
    ensures key in r.states[i + 1].cache <==> key in r.states[i].cache
    ensures key in r.states[i].cache ==> r.states[i + 1].cache[key] == r.states[i].cache[key]
  {
    assert IsStep(r, queries, i);
  }

  lemma {:induction false} StoredStays(r: Run, queries: Queries, q: nat, i: nat, key: string)
    requires IsRun(r, queries) && StoredAt(r, q, i, key)
    ensures key in r.states[i].cache && r.states[i].cache[key] == PcOf(r.states[q], r.actions[q].thread).listing
  {
    if q == i - 1 {
      assert IsStep(r, queries, q);
    } else {
      StoredStays(r, queries, q, i - 1, key);
      StepKeepsKey(r, queries, i - 1, key);
    }
  }

  lemma {:induction false} CachedWasStored(r: Run, queries: Queries, i: nat, key: string) returns (q: nat)
    requires IsRun(r, queries) && i < |r.states| && key in r.states[i].cache
    ensures StoredAt(r, q, i, key)
  {
    assert IsStep(r, queries, i - 1);
    if StoresUnder(r.states[i - 1], r.actions[i - 1], key) {
      q := i - 1;
    } else {
      q := CachedWasStored(r, queries, i - 1, key);
    }
  }

  /**
   When a request finds a list, for any interleaving: exactly if a request stored one under its key that
   has not expired, and it then finds the list stored last.
   */
  lemma FindsIff(r: Run, queries: Queries, i: nat, t: nat)
    requires IsRun(r, queries) && i < |r.states| && PcOf(r.states[i], t).Keyed?
    ensures var key := KeyPayload(PcOf(r.states[i], t).version, PcOf(r.states[i], t).q);
            && (Enabled(r.states[i], Hit(t)) <==> exists q: nat :: StoredAt(r, q, i, key))
            && forall q: nat | StoredAt(r, q, i, key) ::
                 Enabled(r.states[i], Hit(t))
                 && PcOf(Apply(r.states[i], Hit(t), queries), t).listing == PcOf(r.states[q], r.actions[q].thread).listing
  {
    var key := KeyPayload(PcOf(r.states[i], t).version, PcOf(r.states[i], t).q);
    forall q: nat | StoredAt(r, q, i, key)
      ensures key in r.states[i].cache && r.states[i].cache[key] == PcOf(r.states[q], r.actions[q].thread).listing
    {
      StoredStays(r, queries, q, i, key);
    }
    if key in r.states[i].cache {
      var q := CachedWasStored(r, queries, i, key);
    }
  }

  ghost predicate Holds(ids: seq<int>, posts: Posts, row: Post) {
    exists k | 0 <= k < |ids| :: Shown(posts, ids[k]) && posts[ids[k]] == row
  }

  /** However old the list, the posts served are as they are when served, and none is deleted or hidden by then. */
  lemma {:induction false} ReloadedAreShown(posts: Posts, ids: seq<int>)
    ensures forall row :: row in Reload(posts, ids) <==> Holds(ids, posts, row)
  {
    if ids != [] {
      ReloadedAreShown(posts, ids[1..]);
      forall row ensures row in Reload(posts, ids) <==> Holds(ids, posts, row) {
        if Holds(ids[1..], posts, row) {
          var k :| 0 <= k < |ids| - 1 && Shown(posts, ids[1..][k]) && posts[ids[1..][k]] == row;
          assert Shown(posts, ids[k + 1]) && posts[ids[k + 1]] == row;
        }
        if Holds(ids, posts, row) {
          var k :| 0 <= k < |ids| && Shown(posts, ids[k]) && posts[ids[k]] == row;
          assert k > 0 ==> ids[1..][k - 1] == ids[k];
        }
      }
    }
  }

  /** And they come in the list's order: serving a list is serving its parts one after the other. */
  lemma {:induction false} ReloadInOrder(posts: Posts, a: seq<int>, id: int, b: seq<int>)
    ensures Reload(posts, a + [id] + b)
         == Reload(posts, a) + (if id in posts && !posts[id].deleted && posts[id].status == VISIBLE then [posts[id]] else []) + Reload(posts, b)
  {
    var all := a + [id] + b;
    if a == [] {
      assert all[0] == id && all[1..] == b;
    } else {
      assert all[0] == a[0] && all[1..] == a[1..] + [id] + b;
      ReloadInOrder(posts, a[1..], id, b);
    }
  }
}
