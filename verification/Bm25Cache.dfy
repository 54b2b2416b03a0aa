/** campus-rag/main.py, `cached_bm25_index` and `invalidate_bm25_cache`: a cache of the scrolled store, shared by threads. */
module Bm25Cache {
  import opened Wrappers

  /** The active points of the vector store, by point id. */
  type Docs = map<string, string>

  /** The dictionary `bm25_cache`; `indexed` says its `bm25` is not None. */
  datatype Entry = Entry(version: int, builtAt: real, points: Docs, indexed: bool)

  const CLEARED := Entry(-1, 0.0, map[], false)

  /** The module variables guarded by `bm25_cache_lock`. */
  datatype Shared = Shared(version: int, entry: Entry)

  function Invalidated(c: Shared): Shared {
    Shared(c.version + 1, CLEARED)
  }

  /** The first critical section: what a request that read `now` is served from the cache, if anything. */
  function Lookup(c: Shared, now: real, ttl: real): Option<Docs> {
    if c.entry.indexed && c.entry.version == c.version && now - c.entry.builtAt <= ttl then Some(c.entry.points) else None
  }

  /** The second critical section. The version stored is the one read here, not one read before the scroll. */
  function Published(c: Shared, now: real, points: Docs, indexable: Docs -> bool): Shared {
    c.(entry := Entry(c.version, now, points, points != map[] && indexable(points)))
  }

  /** The critical sections, on the module variables themselves. */
  class Cache {
    var version: int
    var entryVersion: int
    var builtAt: real
    var points: Docs
    var indexed: bool

    ghost function State(): Shared
      reads this
    {
      Shared(version, Entry(entryVersion, builtAt, points, indexed))
    }

    constructor ()
      ensures State() == Shared(0, CLEARED)
    {
      version, entryVersion, builtAt, points, indexed := 0, -1, 0.0, map[], false;
    }

    method Invalidate()
      modifies this
      ensures State() == Invalidated(old(State()))
    {
      version := version + 1;
      entryVersion, builtAt, points, indexed := -1, 0.0, map[], false;
    }

    method TryServe(now: real, ttl: real) returns (served: Option<Docs>)
      ensures served == Lookup(State(), now, ttl)
    {
      if indexed && entryVersion == version && now - builtAt <= ttl {
        return Some(points);
      }
      return None;
    }

    method Publish(now: real, scrolled: Docs, indexable: Docs -> bool)
      modifies this
      ensures State() == Published(old(State()), now, scrolled, indexable)
    {
      entryVersion, builtAt, points := version, now, scrolled;
      indexed := scrolled != map[] && indexable(scrolled);
    }

    /** `cached_bm25_index` run by a thread alone: a hit leaves the cache as it is, a miss rebuilds it from the store. */
    method Get(now: real, ttl: real, store: Docs, indexable: Docs -> bool) returns (served: Docs)
      modifies this
      ensures match Lookup(old(State()), now, ttl)
              case Some(points) => served == points && State() == old(State())
              case None => served == store && State() == Published(old(State()), now, store, indexable)
    {
      var hit := TryServe(now, ttl);
      if hit.Some? {
        return hit.value;
      }
      served := store;
      Publish(now, served, indexable);
    }
  }

  // ----- Any number of threads -----

  /**
   Where a thread is. A request reads the clock, then takes the lock, misses, scrolls the store, and
   takes the lock again to publish; a writer changes the store, then takes the lock to invalidate. A
   request may fail before it publishes.
   */
  datatype Pc = Idle | Asked(now: real) | Missed(now: real) | Built(now: real, points: Docs) | Wrote

  datatype State = State(clock: real, store: Docs, shared: Shared, threads: map<nat, Pc>)

  datatype Action =
    | Tick(time: real)
    | External(store: Docs)            // a change by another process, which invalidates nothing here
    | Ask(thread: nat)
    | Hit(thread: nat)
    | Miss(thread: nat)
    | Scroll(thread: nat)
    | Publish(thread: nat)
    | Fail(thread: nat)
    | Write(thread: nat, store: Docs)  // the upsert or delete of an index or delete request
    | Invalidate(thread: nat)

  /** TTL and the test whether any point has tokens. */
  datatype Params = Params(ttl: real, indexable: Docs -> bool)

  function PcOf(s: State, t: nat): Pc {
    if t in s.threads then s.threads[t] else Idle
  }

  predicate Enabled(p: Params, s: State, a: Action) {
    match a
    case Tick(time) => time >= s.clock
    case External(_) => true
    case Ask(t) => PcOf(s, t).Idle?
    case Hit(t) => PcOf(s, t).Asked? && Lookup(s.shared, PcOf(s, t).now, p.ttl).Some?
    case Miss(t) => PcOf(s, t).Asked? && Lookup(s.shared, PcOf(s, t).now, p.ttl).None?
    case Scroll(t) => PcOf(s, t).Missed?
    case Publish(t) => PcOf(s, t).Built?
    case Fail(t) => PcOf(s, t).Asked? || PcOf(s, t).Missed? || PcOf(s, t).Built?
    case Write(t, _) => PcOf(s, t).Idle?
    case Invalidate(t) => PcOf(s, t).Wrote?
  }

  function Apply(p: Params, s: State, a: Action): State
    requires Enabled(p, s, a)
  {
    match a
    case Tick(time) => s.(clock := time)
    case External(store) => s.(store := store)
    case Ask(t) => s.(threads := s.threads[t := Asked(s.clock)])
    case Hit(t) => s.(threads := s.threads[t := Idle])
    case Miss(t) => s.(threads := s.threads[t := Missed(PcOf(s, t).now)])
    case Scroll(t) => s.(threads := s.threads[t := Built(PcOf(s, t).now, s.store)])
    case Publish(t) =>
      s.(shared := Published(s.shared, PcOf(s, t).now, PcOf(s, t).points, p.indexable), threads := s.threads[t := Idle])
    case Fail(t) => s.(threads := s.threads[t := Idle])
    case Write(t, store) => s.(store := store, threads := s.threads[t := Wrote])
    case Invalidate(t) => s.(shared := Invalidated(s.shared), threads := s.threads[t := Idle])
  }

  predicate Initial(s: State) {
    s.shared == Shared(0, CLEARED) && s.threads == map[]
  }

  /** A run: its states, and the action taken in each but the last. */
  datatype Run = Run(states: seq<State>, actions: seq<Action>)

  ghost predicate IsRun(p: Params, r: Run) {
    && |r.states| == |r.actions| + 1
    && Initial(r.states[0])
    && forall i | 0 <= i < |r.actions| :: Enabled(p, r.states[i], r.actions[i]) && r.states[i + 1] == Apply(p, r.states[i], r.actions[i])
  }

  lemma {:induction false} ClockMonotone(p: Params, r: Run, i: nat, j: nat)
    requires IsRun(p, r) && i <= j < |r.states|
    ensures r.states[i].clock <= r.states[j].clock
  {
    if i < j {
      ClockMonotone(p, r, i, j - 1);
      assert Enabled(p, r.states[j - 1], r.actions[j - 1]);
    }
  }

  /** Every clock reading a thread holds was taken in the past. */
  lemma {:induction false} ReadingsPast(p: Params, r: Run, i: nat, t: nat)
    requires IsRun(p, r) && i < |r.states|
    ensures var pc := PcOf(r.states[i], t);
            (pc.Asked? || pc.Missed? || pc.Built?) ==> pc.now <= r.states[i].clock
  {
    if i > 0 {
      ReadingsPast(p, r, i - 1, t);
      ClockMonotone(p, r, i - 1, i);
    }
  }

  /** A thread holding scrolled points scrolled them itself, after it read the clock, and has held them since. */
  ghost predicate ScrolledBy(r: Run, j: nat, i: nat, t: nat, now: real, points: Docs) {
    && j < i < |r.states| == |r.actions| + 1
    && r.actions[j] == Scroll(t) && r.states[j].store == points && now <= r.states[j].clock
    && forall v | j < v <= i :: PcOf(r.states[v], t) == Built(now, points)
  }

  lemma {:induction false} BuildSource(p: Params, r: Run, i: nat, t: nat) returns (j: nat)
    requires IsRun(p, r) && i < |r.states| && PcOf(r.states[i], t).Built?
    ensures ScrolledBy(r, j, i, t, PcOf(r.states[i], t).now, PcOf(r.states[i], t).points)
  {
    assert Enabled(p, r.states[i - 1], r.actions[i - 1]) && r.states[i] == Apply(p, r.states[i - 1], r.actions[i - 1]);
    if r.actions[i - 1] == Scroll(t) {
      j := i - 1;
      ReadingsPast(p, r, j, t);
    } else {
      j := BuildSource(p, r, i - 1, t);
    }
  }

  /**
   Where the cached index at state `i` comes from: thread `t` scrolled it at `j`, published it at `q`,
   and nothing has been published or invalidated since.
   */
  ghost predicate CachedFrom(r: Run, j: nat, q: nat, t: nat, i: nat) {
    && q < i < |r.states| == |r.actions| + 1
    && ScrolledBy(r, j, q, t, r.states[i].shared.entry.builtAt, r.states[i].shared.entry.points)
    && r.actions[q] == Publish(t)
    && forall v | q < v < i :: !r.actions[v].Publish? && !r.actions[v].Invalidate?
  }

  lemma {:induction false} EntrySource(p: Params, r: Run, i: nat) returns (j: nat, q: nat, t: nat)
    requires IsRun(p, r) && i < |r.states| && r.states[i].shared.entry.indexed
    ensures CachedFrom(r, j, q, t, i)
  {
    assert Enabled(p, r.states[i - 1], r.actions[i - 1]) && r.states[i] == Apply(p, r.states[i - 1], r.actions[i - 1]);
    if r.actions[i - 1].Publish? {
      q, t := i - 1, r.actions[i - 1].thread;
      j := BuildSource(p, r, q, t);
    } else {
      j, q, t := EntrySource(p, r, i - 1);
    }
  }

  /**
   Bounded staleness, for any number of threads and any interleaving: what a request that read the
   clock at `now` is served was scrolled from the store at an instant no earlier than `now - ttl` and
   no later than the moment it is served.
   */
  lemma BoundedStaleness(p: Params, r: Run, i: nat, t: nat) returns (j: nat)
    requires IsRun(p, r) && i < |r.actions| && r.actions[i] == Hit(t)
    ensures PcOf(r.states[i], t).Asked? && Lookup(r.states[i].shared, PcOf(r.states[i], t).now, p.ttl).Some?
    ensures j < i && r.actions[j].Scroll?
    ensures Lookup(r.states[i].shared, PcOf(r.states[i], t).now, p.ttl) == Some(r.states[j].store)
    ensures PcOf(r.states[i], t).now - p.ttl <= r.states[j].clock <= r.states[i].clock
  {
    assert Enabled(p, r.states[i], r.actions[i]);
    var q, b;
    j, q, b := EntrySource(p, r, i);
    ClockMonotone(p, r, j, i);
  }

  /**
   A local index or delete changed the store after `from` and was completed, by its invalidation,
   before `to`.
   */
  ghost predicate MissedWrite(r: Run, from: nat, to: nat) {
    exists a, v | from < a < v < to && v < |r.actions| ::
      r.actions[a].Write? && r.actions[v] == Invalidate(r.actions[a].thread)
  }

  /**
   The exact condition for a lost write. What a hit serves was scrolled at `j` and published at `q`; it
   misses a local write completed before the hit if and only if that write came after the scroll and
   its invalidation before the publish of the very build that made the index.
   */
  lemma ServedFreshIff(p: Params, r: Run, i: nat, t: nat) returns (j: nat, q: nat, b: nat)
    requires IsRun(p, r) && i < |r.actions| && r.actions[i] == Hit(t)
    ensures j < q < i && r.actions[j] == Scroll(b) && r.actions[q] == Publish(b)
    ensures Lookup(r.states[i].shared, PcOf(r.states[i], t).now, p.ttl) == Some(r.states[j].store)
    ensures MissedWrite(r, j, i) <==> MissedWrite(r, j, q)
  {
    assert Enabled(p, r.states[i], r.actions[i]);
    j, q, b := EntrySource(p, r, i);
    if MissedWrite(r, j, i) {
      var a, v :| j < a < v < i && r.actions[a].Write? && r.actions[v] == Invalidate(r.actions[a].thread);
      assert v <= q && v != q;
    }
  }

  /** In every reachable state an index in the cache carries the current version: the version test never fails alone. */
  lemma {:induction false} VersionAlwaysCurrent(p: Params, r: Run, i: nat)
    requires IsRun(p, r) && i < |r.states|
    ensures r.states[i].shared.entry.indexed ==> r.states[i].shared.entry.version == r.states[i].shared.version
  {
    if i > 0 {
      VersionAlwaysCurrent(p, r, i - 1);
      assert Enabled(p, r.states[i - 1], r.actions[i - 1]);
    }
  }

  // ----- When the cache serves -----

  /**
   A build published at `q` that a request with the clock reading `now` may be given at state `i`: it
   has points to index, it began within the TTL, and nothing was published or invalidated since.
   */
  ghost predicate Serves(p: Params, r: Run, q: nat, i: nat, now: real) {
    && q < i < |r.states| == |r.actions| + 1 && r.actions[q].Publish?
    && (var build := PcOf(r.states[q], r.actions[q].thread);
        && build.Built? && build.points != map[] && p.indexable(build.points)
        && now - build.now <= p.ttl)
    && forall v | q < v < i :: !r.actions[v].Publish? && !r.actions[v].Invalidate?
  }

  lemma {:induction false} SharedKept(p: Params, r: Run, a: nat, b: nat)
    requires IsRun(p, r) && a <= b < |r.states|
    requires forall v | a <= v < b :: !r.actions[v].Publish? && !r.actions[v].Invalidate?
    ensures r.states[a].shared == r.states[b].shared
  {
    if a < b {
      SharedKept(p, r, a, b - 1);
      assert Enabled(p, r.states[b - 1], r.actions[b - 1]) && r.states[b] == Apply(p, r.states[b - 1], r.actions[b - 1]);
    }
  }

  /** What is cached after a publish, until the next publish or invalidation. */
  lemma PublishedStays(p: Params, r: Run, q: nat, i: nat)
    requires IsRun(p, r) && q < i < |r.states| && r.actions[q].Publish?
    requires forall v | q < v < i :: !r.actions[v].Publish? && !r.actions[v].Invalidate?
    ensures var build := PcOf(r.states[q], r.actions[q].thread);
            && build.Built?
            && r.states[i].shared == Published(r.states[q].shared, build.now, build.points, p.indexable)
  {
    assert Enabled(p, r.states[q], r.actions[q]) && r.states[q + 1] == Apply(p, r.states[q], r.actions[q]);
    SharedKept(p, r, q + 1, i);
  }

  lemma ServesGivesHit(p: Params, r: Run, q: nat, i: nat, now: real)
    requires IsRun(p, r) && i < |r.states| && Serves(p, r, q, i, now)
    ensures Lookup(r.states[i].shared, now, p.ttl) == Some(PcOf(r.states[q], r.actions[q].thread).points)
  {
    PublishedStays(p, r, q, i);
  }

  lemma HitGivesServes(p: Params, r: Run, i: nat, now: real) returns (q: nat)
    requires IsRun(p, r) && i < |r.states| && Lookup(r.states[i].shared, now, p.ttl).Some?
    ensures Serves(p, r, q, i, now)
  {
    var j, t;
    j, q, t := EntrySource(p, r, i);
    PublishedStays(p, r, q, i);
  }

  /**
   When a request is served from the cache, for any number of threads and any interleaving: exactly if
   a build that serves it has been published, and then with the points of that build. Otherwise it
   scrolls the store.
   */
  lemma ServedIff(p: Params, r: Run, i: nat, t: nat)
    requires IsRun(p, r) && i < |r.states| && PcOf(r.states[i], t).Asked?
    ensures var now := PcOf(r.states[i], t).now;
            && (Enabled(p, r.states[i], Hit(t)) <==> exists q: nat :: Serves(p, r, q, i, now))
            && (Enabled(p, r.states[i], Miss(t)) <==> !exists q: nat :: Serves(p, r, q, i, now))
            && forall q: nat | Serves(p, r, q, i, now) ::
                 Lookup(r.states[i].shared, now, p.ttl) == Some(PcOf(r.states[q], r.actions[q].thread).points)
  {
    var now := PcOf(r.states[i], t).now;
    forall q: nat | Serves(p, r, q, i, now)
      ensures Lookup(r.states[i].shared, now, p.ttl) == Some(PcOf(r.states[q], r.actions[q].thread).points)
    {
      ServesGivesHit(p, r, q, i, now);
    }
    if Lookup(r.states[i].shared, now, p.ttl).Some? {
      var q := HitGivesServes(p, r, i, now);
    }
  }

  // ----- The invalidation that is lost -----

  lemma Extend(p: Params, r: Run, a: Action) returns (r': Run)
    requires IsRun(p, r) && Enabled(p, r.states[|r.actions|], a)
    ensures IsRun(p, r') && r'.actions == r.actions + [a]
    ensures r'.states == r.states + [Apply(p, r.states[|r.actions|], a)]
  {
    r' := Run(r.states + [Apply(p, r.states[|r.actions|], a)], r.actions + [a]);
  }

  /** Thread 0 misses and scrolls the only document. */
  lemma ScrolledBuild(p: Params) returns (r: Run)
    ensures IsRun(p, r) && r.actions == [Ask(0), Miss(0), Scroll(0)]
    ensures r.states[3] == State(0.0, map["p" := "old"], Shared(0, CLEARED), map[0 := Built(0.0, map["p" := "old"])])
  {
    r := Run([State(0.0, map["p" := "old"], Shared(0, CLEARED), map[])], []);
    r := Extend(p, r, Ask(0));
    r := Extend(p, r, Miss(0));
    r := Extend(p, r, Scroll(0));
  }

  /** Thread 1 replaces the document and invalidates before thread 0 publishes. */
  lemma LosingBuild(p: Params) returns (r: Run)
    requires p.indexable(map["p" := "old"])
    ensures IsRun(p, r) && |r.actions| == 6
    ensures r.actions[3] == Write(1, map["p" := "new"]) && r.actions[4] == Invalidate(1)
    ensures r.states[4].store == map["p" := "new"]
    ensures var s := r.states[6];
            && s.clock == 0.0 && s.store == map["p" := "new"] && PcOf(s, 2) == Idle
            && s.shared == Shared(1, Entry(1, 0.0, map["p" := "old"], true))
  {
    r := ScrolledBuild(p);
    r := Extend(p, r, Write(1, map["p" := "new"]));
    r := Extend(p, r, Invalidate(1));
    assert "p" in map["p" := "old"];
    r := Extend(p, r, Publish(0));
  }

  /**
   A completed write can go unseen: the request at the end starts after the write has invalidated the
   cache, and is still served the document as it was before.
   */
  lemma InvalidationCanBeLost(p: Params) returns (r: Run)
    requires p.ttl >= 0.0 && p.indexable(map["p" := "old"])
    ensures IsRun(p, r) && |r.actions| == 8
    ensures r.actions[3] == Write(1, map["p" := "new"]) && r.actions[4] == Invalidate(1)
    ensures r.actions[6] == Ask(2) && r.actions[7] == Hit(2)
    ensures r.states[4].store == map["p" := "new"] == r.states[7].store
    ensures Lookup(r.states[7].shared, PcOf(r.states[7], 2).now, p.ttl) == Some(map["p" := "old"])
  {
    r := LosingBuild(p);
    r := Extend(p, r, Ask(2));
    r := Extend(p, r, Hit(2));
  }
}
