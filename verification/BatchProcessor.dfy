/** app/campusApi/service/internal/biz/campus_batch_processor.go: a batcher shared by request goroutines and a timer. */
module BatchProcessor {
  import opened Sequences
  import opened Wrappers

  /** What the mutex guards. */
  datatype Guarded<T> = Guarded(items: seq<T>, armed: bool, stopped: bool)

  /** A critical section's new state, and the batch it leaves with for the processor, if any. */
  datatype Effect<T> = Effect(state: Guarded<T>, batch: Option<seq<T>>)

  function Take<T>(g: Guarded<T>): Effect<T> {
    Effect(g.(items := [], armed := false), if g.items == [] then None else Some(g.items))
  }

  function AddItem<T>(g: Guarded<T>, item: T, size: nat): Effect<T> {
    if g.stopped then Effect(g, Some([item]))
    else
      var grown := g.(items := g.items + [item], armed := g.armed || g.items == []);
      if |grown.items| >= size then Take(grown) else Effect(grown, None)
  }

  function StopAll<T>(g: Guarded<T>): Effect<T> {
    Take(g.(stopped := true))
  }

  /** Without a processor `Add` does nothing at all. */
  function AddIfLive<T>(g: Guarded<T>, item: T, size: nat, live: bool): Effect<T> {
    if live then AddItem(g, item, size) else Effect(g, None)
  }

  /**
   The batcher's memory. A Go slice of capacity `size` is an array and a count: `append` writes into
   the array in place, and taking a batch gives the array away and makes a new one.
   */
  class CampusBatchProcessor<T(0)> {
    const size: nat
    const live: bool  // whether a processor was given
    var buffer: array<T>
    var count: nat
    var armed: bool
    var stopped: bool
    var calls: seq<seq<T>>  // the batches the processor has been called with
    ghost var handed: set<array<T>>  // every array given away so far

    ghost predicate Valid()
      reads this
    {
      && size > 0 && buffer.Length == size && count < size
      && (stopped || !live ==> count == 0)
      && buffer !in handed
    }

    ghost function State(): Guarded<T>
      reads this, buffer
      requires Valid()
    {
      Guarded(buffer[..count], armed, stopped)
    }

    constructor (requested: int, live: bool)
      ensures Valid() && fresh(buffer) && State() == Guarded([], false, false)
      ensures this.live == live && size == if requested <= 0 then 100 else requested
      ensures calls == [] && handed == {}
    {
      size := if requested <= 0 then 100 else requested;
      this.live := live;
      buffer := new T[if requested <= 0 then 100 else requested];
      count, armed, stopped, calls, handed := 0, false, false, [], {};
    }

    /** What a critical section promises: its effect on the state, the batch it leaves with, and the arrays it spares. */
    twostate predicate Did(effect: Effect<T>, new batch: array?<T>, n: nat)
      reads this, buffer, handed, batch
    {
      && Valid() && State() == effect.state && calls == old(calls)
      && handed == old(handed) + (if batch == null then {} else {batch})
      && (batch == null ==> effect.batch == None && n == 0)
      && (batch != null ==> n <= batch.Length && effect.batch == Some(batch[..n]))
      && (buffer == old(buffer) || fresh(buffer))
      && forall a | a in old(handed) :: a[..] == old(a[..])
    }

    /** `takeLocked` */
    method TakeLocked() returns (batch: array?<T>, n: nat)
      requires size > 0 && buffer.Length == size && count <= size && buffer !in handed && (!live ==> count == 0)
      modifies this
      ensures Did(Take(old(Guarded(buffer[..count], armed, stopped))), batch, n)
    {
      armed := false;
      if count == 0 {
        return null, 0;
      }
      batch, n := buffer, count;
      handed := handed + {buffer};
      buffer := new T[size];
      count := 0;
    }

    /** The critical section of `Add`. */
    method AddLocked(item: T) returns (batch: array?<T>, n: nat)
      requires Valid()
      modifies this, buffer
      ensures Did(AddIfLive(old(State()), item, size, live), batch, n)
    {
      batch, n := null, 0;
      if !live {
        return;
      }
      if stopped {
        batch := new T[1](i => item);
        assert batch[..1] == [item];
        n := 1;
        handed := handed + {batch};
        return;
      }
      ghost var before := buffer[..count];
      buffer[count] := item;
      count := count + 1;
      assert buffer[..count] == before + [item];
      var shouldFlush := count >= size;
      if count == 1 {
        armed := true;
      }
      if !shouldFlush {
        return;
      }
      batch, n := TakeLocked();
    }

    /** The critical section of `Flush`. */
    method FlushLocked() returns (batch: array?<T>, n: nat)
      requires Valid()
      modifies this
      ensures Did(Take(old(State())), batch, n)
    {
      batch, n := TakeLocked();
    }

    /** The critical section of `Stop`. */
    method StopLocked() returns (batch: array?<T>, n: nat)
      requires Valid()
      modifies this
      ensures Did(StopAll(old(State())), batch, n)
    {
      stopped := true;
      armed := false;
      batch, n := TakeLocked();
    }

    /** The call made outside the lock; `fails` is the processor's answer. */
    method Process(batch: array?<T>, n: nat, fails: bool) returns (failed: bool)
      requires batch != null ==> n <= batch.Length
      modifies this`calls
      ensures calls == if batch == null then old(calls) else old(calls) + [batch[..n]]
      ensures failed == (batch != null && fails)
    {
      if batch == null {
        return false;
      }
      calls := calls + [batch[..n]];
      return fails;
    }

    /** What a whole operation by a lone thread does: its critical section, then the call for the batch it left with. */
    twostate predicate Ran(effect: Effect<T>, fails: bool, failed: bool)
      reads this, buffer
    {
      && Valid() && State() == effect.state
      && calls == old(calls) + (if effect.batch.None? then [] else [effect.batch.value])
      && failed == (effect.batch.Some? && fails)
    }

    method Add(item: T, fails: bool) returns (failed: bool)
      requires Valid()
      modifies this, buffer
      ensures Ran(AddIfLive(old(State()), item, size, live), fails, failed)
    {
      var batch, n := AddLocked(item);
      failed := Process(batch, n, fails);
    }

    /** `Flush`, and what `flushOnTimer` does. */
    method Flush(fails: bool) returns (failed: bool)
      requires Valid()
      modifies this
      ensures Ran(Take(old(State())), fails, failed)
    {
      var batch, n := FlushLocked();
      failed := Process(batch, n, fails);
    }

    method Stop(fails: bool) returns (failed: bool)
      requires Valid()
      modifies this
      ensures Ran(StopAll(old(State())), fails, failed)
    {
      var batch, n := StopLocked();
      failed := Process(batch, n, fails);
    }
  }

  // ----- Every interleaving of Add, Flush, Stop and the timer -----

  /**
   The batcher among its callers. `fired` counts timer callbacks started but not yet at the lock;
   `batches` are the batches handed out, in lock order; `pending` are those whose caller has left the
   lock but not yet called the processor, and `calls` lists the calls made. `added` records the items
   given to `Add`, in lock order.
   */
  datatype Machine<T> = Machine(
    guarded: Guarded<T>, fired: nat, batches: seq<seq<T>>, pending: set<nat>, calls: seq<nat>, added: seq<T>)

  datatype Action<T> = Add(item: T) | Flush | Stop | TimerFire | TimerFlush | Process(batch: nat)

  function Start<T>(): Machine<T> {
    Machine(Guarded([], false, false), 0, [], {}, [], [])
  }

  function Leave<T>(m: Machine<T>, e: Effect<T>): Machine<T> {
    match e.batch
    case None => m.(guarded := e.state)
    case Some(batch) => m.(guarded := e.state, batches := m.batches + [batch], pending := m.pending + {|m.batches|})
  }

  predicate Enabled<T>(m: Machine<T>, a: Action<T>) {
    match a
    case TimerFire => m.guarded.armed
    case TimerFlush => m.fired > 0
    case Process(k) => k in m.pending
    case _ => true
  }

  function Apply<T>(m: Machine<T>, a: Action<T>, size: nat): Machine<T>
    requires Enabled(m, a)
  {
    match a
    case Add(item) => Leave(m, AddItem(m.guarded, item, size)).(added := m.added + [item])
    case Flush => Leave(m, Take(m.guarded))
    case Stop => Leave(m, StopAll(m.guarded))
    case TimerFire => m.(guarded := m.guarded.(armed := false), fired := m.fired + 1)
    case TimerFlush => Leave(m, Take(m.guarded)).(fired := m.fired - 1)
    case Process(k) => m.(pending := m.pending - {k}, calls := m.calls + [k])
  }

  predicate CanRun<T>(m: Machine<T>, actions: seq<Action<T>>, size: nat)
    decreases |actions|
  {
    actions == [] || (Enabled(m, actions[0]) && CanRun(Apply(m, actions[0], size), actions[1..], size))
  }

  function RunAll<T>(m: Machine<T>, actions: seq<Action<T>>, size: nat): Machine<T>
    requires CanRun(m, actions, size)
    decreases |actions|
  {
    if actions == [] then m else RunAll(Apply(m, actions[0], size), actions[1..], size)
  }

  /** Each batch handed out awaits its call or has had it, never both, and no call is made twice. */
  ghost predicate CalledOnce<T>(m: Machine<T>) {
    && (forall k :: k in m.pending || k in m.calls <==> 0 <= k < |m.batches|)
    && (forall k :: k in m.pending ==> k !in m.calls)
    && (forall i, j | 0 <= i < j < |m.calls| :: m.calls[i] != m.calls[j])
  }

  /** The batches handed out, in lock order, and then the buffer, are the items added. */
  ghost predicate Conserved<T>(m: Machine<T>) {
    Flatten(m.batches) + m.guarded.items == m.added
  }

  ghost predicate Sized<T>(batches: seq<seq<T>>, size: nat) {
    forall k | 0 <= k < |batches| :: 1 <= |batches[k]| <= size
  }

  ghost predicate Watched<T>(g: Guarded<T>, fired: nat, size: nat) {
    && |g.items| < size
    && (g.items != [] ==> g.armed || fired > 0)
    && (g.stopped ==> g.items == [] && !g.armed)
  }

  ghost predicate Inv<T>(m: Machine<T>, size: nat) {
    Conserved(m) && Sized(m.batches, size) && Watched(m.guarded, m.fired, size) && CalledOnce(m)
  }

  /** Handing a batch out keeps the accounts: the batch joins the pending ones. */
  lemma LeaveKeepsCalls<T>(m: Machine<T>, e: Effect<T>)
    requires CalledOnce(m)
    ensures CalledOnce(Leave(m, e))
  {
  }

  /** Emptying the buffer keeps what the buffer and the batches hold together. */
  lemma TakeKeeps<T>(m: Machine<T>, g: Guarded<T>, size: nat)
    requires Flatten(m.batches) + g.items == m.added && |g.items| <= size && size >= 1
    requires Sized(m.batches, size) && CalledOnce(m)
    ensures Inv(Leave(m, Take(g)), size)
  {
    var m' := Leave(m, Take(g));
    LeaveKeepsCalls(m, Take(g));
    if g.items != [] {
      FlattenSnoc(m.batches, g.items);
    }
    assert m'.added + [] == m'.added;
    assert Conserved(m');
  }

  lemma AddKeepsInv<T>(m: Machine<T>, item: T, size: nat)
    requires Inv(m, size)
    ensures Inv(Apply(m, Add(item), size), size)
  {
    var g := m.guarded;
    var m' := m.(added := m.added + [item]);
    var grown := g.(items := g.items + [item], armed := g.armed || g.items == []);
    Regroup(Flatten(m.batches), g.items, [item]);
    assert CalledOnce(m');
    if g.stopped {
      BypassKeeps(m, item, size);
    } else if |grown.items| >= size {
      TakeKeeps(m', grown, size);
    } else {
      assert Conserved(Apply(m, Add(item), size));
    }
  }

  lemma BypassKeeps<T>(m: Machine<T>, item: T, size: nat)
    requires Inv(m, size) && m.guarded.stopped
    ensures Inv(Apply(m, Add(item), size), size)
  {
    var m' := Apply(m, Add(item), size);
    LeaveKeepsCalls(m, AddItem(m.guarded, item, size));
    FlattenSnoc(m.batches, [item]);
    assert m.added + [item] == Flatten(m.batches) + [item] + [];
    assert Conserved(m');
  }

  lemma StepKeepsInv<T>(m: Machine<T>, a: Action<T>, size: nat)
    requires Inv(m, size) && Enabled(m, a)
    ensures Inv(Apply(m, a, size), size)
  {
    match a
    case Add(item) => AddKeepsInv(m, item, size);
    case Flush => TakeKeeps(m, m.guarded, size);
    case Stop => TakeKeeps(m, m.guarded.(stopped := true), size);
    case TimerFire =>
    case TimerFlush =>
      var m' := m.(fired := m.fired - 1);
      assert CalledOnce(m');
      TakeKeeps(m', m.guarded, size);
      assert Apply(m, a, size) == Leave(m', Take(m.guarded));
    case Process(k) => assert CalledOnce(Apply(m, a, size));
  }

  /** Along a run nothing already handed out is ever changed: later steps only add batches and calls. */
  lemma {:induction false} RunKeepsInv<T>(m: Machine<T>, actions: seq<Action<T>>, size: nat)
    requires CanRun(m, actions, size) && Inv(m, size)
    ensures Inv(RunAll(m, actions, size), size)
    ensures m.batches <= RunAll(m, actions, size).batches && m.calls <= RunAll(m, actions, size).calls
    ensures m.guarded.stopped ==> RunAll(m, actions, size).guarded.stopped
    decreases |actions|
  {
    if actions != [] {
      StepKeepsInv(m, actions[0], size);
      RunKeepsInv(Apply(m, actions[0], size), actions[1..], size);
    }
  }

  /** The items the actions of a run add, in order. */
  function ItemsOf<T>(actions: seq<Action<T>>): seq<T> {
    if actions == [] then []
    else ItemOf(actions[0]) + ItemsOf(actions[1..])
  }

  function ItemOf<T>(a: Action<T>): seq<T> {
    if a.Add? then [a.item] else []
  }

  lemma {:induction false} AddedAreItems<T>(m: Machine<T>, actions: seq<Action<T>>, size: nat)
    requires CanRun(m, actions, size)
    ensures RunAll(m, actions, size).added == m.added + ItemsOf(actions)
    decreases |actions|
  {
    if actions != [] {
      var a, rest := actions[0], actions[1..];
      assert Apply(m, a, size).added == m.added + ItemOf(a);
      AddedAreItems(Apply(m, a, size), rest, size);
      assert m.added + ItemOf(a) + ItemsOf(rest) == m.added + (ItemOf(a) + ItemsOf(rest));
    } else {
      assert m.added + [] == m.added;
    }
  }

  /**
   Exactly-once hand-off, over every interleaving: the batches handed out, in lock order, followed by
   the buffer, are the items added, in lock order; every batch has 1 to `size` items; each is either
   waiting for its one call of the processor or has had it.
   */
  lemma ExactlyOnce<T>(actions: seq<Action<T>>, size: nat)
    requires size >= 1 && CanRun(Start(), actions, size)
    ensures var m := RunAll(Start(), actions, size);
            && Flatten(m.batches) + m.guarded.items == ItemsOf(actions)
            && (forall k | 0 <= k < |m.batches| :: 1 <= |m.batches[k]| <= size)
            && CalledOnce(m)
  {
    RunKeepsInv(Start<T>(), actions, size);
    AddedAreItems(Start<T>(), actions, size);
  }

  /** The new batch, if any, that a step from `m` to `m'` hands out. */
  ghost predicate HandsOut<T>(m: Machine<T>, m': Machine<T>, batch: seq<T>) {
    m'.batches == m.batches + [batch] && |m.batches| in m'.pending
  }

  /**
   When an `Add` hands a batch out. In every reachable state: while not stopped, exactly when `size - 1`
   items are buffered, and the batch is then those and the new item, `size` in all, and the timer is off;
   otherwise nothing is handed out, the item is last in the buffer, and the timer is set only if it is
   the first. Once stopped, every item is handed out on its own.
   */
  lemma AddHandsOutIff<T>(actions: seq<Action<T>>, item: T, size: nat)
    requires size >= 1 && CanRun(Start(), actions, size)
    ensures var m := RunAll(Start(), actions, size);
            var m' := Apply(m, Add(item), size);
            if m.guarded.stopped then HandsOut(m, m', [item]) && m'.guarded == m.guarded
            else
              && (m'.batches != m.batches <==> |m.guarded.items| == size - 1)
              && (|m.guarded.items| == size - 1 ==>
                    && HandsOut(m, m', m.guarded.items + [item]) && |m.guarded.items + [item]| == size
                    && m'.guarded == Guarded([], false, false))
              && (|m.guarded.items| != size - 1 ==>
                    m'.guarded == Guarded(m.guarded.items + [item], m.guarded.armed || m.guarded.items == [], false))
  {
    var m := RunAll(Start(), actions, size);
    RunKeepsInv(Start<T>(), actions, size);
    assert m.batches + [m.guarded.items + [item]] != m.batches;
  }

  /** A Flush, a timer callback and a Stop hand out the whole buffer, if there is anything in it, and leave the timer off. */
  lemma EmptyingHandsOutIff<T>(m: Machine<T>, a: Action<T>, size: nat)
    requires Enabled(m, a) && (a.Flush? || a.Stop? || a.TimerFlush?)
    ensures var m' := Apply(m, a, size);
            && m'.guarded == Guarded([], false, m.guarded.stopped || a.Stop?)
            && (m.guarded.items == [] ==> m'.batches == m.batches)
            && (m.guarded.items != [] ==> HandsOut(m, m', m.guarded.items))
  {
  }

  /**
   No item is stranded: after any run fewer than `size` items are buffered; if any are, the timer is
   armed or a callback is on its way, and those steps alone empty the buffer.
   */
  lemma NoneStranded<T>(actions: seq<Action<T>>, size: nat) returns (rescue: seq<Action<T>>)
    requires size >= 1 && CanRun(Start(), actions, size)
    ensures var m := RunAll(Start(), actions, size);
            && |m.guarded.items| < size
            && (rescue == [] || rescue == [TimerFlush] || rescue == [TimerFire, TimerFlush])
            && (m.guarded.items == [] ==> rescue == [])
            && CanRun(m, rescue, size) && RunAll(m, rescue, size).guarded.items == []
  {
    var m := RunAll(Start(), actions, size);
    RunKeepsInv(Start<T>(), actions, size);
    if m.guarded.items == [] {
      rescue := [];
    } else if m.fired > 0 {
      rescue := [TimerFlush];
      assert CanRun(Apply(m, TimerFlush, size), [], size);
      assert rescue[1..] == [];
    } else {
      rescue := [TimerFire, TimerFlush];
      var m1 := Apply(m, TimerFire, size);
      var last: seq<Action<T>> := [TimerFlush];
      assert rescue[1..] == last && last[1..] == [];
      assert CanRun(Apply(m1, TimerFlush, size), [], size);
      assert CanRun(m1, last, size);
    }
  }

  /** After `Stop` the buffer is empty for good, and the timer never fires again. */
  lemma StoppedForGood<T>(before: seq<Action<T>>, after: seq<Action<T>>, size: nat)
    requires size >= 1 && CanRun(Start(), before, size)
    requires CanRun(Apply(RunAll(Start(), before, size), Stop, size), after, size)
    ensures var m := RunAll(Apply(RunAll(Start(), before, size), Stop, size), after, size);
            m.guarded.stopped && m.guarded.items == [] && !m.guarded.armed
  {
    var m := RunAll(Start(), before, size);
    RunKeepsInv(Start<T>(), before, size);
    StepKeepsInv(m, Stop, size);
    RunKeepsInv(Apply(m, Stop, size), after, size);
  }

  /** Each batch is a stretch of the items added, beginning where the batch before it ends: no item is in two. */
  lemma BatchIsStretch<T>(actions: seq<Action<T>>, size: nat, k: nat)
    requires size >= 1 && CanRun(Start(), actions, size)
    requires k < |RunAll(Start(), actions, size).batches|
    ensures var b := RunAll(Start(), actions, size).batches;
            && Offset(b, k) < Offset(b, k + 1) <= |ItemsOf(actions)|
            && ItemsOf(actions)[Offset(b, k)..Offset(b, k + 1)] == b[k]
  {
    var m := RunAll(Start(), actions, size);
    ExactlyOnce(actions, size);
    FlattenSlices(m.batches, k);
    assert ItemsOf(actions)[Offset(m.batches, k)..Offset(m.batches, k + 1)]
        == Flatten(m.batches)[Offset(m.batches, k)..Offset(m.batches, k + 1)];
  }

  // ----- Everything added can be processed -----

  predicate OnItsOwn<T>(a: Action<T>) {
    a.TimerFire? || a.TimerFlush? || a.Process?
  }

  lemma {:induction false} RunAppend<T>(m: Machine<T>, a: seq<Action<T>>, b: seq<Action<T>>, size: nat)
    requires CanRun(m, a, size) && CanRun(RunAll(m, a, size), b, size)
    ensures CanRun(m, a + b, size) && RunAll(m, a + b, size) == RunAll(RunAll(m, a, size), b, size)
    decreases |a|
  {
    if a == [] {
      assert a + b == b;
    } else {
      assert (a + b)[0] == a[0] && (a + b)[1..] == a[1..] + b;
      RunAppend(Apply(m, a[0], size), a[1..], b, size);
    }
  }

  predicate AllOnTheirOwn<T>(actions: seq<Action<T>>) {
    forall i | 0 <= i < |actions| :: OnItsOwn(actions[i])
  }

  /** The callers that have left the lock can all call the processor. */
  lemma {:induction false} PendingAreCalled<T>(m: Machine<T>, size: nat) returns (actions: seq<Action<T>>)
    ensures AllOnTheirOwn(actions) && CanRun(m, actions, size)
    ensures RunAll(m, actions, size).pending == {} && RunAll(m, actions, size).guarded == m.guarded
    decreases m.pending
  {
    actions := [];
    if m.pending != {} {
      var k :| k in m.pending;
      var more := PendingAreCalled(Apply(m, Process(k), size), size);
      actions := [Process(k)] + more;
      assert actions[0] == Process(k) && actions[1..] == more;
    }
  }

  /** Nothing buffered and nobody about to call: everything has been processed. */
  lemma AllSettled<T>(m: Machine<T>, size: nat)
    requires Inv(m, size) && m.guarded.items == [] && m.pending == {}
    ensures Flatten(m.batches) == m.added && forall k | 0 <= k < |m.batches| :: k in m.calls
  {
    assert Flatten(m.batches) + [] == Flatten(m.batches);
    forall k | 0 <= k < |m.batches| ensures k in m.calls {
      assert k in m.pending || k in m.calls;
    }
  }

  lemma CanSettle<T>(actions: seq<Action<T>>, size: nat) returns (rest: seq<Action<T>>)
    requires size >= 1 && CanRun(Start(), actions, size)
    ensures AllOnTheirOwn(rest) && CanRun(RunAll(Start(), actions, size), rest, size)
    ensures var m := RunAll(RunAll(Start(), actions, size), rest, size);
            Inv(m, size) && m.guarded.items == [] && m.pending == {}
  {
    var m := RunAll(Start(), actions, size);
    var rescue := NoneStranded(actions, size);
    var calls := PendingAreCalled(RunAll(m, rescue, size), size);
    RunAppend(m, rescue, calls, size);
    rest := rescue + calls;
    RunKeepsInv(Start<T>(), actions, size);
    RunKeepsInv(m, rest, size);
  }

  /**
   From every reachable state the timer and the callers already under way can finish: without another
   Add, Flush or Stop, every item added so far is in exactly one batch and every batch has been the
   subject of exactly one call of the processor.
   */
  lemma EverythingIsProcessed<T>(actions: seq<Action<T>>, size: nat) returns (rest: seq<Action<T>>)
    requires size >= 1 && CanRun(Start(), actions, size)
    ensures AllOnTheirOwn(rest) && CanRun(RunAll(Start(), actions, size), rest, size)
    ensures var m := RunAll(RunAll(Start(), actions, size), rest, size);
            && Flatten(m.batches) == ItemsOf(actions)
            && (forall k | 0 <= k < |m.batches| :: k in m.calls)
            && CalledOnce(m)
  {
    var m := RunAll(Start(), actions, size);
    rest := CanSettle(actions, size);
    AllSettled(RunAll(m, rest, size), size);
    AddedAreItems(Start<T>(), actions, size);
    AddedAreItems(m, rest, size);
    NoItems(rest);
    assert m.added == ItemsOf(actions);
    assert m.added + [] == m.added;
  }

  lemma {:induction false} NoItems<T>(actions: seq<Action<T>>)
    requires AllOnTheirOwn(actions)
    ensures ItemsOf(actions) == []
  {
    if actions != [] {
      NoItems(actions[1..]);
    }
  }
}
