/** Facts about sequences that several modules share. */
module Sequences {

  function Flatten<T>(groups: seq<seq<T>>): seq<T> {
    if groups == [] then [] else groups[0] + Flatten(groups[1..])
  }

  lemma FlattenCons<T>(group: seq<T>, groups: seq<seq<T>>)
    ensures Flatten([group] + groups) == group + Flatten(groups)
  {
    assert ([group] + groups)[1..] == groups;
  }

  lemma {:induction false} FlattenSnoc<T>(groups: seq<seq<T>>, group: seq<T>)
    ensures Flatten(groups + [group]) == Flatten(groups) + group
  {
    if groups == [] {
      assert [] + [group] == [group] + [];
      FlattenCons(group, []);
    } else {
      FlattenSnoc(groups[1..], group);
      assert groups + [group] == [groups[0]] + (groups[1..] + [group]);
      FlattenCons(groups[0], groups[1..] + [group]);
      Regroup(groups[0], Flatten(groups[1..]), group);
    }
  }

  /** Where group `k` begins in the flattened sequence. */
  function Offset<T>(groups: seq<seq<T>>, k: nat): nat
    requires k <= |groups|
  {
    if k == 0 then 0 else |groups[0]| + Offset(groups[1..], k - 1)
  }

  lemma SliceOfTail<T>(a: seq<T>, b: seq<T>, i: nat, j: nat)
    requires i <= j <= |b|
    ensures (a + b)[|a| + i..|a| + j] == b[i..j]
  {
  }

  lemma {:induction false} FlattenSlices<T>(groups: seq<seq<T>>, k: nat)
    requires k < |groups|
    ensures Offset(groups, k + 1) == Offset(groups, k) + |groups[k]| <= |Flatten(groups)|
    ensures Flatten(groups)[Offset(groups, k)..Offset(groups, k + 1)] == groups[k]
  {
    var tail := Flatten(groups[1..]);
    if k == 0 {
      assert (groups[0] + tail)[..|groups[0]|] == groups[0];
    } else {
      FlattenSlices(groups[1..], k - 1);
      SliceOfTail(groups[0], tail, Offset(groups[1..], k - 1), Offset(groups[1..], k));
    }
  }

  lemma Regroup<T>(x: seq<T>, y: seq<T>, z: seq<T>)
    ensures x + (y + z) == x + y + z
  {
  }

  // ----- Subsequences -----

  /** The elements of `a` are found in `b`, in order. */
  ghost predicate Subsequence<T>(a: seq<T>, b: seq<T>)
    decreases |b|
  {
    a == [] || (b != [] && (Subsequence(a, b[1..]) || (a[0] == b[0] && Subsequence(a[1..], b[1..]))))
  }

  lemma {:induction false} SubsequenceOfSelf<T>(a: seq<T>)
    ensures Subsequence(a, a)
  {
    if a != [] {
      SubsequenceOfSelf(a[1..]);
    }
  }

  lemma {:induction false} SubsequencePrefixed<T>(x: seq<T>, a: seq<T>, b: seq<T>)
    requires Subsequence(a, b)
    ensures Subsequence(a, x + b)
  {
    if x == [] {
      assert x + b == b;
    } else {
      SubsequencePrefixed(x[1..], a, b);
      assert (x + b)[1..] == x[1..] + b;
    }
  }

  lemma {:induction false} SubsequenceAppend<T>(a: seq<T>, b: seq<T>, a': seq<T>, b': seq<T>)
    requires Subsequence(a, b) && Subsequence(a', b')
    ensures Subsequence(a + a', b + b')
    decreases |b|
  {
    if a == [] {
      assert a + a' == a';
      SubsequencePrefixed(b, a', b');
    } else {
      assert (b + b')[0] == b[0] && (b + b')[1..] == b[1..] + b';
      if Subsequence(a, b[1..]) {
        SubsequenceAppend(a, b[1..], a', b');
      } else {
        assert (a + a')[0] == a[0] && (a + a')[1..] == a[1..] + a';
        SubsequenceAppend(a[1..], b[1..], a', b');
      }
    }
  }

  lemma {:induction false} SubsequenceTransitive<T>(a: seq<T>, b: seq<T>, c: seq<T>)
    requires Subsequence(a, b) && Subsequence(b, c)
    ensures Subsequence(a, c)
    decreases |c|
  {
    if a != [] {
      if Subsequence(b, c[1..]) {
        SubsequenceTransitive(a, b, c[1..]);
      } else if Subsequence(a, b[1..]) {
        SubsequenceTransitive(a, b[1..], c[1..]);
      } else {
        SubsequenceTransitive(a[1..], b[1..], c[1..]);
      }
    }
  }

  // ----- Chosen elements -----

  ghost predicate Increasing(index: seq<nat>) {
    forall j, k | 0 <= j < k < |index| :: index[j] < index[k]
  }

  /** `index` lists the places of exactly the elements that satisfy `keep`, in order. */
  ghost predicate Chosen<T(!new)>(all: seq<T>, index: seq<nat>, keep: T -> bool) {
    && Increasing(index)
    && (forall k | 0 <= k < |index| :: index[k] < |all| && keep(all[index[k]]))
    && (forall i: nat | i < |all| && keep(all[i]) :: i in index)
  }

  lemma ChosenSnoc<T(!new)>(all: seq<T>, index: seq<nat>, x: T, keep: T -> bool)
    requires Chosen(all, index, keep)
    ensures Chosen(all + [x], if keep(x) then index + [|all|] else index, keep)
  {
    var more, index' := all + [x], if keep(x) then index + [|all|] else index;
    forall i: nat | i < |more| && keep(more[i]) ensures i in index' {
      if i < |all| {
        assert more[i] == all[i];
        assert i in index;
      } else {
        assert index'[|index|] == i;
      }
    }
  }
}
