/** The collection-level shapes of joshabout.js's frame loop: the loops that walk an
    actor array from its last index down, update each entry, splice out the dead
    ones and push whatever an entry emits onto another array. */
module Sweep {

  /** The entries of `xs` that are not dead, in their original order. */
  function Survivors<T>(xs: seq<T>, dead: T -> bool): (r: seq<T>)
    ensures |r| <= |xs|
  {
    if |xs| == 0 then []
    else (if dead(xs[0]) then [] else [xs[0]]) + Survivors(xs[1..], dead)
  }

  /** The survivors are exactly the entries that are not dead. */
  lemma {:induction false} SurvivorsMembers<T>(xs: seq<T>, dead: T -> bool, x: T)
    ensures x in Survivors(xs, dead) <==> x in xs && !dead(x)
  {
    if |xs| > 0 {
      SurvivorsMembers(xs[1..], dead, x);
      assert x in xs <==> x == xs[0] || x in xs[1..];
    }
  }

  /** Filtering a suffix from index i: entry i comes first, if it is alive. */
  lemma SurvivorsPeel<T>(xs: seq<T>, i: nat, dead: T -> bool)
    requires i < |xs|
    ensures Survivors(xs[i..], dead) == (if dead(xs[i]) then [] else [xs[i]]) + Survivors(xs[i + 1..], dead)
  {
    assert xs[i..][1..] == xs[i + 1..];
  }

  /** No survivor is dead. */
  lemma SurvivorsAlive<T>(xs: seq<T>, dead: T -> bool)
    ensures forall x :: x in Survivors(xs, dead) ==> !dead(x)
  {
    forall x | x in Survivors(xs, dead)
      ensures !dead(x)
    {
      SurvivorsMembers(xs, dead, x);
    }
  }

  /** When nothing is dead, nothing is removed. */
  lemma {:induction false} SurvivorsAllAlive<T>(xs: seq<T>, dead: T -> bool)
    requires forall i :: 0 <= i < |xs| ==> !dead(xs[i])
    ensures Survivors(xs, dead) == xs
  {
    if |xs| > 0 {
      SurvivorsAllAlive(xs[1..], dead);
    }
  }

  /** What a loop from the last index down emits: the last entry's output first. */
  function ReverseConcat<E>(xss: seq<seq<E>>): seq<E> {
    if |xss| == 0 then []
    else xss[|xss| - 1] + ReverseConcat(xss[..|xss| - 1])
  }

  /** A reverse loop emits exactly what some entry emits. */
  lemma {:induction false} ReverseConcatMembers<E>(xss: seq<seq<E>>, e: E)
    ensures e in ReverseConcat(xss) <==> exists i :: 0 <= i < |xss| && e in xss[i]
  {
    if |xss| > 0 {
      var last := |xss| - 1;
      ReverseConcatMembers(xss[..last], e);
      assert forall i :: 0 <= i < last ==> xss[..last][i] == xss[i];
    }
  }

  /** Peeling the first entry of a suffix: processing index i appends its output
      after everything the later indices pushed. */
  lemma {:induction false} ReverseConcatPeel<E>(xss: seq<seq<E>>, i: nat)
    requires i < |xss|
    ensures ReverseConcat(xss[i..]) == ReverseConcat(xss[i + 1..]) + xss[i]
    decreases |xss|
  {
    var last := |xss| - 1;
    if i < last {
      ReverseConcatPeel(xss[..last], i);
      assert xss[..last][i..] == xss[i..][..last - i];
      assert xss[..last][i + 1..] == xss[i + 1..][..last - i - 1];
      assert xss[..last][i] == xss[i];
    } else {
      assert xss[i..] == [xss[i]];
      assert xss[i..][..0] == [];
    }
  }

  /** The number of entries that satisfy `p`. */
  function Count<T>(xs: seq<T>, p: T -> bool): (n: nat)
    ensures n <= |xs|
    ensures n == 0 <==> forall i :: 0 <= i < |xs| ==> !p(xs[i])
  {
    if |xs| == 0 then 0
    else
      var last := |xs| - 1;
      assert forall i :: 0 <= i < last ==> xs[..last][i] == xs[i];
      Count(xs[..last], p) + (if p(xs[last]) then 1 else 0)
  }

  /** When every entry emits either nothing or exactly `k` values, a reverse loop
      emits `k` values per nonempty entry. */
  lemma {:induction false} ReverseConcatLength<E>(xss: seq<seq<E>>, k: nat)
    requires forall i :: 0 <= i < |xss| ==> |xss[i]| == 0 || |xss[i]| == k
    ensures |ReverseConcat(xss)| == k * Count(xss, NonEmpty)
  {
    if |xss| > 0 {
      var last := |xss| - 1;
      var front := xss[..last];
      assert forall i :: 0 <= i < |front| ==> front[i] == xss[i];
      ReverseConcatLength(front, k);
      var c := Count(front, NonEmpty);
      assert |ReverseConcat(xss)| == |xss[last]| + |ReverseConcat(front)|;
      assert Count(xss, NonEmpty) == c + (if NonEmpty(xss[last]) then 1 else 0);
      if NonEmpty(xss[last]) {
        MulSucc(k, c);
      }
    }
  }

  /** Two sequences of the same length whose entries satisfy their predicates at the
      same indices have the same count. */
  lemma {:induction false} CountAlike<A, B>(xs: seq<A>, p: A -> bool, ys: seq<B>, q: B -> bool)
    requires |xs| == |ys|
    requires forall i :: 0 <= i < |xs| ==> (p(xs[i]) <==> q(ys[i]))
    ensures Count(xs, p) == Count(ys, q)
  {
    if |xs| > 0 {
      var last := |xs| - 1;
      CountAlike(xs[..last], p, ys[..last], q);
    }
  }

  lemma MulSucc(k: nat, c: nat)
    ensures k * (c + 1) == k * c + k
  {
  }

  predicate NonEmpty<E>(xs: seq<E>) {
    |xs| > 0
  }

  /** One iteration of a reverse splice loop at index i: the array holds the
      untouched prefix up to i and the survivors after it; writing the update `v`
      of entry i in place, or splicing it out when `v` is dead, extends the
      survivors by one index. */
  lemma SpliceStep<T>(xs: seq<T>, updated: seq<T>, dead: T -> bool, ys: seq<T>, i: nat, v: T)
    requires i < |xs| == |updated|
    requires ys == xs[..i + 1] + Survivors(updated[i + 1..], dead)
    requires v == updated[i]
    ensures i < |ys| && ys[i] == xs[i]
    ensures (if dead(v) then ys[..i] + ys[i + 1..] else ys[..i] + [v] + ys[i + 1..])
            == xs[..i] + Survivors(updated[i..], dead)
  {
    assert xs[..i + 1] == xs[..i] + [xs[i]];
    assert ys[..i] == xs[..i] && ys[i + 1..] == Survivors(updated[i + 1..], dead);
    SurvivorsPeel(updated, i, dead);
  }

  /** One iteration of a reverse loop that pushes what entry i emits. */
  lemma EmitStep<E>(base: seq<E>, xss: seq<seq<E>>, out: seq<E>, i: nat)
    requires i < |xss|
    requires out == base + ReverseConcat(xss[i + 1..])
    ensures out + xss[i] == base + ReverseConcat(xss[i..])
  {
    ReverseConcatPeel(xss, i);
  }

  /** Every entry replaced by its update. */
  function Stepped<T>(xs: seq<T>, step: T -> T): (r: seq<T>)
    ensures |r| == |xs|
  {
    seq(|xs|, i requires 0 <= i < |xs| => step(xs[i]))
  }

  /** The reverse splice loop as joshabout.js writes it: from the last index down,
      replace each entry by its update and splice it out if the update left it
      dead. What remains is exactly the updated entries that are not dead, in
      their original order. */
  method ReverseSplice<T>(xs: seq<T>, step: T -> T, dead: T -> bool) returns (ys: seq<T>)
    ensures ys == Survivors(Stepped(xs, step), dead)
  {
    ghost var updated := Stepped(xs, step);
    ys := xs;
    var i := |xs|;
    while i > 0
      invariant 0 <= i <= |xs|
      invariant ys == xs[..i] + Survivors(updated[i..], dead)
    {
      i := i - 1;
      assert ys[i] == xs[i] by {
        assert xs[..i + 1] == xs[..i] + [xs[i]];
      }
      var v := step(ys[i]);
      SpliceStep(xs, updated, dead, ys, i, v);
      if dead(v) {
        ys := ys[..i] + ys[i + 1..];
      } else {
        ys := ys[..i] + [v] + ys[i + 1..];
      }
    }
    assert xs[..0] == [];
  }
}
