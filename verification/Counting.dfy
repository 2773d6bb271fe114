// Counting the occupied slots of a sequence.

module Counting {
  import opened Prelude

  function Filled<A>(xs: seq<Option<A>>): (n: nat)
    ensures n <= |xs|
  {
    if xs == [] then 0 else (if xs[0].Some? then 1 else 0) + Filled(xs[1..])
  }

  function Bit<A>(x: Option<A>): nat {
    if x.Some? then 1 else 0
  }

  lemma {:induction false} FilledUpdate<A>(xs: seq<Option<A>>, k: nat, x: Option<A>)
    requires k < |xs|
    ensures Filled(xs[k := x]) + Bit(xs[k]) == Filled(xs) + Bit(x)
  {
    if k == 0 {
      assert xs[0 := x][1..] == xs[1..];
    } else {
      assert xs[k := x][1..] == xs[1..][k - 1 := x];
      FilledUpdate(xs[1..], k - 1, x);
    }
  }

  lemma {:induction false} FilledConcat<A>(xs: seq<Option<A>>, ys: seq<Option<A>>)
    ensures Filled(xs + ys) == Filled(xs) + Filled(ys)
  {
    if xs == [] {
      assert xs + ys == ys;
    } else {
      assert (xs + ys)[1..] == xs[1..] + ys;
      FilledConcat(xs[1..], ys);
    }
  }

  lemma FilledSplit<A>(xs: seq<Option<A>>, k: nat)
    requires k <= |xs|
    ensures Filled(xs) == Filled(xs[..k]) + Filled(xs[k..])
  {
    assert xs == xs[..k] + xs[k..];
    FilledConcat(xs[..k], xs[k..]);
  }

  // A sequence is completely filled exactly when its count is its length.
  lemma {:induction false} FilledFull<A>(xs: seq<Option<A>>)
    ensures Filled(xs) == |xs| <==> forall i :: 0 <= i < |xs| ==> xs[i].Some?
  {
    if xs != [] {
      FilledFull(xs[1..]);
      assert forall i :: 0 < i < |xs| ==> xs[i] == xs[1..][i - 1];
      assert forall i :: 0 <= i < |xs| - 1 ==> xs[1..][i] == xs[i + 1];
    }
  }

  lemma {:induction false} FilledEmpty<A>(xs: seq<Option<A>>)
    requires forall i :: 0 <= i < |xs| ==> xs[i].None?
    ensures Filled(xs) == 0
  {
    if xs != [] {
      FilledEmpty(xs[1..]);
    }
  }
}
