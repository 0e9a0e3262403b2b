/** Sums of a weight over a sequence; order does not matter. */
module SeqSums {

  ghost function SumOf<T>(xs: seq<T>, w: T -> real): real {
    if xs == [] then 0.0 else w(xs[0]) + SumOf(xs[1..], w)
  }

  lemma {:induction false} SumConcat<T>(xs: seq<T>, ys: seq<T>, w: T -> real)
    ensures SumOf(xs + ys, w) == SumOf(xs, w) + SumOf(ys, w)
  {
    if xs == [] {
      assert xs + ys == ys;
    } else {
      assert (xs + ys)[1..] == xs[1..] + ys;
      SumConcat(xs[1..], ys, w);
    }
  }

  lemma {:induction false} SumSnoc<T>(xs: seq<T>, x: T, w: T -> real)
    ensures SumOf(xs + [x], w) == SumOf(xs, w) + w(x)
  {
    SumConcat(xs, [x], w);
    assert [x][1..] == [];
    assert SumOf([x], w) == w(x) + SumOf([x][1..], w);
  }

  lemma {:induction false} SumWithout<T>(xs: seq<T>, i: nat, w: T -> real)
    requires i < |xs|
    ensures SumOf(xs, w) == w(xs[i]) + SumOf(xs[..i] + xs[i + 1..], w)
  {
    assert xs == xs[..i] + ([xs[i]] + xs[i + 1..]);
    SumConcat(xs[..i], [xs[i]] + xs[i + 1..], w);
    SumConcat(xs[..i], xs[i + 1..], w);
    assert ([xs[i]] + xs[i + 1..])[1..] == xs[i + 1..];
  }

  lemma {:induction false} MultisetWithout<T>(xs: seq<T>, i: nat)
    requires i < |xs|
    ensures multiset(xs[..i] + xs[i + 1..]) == multiset(xs) - multiset{xs[i]}
  {
    assert xs == xs[..i] + [xs[i]] + xs[i + 1..];
  }

  lemma {:induction false} SumPermuted<T>(xs: seq<T>, ys: seq<T>, w: T -> real)
    requires multiset(xs) == multiset(ys)
    ensures SumOf(xs, w) == SumOf(ys, w)
  {
    if xs == [] {
      assert |multiset(ys)| == 0;
    } else {
      assert xs[0] in multiset(ys);
      var i: nat :| i < |ys| && ys[i] == xs[0];
      MultisetWithout(xs, 0);
      MultisetWithout(ys, i);
      assert xs[..0] + xs[0 + 1..] == xs[1..];
      SumPermuted(xs[1..], ys[..i] + ys[i + 1..], w);
      SumWithout(ys, i, w);
    }
  }

  lemma {:induction false} SumNonNegative<T>(xs: seq<T>, w: T -> real)
    requires forall i :: 0 <= i < |xs| ==> w(xs[i]) >= 0.0
    ensures SumOf(xs, w) >= 0.0
  {
    if xs != [] {
      SumNonNegative(xs[1..], w);
    }
  }

  lemma {:induction false} SumSame<T, U>(xs: seq<T>, ys: seq<U>, w: T -> real, u: U -> real)
    requires |xs| == |ys|
    requires forall i :: 0 <= i < |xs| ==> w(xs[i]) == u(ys[i])
    ensures SumOf(xs, w) == SumOf(ys, u)
  {
    if xs != [] {
      SumSame(xs[1..], ys[1..], w, u);
    }
  }

  lemma {:induction false} SumSplits<T>(xs: seq<T>, w: T -> real, a: T -> real, b: T -> real)
    requires forall i :: 0 <= i < |xs| ==> w(xs[i]) == a(xs[i]) + b(xs[i])
    ensures SumOf(xs, w) == SumOf(xs, a) + SumOf(xs, b)
  {
    if xs != [] {
      SumSplits(xs[1..], w, a, b);
    }
  }

  lemma {:induction false} SumOfZeros<T>(xs: seq<T>, w: T -> real)
    requires forall i :: 0 <= i < |xs| ==> w(xs[i]) == 0.0
    ensures SumOf(xs, w) == 0.0
  {
    if xs != [] {
      SumOfZeros(xs[1..], w);
    }
  }

  lemma {:induction false} SumBalances<T>(xs: seq<T>, a: T -> real, b: T -> real, c: T -> real, d: T -> real)
    requires forall i :: 0 <= i < |xs| ==> a(xs[i]) + b(xs[i]) == c(xs[i]) + d(xs[i])
    ensures SumOf(xs, a) + SumOf(xs, b) == SumOf(xs, c) + SumOf(xs, d)
  {
    if xs != [] {
      SumBalances(xs[1..], a, b, c, d);
    }
  }
}
