/** Finite sums of reals, in the order in which a loop accumulates them. */
module RealSums {

  function Sum(xs: seq<real>): real {
    if xs == [] then 0.0 else Sum(xs[..|xs| - 1]) + xs[|xs| - 1]
  }

  lemma SumAppend(xs: seq<real>, x: real)
    ensures Sum(xs + [x]) == Sum(xs) + x
  {
    assert (xs + [x])[..|xs|] == xs;
  }

  lemma {:induction false} SumConcat(xs: seq<real>, ys: seq<real>)
    ensures Sum(xs + ys) == Sum(xs) + Sum(ys)
    decreases ys
  {
    if ys == [] {
      assert xs + ys == xs;
    } else {
      var init, last := ys[..|ys| - 1], ys[|ys| - 1];
      assert xs + ys == (xs + init) + [last];
      SumConcat(xs, init);
      SumAppend(xs + init, last);
    }
  }

  /** Products are kept behind a name, so that the verifier does not multiply out under a sum. */
  function Linear(a: real, x: real, y: real): real {
    a * x + y
  }

  /** a * x + y, term by term. */
  function Combine(a: real, xs: seq<real>, ys: seq<real>): seq<real>
    requires |xs| == |ys|
  {
    seq(|xs|, i requires 0 <= i < |xs| => Linear(a, xs[i], ys[i]))
  }

  lemma CombineInit(a: real, xs: seq<real>, ys: seq<real>)
    requires |xs| == |ys| && xs != []
    ensures var n := |xs| - 1;
            Combine(a, xs, ys) == Combine(a, xs[..n], ys[..n]) + [Linear(a, xs[n], ys[n])]
  {
    hide Linear;
  }

  lemma LinearSum(a: real, p: real, q: real, x: real, y: real)
    ensures Linear(a, p, q) + Linear(a, x, y) == Linear(a, p + x, q + y)
  {
  }

  lemma {:induction false} SumCombine(a: real, xs: seq<real>, ys: seq<real>)
    requires |xs| == |ys|
    ensures Sum(Combine(a, xs, ys)) == Linear(a, Sum(xs), Sum(ys))
    decreases xs
  {
    if xs != [] {
      hide Linear;
      var n := |xs| - 1;
      SumCombine(a, xs[..n], ys[..n]);
      CombineInit(a, xs, ys);
      SumAppend(Combine(a, xs[..n], ys[..n]), Linear(a, xs[n], ys[n]));
      LinearSum(a, Sum(xs[..n]), Sum(ys[..n]), xs[n], ys[n]);
    }
  }

  function Reversed(xs: seq<real>): seq<real> {
    seq(|xs|, i requires 0 <= i < |xs| => xs[|xs| - 1 - i])
  }

  lemma {:induction false} SumReversed(xs: seq<real>)
    ensures Sum(Reversed(xs)) == Sum(xs)
    decreases xs
  {
    if xs != [] {
      var n := |xs| - 1;
      SumReversed(xs[..n]);
      assert Reversed(xs) == [xs[n]] + Reversed(xs[..n]);
      SumConcat([xs[n]], Reversed(xs[..n]));
      SumAppend([], xs[n]);
      assert [] + [xs[n]] == [xs[n]];
    }
  }

  function Zeros(n: nat): seq<real> {
    seq(n, i => 0.0)
  }

  lemma {:induction false} SumZeros(n: nat)
    ensures Sum(Zeros(n)) == 0.0
  {
    if n > 0 {
      assert Zeros(n)[..n - 1] == Zeros(n - 1);
      SumZeros(n - 1);
    }
  }
}
