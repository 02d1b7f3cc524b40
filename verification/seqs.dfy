/** The two list idioms the system leans on: keep-and-transform in order
    (a Python loop that appends, a pandas row filter, `Array.filter`) and
    "the first element that satisfies" (`Array.prototype.find`). */
module Seqs {
  import opened Outcome

  /** Keeps, in order, the images of the elements `f` maps to `Some`. */
  function FilterMap<T, U>(xs: seq<T>, f: T -> Option<U>): (r: seq<U>)
    ensures |r| <= |xs|
    ensures forall y :: y in r ==> exists x :: x in xs && f(x) == Some(y)
    ensures forall x :: x in xs && f(x).Some? ==> f(x).value in r
    ensures |r| == 0 <==> forall x :: x in xs ==> f(x).None?
    decreases |xs|
  {
    if |xs| == 0 then []
    else
      var head := match f(xs[0]) case Some(y) => [y] case None => [];
      assert forall x :: x in xs[1..] ==> x in xs;
      assert forall x :: x in xs ==> x == xs[0] || x in xs[1..];
      head + FilterMap(xs[1..], f)
  }

  /** How many elements `f` keeps. */
  function CountKept<T, U>(xs: seq<T>, f: T -> Option<U>): nat
    decreases |xs|
  {
    if |xs| == 0 then 0 else (if f(xs[0]).Some? then 1 else 0) + CountKept(xs[1..], f)
  }

  /** One output per kept input. */
  lemma {:induction false} FilterMapLength<T, U>(xs: seq<T>, f: T -> Option<U>)
    ensures |FilterMap(xs, f)| == CountKept(xs, f)
    decreases |xs|
  {
    if |xs| > 0 {
      FilterMapLength(xs[1..], f);
    }
  }

  /** Filtering commutes with concatenation: the output keeps input order. */
  lemma {:induction false} FilterMapAppend<T, U>(a: seq<T>, b: seq<T>, f: T -> Option<U>)
    ensures FilterMap(a + b, f) == FilterMap(a, f) + FilterMap(b, f)
    decreases |a|
  {
    if |a| > 0 {
      assert (a + b)[1..] == a[1..] + b;
      FilterMapAppend(a[1..], b, f);
    } else {
      assert a + b == b;
    }
  }

  /** Filtering only depends on what `f` does on the elements. */
  lemma {:induction false} FilterMapCongruent<T, U>(xs: seq<T>, f: T -> Option<U>, g: T -> Option<U>)
    requires forall x :: x in xs ==> f(x) == g(x)
    ensures FilterMap(xs, f) == FilterMap(xs, g)
    decreases |xs|
  {
    if |xs| > 0 {
      FilterMapCongruent(xs[1..], f, g);
    }
  }

  /** The position of the first element satisfying `p`. */
  function FindIndex<T>(xs: seq<T>, p: T -> bool): (r: Option<nat>)
    ensures r.Some? ==> r.value < |xs| && p(xs[r.value])
                        && forall j :: 0 <= j < r.value ==> !p(xs[j])
    ensures r.None? ==> forall i :: 0 <= i < |xs| ==> !p(xs[i])
    decreases |xs|
  {
    if |xs| == 0 then None
    else if p(xs[0]) then Some(0)
    else
      match FindIndex(xs[1..], p)
      case None => None
      case Some(i) => Some(i + 1)
  }

  /** `Array.prototype.find`: the first element satisfying `p`, absent
      exactly when none does. */
  function Find<T>(xs: seq<T>, p: T -> bool): (r: Option<T>)
    ensures r.None? <==> forall x :: x in xs ==> !p(x)
    ensures r.Some? ==> exists i :: 0 <= i < |xs| && xs[i] == r.value && p(r.value)
                                    && forall j :: 0 <= j < i ==> !p(xs[j])
  {
    match FindIndex(xs, p)
    case None => None
    case Some(i) => Some(xs[i])
  }

  /** `Find` only depends on what `p` says about the elements. */
  lemma {:induction false} FindCongruent<T>(xs: seq<T>, p: T -> bool, q: T -> bool)
    requires forall x :: x in xs ==> p(x) == q(x)
    ensures Find(xs, p) == Find(xs, q)
    decreases |xs|
  {
    if |xs| > 0 {
      FindCongruent(xs[1..], p, q);
    }
  }
}
