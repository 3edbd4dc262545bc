/** Sequence helpers shared by the scrapers and jobs. */
module Seqs {
  import opened Wrappers

  function Min(a: int, b: int): (m: int)
    ensures m <= a && m <= b && (m == a || m == b)
  {
    if a < b then a else b
  }

  function Max(a: int, b: int): (m: int)
    ensures m >= a && m >= b && (m == a || m == b)
  {
    if a < b then b else a
  }

  /** The sequence in reverse order (`Array.prototype.reverse`). */
  function Reverse<T>(xs: seq<T>): (r: seq<T>)
    ensures |r| == |xs|
    ensures forall k :: 0 <= k < |xs| ==> r[k] == xs[|xs| - 1 - k]
  {
    if xs == [] then [] else Reverse(xs[1..]) + [xs[0]]
  }

  lemma ReverseReverse<T>(xs: seq<T>)
    ensures Reverse(Reverse(xs)) == xs
  {
  }

  /** `xs.slice(start, end)` for non-negative bounds: clamped to the length. */
  function SliceRange<T>(xs: seq<T>, start: nat, end: nat): (r: seq<T>)
    ensures start <= end <= |xs| ==> r == xs[start..end]
    ensures |r| <= |xs|
  {
    var s := Min(start, |xs|);
    var e := Max(Min(end, |xs|), s);
    xs[s..e]
  }

  /** `Promise.all(xs.map(f))`, one element after another: all the
      results in order, or the first failure. */
  function MapAll<A, B(==), E(==)>(xs: seq<A>, f: A -> Result<B, E>): (r: Result<seq<B>, E>)
    ensures r.Ok? <==> forall k :: 0 <= k < |xs| ==> f(xs[k]).Ok?
    ensures r.Ok? ==> |r.value| == |xs| && forall k :: 0 <= k < |xs| ==> f(xs[k]) == Ok(r.value[k])
    ensures r.Err? ==> exists k :: (0 <= k < |xs| && f(xs[k]) == Err(r.error)
      && forall j :: 0 <= j < k ==> f(xs[j]).Ok?)
  {
    if xs == [] then Ok([])
    else match f(xs[0])
      case Err(e) => Err(e)
      case Ok(y) =>
        var rest := MapAll(xs[1..], f);
        assert forall k :: 1 <= k < |xs| ==> xs[k] == xs[1..][k - 1];
        match rest
        case Err(e) =>
          var j :| 0 <= j < |xs[1..]| && f(xs[1..][j]) == Err(e) && forall i :: 0 <= i < j ==> f(xs[1..][i]).Ok?;
          assert f(xs[j + 1]) == Err(e) && forall i :: 0 <= i < j + 1 ==> f(xs[i]).Ok?;
          Err(e)
        case Ok(ys) => Ok([y] + ys)
  }

  /** When every element succeeds with the given values, that is the result. */
  lemma MapAllAllOk<A, B, E>(xs: seq<A>, f: A -> Result<B, E>, ys: seq<B>)
    requires |ys| == |xs|
    requires forall k :: 0 <= k < |xs| ==> f(xs[k]) == Ok(ys[k])
    ensures MapAll(xs, f) == Ok(ys)
  {
    var r := MapAll(xs, f);
    assert r.Ok?;
    forall k | 0 <= k < |xs|
      ensures r.value[k] == ys[k]
    {
      assert f(xs[k]) == Ok(r.value[k]);
    }
    assert r.value == ys;
  }

  /** The first element that fails decides the error. */
  lemma MapAllFirstError<A, B, E>(xs: seq<A>, f: A -> Result<B, E>, i: nat)
    requires i < |xs| && f(xs[i]).Err?
    requires forall j :: 0 <= j < i ==> f(xs[j]).Ok?
    ensures MapAll(xs, f) == Err(f(xs[i]).error)
  {
    var r := MapAll(xs, f);
    var k :| 0 <= k < |xs| && f(xs[k]) == Err(r.error) && forall j :: 0 <= j < k ==> f(xs[j]).Ok?;
    assert k == i;
  }

  /** Mapping a reversed sequence gives the reversed results, when no
      element fails. */
  lemma MapAllReverse<A, B, E>(xs: seq<A>, f: A -> Result<B, E>)
    requires MapAll(xs, f).Ok?
    ensures MapAll(Reverse(xs), f) == Ok(Reverse(MapAll(xs, f).value))
  {
    var ys := MapAll(xs, f).value;
    var rx, ry := Reverse(xs), Reverse(ys);
    forall k | 0 <= k < |rx| ensures f(rx[k]) == Ok(ry[k]) {
      assert rx[k] == xs[|xs| - 1 - k];
      assert ry[k] == ys[|xs| - 1 - k];
    }
    MapAllAllOk(rx, f, ry);
  }
}
