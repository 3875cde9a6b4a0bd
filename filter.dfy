/**
 * A generator loop that skips some items and yields one value for each of the
 * others, seen as a sequence of per-item outcomes (`None` for a `continue`).
 */
module Filter {
  import opened Wrappers

  /** What one item contributes to the output. */
  function Emitted<T>(r: Option<T>): seq<T> {
    match r
    case None => []
    case Some(v) => [v]
  }

  /** The present values among the outcomes, in order. */
  function Yielded<T>(rs: seq<Option<T>>): seq<T> {
    if rs == [] then [] else Yielded(rs[..|rs| - 1]) + Emitted(rs[|rs| - 1])
  }

  /** Which outcomes are present, position by position. */
  function Present<T>(rs: seq<Option<T>>): (flags: seq<bool>)
    ensures |flags| == |rs|
    ensures forall i :: 0 <= i < |rs| ==> flags[i] == rs[i].Some?
  {
    seq(|rs|, i requires 0 <= i < |rs| => rs[i].Some?)
  }

  /** The positions holding true, in increasing order. */
  function Positions(flags: seq<bool>): (ks: seq<nat>)
    ensures forall k :: 0 <= k < |ks| ==> ks[k] < |flags| && flags[ks[k]]
    ensures forall k1, k2 :: 0 <= k1 < k2 < |ks| ==> ks[k1] < ks[k2]
    ensures forall i :: 0 <= i < |flags| && flags[i] ==> i in ks
  {
    if flags == [] then []
    else
      var n := |flags| - 1;
      Positions(flags[..n]) + if flags[n] then [n] else []
  }

  /** One more item appends its contribution. */
  lemma YieldedStep<T>(rs: seq<Option<T>>, i: nat)
    requires i < |rs|
    ensures Yielded(rs[..i + 1]) == Yielded(rs[..i]) + Emitted(rs[i])
  {
    assert rs[..i + 1][..i] == rs[..i];
  }

  /** The k-th yielded value is the value at the k-th present position. */
  lemma {:induction false} YieldedAtPositions<T>(rs: seq<Option<T>>)
    ensures |Yielded(rs)| == |Positions(Present(rs))|
    ensures forall k :: 0 <= k < |Yielded(rs)| ==>
      rs[Positions(Present(rs))[k]] == Some(Yielded(rs)[k])
  {
    if rs != [] {
      var n := |rs| - 1;
      var init := rs[..n];
      YieldedAtPositions(init);
      var flags := Present(rs);
      assert flags[..n] == Present(init);
      var ks := Positions(flags);
      var ks0 := Positions(flags[..n]);
      assert ks == ks0 + if flags[n] then [n] else [];
      var ys := Yielded(rs);
      var ys0 := Yielded(init);
      assert ys == ys0 + Emitted(rs[n]);
      forall k | 0 <= k < |ys|
        ensures rs[ks[k]] == Some(ys[k])
      {
        if k < |ys0| {
          assert ks[k] == ks0[k] && ys[k] == ys0[k];
          assert init[ks0[k]] == rs[ks[k]];
        }
      }
    }
  }

  /** Outcomes of consecutive runs contribute one after the other. */
  lemma {:induction false} YieldedAppend<T>(a: seq<Option<T>>, b: seq<Option<T>>)
    ensures Yielded(a + b) == Yielded(a) + Yielded(b)
    decreases |b|
  {
    if b == [] {
      assert a + b == a;
    } else {
      var n := |b| - 1;
      assert (a + b)[..|a + b| - 1] == a + b[..n];
      YieldedAppend(a, b[..n]);
    }
  }
}
