/** The primary inputs seen as a binary counter: the bits are the input
    values in ascending id order, so the last bit (the largest id) is the
    least significant one. */
module Counter {

  /** 2 to the power `k`. */
  function Pow2(k: nat): (p: nat)
    ensures p >= 1
  {
    if k == 0 then 1 else 2 * Pow2(k - 1)
  }

  /** The number the bits spell, the last bit least significant. */
  function ToNat(bits: seq<bool>): nat
  {
    if bits == [] then 0
    else 2 * ToNat(bits[..|bits| - 1]) + (if bits[|bits| - 1] then 1 else 0)
  }

  /** `n` copies of `b`. */
  function Constant(n: nat, b: bool): (r: seq<bool>)
    ensures |r| == n && forall i :: 0 <= i < n ==> r[i] == b
  {
    seq(n, _ => b)
  }

  /** A counter of `k` bits holds less than 2^k. */
  lemma {:induction false} ToNatBound(bits: seq<bool>)
    ensures ToNat(bits) < Pow2(|bits|)
    decreases |bits|
  {
    if bits != [] {
      ToNatBound(bits[..|bits| - 1]);
    }
  }

  /** All bits clear spell zero. */
  lemma {:induction false} ToNatZero(bits: seq<bool>)
    requires forall i :: 0 <= i < |bits| ==> !bits[i]
    ensures ToNat(bits) == 0
    decreases |bits|
  {
    if bits != [] {
      ToNatZero(bits[..|bits| - 1]);
    }
  }

  /** All bits set spell 2^k - 1. */
  lemma {:induction false} ToNatOnes(bits: seq<bool>)
    requires forall i :: 0 <= i < |bits| ==> bits[i]
    ensures ToNat(bits) + 1 == Pow2(|bits|)
    decreases |bits|
  {
    if bits != [] {
      ToNatOnes(bits[..|bits| - 1]);
    }
  }

  /** Adds one to the counter: going from the least significant bit, set bits
      are cleared up to the first clear bit, which is set.  The flag says
      whether a clear bit was found; when it was not, every bit has been
      cleared. */
  function Increment(bits: seq<bool>): (r: (seq<bool>, bool))
    ensures |r.0| == |bits|
    decreases |bits|
  {
    if bits == [] then ([], false)
    else
      var init := bits[..|bits| - 1];
      if bits[|bits| - 1] then
        var p := Increment(init);
        (p.0 + [false], p.1)
      else
        (init + [true], true)
  }

  /** Incrementing finds a clear bit exactly when there is one. */
  lemma {:induction false} IncrementCarry(bits: seq<bool>)
    ensures Increment(bits).1 <==> exists i :: 0 <= i < |bits| && !bits[i]
    decreases |bits|
  {
    if bits != [] {
      var k := |bits| - 1;
      var init := bits[..k];
      IncrementCarry(init);
      if exists i :: 0 <= i < k && !init[i] {
        var i :| 0 <= i < k && !init[i];
        assert bits[i] == init[i];
      }
      if exists i :: 0 <= i < |bits| && !bits[i] {
        var i :| 0 <= i < |bits| && !bits[i];
        if i < k { assert init[i] == bits[i]; }
      }
    }
  }

  /** When a clear bit is found, the increment adds one to the number. */
  lemma {:induction false} IncrementAdds(bits: seq<bool>)
    requires Increment(bits).1
    ensures ToNat(Increment(bits).0) == ToNat(bits) + 1
    decreases |bits|
  {
    var k := |bits| - 1;
    var init := bits[..k];
    var r := Increment(bits);
    if bits[k] {
      var p := Increment(init);
      IncrementAdds(init);
      assert r.0 == p.0 + [false];
      assert r.0[..k] == p.0;
    } else {
      assert r.0 == init + [true];
      assert r.0[..k] == init;
    }
  }

  /** When no clear bit is found, the number was 2^k - 1 and every bit ends up
      clear: together with IncrementAdds, incrementing counts modulo 2^k. */
  lemma IncrementWraps(bits: seq<bool>)
    requires !Increment(bits).1
    ensures ToNat(bits) + 1 == Pow2(|bits|)
    ensures forall i :: 0 <= i < |bits| ==> !Increment(bits).0[i]
  {
    IncrementCarry(bits);
    ToNatOnes(bits);
    IncrementAllSet(bits);
  }

  /** The bits left by an increment that stops at position `i`: the bits
      before `i` are kept, bit `i` is set and every later bit is cleared. */
  lemma {:induction false} IncrementAt(bits: seq<bool>, i: nat)
    requires i < |bits| && !bits[i]
    requires forall k :: i < k < |bits| ==> bits[k]
    ensures Increment(bits) == (bits[..i] + [true] + Constant(|bits| - i - 1, false), true)
    decreases |bits|
  {
    var k := |bits| - 1;
    var init := bits[..k];
    if i < k {
      IncrementAt(init, i);
      var p := Increment(init);
      assert bits[k];
      assert Increment(bits) == (p.0 + [false], p.1);
      assert init[..i] == bits[..i];
      assert Constant(k - i - 1, false) + [false] == Constant(|bits| - i - 1, false);
      assert p.0 + [false] == bits[..i] + [true] + (Constant(k - i - 1, false) + [false]);
    } else {
      assert init == bits[..i];
      assert bits[..i] + [true] + Constant(0, false) == init + [true];
    }
  }

  /** Incrementing a counter whose bits are all set clears them all and
      reports that no clear bit was found. */
  lemma {:induction false} IncrementAllSet(bits: seq<bool>)
    requires forall k :: 0 <= k < |bits| ==> bits[k]
    ensures Increment(bits) == (Constant(|bits|, false), false)
    decreases |bits|
  {
    if bits != [] {
      var k := |bits| - 1;
      IncrementAllSet(bits[..k]);
      assert Constant(k, false) + [false] == Constant(|bits|, false);
    }
  }
}
