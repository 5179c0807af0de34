/** Shifting and masking of unbounded naturals, one bit at a time, so that every
    fact about address blocks is linear. */
module Bits {

  /** v >> k. */
  function Shift(v: nat, k: nat): nat
    decreases k
  {
    if k == 0 then v else Shift(v / 2, k - 1)
  }

  /** b << k. */
  function Raise(b: nat, k: nat): nat
    decreases k
  {
    if k == 0 then b else 2 * Raise(b, k - 1)
  }

  /** v with its k low bits cleared. */
  function Mask(v: nat, k: nat): nat
  {
    Raise(Shift(v, k), k)
  }

  lemma {:induction false} ShiftShift(v: nat, j: nat, k: nat)
    ensures Shift(v, j + k) == Shift(Shift(v, j), k)
    decreases j
  {
    if j == 0 {
    } else {
      ShiftShift(v / 2, j - 1, k);
    }
  }

  lemma {:induction false} ShiftNext(v: nat, k: nat)
    ensures Shift(v, k + 1) == Shift(v, k) / 2
  {
    ShiftShift(v, k, 1);
    assert Shift(Shift(v, k), 1) == Shift(Shift(v, k) / 2, 0);
  }

  lemma {:induction false} RaiseNext(b: nat, k: nat)
    ensures Raise(2 * b, k) == Raise(b, k + 1)
    decreases k
  {
    if k == 0 {
    } else {
      RaiseNext(b, k - 1);
    }
  }

  lemma {:induction false} RaiseRaise(b: nat, j: nat, k: nat)
    ensures Raise(Raise(b, j), k) == Raise(b, j + k)
    decreases k
  {
    if k == 0 {
    } else {
      RaiseRaise(b, j, k - 1);
    }
  }

  /** (c + d·2^k) >> k splits. */
  lemma {:induction false} ShiftRaise(c: nat, d: nat, k: nat)
    ensures Shift(c + Raise(d, k), k) == Shift(c, k) + d
    decreases k
  {
    if k == 0 {
    } else {
      assert (c + Raise(d, k)) / 2 == c / 2 + Raise(d, k - 1);
      ShiftRaise(c / 2, d, k - 1);
    }
  }

  lemma ShiftRaiseFiner(c: nat, d: nat, w: nat, k: nat)
    requires k <= w
    ensures Shift(c + Raise(d, w), k) == Shift(c, k) + Raise(d, w - k)
  {
    RaiseRaise(d, w - k, k);
    ShiftRaise(c, Raise(d, w - k), k);
  }

  lemma {:induction false} ShiftZero(k: nat)
    ensures Shift(0, k) == 0 == Raise(0, k)
    decreases k
  {
    if k == 0 {
    } else {
      ShiftZero(k - 1);
    }
  }

  lemma {:induction false} MaskShift(v: nat, k: nat)
    ensures Shift(Mask(v, k), k) == Shift(v, k)
  {
    ShiftRaise(0, Shift(v, k), k);
    ShiftZero(k);
  }

  lemma {:induction false} RaiseMonotone(b: nat, c: nat, k: nat)
    requires b <= c
    ensures Raise(b, k) <= Raise(c, k)
    decreases k
  {
    if k == 0 {
    } else {
      RaiseMonotone(b, c, k - 1);
    }
  }

  lemma {:induction false} ShiftMonotone(v: nat, w: nat, k: nat)
    requires v <= w
    ensures Shift(v, k) <= Shift(w, k)
    decreases k
  {
    if k == 0 {
    } else {
      ShiftMonotone(v / 2, w / 2, k - 1);
    }
  }

  lemma {:induction false} MaskBelow(v: nat, k: nat)
    ensures Mask(v, k) <= v
    decreases k
  {
    if k == 0 {
    } else {
      MaskBelow(v / 2, k - 1);
    }
  }

  /** Clearing k low bits keeps every coarser block number. */
  lemma {:induction false} MaskKeepsCoarser(v: nat, j: nat, k: nat)
    requires j <= k
    ensures Shift(Mask(v, j), k) == Shift(v, k)
  {
    MaskShift(v, j);
    ShiftShift(Mask(v, j), j, k - j);
    ShiftShift(v, j, k - j);
  }

  /** Masks compose: the coarser one wins. */
  lemma {:induction false} MaskMask(v: nat, j: nat, k: nat)
    requires j <= k
    ensures Mask(Mask(v, j), k) == Mask(v, k)
  {
    MaskKeepsCoarser(v, j, k);
  }

  /** An aligned number stays aligned for every finer block size. */
  lemma {:induction false} AlignedFiner(v: nat, j: nat, k: nat)
    requires j <= k && Mask(v, k) == v
    ensures Mask(v, j) == v
    decreases j
  {
    if j == 0 {
    } else {
      assert v == 2 * Mask(v / 2, k - 1);
      assert Mask(v / 2, k - 1) == v / 2;
      AlignedFiner(v / 2, j - 1, k - 1);
    }
  }

  /** A number aligned to 2^k has an even quotient by any smaller power. */
  lemma AlignedEven(v: nat, w: nat, k: nat)
    requires w < k && Mask(v, k) == v
    ensures Shift(v, w) % 2 == 0
  {
    var n := Shift(v, k);
    RaiseRaise(n, k - w, w);
    ShiftZero(w);
    ShiftRaise(0, Raise(n, k - w), w);
    assert Raise(n, k - w) == 2 * Raise(n, k - w - 1);
  }

  /** Equal coarse numbers follow from equal fine numbers. */
  lemma ShiftEqual(v: nat, w: nat, j: nat, k: nat)
    requires j <= k && Shift(v, j) == Shift(w, j)
    ensures Shift(v, k) == Shift(w, k)
  {
    ShiftShift(v, j, k - j);
    ShiftShift(w, j, k - j);
  }

  /** Below 2^k exactly when nothing is left after shifting. */
  lemma {:induction false} ShiftSmall(v: nat, k: nat)
    ensures Shift(v, k) == 0 <==> v < Raise(1, k)
    decreases k
  {
    if k == 0 {
    } else {
      ShiftSmall(v / 2, k - 1);
    }
  }

  lemma RaiseByte(b: nat, k: nat)
    ensures Raise(b, k + 8) == 256 * Raise(b, k)
  {
    assert Raise(b, k + 4) == 16 * Raise(b, k) by {
      assert Raise(b, k + 1) == 2 * Raise(b, k);
      assert Raise(b, k + 2) == 2 * Raise(b, k + 1);
      assert Raise(b, k + 3) == 2 * Raise(b, k + 2);
    }
    assert Raise(b, k + 5) == 2 * Raise(b, k + 4);
    assert Raise(b, k + 6) == 2 * Raise(b, k + 5);
    assert Raise(b, k + 7) == 2 * Raise(b, k + 6);
  }

  lemma RaiseWord(b: nat, k: nat)
    ensures Raise(b, k + 32) == 0x1_0000_0000 * Raise(b, k)
  {
    RaiseByte(b, k);
    RaiseByte(b, k + 8);
    RaiseByte(b, k + 16);
    RaiseByte(b, k + 24);
  }

  lemma Raise32(b: nat)
    ensures Raise(b, 32) == 0x1_0000_0000 * b
  {
    RaiseWord(b, 0);
  }

  lemma Raise128(b: nat)
    ensures Raise(b, 128) == 0x1_0000_0000_0000_0000_0000_0000_0000_0000 * b
  {
    RaiseWord(b, 0);
    assert Raise(b, 32) == 0x1_0000_0000 * b;
    RaiseWord(b, 32);
    assert Raise(b, 64) == 0x1_0000_0000_0000_0000 * b;
    RaiseWord(b, 64);
    assert Raise(b, 96) == 0x1_0000_0000_0000_0000_0000_0000 * b;
    RaiseWord(b, 96);
  }
}
