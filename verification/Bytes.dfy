/** Bytes and fixed-width big-endian numbers. */
module Bytes {

  type Byte = b: int | 0 <= b < 256

  function Cap(n: nat): nat {
    if n == 0 then 1 else 256 * Cap(n - 1)
  }

  /** v in n bytes, most significant first. */
  function Be(n: nat, v: nat): (bs: seq<Byte>)
    ensures |bs| == n
  {
    if n == 0 then [] else Be(n - 1, v / 256) + [v % 256]
  }

  function Value(bs: seq<Byte>): nat {
    if bs == [] then 0 else 256 * Value(bs[..|bs| - 1]) + bs[|bs| - 1]
  }

  lemma {:induction false} ValueOfBe(n: nat, v: nat)
    requires v < Cap(n)
    ensures Value(Be(n, v)) == v
  {
    if n == 0 {
    } else {
      ValueOfBe(n - 1, v / 256);
      assert Be(n, v)[..n - 1] == Be(n - 1, v / 256);
    }
  }

  lemma {:induction false} BeOfValue(bs: seq<Byte>)
    ensures Value(bs) < Cap(|bs|)
    ensures Be(|bs|, Value(bs)) == bs
  {
    if bs == [] {
    } else {
      BeOfValue(bs[..|bs| - 1]);
    }
  }

  lemma Caps()
    ensures Cap(4) == 0x1_0000_0000
    ensures Cap(16) == 0x1_0000_0000_0000_0000_0000_0000_0000_0000
  {
    assert Cap(3) == 0x100_0000;
    assert Cap(8) == 0x1_0000_0000_0000_0000 by {
      assert Cap(7) == 256 * Cap(6);
      assert Cap(6) == 256 * Cap(5);
    }
    assert Cap(12) == 0x1_0000_0000_0000_0000_0000_0000 by {
      assert Cap(11) == 256 * Cap(10);
      assert Cap(10) == 256 * Cap(9);
    }
    assert Cap(15) == 256 * Cap(14);
    assert Cap(14) == 256 * Cap(13);
  }
}
