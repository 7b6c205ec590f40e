/** Fixed-width integers as bytes, in both byte orders. */
module ByteOrders {
  type Byte = x: int | 0 <= x < 256

  datatype ByteOrder = LittleEndian | BigEndian

  /** The number of values that `n` bytes hold. */
  function Values(n: nat): (v: nat)
    ensures v > 0
  {
    if n == 0 then 1 else 256 * Values(n - 1)
  }

  /**
    The low `n` bytes, least significant first. Division rounds down, so a negative value
    gives its two's complement and a value too large loses its high bytes.
  */
  function Little(v: int, n: nat): (bs: seq<Byte>)
    ensures |bs| == n
    decreases n, v
  {
    if n == 0 then [] else [v % 256] + Little(v / 256, n - 1)
  }

  function LittleValue(bs: seq<Byte>): nat {
    if bs == [] then 0 else bs[0] + 256 * LittleValue(bs[1..])
  }

  function Reversed(bs: seq<Byte>): (r: seq<Byte>)
    ensures |r| == |bs|
  {
    if bs == [] then [] else Reversed(bs[1..]) + [bs[0]]
  }

  /** A signed or unsigned value converted to `n` bytes, in either order. */
  function Put(order: ByteOrder, v: int, n: nat): (bs: seq<Byte>)
    ensures |bs| == n
  {
    if order.LittleEndian? then Little(v, n) else Reversed(Little(v, n))
  }

  function Get(order: ByteOrder, bs: seq<Byte>): nat {
    LittleValue(if order.LittleEndian? then bs else Reversed(bs))
  }

  /** The signed reading of an unsigned value of `n` bytes. */
  function Signed(u: nat, n: nat): int {
    if 2 * u < Values(n) then u else u - Values(n)
  }

  predicate FitsSigned(v: int, n: nat) {
    0 <= 2 * v + Values(n) && 2 * v < Values(n)
  }

  lemma {:induction false} LittleRoundTrip(v: int, n: nat)
    requires 0 <= v + Values(n) && v < Values(n)
    ensures LittleValue(Little(v, n)) == if v < 0 then v + Values(n) else v
    decreases n
  {
    if n > 0 {
      LittleRoundTrip(v / 256, n - 1);
      assert Little(v, n)[1..] == Little(v / 256, n - 1);
    }
  }

  /** Adding a multiple of what fits changes none of the bytes. */
  lemma {:induction false} LittleWraps(v: int, n: nat)
    ensures Little(v + Values(n), n) == Little(v, n)
    decreases n
  {
    if n > 0 {
      assert (v + 256 * Values(n - 1)) / 256 == v / 256 + Values(n - 1);
      LittleWraps(v / 256, n - 1);
    }
  }

  lemma {:induction false} LittleValueBound(bs: seq<Byte>)
    ensures LittleValue(bs) < Values(|bs|)
    ensures Little(LittleValue(bs), |bs|) == bs
  {
    if bs != [] {
      LittleValueBound(bs[1..]);
      assert LittleValue(bs) / 256 == LittleValue(bs[1..]) && LittleValue(bs) % 256 == bs[0];
    }
  }

  lemma {:induction false} ReversedLast(bs: seq<Byte>, b: Byte)
    ensures Reversed(bs + [b]) == [b] + Reversed(bs)
  {
    if bs != [] {
      ReversedLast(bs[1..], b);
      assert (bs + [b])[1..] == bs[1..] + [b];
    } else {
      assert [] + [b] == [b];
    }
  }

  lemma {:induction false} ReversedTwice(bs: seq<Byte>)
    ensures Reversed(Reversed(bs)) == bs
  {
    if bs != [] {
      ReversedTwice(bs[1..]);
      ReversedLast(Reversed(bs[1..]), bs[0]);
    }
  }

  /** Reading back what was written; negative values come back through their sign. */
  lemma PutGet(order: ByteOrder, v: int, n: nat)
    requires 0 <= v + Values(n) && v < Values(n)
    ensures Get(order, Put(order, v, n)) == if v < 0 then v + Values(n) else v
  {
    LittleRoundTrip(v, n);
    ReversedTwice(Little(v, n));
  }

  lemma PutGetSigned(order: ByteOrder, v: int, n: nat)
    requires FitsSigned(v, n)
    ensures Signed(Get(order, Put(order, v, n)), n) == v
  {
    PutGet(order, v, n);
  }

  /** Writing back what was read. */
  lemma GetPut(order: ByteOrder, bs: seq<Byte>)
    ensures Get(order, bs) < Values(|bs|) && Put(order, Get(order, bs), |bs|) == bs
  {
    LittleValueBound(bs);
    LittleValueBound(Reversed(bs));
    ReversedTwice(bs);
  }

  lemma GetPutSigned(order: ByteOrder, bs: seq<Byte>)
    requires bs != []
    ensures var v := Signed(Get(order, bs), |bs|);
            FitsSigned(v, |bs|) && Put(order, v, |bs|) == bs
  {
    GetPut(order, bs);
    LittleWraps(Get(order, bs) - Values(|bs|), |bs|);
    assert Values(|bs|) == 2 * (128 * Values(|bs| - 1));
  }

  lemma Widths()
    ensures Values(1) == 0x100 && Values(2) == 0x1_0000 && Values(4) == 0x1_0000_0000
  {
    assert Values(3) == 256 * Values(2);
  }

  lemma QuotientIs(v: int, q: int, r: int, m: int)
    requires 0 <= r < m && v == q * m + r
    ensures v / m == q
  {
    var d := v / m - q;
    assert d * m == r - v % m;
    assert d >= 1 ==> d * m >= m;
    assert d <= -1 ==> d * m + m <= 0;
  }

  lemma QuotientTwice(v: int, m: nat)
    requires 0 < m
    ensures v / 256 / m == v / (256 * m)
  {
    var q := v / 256 / m;
    var r := v / 256 % m;
    assert v / 256 == q * m + r;
    Regroup(q, m);
    QuotientIs(v, q, 256 * r + v % 256, 256 * m);
  }

  lemma Regroup(q: int, m: int)
    ensures 256 * (q * m) == q * (256 * m)
  {
  }

  lemma {:induction false} LittleAt(v: int, n: nat, i: nat)
    requires i < n
    ensures Little(v, n)[i] == v / Values(i) % 256
    decreases n
  {
    if i > 0 {
      LittleAt(v / 256, n - 1, i - 1);
      QuotientTwice(v, Values(i - 1));
    }
  }

  lemma {:induction false} ReversedAt(bs: seq<Byte>, i: nat)
    requires i < |bs|
    ensures Reversed(bs)[|bs| - 1 - i] == bs[i]
  {
    if i > 0 {
      ReversedAt(bs[1..], i - 1);
    }
  }

  /** Byte `i` of the value, counted from the low end, is byte `i` from the front or from the back. */
  lemma ByteAt(v: int, n: nat, i: nat)
    requires i < n
    ensures Put(LittleEndian, v, n)[i] == v / Values(i) % 256
    ensures Put(BigEndian, v, n)[n - 1 - i] == v / Values(i) % 256
  {
    LittleAt(v, n, i);
    ReversedAt(Little(v, n), i);
  }
}
