/** Segment names of block data (ethdb/ethdb.go): keys are grouped by block number and the
    group's first number names the segment, in fixed-width hexadecimal. */
module Partition {
  import opened Bytes
  import opened Framing

  /** The block number a key encodes; only five key prefixes carry one. */
  function KeyBlockNumber(key: Bytes): (nat, bool) {
    if |key| < 9 then (0, false)
    else if key[0] in {104, 116, 110, 98, 114} then (Word(key, 1), true)
    else (0, false)
  }

  function HexDigit(x: nat): char
    requires x < 16
  {
    "0123456789abcdef"[x]
  }

  /** The low w hexadecimal digits of n. */
  function Hex(n: nat, w: nat): (s: string)
    ensures |s| == w
    decreases w
  {
    if w == 0 then "" else Hex(n / 16, w - 1) + [HexDigit(n % 16)]
  }

  /** First block number of the group of n; a zero size groups nothing. */
  function Group(size: nat, n: nat): nat {
    if size > 0 then n - n % size else n
  }

  function SegmentName(size: nat, key: Bytes): string {
    Hex(Group(size, KeyBlockNumber(key).0), 16)
  }

  /** Go's string order. */
  predicate Less(a: string, b: string) {
    b != "" && (a == "" || a[0] < b[0] || (a[0] == b[0] && Less(a[1..], b[1..])))
  }

  lemma {:induction false} LessTotal(a: string, b: string)
    ensures a == b || Less(a, b) || Less(b, a)
  {
    if a != "" && b != "" && a[0] == b[0] {
      LessTotal(a[1..], b[1..]);
      assert a == [a[0]] + a[1..] && b == [b[0]] + b[1..];
    }
  }

  lemma {:induction false} LessOrder(a: string, b: string, c: string)
    ensures !Less(a, a)
    ensures Less(a, b) ==> !Less(b, a)
    ensures Less(a, b) && Less(b, c) ==> Less(a, c)
  {
    if a != "" {
      LessOrder(a[1..], if b != "" then b[1..] else "", if c != "" then c[1..] else "");
    }
  }

  lemma {:induction false} LessSnoc(a: string, b: string, x: char, y: char)
    requires |a| == |b|
    ensures Less(a + [x], b + [y]) <==> Less(a, b) || (a == b && x < y)
  {
    if a == "" {
      assert a + [x] == [x] && b + [y] == [y];
    } else {
      LessSnoc(a[1..], b[1..], x, y);
      assert (a + [x])[1..] == a[1..] + [x] && (b + [y])[1..] == b[1..] + [y];
      assert a == [a[0]] + a[1..] && b == [b[0]] + b[1..];
    }
  }

  function Pow16(w: nat): nat {
    if w == 0 then 1 else 16 * Pow16(w - 1)
  }

  /** Fixed-width names order, and are equal, exactly as the numbers do. */
  lemma {:induction false} HexOrder(a: nat, b: nat, w: nat)
    requires a < Pow16(w) && b < Pow16(w)
    ensures Less(Hex(a, w), Hex(b, w)) <==> a < b
    ensures Hex(a, w) == Hex(b, w) <==> a == b
    decreases w
  {
    if w > 0 {
      HexOrder(a / 16, b / 16, w - 1);
      LessSnoc(Hex(a / 16, w - 1), Hex(b / 16, w - 1), HexDigit(a % 16), HexDigit(b % 16));
      DigitOrder(a % 16, b % 16);
      SnocEqual(Hex(a / 16, w - 1), Hex(b / 16, w - 1), HexDigit(a % 16), HexDigit(b % 16));
    }
  }

  lemma DigitOrder(x: nat, y: nat)
    requires x < 16 && y < 16
    ensures HexDigit(x) < HexDigit(y) <==> x < y
    ensures HexDigit(x) == HexDigit(y) <==> x == y
  {}

  lemma {:induction false} SnocEqual(a: string, b: string, x: char, y: char)
    requires |a| == |b|
    ensures a + [x] == b + [y] <==> a == b && x == y
  {
    if a + [x] == b + [y] {
      assert (a + [x])[..|a|] == (b + [y])[..|b|];
      assert (a + [x])[|a|] == (b + [y])[|b|];
    }
  }

  lemma {:induction false} WordBelow(b: Bytes)
    ensures FromBigEndian(b) < Pow256(|b|)
  {
    if b != [] { WordBelow(b[..|b| - 1]); }
  }

  /** Segment names compare as the first block numbers of the groups do, and a key in an earlier
      group never has a later block. */
  lemma NamesFollowBlocks(size: nat, k1: Bytes, k2: Bytes)
    ensures var a, b := KeyBlockNumber(k1).0, KeyBlockNumber(k2).0;
            && (Less(SegmentName(size, k1), SegmentName(size, k2)) <==> Group(size, a) < Group(size, b))
            && (SegmentName(size, k1) == SegmentName(size, k2) <==> Group(size, a) == Group(size, b))
            && (Less(SegmentName(size, k1), SegmentName(size, k2)) ==> a < b)
  {
    var a, b := KeyBlockNumber(k1).0, KeyBlockNumber(k2).0;
    BlockBelow(k1);
    BlockBelow(k2);
    HexOrder(Group(size, a), Group(size, b), 16);
    if size > 0 { GroupMonotone(size, a, b); }
  }

  lemma {:induction false} BlockBelow(key: Bytes)
    ensures KeyBlockNumber(key).0 < Pow16(16)
  {
    assert Pow16(4) == 0x1_0000;
    assert Pow16(8) == 0x1_0000_0000;
    assert Pow16(12) == 0x1_0000_0000_0000;
    assert Pow16(16) == TWO_64;
    assert Pow256(4) == 0x1_0000_0000;
    assert Pow256(8) == TWO_64;
    if |key| >= 9 { WordBelow(key[1..9]); }
  }

  lemma GroupMonotone(size: nat, a: nat, b: nat)
    requires size > 0
    ensures Group(size, a) < Group(size, b) ==> a < b
  {
    var qa, qb := a / size, b / size;
    assert Group(size, a) == qa * size && Group(size, b) == qb * size;
    if b <= a {
      DivMonotone(b, a, size);
      MulMonotone(qb, qa, size);
    }
  }

  lemma DivMonotone(a: nat, b: nat, c: nat)
    requires c > 0 && a <= b
    ensures a / c <= b / c
  {
    if a / c > b / c {
      MulMonotone(b / c + 1, a / c, c);
    }
  }

  lemma MulMonotone(a: nat, b: nat, c: nat)
    requires a <= b
    ensures a * c <= b * c
  {}
}
