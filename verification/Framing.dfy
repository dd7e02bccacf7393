/** The byte formats of a file segment: variable-length integers, big-endian words, framed records. */
module Framing {
  import opened Bytes

  // ---- Unsigned varints and big-endian words ----------------------------------

  function PutUvarint(x: nat): (b: Bytes)
    ensures |b| > 0
  {
    if x < 128 then [x as byte] else [(x % 128 + 128) as byte] + PutUvarint(x / 128)
  }

  /** The value at o and the number of bytes it takes; 0 bytes when the data ends first. */
  function Uvarint(d: Bytes, o: nat): (r: (nat, nat))
    ensures r.1 > 0 ==> o + r.1 <= |d|
    decreases |d| - o
  {
    if o >= |d| then (0, 0)
    else if d[o] < 128 then (d[o] as nat, 1)
    else
      var (x, n) := Uvarint(d, o + 1);
      if n == 0 then (0, 0) else (d[o] as nat - 128 + 128 * x, n + 1)
  }

  /** The bytes at o of d are exactly b. */
  predicate Reads(d: Bytes, o: nat, b: Bytes) {
    o + |b| <= |d| && d[o..o + |b|] == b
  }

  lemma {:induction false} ReadsPart(d: Bytes, o: nat, a: Bytes, b: Bytes)
    requires Reads(d, o, a + b)
    ensures Reads(d, o, a) && Reads(d, o + |a|, b)
  {
    assert d[o..o + |a + b|][..|a|] == d[o..o + |a|];
    assert d[o..o + |a + b|][|a|..] == d[o + |a|..o + |a| + |b|];
    assert (a + b)[..|a|] == a && (a + b)[|a|..] == b;
  }

  lemma {:induction false} ReadsMore(d: Bytes, o: nat, a: Bytes, b: Bytes)
    requires Reads(d, o, a) && |d| == o + |a|
    ensures Reads(d + b, o, a + b)
  {
    assert (d + b)[o..] == d[o..] + b && d[o..] == a;
  }

  lemma {:induction false} UvarintReads(d: Bytes, o: nat, x: nat)
    requires Reads(d, o, PutUvarint(x))
    ensures Uvarint(d, o) == (x, |PutUvarint(x)|)
    decreases x
  {
    assert d[o] == d[o..o + |PutUvarint(x)|][0];
    if x >= 128 {
      ReadsPart(d, o, [(x % 128 + 128) as byte], PutUvarint(x / 128));
      UvarintReads(d, o + 1, x / 128);
    }
  }

  function Pow256(n: nat): nat {
    if n == 0 then 1 else 256 * Pow256(n - 1)
  }

  function BigEndian(x: nat, n: nat): (b: Bytes)
    ensures |b| == n
    decreases n
  {
    if n == 0 then [] else BigEndian(x / 256, n - 1) + [(x % 256) as byte]
  }

  function FromBigEndian(b: Bytes): nat {
    if b == [] then 0 else 256 * FromBigEndian(b[..|b| - 1]) + b[|b| - 1] as nat
  }

  lemma {:induction false} BigEndianReads(x: nat, n: nat)
    requires x < Pow256(n)
    ensures FromBigEndian(BigEndian(x, n)) == x
  {
    if n > 0 {
      BigEndianReads(x / 256, n - 1);
      var b := BigEndian(x, n);
      assert b[..|b| - 1] == BigEndian(x / 256, n - 1);
    }
  }

  /** The 64-bit word at o. */
  function Word(d: Bytes, o: nat): nat
    requires o + 8 <= |d|
  {
    FromBigEndian(d[o..o + 8])
  }

  function PutWord(x: nat): (b: Bytes)
    ensures |b| == 8
  {
    BigEndian(x, 8)
  }

  lemma {:induction false} WordReads(d: Bytes, o: nat, x: nat)
    requires x < TWO_64 && Reads(d, o, PutWord(x))
    ensures Word(d, o) == x
  {
    assert Pow256(4) == 0x1_0000_0000;
    assert Pow256(8) == TWO_64;
    BigEndianReads(x, 8);
  }

  // ---- Frames and records -----------------------------------------------------

  function Frame(b: Bytes): (f: Bytes)
    ensures |f| > |b|
  {
    PutUvarint(|b|) + b
  }

  /** The payload framed at o, empty when the frame runs past the data. */
  function Payload(d: Bytes, o: nat): Bytes {
    var (n, sz) := Uvarint(d, o);
    if o + sz + n <= |d| then d[o + sz..o + sz + n] else []
  }

  /** The offset just past the frame at o. */
  function FrameEnd(d: Bytes, o: nat): nat {
    var (n, sz) := Uvarint(d, o);
    o + sz + n
  }

  lemma {:induction false} FrameReads(d: Bytes, o: nat, b: Bytes)
    requires Reads(d, o, Frame(b))
    ensures Payload(d, o) == b && FrameEnd(d, o) == o + |Frame(b)|
  {
    ReadsPart(d, o, PutUvarint(|b|), b);
    UvarintReads(d, o, |b|);
  }

  type Pair = (Bytes, Bytes)

  function Record(p: Pair): (r: Bytes)
    ensures |r| > 0
  {
    Frame(p.0) + Frame(p.1)
  }

  function Body(ps: seq<Pair>): Bytes {
    if ps == [] then [] else Body(ps[..|ps| - 1]) + Record(ps[|ps| - 1])
  }

  const HEADER_SIZE: nat := 36

  /** File offset of the i-th record. */
  function Off(ps: seq<Pair>, i: nat): (o: nat)
    requires i <= |ps|
    ensures o >= HEADER_SIZE
  {
    HEADER_SIZE + |Body(ps[..i])|
  }

  /** File offset just past the records. */
  function End(ps: seq<Pair>): nat {
    HEADER_SIZE + |Body(ps)|
  }

  lemma {:induction false} OffEnd(ps: seq<Pair>)
    ensures Off(ps, |ps|) == End(ps)
  {
    assert ps[..|ps|] == ps;
  }

  /** The records of d, after the header, are those of ps. */
  predicate HoldsBody(d: Bytes, ps: seq<Pair>) {
    Reads(d, HEADER_SIZE, Body(ps))
  }

  lemma {:induction false} BodyAppend(ps: seq<Pair>, p: Pair)
    ensures Body(ps + [p]) == Body(ps) + Record(p)
    ensures forall i :: 0 <= i <= |ps| ==> Off(ps + [p], i) == Off(ps, i)
  {
    assert (ps + [p])[..|ps|] == ps;
    assert forall i :: 0 <= i <= |ps| ==> (ps + [p])[..i] == ps[..i];
  }

  lemma {:induction false} BodyParts(d: Bytes, ps: seq<Pair>, i: nat)
    requires HoldsBody(d, ps) && i < |ps|
    ensures Reads(d, Off(ps, i), Record(ps[i])) && Off(ps, i + 1) == Off(ps, i) + |Record(ps[i])|
    ensures Off(ps, i + 1) <= End(ps)
  {
    var last := |ps| - 1;
    ReadsPart(d, HEADER_SIZE, Body(ps[..last]), Record(ps[last]));
    assert ps[..|ps|] == ps;
    if i == last {
      assert ps[..i + 1] == ps;
    } else {
      BodyParts(d, ps[..last], i);
      assert ps[..last][..i] == ps[..i] && ps[..last][..i + 1] == ps[..i + 1] && ps[..last][..last] == ps[..last];
    }
  }

  lemma {:induction false} RecordParts(d: Bytes, o: nat, p: Pair)
    requires Reads(d, o, Record(p))
    ensures Reads(d, o, Frame(p.0)) && Reads(d, o + |Frame(p.0)|, Frame(p.1))
    ensures |Record(p)| == |Frame(p.0)| + |Frame(p.1)|
  {
    ReadsPart(d, o, Frame(p.0), Frame(p.1));
  }

  lemma {:induction false} RecordAt(d: Bytes, o: nat, p: Pair)
    requires Reads(d, o, Record(p))
    ensures Payload(d, o) == p.0 && Payload(d, FrameEnd(d, o)) == p.1
    ensures o < FrameEnd(d, o) < FrameEnd(d, FrameEnd(d, o)) == o + |Record(p)|
  {
    RecordParts(d, o, p);
    FrameReads(d, o, p.0);
    FrameReads(d, FrameEnd(d, o), p.1);
  }

  /** Reading the i-th record back gives its key and value, and leads to the next. */
  lemma {:induction false} RecordReads(d: Bytes, ps: seq<Pair>, i: nat)
    requires HoldsBody(d, ps) && i < |ps|
    ensures var o := Off(ps, i);
            && Payload(d, o) == ps[i].0
            && Payload(d, FrameEnd(d, o)) == ps[i].1
            && FrameEnd(d, FrameEnd(d, o)) == Off(ps, i + 1)
            && o < FrameEnd(d, o) < Off(ps, i + 1) <= End(ps)
  {
    BodyParts(d, ps, i);
    RecordAt(d, Off(ps, i), ps[i]);
  }

  lemma {:induction false} OffGrows(ps: seq<Pair>, i: nat, j: nat)
    requires i < j <= |ps|
    ensures Off(ps, i) < Off(ps, j)
    decreases j
  {
    assert ps[..j][..j - 1] == ps[..j - 1];
    if i < j - 1 { OffGrows(ps, i, j - 1); }
  }
}
