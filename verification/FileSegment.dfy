/**
 Immutable file segments (ethdb/file_segment.go): a 36-byte header, the framed
 records, and the Robin Hood index over the record offsets.
 */
module FileSegment {
  import opened Bytes
  import opened Framing
  import opened RobinHood

  type Hash = Bytes -> nat

  const MAGIC: Bytes := [69, 84, 72, 49]

  // ---- The file as bytes --------------------------------------------------------

  function IndexOffset(d: Bytes): nat requires |d| >= HEADER_SIZE { Word(d, 12) }
  function Len(d: Bytes): nat requires |d| >= HEADER_SIZE { Word(d, 20) }
  function Cap(d: Bytes): nat requires |d| >= HEADER_SIZE { Word(d, 28) }

  /** The file has the size its header announces. */
  predicate Sized(d: Bytes) {
    |d| >= HEADER_SIZE && Cap(d) > 0 && |d| == IndexOffset(d) + 8 * Cap(d)
  }

  function SlotsOf(d: Bytes): (t: Slots)
    requires Sized(d)
    ensures |t| == Cap(d)
    ensures forall i :: 0 <= i < |t| ==> t[i] == Word(d, IndexOffset(d) + 8 * i)
  {
    seq(Cap(d), i requires 0 <= i < Cap(d) => Word(d, IndexOffset(d) + 8 * i))
  }

  function KeyReader(d: Bytes): (f: nat -> Bytes)
    ensures forall o :: f(o) == Payload(d, o)
  {
    (o: nat) => Payload(d, o)
  }

  /** The keys of a file, and their home slots in an index of the given capacity. */
  function Src(d: Bytes, hash: Hash, capacity: nat): Source
    requires capacity > 0
  {
    MakeSource(KeyReader(d), hash, capacity)
  }

  // ---- The key/value pairs a file stands for ---------------------------------------

  ghost predicate DistinctPairs(ps: seq<Pair>) {
    forall i, j :: 0 <= i < j < |ps| ==> ps[i].0 != ps[j].0
  }

  function Keys(ps: seq<Pair>): set<Bytes> {
    set i | 0 <= i < |ps| :: ps[i].0
  }

  function ToMap(ps: seq<Pair>): (m: map<Bytes, Bytes>)
    ensures m.Keys == Keys(ps)
    ensures DistinctPairs(ps) ==> forall i :: 0 <= i < |ps| ==> m[ps[i].0] == ps[i].1
  {
    if ps == [] then map[]
    else
      var last := ps[|ps| - 1];
      var m := ToMap(ps[..|ps| - 1])[last.0 := last.1];
      assert forall i :: 0 <= i < |ps| - 1 ==> ps[..|ps| - 1][i] == ps[i];
      m
  }

  ghost predicate SlotsMatch(t: Slots, ps: seq<Pair>) {
    && (forall i :: 0 <= i < |ps| ==> Off(ps, i) in t)
    && (forall s :: 0 <= s < |t| && t[s] != 0 ==> exists i :: 0 <= i < |ps| && t[s] == Off(ps, i))
  }

  /** The header and the records of d are those of ps. */
  ghost predicate Framed(d: Bytes, ps: seq<Pair>) {
    && Sized(d) && HoldsBody(d, ps) && IndexOffset(d) == End(ps) && Len(d) == |ps|
  }

  /** The index of d finds the records of ps. */
  ghost predicate Indexed(d: Bytes, hash: Hash, ps: seq<Pair>)
    requires Sized(d)
  {
    Valid(Src(d, hash, Cap(d)), SlotsOf(d)) && SlotsMatch(SlotsOf(d), ps)
  }

  /** d is a complete file segment holding ps, under hash function hash. */
  ghost predicate Encodes(d: Bytes, hash: Hash, ps: seq<Pair>) {
    Framed(d, ps) && DistinctPairs(ps) && Indexed(d, hash, ps)
  }

  /** d is a complete file segment whose content is the map m. */
  ghost predicate Represents(d: Bytes, hash: Hash, m: map<Bytes, Bytes>) {
    exists ps: seq<Pair> :: Encodes(d, hash, ps) && ToMap(ps) == m
  }

  lemma {:induction false} PresentIsKey(d: Bytes, hash: Hash, ps: seq<Pair>, key: Bytes)
    requires Encodes(d, hash, ps)
    ensures Present(Src(d, hash, Cap(d)), SlotsOf(d), key) <==> key in Keys(ps)
  {
    var src, t := Src(d, hash, Cap(d)), SlotsOf(d);
    if key in Keys(ps) {
      var i :| 0 <= i < |ps| && ps[i].0 == key;
      RecordReads(d, ps, i);
      var s :| 0 <= s < |t| && t[s] == Off(ps, i);
      assert Holds(src, t, s, key);
    }
    if Present(src, t, key) {
      var s: nat :| Holds(src, t, s, key);
      var i :| 0 <= i < |ps| && t[s] == Off(ps, i);
      RecordReads(d, ps, i);
    }
  }

  // ---- Lookup ---------------------------------------------------------------------

  /** The slots up to n places from the key's home do not hold the key. */
  ghost predicate Missed(src: Source, t: Slots, key: Bytes, n: nat)
    requires Fits(src, |t|) && n <= |t|
  {
    forall j :: 0 <= j < n ==> !Holds(src, t, At(src.home(key), j, |t|), key)
  }

  lemma {:induction false} MissedOne(src: Source, t: Slots, key: Bytes, n: nat)
    requires Fits(src, |t|) && n < |t| && Missed(src, t, key, n)
    requires !Holds(src, t, At(src.home(key), n, |t|), key)
    ensures Missed(src, t, key, n + 1)
  {}

  /** Probes from the key's home; the offset of its record, or 0. */
  method Search(d: Bytes, hash: Hash, key: Bytes) returns (offset: nat)
    requires Sized(d) && Valid(Src(d, hash, Cap(d)), SlotsOf(d))
    ensures offset != 0 <==> Present(Src(d, hash, Cap(d)), SlotsOf(d), key)
    ensures offset != 0 ==> offset in SlotsOf(d) && Payload(d, offset) == key
  {
    var capacity := Cap(d);
    ghost var src, t := Src(d, hash, capacity), SlotsOf(d);
    var pos := hash(key) % capacity;
    var n := 0;
    while true
      invariant n <= capacity && pos == At(src.home(key), n, capacity)
      invariant Missed(src, t, key, n)
      decreases capacity - n
    {
      offset := Word(d, IndexOffset(d) + 8 * pos);
      assert offset == t[pos];
      if offset == 0 {
        EarlyExit(src, t, key, n);
        return 0;
      }
      var curr := Payload(d, offset);
      if n > Dist(hash(curr), pos, capacity) {
        EarlyExit(src, t, key, n);
        return 0;
      } else if hash(curr) == hash(key) && curr == key {
        assert Holds(src, t, pos, key);
        return;
      }
      MissedOne(src, t, key, n);
      NextSlot(pos, capacity);
      pos := (pos + 1) % capacity;
      n := n + 1;
    }
  }

  /** The offsets of a key's frame and of its value's frame, or (0, 0). */
  method Offset(d: Bytes, hash: Hash, key: Bytes, ghost ps: seq<Pair>) returns (koff: nat, voff: nat)
    requires Encodes(d, hash, ps)
    ensures koff != 0 <==> key in Keys(ps)
    ensures koff == 0 ==> voff == 0
    ensures forall i :: 0 <= i < |ps| && ps[i].0 == key ==> koff == Off(ps, i) && voff == FrameEnd(d, koff)
  {
    PresentIsKey(d, hash, ps, key);
    koff := Search(d, hash, key);
    if koff == 0 { return 0, 0; }
    ghost var pos: nat :| pos < Cap(d) && SlotsOf(d)[pos] == koff;
    FoundAt(d, ps, koff, key, SlotsOf(d), pos);
    voff := FrameEnd(d, koff);
  }

  lemma {:induction false} FoundAt(d: Bytes, ps: seq<Pair>, offset: nat, key: Bytes, t: Slots, pos: nat)
    requires HoldsBody(d, ps) && DistinctPairs(ps) && SlotsMatch(t, ps)
    requires pos < |t| && t[pos] == offset != 0 && Payload(d, offset) == key
    ensures forall i :: 0 <= i < |ps| && ps[i].0 == key ==> offset == Off(ps, i)
  {
    var i :| 0 <= i < |ps| && t[pos] == Off(ps, i);
    RecordReads(d, ps, i);
  }

  datatype Lookup = Found(value: Bytes) | NotFound

  /** What a map answers to a lookup. */
  function Query(m: map<Bytes, Bytes>, key: Bytes): Lookup {
    if key in m then Found(m[key]) else NotFound
  }

  /** Reading a key through the index agrees with the map of the encoded pairs. */
  method Get(d: Bytes, hash: Hash, key: Bytes, ghost m: map<Bytes, Bytes>) returns (r: Lookup)
    requires Represents(d, hash, m)
    ensures r == Query(m, key)
  {
    ghost var ps: seq<Pair> :| Encodes(d, hash, ps) && ToMap(ps) == m;
    var koff, voff := Offset(d, hash, key, ps);
    if koff != 0 {
      ghost var i :| 0 <= i < |ps| && ps[i].0 == key;
      RecordReads(d, ps, i);
    }
    if voff == 0 {
      return NotFound;
    }
    r := Found(Payload(d, voff));
  }

  // ---- Iteration --------------------------------------------------------------------

  class Iterator {
    const data: Bytes
    var offset: nat
    var key: Bytes
    var value: Bytes
    ghost const pairs: seq<Pair>
    ghost var at: nat

    ghost predicate Valid() reads this {
      && at <= |pairs| && offset == Off(pairs, at)
      && HoldsBody(data, pairs) && |data| == End(pairs)
    }

    /** Over the record part of a complete segment. */
    constructor (d: Bytes, ghost ps: seq<Pair>)
      requires Framed(d, ps)
      ensures Valid() && pairs == ps && at == 0
    {
      data := d[..IndexOffset(d)];
      offset := HEADER_SIZE;
      key, value := [], [];
      pairs, at := ps, 0;
      assert ps[..|ps|] == ps && ps[..0] == [];
      assert d[..IndexOffset(d)][HEADER_SIZE..HEADER_SIZE + |Body(ps)|] == d[HEADER_SIZE..HEADER_SIZE + |Body(ps)|];
    }

    method Next() returns (more: bool)
      requires Valid()
      modifies this
      ensures Valid()
      ensures more <==> old(at) < |pairs|
      ensures more ==> at == old(at) + 1 && (key, value) == pairs[old(at)]
      ensures !more ==> at == old(at)
    {
      OffEnd(pairs);
      if offset >= |data| {
        if at < |pairs| { OffGrows(pairs, at, |pairs|); }
        return false;
      }
      RecordReads(data, pairs, at);
      key := Payload(data, offset);
      offset := FrameEnd(data, offset);
      value := Payload(data, offset);
      offset := FrameEnd(data, offset);
      at := at + 1;
      return true;
    }
  }
}
