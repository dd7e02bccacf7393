/**
 Writing a file segment (FileSegmentEncoder in ethdb/file_segment.go) and moving
 a LevelDB segment to a file and back (ethdb/ldb_segment.go).
 */
module Encoder {
  import opened Bytes
  import opened Framing
  import opened RobinHood
  import opened FileSegment

  /** Files stay far below the limits of Go's 64-bit int. */
  const MAX_OFFSET: nat := 0x100_0000_0000_0000

  // ---- The index as bytes -----------------------------------------------------------

  function IndexBytes(t: Slots): (b: Bytes)
    ensures |b| == 8 * |t|
  {
    if t == [] then [] else IndexBytes(t[..|t| - 1]) + PutWord(t[|t| - 1])
  }

  lemma {:induction false} IndexParts(d: Bytes, o: nat, t: Slots)
    requires Reads(d, o, IndexBytes(t)) && t != []
    ensures var last := |t| - 1;
      Reads(d, o, IndexBytes(t[..last])) && Reads(d, o + 8 * last, PutWord(t[last]))
  {
    var last := |t| - 1;
    ReadsPart(d, o, IndexBytes(t[..last]), PutWord(t[last]));
  }

  lemma {:induction false} SlotReads(d: Bytes, o: nat, t: Slots, i: nat)
    requires Reads(d, o, IndexBytes(t)) && i < |t|
    ensures Reads(d, o + 8 * i, PutWord(t[i]))
    decreases |t|
  {
    IndexParts(d, o, t);
    if i < |t| - 1 { SlotReads(d, o, t[..|t| - 1], i); }
  }

  lemma {:induction false} IndexReads(d: Bytes, o: nat, t: Slots, i: nat)
    requires Reads(d, o, IndexBytes(t)) && i < |t| && t[i] < TWO_64
    ensures o + 8 * i + 8 <= |d| && Word(d, o + 8 * i) == t[i]
  {
    SlotReads(d, o, t, i);
    WordReads(d, o + 8 * i, t[i]);
  }

  // ---- What the finished index must say of the records ----------------------------------

  function Offsets(ps: seq<Pair>, n: nat): (s: seq<nat>)
    requires n <= |ps|
    ensures |s| == n && forall i :: 0 <= i < n ==> s[i] == Off(ps, i)
  {
    seq(n, i requires 0 <= i < n => Off(ps, i))
  }

  /** The index holds the first n record offsets, and room for all. */
  ghost predicate Filled(t: Slots, ps: seq<Pair>, n: nat)
    requires n <= |ps|
  {
    |ps| <= |t| && multiset(t) == multiset(Offsets(ps, n)) + multiset{}[0 := |t| - n]
  }

  lemma {:induction false} FilledSlots(t: Slots, ps: seq<Pair>, n: nat)
    requires n <= |ps| && Filled(t, ps, n)
    ensures n < |ps| ==> 0 in t
    ensures forall i :: 0 <= i < n ==> Off(ps, i) in t
    ensures forall s :: 0 <= s < |t| && t[s] != 0 ==> exists i :: 0 <= i < n && t[s] == Off(ps, i)
  {
    var os := Offsets(ps, n);
    assert n < |ps| ==> 0 in multiset(t);
    forall i | 0 <= i < n ensures Off(ps, i) in t {
      assert os[i] in multiset(os);
      assert os[i] in multiset(t);
    }
    forall s | 0 <= s < |t| && t[s] != 0 ensures exists i :: 0 <= i < n && t[s] == Off(ps, i) {
      assert t[s] in multiset(t);
      assert t[s] in multiset(os);
    }
  }

  /** A key is in the index exactly when one of the records indexed so far has it. */
  lemma {:induction false} FilledKeys(src: Source, t: Slots, d: Bytes, ps: seq<Pair>, n: nat, key: Bytes)
    requires n <= |ps| && Filled(t, ps, n) && HoldsBody(d, ps)
    requires forall o :: src.keyAt(o) == Payload(d, o)
    ensures Present(src, t, key) <==> key in Keys(ps[..n])
  {
    FilledSlots(t, ps, n);
    if Present(src, t, key) {
      var s: nat :| Holds(src, t, s, key);
      var i :| 0 <= i < n && t[s] == Off(ps, i);
      RecordReads(d, ps, i);
      assert ps[..n][i].0 == key;
    }
    if key in Keys(ps[..n]) {
      var i :| 0 <= i < n && ps[..n][i].0 == key;
      RecordReads(d, ps, i);
      var s :| 0 <= s < |t| && t[s] == Off(ps, i);
      assert Holds(src, t, s, key);
    }
  }

  /** The next record's key is in the index exactly when an earlier record has it, and there is room. */
  lemma {:induction false} NextRecord(src: Source, t: Slots, d: Bytes, ps: seq<Pair>, n: nat)
    requires n < |ps| && Filled(t, ps, n) && HoldsBody(d, ps)
    requires forall o :: src.keyAt(o) == Payload(d, o)
    ensures 0 in t && (Present(src, t, src.keyAt(Off(ps, n))) <==> ps[n].0 in Keys(ps[..n]))
  {
    FilledSlots(t, ps, n);
    FilledKeys(src, t, d, ps, n, ps[n].0);
    RecordReads(d, ps, n);
  }

  lemma {:induction false} FilledNext(t: Slots, t': Slots, ps: seq<Pair>, n: nat)
    requires n < |ps| && Filled(t, ps, n) && |t'| == |t|
    requires multiset(t') == multiset(t) - multiset{0} + multiset{Off(ps, n)}
    ensures Filled(t', ps, n + 1)
  {
    assert Offsets(ps, n + 1) == Offsets(ps, n) + [Off(ps, n)];
  }

  /** Validity reads only the keys of occupied slots, so it carries over to the finished file. */
  lemma {:induction false} ValidTransfers(a: Source, b: Source, t: Slots)
    requires RobinHood.Valid(a, t)
    requires forall k :: a.home(k) == b.home(k)
    requires forall s :: 0 <= s < |t| && t[s] != 0 ==> a.keyAt(t[s]) == b.keyAt(t[s])
    ensures RobinHood.Valid(b, t)
  {
    forall i: nat | i < |t| ensures Backed(b, t, i) {
      assert Backed(a, t, i);
    }
  }

  lemma {:induction false} BodyLength(ps: seq<Pair>)
    ensures |ps| <= |Body(ps)|
  {
    if ps != [] { BodyLength(ps[..|ps| - 1]); }
  }

  /** The in-memory index over the records of file; refused when two records share a key. */
  method BuildIndex(file: Bytes, hash: Hash, offsets: seq<nat>, ghost ps: seq<Pair>)
    returns (ok: bool, t: Slots)
    requires HoldsBody(file, ps) && offsets == Offsets(ps, |ps|) && |ps| < MAX_OFFSET
    ensures ok <==> DistinctPairs(ps)
    ensures ok ==> 2 <= |t| <= 4 * MAX_OFFSET && Filled(t, ps, |ps|)
    ensures ok ==> RobinHood.Valid(Src(file, hash, |t|), t)
  {
    var fits, capacity := Pow2((|offsets| * 100) / 90);
    var idx := new EncoderIndex(KeyReader(file), hash, capacity);
    ghost var src := Src(file, hash, capacity);
    t := [];
    assert Filled(idx.elems[..], ps, 0);
    for n := 0 to |offsets|
      invariant fresh(idx.elems) && idx.Indexes() && idx.src == src
      invariant Filled(idx.elems[..], ps, n) && DistinctPairs(ps[..n])
    {
      ok := AddRecord(idx, file, offsets[n], ps, n);
      if !ok {
        PairTwice(ps, n);
        return;
      }
      OneMorePair(ps, n);
    }
    assert ps[..|ps|] == ps;
    ok, t := true, idx.elems[..];
  }

  /** The next record enters the index, unless an earlier one has its key. */
  method AddRecord(idx: EncoderIndex, ghost file: Bytes, offset: nat, ghost ps: seq<Pair>, ghost n: nat)
    returns (ok: bool)
    requires idx.Indexes() && n < |ps| && offset == Off(ps, n) && Filled(idx.elems[..], ps, n) && HoldsBody(file, ps)
    requires forall o :: idx.src.keyAt(o) == Payload(file, o)
    modifies idx.elems
    ensures idx.Indexes() && (ok <==> ps[n].0 !in Keys(ps[..n])) && (ok ==> Filled(idx.elems[..], ps, n + 1))
  {
    ghost var before := idx.elems[..];
    NextRecord(idx.src, before, file, ps, n);
    ok := idx.Insert(offset);
    if ok { FilledNext(before, idx.elems[..], ps, n); }
  }

  lemma {:induction false} PairTwice(ps: seq<Pair>, n: nat)
    requires n < |ps| && ps[n].0 in Keys(ps[..n])
    ensures !DistinctPairs(ps)
  {
    var i :| 0 <= i < n && ps[..n][i].0 == ps[n].0;
    assert ps[i].0 == ps[n].0;
  }

  lemma {:induction false} OneMorePair(ps: seq<Pair>, n: nat)
    requires n < |ps| && DistinctPairs(ps[..n]) && ps[n].0 !in Keys(ps[..n])
    ensures DistinctPairs(ps[..n + 1])
  {
    var qs := ps[..n + 1];
    forall i, j | 0 <= i < j < |qs| ensures qs[i].0 != qs[j].0 {
      assert ps[..n][i].0 in Keys(ps[..n]);
      if j < n { assert ps[..n][i].0 != ps[..n][j].0; }
    }
  }

  /** The finished file, put together from its parts. */
  function Assemble(cs: Bytes, body: Bytes, n: nat, t: Slots): Bytes
    requires |cs| == 8
  {
    MAGIC + (cs + Tail(body, n, t))
  }

  /** Everything after the checksum. */
  function Tail(body: Bytes, n: nat, t: Slots): Bytes {
    HeaderWords(HEADER_SIZE + |body|, n, |t|) + (body + IndexBytes(t))
  }

  function HeaderWords(indexOffset: nat, n: nat, capacity: nat): (b: Bytes)
    ensures |b| == 24
  {
    PutWord(indexOffset) + (PutWord(n) + PutWord(capacity))
  }

  lemma {:induction false} HeaderReads(d: Bytes, indexOffset: nat, n: nat, capacity: nat)
    requires indexOffset < TWO_64 && n < TWO_64 && capacity < TWO_64
    requires Reads(d, 12, HeaderWords(indexOffset, n, capacity))
    ensures IndexOffset(d) == indexOffset && Len(d) == n && Cap(d) == capacity
  {
    ReadsPart(d, 12, PutWord(indexOffset), PutWord(n) + PutWord(capacity));
    ReadsPart(d, 20, PutWord(n), PutWord(capacity));
    WordReads(d, 12, indexOffset);
    WordReads(d, 20, n);
    WordReads(d, 28, capacity);
  }

  /** The header, the records and the index of d are as written. */
  ghost predicate Laid(d: Bytes, body: Bytes, n: nat, t: Slots) {
    && |d| == HEADER_SIZE + |body| + 8 * |t|
    && IndexOffset(d) == HEADER_SIZE + |body| && Len(d) == n && Cap(d) == |t|
    && Reads(d, HEADER_SIZE, body) && Reads(d, HEADER_SIZE + |body|, IndexBytes(t))
  }

  lemma {:induction false} AssembledReads(cs: Bytes, body: Bytes, n: nat, t: Slots)
    requires |cs| == 8 && n < MAX_OFFSET && HEADER_SIZE + |body| < MAX_OFFSET && 0 < |t| <= 4 * MAX_OFFSET
    ensures Laid(Assemble(cs, body, n, t), body, n, t)
  {
    var d := Assemble(cs, body, n, t);
    var words := HeaderWords(HEADER_SIZE + |body|, n, |t|);
    ReadsPart(d, 0, MAGIC, cs + (words + (body + IndexBytes(t))));
    ReadsPart(d, 4, cs, words + (body + IndexBytes(t)));
    ReadsPart(d, 12, words, body + IndexBytes(t));
    ReadsPart(d, 36, body, IndexBytes(t));
    HeaderReads(d, HEADER_SIZE + |body|, n, |t|);
  }

  /** The index section reads back as the slots. */
  lemma {:induction false} SlotsRead(d: Bytes, ps: seq<Pair>, t: Slots)
    requires Sized(d) && Cap(d) == |t| && Reads(d, IndexOffset(d), IndexBytes(t))
    requires End(ps) < MAX_OFFSET && Filled(t, ps, |ps|)
    ensures SlotsOf(d) == t
  {
    forall i: nat | i < |t| ensures Word(d, IndexOffset(d) + 8 * i) == t[i] {
      SlotSmall(t, ps, i);
      IndexReads(d, IndexOffset(d), t, i);
    }
  }

  /** An index built over one file is valid for any other with the same records. */
  lemma {:induction false} IndexCarriesOver(d: Bytes, file: Bytes, hash: Hash, ps: seq<Pair>, t: Slots)
    requires 0 < |t| && HoldsBody(d, ps) && HoldsBody(file, ps)
    requires Filled(t, ps, |ps|) && RobinHood.Valid(Src(file, hash, |t|), t)
    ensures RobinHood.Valid(Src(d, hash, |t|), t)
  {
    FilledSlots(t, ps, |ps|);
    forall s | 0 <= s < |t| && t[s] != 0 ensures Payload(d, t[s]) == Payload(file, t[s]) {
      var i :| 0 <= i < |ps| && t[s] == Off(ps, i);
      RecordReads(d, ps, i);
      RecordReads(file, ps, i);
    }
    ValidTransfers(Src(file, hash, |t|), Src(d, hash, |t|), t);
  }

  lemma {:induction false} LaidFrames(d: Bytes, ps: seq<Pair>, t: Slots)
    requires Laid(d, Body(ps), |ps|, t) && 0 < |t|
    ensures Framed(d, ps)
  {}

  lemma {:induction false} LaidIndexes(d: Bytes, hash: Hash, ps: seq<Pair>, t: Slots, file: Bytes)
    requires Framed(d, ps) && Cap(d) == |t| && Reads(d, IndexOffset(d), IndexBytes(t))
    requires HoldsBody(file, ps) && End(ps) < MAX_OFFSET
    requires Filled(t, ps, |ps|) && RobinHood.Valid(Src(file, hash, |t|), t)
    ensures Indexed(d, hash, ps)
  {
    SlotsRead(d, ps, t);
    assert SlotsMatch(t, ps) by { FilledSlots(t, ps, |ps|); }
    IndexCarriesOver(d, file, hash, ps, t);
  }

  /** Appending the index, then overwriting the header words, then the checksum. */
  function Written(file: Bytes, words: Bytes, index: Bytes, cs: Bytes): Bytes
    requires |file| >= HEADER_SIZE && |words| == 24 && |cs| == 8
  {
    var f1 := file + index;
    var f2 := f1[..12] + (words + f1[HEADER_SIZE..]);
    f2[..4] + (cs + f2[12..])
  }

  lemma {:induction false} WrittenInPlace(file: Bytes, words: Bytes, index: Bytes, cs: Bytes)
    requires |file| >= HEADER_SIZE && |words| == 24 && |cs| == 8
    ensures Written(file, words, index, cs) == file[..4] + (cs + (words + (file[HEADER_SIZE..] + index)))
  {
    var f1 := file + index;
    assert f1[HEADER_SIZE..] == file[HEADER_SIZE..] + index;
    DropLeft(f1[..12], words + f1[HEADER_SIZE..]);
    assert (f1[..12] + (words + f1[HEADER_SIZE..]))[..4] == file[..4];
  }

  lemma {:induction false} Slices(a: Bytes, b: Bytes, c: Bytes)
    requires |a| == 4 && |b| == 8
    ensures (a + (b + c))[..4] == a && (a + (b + c))[4..12] == b && (a + (b + c))[12..] == c
  {}

  lemma {:induction false} DropLeft(a: Bytes, b: Bytes)
    ensures (a + b)[|a|..] == b
  {}

  lemma {:induction false} SlotSmall(t: Slots, ps: seq<Pair>, s: nat)
    requires End(ps) < MAX_OFFSET && Filled(t, ps, |ps|) && s < |t|
    ensures t[s] < TWO_64
  {
    FilledSlots(t, ps, |ps|);
    if t[s] != 0 {
      var i :| 0 <= i < |ps| && t[s] == Off(ps, i);
      OffGrows(ps, i, |ps|);
      OffEnd(ps);
    }
  }

  lemma {:induction false} BodySlice(file: Bytes, ps: seq<Pair>)
    requires |file| == End(ps) && HoldsBody(file, ps)
    ensures file[HEADER_SIZE..] == Body(ps)
  {}

  lemma {:induction false} LaidEncodes(d: Bytes, file: Bytes, hash: Hash, ps: seq<Pair>, t: Slots)
    requires Laid(d, Body(ps), |ps|, t) && 0 < |t|
    requires End(ps) < MAX_OFFSET && HoldsBody(file, ps) && DistinctPairs(ps)
    requires Filled(t, ps, |ps|) && RobinHood.Valid(Src(file, hash, |t|), t)
    ensures Encodes(d, hash, ps)
  {
    LaidFrames(d, ps, t);
    LaidIndexes(d, hash, ps, t, file);
  }

  // ---- The encoder -----------------------------------------------------------------------

  ghost predicate Recorded(file: Bytes, offsets: seq<nat>, ps: seq<Pair>) {
    && |file| == End(ps) && file[..4] == MAGIC
    && HoldsBody(file, ps) && offsets == Offsets(ps, |ps|)
  }

  lemma {:induction false} RecordAppended(file: Bytes, offsets: seq<nat>, ps: seq<Pair>, p: Pair)
    requires Recorded(file, offsets, ps)
    ensures Recorded(file + Record(p), offsets + [|file|], ps + [p])
  {
    BodyAppended(file, ps, p);
    OffsetsAppended(ps, p);
  }

  lemma {:induction false} BodyAppended(file: Bytes, ps: seq<Pair>, p: Pair)
    requires |file| == End(ps) && HoldsBody(file, ps)
    ensures |file + Record(p)| == End(ps + [p]) && HoldsBody(file + Record(p), ps + [p])
  {
    BodyAppend(ps, p);
    ReadsMore(file, HEADER_SIZE, Body(ps), Record(p));
  }

  lemma {:induction false} OffsetsAppended(ps: seq<Pair>, p: Pair)
    ensures Offsets(ps + [p], |ps| + 1) == Offsets(ps, |ps|) + [End(ps)]
  {
    BodyAppend(ps, p);
    OffEnd(ps);
  }

  class FileSegmentEncoder {
    const hash: Hash
    const sum: Bytes -> nat
    var file: Bytes
    var flushed: bool
    var offset: nat
    var offsets: seq<nat>
    ghost var pairs: seq<Pair>

    ghost predicate Writing() reads this {
      !flushed && offset == |file| && Recorded(file, offsets, pairs)
    }

    constructor Open(hash: Hash, sum: Bytes -> nat)
      ensures Writing() && pairs == [] && this.hash == hash && this.sum == sum
    {
      this.hash, this.sum := hash, sum;
      file := MAGIC + seq(32, _ => 0);
      flushed := false;
      offset := HEADER_SIZE;
      offsets := [];
      pairs := [];
    }

    method EncodeKeyValue(key: Bytes, value: Bytes)
      requires Writing()
      modifies this
      ensures Writing() && pairs == old(pairs) + [(key, value)]
    {
      RecordAppended(file, offsets, pairs, (key, value));
      var start := offset;
      file := file + PutUvarint(|key|) + key;
      file := file + PutUvarint(|value|) + value;
      offset := |file|;
      offsets := offsets + [start];
      pairs := pairs + [(key, value)];
      assert file == old(file) + Record((key, value));
    }

    /** Appends the index and fills in the header; refuses duplicate keys and a second flush. */
    method Flush() returns (ok: bool)
      requires flushed || (Writing() && offset < MAX_OFFSET)
      modifies this
      ensures flushed && pairs == old(pairs)
      ensures ok <==> !old(flushed) && DistinctPairs(pairs)
      ensures old(flushed) ==> file == old(file)
      ensures ok ==> Encodes(file, hash, pairs)
      ensures ok ==> file[..4] == MAGIC && file[4..12] == PutWord(sum(file[12..]))
    {
      if flushed {
        return false;
      }
      flushed := true;
      var indexOffset := offset;
      BodyLength(pairs);
      var t;
      ok, t := BuildIndex(file, hash, offsets, pairs);
      if !ok {
        return;
      }
      ghost var index, words := IndexBytes(t), HeaderWords(indexOffset, |offsets|, |t|);
      file := file + IndexBytes(t);
      file := file[..12] + (HeaderWords(indexOffset, |offsets|, |t|) + file[HEADER_SIZE..]);
      var rest := file[12..];
      file := file[..4] + (PutWord(sum(rest)) + rest);
      assert file == Written(old(file), words, index, PutWord(sum(rest)));
      WrittenInPlace(old(file), words, index, PutWord(sum(rest)));
      BodySlice(old(file), pairs);
      AssembledReads(PutWord(sum(rest)), Body(pairs), |pairs|, t);
      LaidEncodes(file, old(file), hash, pairs, t);
      Slices(old(file)[..4], PutWord(sum(rest)), rest);
    }
  }

  // ---- Compaction and back ------------------------------------------------------------------

  /** Writes every pair of a LevelDB segment, in whatever order its iterator yields them.
      Only a file past the size limit fails. */
  method CompactTo(db: map<Bytes, Bytes>, hash: Hash, sum: Bytes -> nat) returns (ok: bool, file: Bytes)
    ensures ok ==> Represents(file, hash, db)
    ensures !ok ==> |file| >= MAX_OFFSET
  {
    var enc := new FileSegmentEncoder.Open(hash, sum);
    EncodeAll(enc, db);
    if enc.offset >= MAX_OFFSET {
      return false, enc.file;
    }
    ok := enc.Flush();
    file := enc.file;
    assert ToMap(enc.pairs) == db;
  }

  /** Encodes the pairs of a map one by one. */
  method EncodeAll(enc: FileSegmentEncoder, db: map<Bytes, Bytes>)
    requires enc.Writing() && enc.pairs == []
    modifies enc
    ensures enc.Writing() && DistinctPairs(enc.pairs) && ToMap(enc.pairs) == db
  {
    var rest := db;
    while rest.Keys != {}
      invariant enc.Writing()
      invariant DistinctPairs(enc.pairs) && Keys(enc.pairs) !! rest.Keys
      invariant ToMap(enc.pairs) + rest == db
      decreases rest.Keys
    {
      var key :| key in rest.Keys;
      ghost var before := enc.pairs;
      enc.EncodeKeyValue(key, rest[key]);
      ToMapAppend(before, (key, rest[key]));
      MovedOver(ToMap(before), rest, key);
      rest := rest - {key};
    }
    assert ToMap(enc.pairs) == db;
  }

  lemma {:induction false} MovedOver(a: map<Bytes, Bytes>, b: map<Bytes, Bytes>, k: Bytes)
    requires k in b && k !in a
    ensures a[k := b[k]] + (b - {k}) == a + b
  {}

  lemma {:induction false} ToMapAppend(ps: seq<Pair>, p: Pair)
    requires DistinctPairs(ps) && p.0 !in Keys(ps)
    ensures DistinctPairs(ps + [p]) && Keys(ps + [p]) == Keys(ps) + {p.0}
    ensures ToMap(ps + [p]) == ToMap(ps)[p.0 := p.1]
  {
    var qs := ps + [p];
    assert qs[..|ps|] == ps;
    assert forall i :: 0 <= i < |ps| ==> qs[i] == ps[i];
    assert qs[|ps|].0 in Keys(qs);
    forall i | 0 <= i < |ps| ensures ps[i].0 in Keys(qs) { assert qs[i].0 in Keys(qs); }
  }

  /** Puts every pair an iterator yields. */
  method CopyPairs(itr: Iterator) returns (db: map<Bytes, Bytes>)
    requires itr.Valid() && itr.at == 0
    modifies itr
    ensures db == Copied(itr.pairs, |itr.pairs|)
  {
    db := map[];
    var more := true;
    while more
      invariant itr.Valid()
      invariant db == Copied(itr.pairs, itr.at) && (more || itr.at == |itr.pairs|)
      decreases more, |itr.pairs| - itr.at
    {
      more := itr.Next();
      if more { db := db[itr.key := itr.value]; }
    }
  }

  /** Copying a file segment back into LevelDB restores the map it was written from. */
  method UncompactSegmentTo(d: Bytes, hash: Hash, ghost m: map<Bytes, Bytes>) returns (db: map<Bytes, Bytes>)
    requires Represents(d, hash, m)
    ensures db == m
  {
    ghost var ps := WrittenFrom(d, hash, m);
    var itr := new Iterator(d, ps);
    db := CopyPairs(itr);
    CopiedPrefix(ps, |ps|);
    assert ps[..|ps|] == ps;
  }

  /** The map after copying the first n pairs. */
  ghost function Copied(ps: seq<Pair>, n: nat): map<Bytes, Bytes>
    requires n <= |ps|
  {
    if n == 0 then map[] else Copied(ps, n - 1)[ps[n - 1].0 := ps[n - 1].1]
  }

  lemma {:induction false} CopiedPrefix(ps: seq<Pair>, n: nat)
    requires n <= |ps|
    ensures Copied(ps, n) == ToMap(ps[..n])
  {
    if n > 0 {
      CopiedPrefix(ps, n - 1);
      assert ps[..n][..n - 1] == ps[..n - 1];
    }
  }

  /** A file determines its records, so what it represents is one map. */
  lemma {:induction false} SameRecords(d: Bytes, ps: seq<Pair>, qs: seq<Pair>, n: nat)
    requires HoldsBody(d, ps) && HoldsBody(d, qs) && |ps| == |qs| && n <= |ps|
    ensures Off(ps, n) == Off(qs, n) && ps[..n] == qs[..n]
  {
    if n > 0 {
      SameRecords(d, ps, qs, n - 1);
      RecordReads(d, ps, n - 1);
      RecordReads(d, qs, n - 1);
      assert ps[..n] == ps[..n - 1] + [ps[n - 1]] && qs[..n] == qs[..n - 1] + [qs[n - 1]];
    }
  }

  lemma {:induction false} FramedOne(d: Bytes, ps: seq<Pair>, qs: seq<Pair>)
    requires Framed(d, ps) && Framed(d, qs)
    ensures ps == qs
  {
    SameRecords(d, ps, qs, |ps|);
    assert ps[..|ps|] == ps && qs[..|qs|] == qs;
  }

  /** The pairs a file was written from. */
  lemma {:induction false} WrittenFrom(d: Bytes, hash: Hash, m: map<Bytes, Bytes>) returns (ps: seq<Pair>)
    requires Represents(d, hash, m)
    ensures Framed(d, ps) && ToMap(ps) == m
  {
    ps :| Encodes(d, hash, ps) && ToMap(ps) == m;
  }

  lemma {:induction false} RepresentsOne(d: Bytes, hash: Hash, m: map<Bytes, Bytes>, m': map<Bytes, Bytes>)
    requires Represents(d, hash, m) && Represents(d, hash, m')
    ensures m == m'
  {
    var ps := WrittenFrom(d, hash, m);
    var qs := WrittenFrom(d, hash, m');
    FramedOne(d, ps, qs);
  }
}
