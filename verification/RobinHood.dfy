/**
 The fixed-size Robin Hood hash index that ends a file segment
 (ethdb/file_segment.go).  A slot holds the file offset of a framed key, 0 when
 empty.  Nothing is assumed of the hash function.
 */
module RobinHood {
  import opened Bytes

  /** The key framed at a file offset, and the slot a key's hash selects. */
  datatype Source = Source(keyAt: nat -> Bytes, home: Bytes -> nat)

  type Slots = seq<nat>

  /** Home slots are hashes reduced to a capacity. */
  function MakeSource(keyAt: nat -> Bytes, hash: Bytes -> nat, capacity: nat): (s: Source)
    requires capacity > 0
    ensures s.keyAt == keyAt
    ensures forall k :: s.home(k) == hash(k) % capacity
  {
    Source(keyAt, k => if capacity > 0 then hash(k) % capacity else 0)
  }

  // ---- Positions around the ring -------------------------------------------

  /** The slot j places after h. */
  function At(h: nat, j: nat, capacity: nat): (p: nat)
    requires h < capacity && j <= capacity
    ensures p < capacity
  {
    if h + j < capacity then h + j else h + j - capacity
  }

  /** How many places after h slot i is. */
  function Gap(h: nat, i: nat, capacity: nat): (d: nat)
    requires h < capacity && i < capacity
    ensures d < capacity && At(h, d, capacity) == i
  {
    if i >= h then i - h else i + capacity - h
  }

  function Prev(i: nat, capacity: nat): (p: nat)
    requires i < capacity
    ensures p < capacity && At(p, 1, capacity) == i
  {
    if i == 0 then capacity - 1 else i - 1
  }

  /** The code's expression for a probe distance counts the places from home. */
  function Dist(hash: nat, i: nat, capacity: nat): (d: nat)
    requires i < capacity
    ensures d == Gap(hash % capacity, i, capacity)
  {
    var h := hash % capacity;
    ModOnce(if i >= h then i - h else i + capacity - h, capacity);
    ((i + capacity) - h) % capacity
  }

  lemma ModOnce(x: nat, c: nat)
    requires x < c
    ensures x % c == x && (x + c) % c == x
  {
  }

  // ---- The invariant -------------------------------------------------------

  ghost predicate Fits(src: Source, capacity: nat) {
    forall k :: src.home(k) < capacity
  }

  function Probe(src: Source, o: nat, i: nat, capacity: nat): (d: nat)
    requires i < capacity && src.home(src.keyAt(o)) < capacity
    ensures d < capacity
  {
    Gap(src.home(src.keyAt(o)), i, capacity)
  }

  /** The slot before i is occupied by an element at distance d - 1 or more. */
  ghost predicate Supported(src: Source, t: Slots, i: nat, d: nat)
    requires i < |t| && Fits(src, |t|)
  {
    d > 0 ==> t[Prev(i, |t|)] != 0 && Probe(src, t[Prev(i, |t|)], Prev(i, |t|), |t|) >= d - 1
  }

  ghost predicate Backed(src: Source, t: Slots, i: nat)
    requires i < |t| && Fits(src, |t|)
  {
    t[i] != 0 ==> Supported(src, t, i, Probe(src, t[i], i, |t|))
  }

  /** An element at probe distance k > 0 has an occupied predecessor at distance >= k - 1. */
  ghost predicate Ordered(src: Source, t: Slots) {
    Fits(src, |t|) && forall i: nat :: i < |t| ==> Backed(src, t, i)
  }

  ghost predicate DistinctKeys(src: Source, t: Slots) {
    forall i, j :: 0 <= i < j < |t| && t[i] != 0 && t[j] != 0 ==> src.keyAt(t[i]) != src.keyAt(t[j])
  }

  ghost predicate Valid(src: Source, t: Slots) {
    Ordered(src, t) && DistinctKeys(src, t)
  }

  /** The slot i holds key. */
  predicate Holds(src: Source, t: Slots, i: nat, key: Bytes) {
    i < |t| && t[i] != 0 && src.keyAt(t[i]) == key
  }

  ghost predicate Present(src: Source, t: Slots, key: Bytes) {
    exists i: nat :: Holds(src, t, i, key)
  }

  // ---- What the invariant gives a probe --------------------------------------

  /** Walking back from an element at distance k, all k slots down to its home are occupied
      and each is at least as far from home as the walk is from that home. */
  lemma {:induction false} Run(src: Source, t: Slots, h: nat, k: nat, j: nat)
    requires Ordered(src, t) && h < |t| && j <= k < |t|
    requires t[At(h, k, |t|)] != 0 && Probe(src, t[At(h, k, |t|)], At(h, k, |t|), |t|) >= k
    ensures t[At(h, j, |t|)] != 0 && Probe(src, t[At(h, j, |t|)], At(h, j, |t|), |t|) >= j
    decreases k - j
  {
    if j < k {
      Run(src, t, h, k, j + 1);
      var p := At(h, j + 1, |t|);
      assert Backed(src, t, p);
      assert Prev(p, |t|) == At(h, j, |t|);
    }
  }

  /** A search may stop at an empty slot or at an element nearer its home than the search is:
      the key is in no slot but, possibly, those already passed. */
  lemma {:induction false} EarlyExit(src: Source, t: Slots, key: Bytes, d: nat)
    requires Ordered(src, t) && 0 < |t| && d <= |t|
    requires var p := At(src.home(key), d, |t|);
             t[p] == 0 || d > Probe(src, t[p], p, |t|)
    requires forall j :: 0 <= j < d ==> !Holds(src, t, At(src.home(key), j, |t|), key)
    ensures !Present(src, t, key)
  {
    forall i: nat ensures !Holds(src, t, i, key) {
      if Holds(src, t, i, key) {
        var k := Probe(src, t[i], i, |t|);
        if d <= k {
          Run(src, t, src.home(key), k, d);
        }
      }
    }
  }

  /** Next to a supported slot with some slot empty, the distance is below the capacity. */
  lemma {:induction false} RoomLeft(src: Source, t: Slots, pos: nat, d: nat, e: nat)
    requires Ordered(src, t) && pos < |t| && d <= |t|
    requires Supported(src, t, pos, d)
    requires e < |t| && t[e] == 0
    ensures d < |t|
  {
    if d == |t| {
      var p := Prev(pos, |t|);
      var h := src.home(src.keyAt(t[p]));
      Run(src, t, h, Gap(h, p, |t|), Gap(h, e, |t|));
    }
  }

  /** Putting o at distance d over an empty slot, or over an element nearer its home. */
  lemma {:induction false} TakeSlot(src: Source, t: Slots, pos: nat, o: nat)
    requires Ordered(src, t) && pos < |t| && o != 0
    requires Supported(src, t, pos, Probe(src, o, pos, |t|))
    requires t[pos] == 0 || Probe(src, t[pos], pos, |t|) < Probe(src, o, pos, |t|)
    ensures Ordered(src, t[pos := o])
  {
    var u := t[pos := o];
    forall i: nat | i < |u| ensures Backed(src, u, i) {
      assert Backed(src, t, i);
    }
  }

  // ---- One insertion ---------------------------------------------------------

  /** An insertion of offset into t0, which has an empty slot gap places after the key's home. */
  datatype Job = Job(src: Source, t0: Slots, offset: nat, gap: nat) {
    function Key(): Bytes { src.keyAt(offset) }

    ghost predicate Fair() {
      && Valid(src, t0) && offset != 0 && gap < |t0| && t0[At(src.home(Key()), gap, |t0|)] == 0
    }

    ghost predicate IsNew() { !Present(src, t0, Key()) }

    /** The slot reached after passing n slots. */
    function Slot(n: nat): (p: nat)
      requires src.home(Key()) < |t0| && n <= |t0|
      ensures p < |t0|
    {
      At(src.home(Key()), n, |t0|)
    }
  }

  /** The insertion under way: the slots, the element carried and its probe distance, the
      number of slots passed, and where along the way the new element was put down (-1: not yet). */
  datatype Walk = Walk(t: Slots, carried: nat, d: nat, passed: nat, placed: int)

  /** The table stays ordered, and the slots ahead of the walk are as they were. */
  ghost predicate Steady(b: Job, w: Walk)
    requires b.Fair()
  {
    && |w.t| == |b.t0| && w.passed <= b.gap && w.carried != 0
    && Ordered(b.src, w.t)
    && Probe(b.src, w.carried, b.Slot(w.passed), |w.t|) == w.d
    && Supported(b.src, w.t, b.Slot(w.passed), w.d)
    && Ahead(b, w.t, w.passed)
  }

  /** Nothing is lost or doubled. */
  ghost predicate Conserving(b: Job, w: Walk) {
    && DistinctKeys(b.src, w.t)
    && (b.IsNew() ==> !Present(b.src, w.t, b.src.keyAt(w.carried)))
    && multiset(w.t) + multiset{w.carried} == multiset(b.t0) + multiset{b.offset}
  }

  /** Until the new element is put down nothing has changed; once down, the walk has left it. */
  ghost predicate Placing(b: Job, w: Walk)
    requires b.Fair() && |w.t| == |b.t0| && w.passed < |w.t|
  {
    && (w.placed < 0 ==> w.carried == b.offset && w.t == b.t0 && w.d == w.passed)
    && (w.placed < 0 ==> forall j :: 0 <= j < w.passed ==> !Holds(b.src, b.t0, b.Slot(j), b.Key()))
    && (w.placed >= 0 ==> b.IsNew() && w.placed < w.passed && w.t[b.Slot(w.placed)] == b.offset)
  }

  ghost predicate Walking(b: Job, w: Walk) {
    b.Fair() && Steady(b, w) && Conserving(b, w) && Placing(b, w)
  }

  ghost predicate Swaps(b: Job, w: Walk)
    requires b.Fair() && Steady(b, w)
  {
    Probe(b.src, w.t[b.Slot(w.passed)], b.Slot(w.passed), |w.t|) < w.d
  }

  /** Moving on one slot, holding either the same element or the one just displaced. */
  ghost function Step(b: Job, w: Walk): Walk
    requires b.Fair() && Steady(b, w)
  {
    var p := b.Slot(w.passed);
    if Swaps(b, w)
    then Walk(w.t[p := w.carried], w.t[p], Probe(b.src, w.t[p], p, |w.t|) + 1, w.passed + 1,
              if w.placed < 0 then w.passed else w.placed)
    else Walk(w.t, w.carried, w.d + 1, w.passed + 1, w.placed)
  }

  lemma {:induction false} Begin(src: Source, t: Slots, offset: nat) returns (b: Job)
    requires Valid(src, t) && offset != 0 && 0 in t
    ensures b.src == src && b.t0 == t && b.offset == offset && b.Fair()
    ensures Walking(b, Walk(t, offset, 0, 0, -1))
  {
    var e: nat :| e < |t| && t[e] == 0;
    b := Job(src, t, offset, Gap(src.home(src.keyAt(offset)), e, |t|));
  }

  /** A key already present is met before the walk displaces anything or finds a gap. */
  lemma {:induction false} OnlyNewKeys(b: Job, w: Walk)
    requires Walking(b, w) && (w.t[b.Slot(w.passed)] == 0 || Swaps(b, w))
    ensures b.IsNew()
  {
    if w.placed < 0 {
      forall j | 0 <= j < w.passed ensures !Holds(b.src, b.t0, At(b.src.home(b.Key()), j, |b.t0|), b.Key()) {
        assert !Holds(b.src, b.t0, b.Slot(j), b.Key());
      }
      EarlyExit(b.src, b.t0, b.Key(), w.passed);
    }
  }

  /** A key nowhere in the table can take any slot, and then the key it displaces is nowhere. */
  lemma {:induction false} KeysStayApart(src: Source, t: Slots, p: nat, o: nat)
    requires DistinctKeys(src, t) && p < |t| && o != 0 && !Present(src, t, src.keyAt(o))
    ensures DistinctKeys(src, t[p := o])
    ensures t[p] != 0 ==> !Present(src, t[p := o], src.keyAt(t[p]))
    ensures multiset(t[p := o]) == multiset(t) - multiset{t[p]} + multiset{o}
  {
    var u := t[p := o];
    assert forall i: nat :: !Holds(src, t, i, src.keyAt(o));
    forall i, j | 0 <= i < j < |u| && u[i] != 0 && u[j] != 0 ensures src.keyAt(u[i]) != src.keyAt(u[j]) {
      assert !Holds(src, t, i, src.keyAt(o)) && !Holds(src, t, j, src.keyAt(o));
    }
    if t[p] != 0 {
      assert Holds(src, t, p, src.keyAt(t[p]));
      forall i: nat ensures !Holds(src, u, i, src.keyAt(t[p])) {
        if i < |t| && i != p && u[i] != 0 { assert t[i] == u[i]; }
      }
    }
  }

  lemma {:induction false} Finish(b: Job, w: Walk)
    requires Walking(b, w) && w.t[b.Slot(w.passed)] == 0
    ensures var u := w.t[b.Slot(w.passed) := w.carried];
            && Valid(b.src, u) && b.IsNew()
            && multiset(u) == multiset(b.t0) - multiset{0} + multiset{b.offset}
  {
    var p := b.Slot(w.passed);
    OnlyNewKeys(b, w);
    TakeSlot(b.src, w.t, p, w.carried);
    KeysStayApart(b.src, w.t, p, w.carried);
    var m := multiset(w.t);
    assert m[w.t[p]] > 0;
    assert b.t0[p] in multiset(b.t0);
    assert m - multiset{0} + multiset{w.carried} == m + multiset{w.carried} - multiset{0};
    assert multiset(b.t0) - multiset{0} + multiset{b.offset} == multiset(b.t0) + multiset{b.offset} - multiset{0};
  }

  /** The only slot with the new key is the one it was put in, and the walk has left that slot. */
  lemma {:induction false} Duplicate(b: Job, w: Walk)
    requires Walking(b, w) && Holds(b.src, w.t, b.Slot(w.passed), b.Key())
    ensures !b.IsNew() && w.t == b.t0
  {
    assert w.placed < 0;
  }

  /** The slots ahead of the walk are as they were. */
  ghost predicate Ahead(b: Job, t: Slots, passed: nat)
    requires b.Fair() && |t| == |b.t0|
  {
    forall j :: passed <= j < |t| ==> t[b.Slot(j)] == b.t0[b.Slot(j)]
  }

  lemma {:induction false} AheadMoves(b: Job, t: Slots, passed: nat, o: nat)
    requires b.Fair() && |t| == |b.t0| && passed < |t| && Ahead(b, t, passed)
    ensures Ahead(b, t[b.Slot(passed) := o], passed + 1) && Ahead(b, t, passed + 1)
  {}

  /** An element at distance d in the slot before q moves on to q at distance d + 1. */
  lemma {:induction false} NextProbe(src: Source, t: Slots, q: nat, o: nat, e: nat)
    requires Ordered(src, t) && q < |t| && e < |t| && t[e] == 0
    requires var p := Prev(q, |t|);
             t[p] != 0 && Probe(src, t[p], p, |t|) >= Probe(src, o, p, |t|)
    ensures Probe(src, o, q, |t|) == Probe(src, o, Prev(q, |t|), |t|) + 1
    ensures Supported(src, t, q, Probe(src, o, q, |t|))
  {
    RoomLeft(src, t, q, Probe(src, o, Prev(q, |t|), |t|) + 1, e);
  }

  lemma {:induction false} SteadyMoves(b: Job, w: Walk)
    requires Walking(b, w) && w.t[b.Slot(w.passed)] != 0
    ensures Steady(b, Step(b, w))
  {
    var w', p := Step(b, w), b.Slot(w.passed);
    assert w.passed < b.gap;
    AheadMoves(b, w.t, w.passed, w.carried);
    if Swaps(b, w) { TakeSlot(b.src, w.t, p, w.carried); }
    assert Prev(b.Slot(w'.passed), |w.t|) == p;
    NextProbe(b.src, w'.t, b.Slot(w'.passed), w'.carried, b.Slot(b.gap));
  }

  lemma {:induction false} ConservingMoves(b: Job, w: Walk)
    requires Walking(b, w) && w.t[b.Slot(w.passed)] != 0
    ensures Conserving(b, Step(b, w))
  {
    if Swaps(b, w) {
      var p := b.Slot(w.passed);
      OnlyNewKeys(b, w);
      KeysStayApart(b.src, w.t, p, w.carried);
      assert multiset(w.t)[w.t[p]] > 0;
    }
  }

  lemma {:induction false} PlacingMoves(b: Job, w: Walk)
    requires Walking(b, w) && w.t[b.Slot(w.passed)] != 0 && Steady(b, Step(b, w))
    requires !Holds(b.src, w.t, b.Slot(w.passed), b.Key())
    ensures Placing(b, Step(b, w))
  {
    if Swaps(b, w) { OnlyNewKeys(b, w); }
  }

  /** Passing an occupied slot with another key. */
  lemma {:induction false} MoveOn(b: Job, w: Walk) returns (w': Walk)
    requires Walking(b, w) && w.t[b.Slot(w.passed)] != 0
    requires !Holds(b.src, w.t, b.Slot(w.passed), b.Key())
    ensures Walking(b, w') && w'.passed == w.passed + 1
    ensures b.Slot(w'.passed) == At(b.Slot(w.passed), 1, |w.t|)
    ensures var p := b.Slot(w.passed); var tmp := Probe(b.src, w.t[p], p, |w.t|);
            if tmp < w.d then w'.t == w.t[p := w.carried] && w'.carried == w.t[p] && w'.d == tmp + 1
            else w'.t == w.t && w'.carried == w.carried && w'.d == w.d + 1
  {
    SteadyMoves(b, w);
    ConservingMoves(b, w);
    PlacingMoves(b, w);
    w' := Step(b, w);
  }

  // ---- Building the index ----------------------------------------------------

  ghost function Exp2(e: nat): nat {
    if e == 0 then 1 else 2 * Exp2(e - 1)
  }

  lemma {:induction false} Exp2Grows(a: nat, b: nat)
    requires a <= b
    ensures Exp2(a) <= Exp2(b)
    ensures Exp2(61) == 0x2000_0000_0000_0000 && Exp2(62) == 0x4000_0000_0000_0000
    decreases b - a
  {
    assert Exp2(10) == 1024;
    assert Exp2(20) == 1024 * 1024;
    assert Exp2(30) == 1024 * 1024 * 1024;
    assert Exp2(40) == 1024 * 1024 * 1024 * 1024;
    assert Exp2(50) == 1024 * 1024 * 1024 * 1024 * 1024;
    assert Exp2(60) == 1024 * 1024 * 1024 * 1024 * 1024 * 1024;
    if a < b {
      Exp2Grows(a + 1, b);
    }
  }

  /** Smallest power of two that is at least v and at least 2; none once v passes 2^61. */
  method Pow2(v: nat) returns (ok: bool, c: nat)
    ensures ok <==> v <= 0x2000_0000_0000_0000
    ensures ok ==> c >= v && c >= 2 && (c > 2 ==> c / 2 < v) && exists e: nat :: c == Exp2(e)
  {
    var i: nat := 2;
    ghost var e: nat := 1;
    assert Exp2(1) == 2;
    while i < 0x4000_0000_0000_0000
      invariant i >= 2 && (i > 2 ==> i / 2 < v)
      invariant e <= 62 && i == Exp2(e)
      decreases 62 - e
    {
      Exp2Grows(e, 62);
      if e < 62 { Exp2Grows(e, 61); }
      if i >= v {
        return true, i;
      }
      i := i * 2;
      e := e + 1;
    }
    return false, 0;
  }

  class EncoderIndex {
    const hash: Bytes -> nat
    const src: Source
    const elems: array<nat>

    ghost predicate Indexes() reads elems {
      && elems.Length > 0 && Valid(src, elems[..])
      && src == MakeSource(src.keyAt, hash, elems.Length)
    }

    /** An empty index of the given capacity over the keys keyAt reads. */
    constructor (keyAt: nat -> Bytes, hash: Bytes -> nat, capacity: nat)
      requires capacity > 0
      ensures src.keyAt == keyAt && this.hash == hash && fresh(elems) && elems.Length == capacity
      ensures Indexes()
      ensures multiset(elems[..]) == multiset{}[0 := capacity]
    {
      this.hash := hash;
      this.src := MakeSource(keyAt, hash, capacity);
      this.elems := new nat[capacity](_ => 0);
      new;
      AllEmpty(elems[..]);
    }

    method Insert(offset: nat) returns (ok: bool)
      requires Indexes() && offset != 0
      requires 0 in elems[..]
      modifies elems
      ensures Indexes()
      ensures ok <==> !Present(src, old(elems[..]), src.keyAt(offset))
      ensures ok ==> multiset(elems[..]) == multiset(old(elems[..])) - multiset{0} + multiset{offset}
      ensures !ok ==> elems[..] == old(elems[..])
    {
      var key := src.keyAt(offset);
      var capacity := elems.Length;
      var pos := hash(key) % capacity;
      var carried, d := offset, 0;
      ghost var b := Begin(src, elems[..], offset);
      ghost var w := Walk(elems[..], offset, 0, 0, -1);
      while true
        invariant b.src == src && b.t0 == old(elems[..]) && b.offset == offset && Walking(b, w)
        invariant w.t == elems[..] && w.carried == carried && w.d == d && pos == b.Slot(w.passed)
        decreases b.gap - w.passed
      {
        if elems[pos] == 0 {
          Finish(b, w);
          elems[pos] := carried;
          assert elems[..] == w.t[pos := carried];
          return true;
        }
        var curr := elems[pos];
        if src.keyAt(curr) == key {
          Duplicate(b, w);
          return false;
        }
        w := MoveOn(b, w);
        var tmp := Dist(hash(src.keyAt(curr)), pos, capacity);
        if tmp < d {
          carried, elems[pos], d := curr, carried, tmp;
        }
        assert elems[..] == w.t;
        NextSlot(pos, capacity);
        pos := (pos + 1) % capacity;
        d := d + 1;
      }
    }
  }

  lemma {:induction false} NextSlot(pos: nat, capacity: nat)
    requires pos < capacity
    ensures (pos + 1) % capacity == At(pos, 1, capacity)
  {}

  lemma {:induction false} AllEmpty(t: Slots)
    requires forall i :: 0 <= i < |t| ==> t[i] == 0
    ensures multiset(t) == multiset{}[0 := |t|]
  {
    if t != [] {
      AllEmpty(t[1..]);
      assert t == [t[0]] + t[1..];
    }
  }
}
