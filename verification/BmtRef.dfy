/**
 The sequential reference hasher (bmt/bmt_r.go), how a chunk is cut for the concurrent
 one (Write in bmt/bmt.go), and the proof that both compute the same hash.
 */
module BmtRef {
  import opened Bytes
  import opened BmtTree
  import opened BmtProtocol
  import opened BmtRuns
  import opened BmtSteps

  /** size doubled k times. */
  function Span(size: nat, k: nat): nat {
    if k == 0 then size else 2 * Span(size, k - 1)
  }

  /** The largest of s, s/2, s/4, ... that is below l. */
  function Halve(s: nat, l: nat): (r: nat)
    requires l > 1 && s > 0
    ensures 0 < r < l
  {
    if s < l then s else Halve(s / 2, l)
  }

  /** The reference hash of d with current span s. */
  function RefHash(h: Bytes -> Bytes, size: nat, d: Bytes, s: nat): Bytes
    requires size > 0 && s > 0
    decreases |d|
  {
    if |d| <= 2 * size then h(d)
    else
      var s' := Halve(s, |d|);
      var right := d[s'..];
      h(RefHash(h, size, d[..s'], s') + if |right| > size then RefHash(h, size, right, s') else right)
  }

  // ---- The data below each node ------------------------------------------------------

  /** The chunk bytes below node i of level h. */
  function Below(c: Job, h: nat, i: nat): Bytes
    requires |c.segs| > 0 && i <= c.At(h)
    decreases h
  {
    if h == 0 then c.segs[i]
    else if 2 * i + 1 <= c.At(h - 1) then Below(c, h - 1, 2 * i) + Below(c, h - 1, 2 * i + 1)
    else Below(c, h - 1, 2 * i)
  }

  /** All segments but the last are double. */
  ghost predicate Cut(c: Job) {
    && c.size > 0 && c.Fair()
    && (forall j :: 0 <= j < |c.segs| - 1 ==> |c.segs[j]| == 2 * c.size)
    && |c.segs[c.Cur()]| <= 2 * c.size && (c.Cur() > 0 ==> |c.segs[c.Cur()]| > 0)
  }

  lemma {:induction false} BelowSize(c: Job, h: nat, i: nat)
    requires Cut(c) && i <= c.At(h)
    ensures i < c.At(h) ==> |Below(c, h, i)| == Span(c.size, h + 1)
    ensures |Below(c, h, i)| <= Span(c.size, h + 1)
    ensures c.Cur() > 0 ==> |Below(c, h, i)| > 0
    decreases h
  {
    if h > 0 {
      BelowSize(c, h - 1, 2 * i);
      if 2 * i + 1 <= c.At(h - 1) { BelowSize(c, h - 1, 2 * i + 1); }
    }
  }

  lemma {:induction false} SpanGrows(size: nat, j: nat, k: nat)
    requires j <= k
    ensures Span(size, j) <= Span(size, k)
    decreases k
  {
    if j < k { SpanGrows(size, j, k - 1); }
  }

  lemma {:induction false} HalveFinds(size: nat, k: nat, m: nat, l: nat)
    requires size > 0 && l > 1 && Span(size, k) > 0 && m <= k
    requires Span(size, m) < l <= Span(size, m + 1)
    ensures Halve(Span(size, k), l) == Span(size, m)
    decreases k
  {
    if m < k {
      SpanGrows(size, m + 1, k);
      SpanGrows(size, 0, k - 1);
      HalveFinds(size, k - 1, m, l);
    }
  }

  /** Each node's value is the reference hash of the bytes below it, but for a lone short segment. */
  lemma {:induction false} ValueIsRef(c: Job, h: nat, i: nat, k: nat)
    requires Cut(c) && i <= c.At(h) && h <= c.depth && |Below(c, h, i)| <= Span(c.size, k + 1)
    ensures Span(c.size, k) > 0
    ensures var d := Below(c, h, i);
            c.Value(h, i) == if |d| > c.size || c.Cur() == 0 then RefHash(c.hash, c.size, d, Span(c.size, k)) else d
    decreases h
  {
    SpanGrows(c.size, 0, k);
    if h > 0 {
      if 2 * i + 1 <= c.At(h - 1) {
        BothSides(c, h, i, k);
      } else {
        ValueIsRef(c, h - 1, 2 * i, k);
      }
    } else if c.depth == 0 {
      assert |c.segs| == 1;
    }
  }

  /** One split of the reference hasher. */
  lemma {:induction false} RefSplits(hash: Bytes -> Bytes, size: nat, l: Bytes, r: Bytes, s: nat)
    requires size > 0 && s > 0 && |l + r| > 2 * size && Halve(s, |l + r|) == |l|
    ensures RefHash(hash, size, l + r, s) ==
      hash(RefHash(hash, size, l, |l|) + if |r| > size then RefHash(hash, size, r, |l|) else r)
  {
    assert (l + r)[..|l|] == l && (l + r)[|l|..] == r;
  }

  /** A node with two children is split between them. */
  lemma {:induction false} SplitSizes(c: Job, h: nat, i: nat, k: nat)
    requires Cut(c) && 0 < h <= c.depth && 2 * i + 1 <= c.At(h - 1) && |Below(c, h, i)| <= Span(c.size, k + 1)
    ensures c.Cur() > 0 && i <= c.At(h) && Span(c.size, k) > 0
    ensures var l, r := Below(c, h - 1, 2 * i), Below(c, h - 1, 2 * i + 1);
      && Below(c, h, i) == l + r && |l| == Span(c.size, h) && 0 < |r| <= Span(c.size, h)
      && |l + r| > 2 * c.size && Halve(Span(c.size, k), |l + r|) == |l|
  {
    BelowSize(c, h - 1, 2 * i);
    BelowSize(c, h - 1, 2 * i + 1);
    SpanGrows(c.size, 1, h);
    SpanGrows(c.size, 0, k);
    assert c.Cur() > 0 by { if c.Cur() == 0 { LastDies(0, 0, h - 1); } }
    if k < h { SpanGrows(c.size, k + 1, h); }
    HalveFinds(c.size, k, h, |Below(c, h, i)|);
  }

  lemma {:induction false} BothSides(c: Job, h: nat, i: nat, k: nat)
    requires Cut(c) && 0 < h <= c.depth && 2 * i + 1 <= c.At(h - 1) && |Below(c, h, i)| <= Span(c.size, k + 1)
    ensures i <= c.At(h) && Span(c.size, k) > 0
    ensures |Below(c, h, i)| > c.size
    ensures c.Value(h, i) == RefHash(c.hash, c.size, Below(c, h, i), Span(c.size, k))
    decreases h, 0
  {
    var l, r := Below(c, h - 1, 2 * i), Below(c, h - 1, 2 * i + 1);
    SplitSizes(c, h, i, k);
    SpanGrows(c.size, 1, h);
    ValueIsRef(c, h - 1, 2 * i, h);
    ValueIsRef(c, h - 1, 2 * i + 1, h);
    RefSplits(c.hash, c.size, l, r, Span(c.size, k));
  }

  // ---- The bytes below the top are the whole chunk --------------------------------------

  function Concat(segs: seq<Bytes>): Bytes {
    if segs == [] then [] else Concat(segs[..|segs| - 1]) + segs[|segs| - 1]
  }

  /** The bytes below the first n nodes of level h. */
  function Flat(c: Job, h: nat, n: nat): Bytes
    requires |c.segs| > 0 && n <= c.At(h) + 1
  {
    if n == 0 then [] else Flat(c, h, n - 1) + Below(c, h, n - 1)
  }

  lemma {:induction false} FlatPairs(c: Job, h: nat, n: nat)
    requires |c.segs| > 0 && 2 * n <= c.At(h) + 1
    ensures n <= c.At(h + 1) + 1 && Flat(c, h + 1, n) == Flat(c, h, 2 * n)
  {
    if n > 0 {
      FlatPairs(c, h, n - 1);
      FlatTwo(c, h, 2 * (n - 1));
      BelowPair(c, h, n - 1);
      FlatMore(c, h + 1, n - 1);
    }
  }

  lemma {:induction false} FlatMore(c: Job, h: nat, n: nat)
    requires |c.segs| > 0 && n <= c.At(h)
    ensures Flat(c, h, n + 1) == Flat(c, h, n) + Below(c, h, n)
  {
  }

  /** A node above has the bytes of its two children, or of its only one. */
  lemma {:induction false} BelowPair(c: Job, h: nat, i: nat)
    requires |c.segs| > 0 && 2 * i <= c.At(h)
    ensures i <= c.At(h + 1)
    ensures Below(c, h + 1, i) ==
      if 2 * i + 1 <= c.At(h) then Below(c, h, 2 * i) + Below(c, h, 2 * i + 1) else Below(c, h, 2 * i)
  {
  }

  lemma {:induction false} FlatTwo(c: Job, h: nat, n: nat)
    requires |c.segs| > 0 && n + 2 <= c.At(h) + 1
    ensures Flat(c, h, n + 2) == Flat(c, h, n) + (Below(c, h, n) + Below(c, h, n + 1))
  {
    FlatMore(c, h, n);
    FlatMore(c, h, n + 1);
    var x, y, z := Flat(c, h, n), Below(c, h, n), Below(c, h, n + 1);
    assert (x + y) + z == x + (y + z);
  }

  /** A level and the one above it have the same bytes. */
  lemma {:induction false} FlatUp(c: Job, h: nat)
    requires |c.segs| > 0
    ensures Flat(c, h + 1, c.At(h + 1) + 1) == Flat(c, h, c.At(h) + 1)
  {
    var n := c.At(h + 1);
    FlatPairs(c, h, n);
    BelowPair(c, h, n);
    FlatMore(c, h + 1, n);
    if c.At(h) == 2 * n + 1 {
      FlatTwo(c, h, 2 * n);
    } else {
      FlatMore(c, h, 2 * n);
    }
  }

  lemma {:induction false} FlatLeaves(c: Job, n: nat)
    requires n <= |c.segs| && |c.segs| > 0
    ensures Flat(c, 0, n) == Concat(c.segs[..n])
  {
    if n > 0 {
      FlatLeaves(c, n - 1);
      assert c.segs[..n][..n - 1] == c.segs[..n - 1];
    }
  }

  lemma {:induction false} FlatAll(c: Job, h: nat)
    requires |c.segs| > 0
    ensures Flat(c, h, c.At(h) + 1) == Concat(c.segs)
  {
    if h == 0 {
      FlatLeaves(c, |c.segs|);
      assert c.segs[..|c.segs|] == c.segs;
    } else {
      FlatAll(c, h - 1);
      FlatUp(c, h - 1);
    }
  }

  lemma WholeChunk(c: Job)
    requires c.Fair()
    ensures c.At(c.depth) == 0 && Below(c, c.depth, 0) == Concat(c.segs)
  {
    CoveredTop(c);
    FlatAll(c, c.depth);
    assert Flat(c, c.depth, 0) == [];
  }

  /** The value the concurrent hasher delivers is the reference hash of the chunk. */
  lemma ResultIsRef(c: Job, k: nat)
    requires Cut(c) && |Concat(c.segs)| <= Span(c.size, k + 1)
    ensures Span(c.size, k) > 0
    ensures Result(c) == RefHash(c.hash, c.size, Concat(c.segs), Span(c.size, k))
  {
    WholeChunk(c);
    SpanGrows(c.size, 0, k);
    ValueIsRef(c, c.depth, 0, k);
    if c.Cur() > 0 {
      BelowSize(c, 0, 0);
      TopIsLong(c);
    }
  }

  lemma TopIsLong(c: Job)
    requires Cut(c) && c.Cur() > 0
    ensures |Concat(c.segs)| > c.size
  {
    var last := c.segs[c.Cur()];
    var init := c.segs[..c.Cur()];
    assert init[..|init| - 1] + [init[|init| - 1]] == init;
    assert init[|init| - 1] == c.segs[c.Cur() - 1];
  }

  // ---- Cutting the chunk (Write on a fresh hasher) and sizing the tree ----------------------

  lemma {:induction false} ConcatMore(segs: seq<Bytes>, s: Bytes)
    ensures Concat(segs + [s]) == Concat(segs) + s
  {
    assert (segs + [s])[..|segs|] == segs;
  }

  /** The double segments launched by one Write, and the last, kept for Sum; bytes past the
      capacity are ignored. */
  method Write(b: Bytes, count: nat, size: nat) returns (launched: seq<Bytes>, segment: Bytes)
    requires count > 0 && size > 0
    ensures Concat(launched) + segment == Chunk(b, count, size)
    ensures forall j :: 0 <= j < |launched| ==> |launched[j]| == 2 * size
    ensures |segment| <= 2 * size && (|launched| > 0 ==> |segment| > 0)
    ensures |launched| < (count + 1) / 2
  {
    launched := [];
    if |b| == 0 {
      return [], [];
    }
    var leaves := (count + 1) / 2;
    var need := count * size;
    var sz := size;
    if need > sz {
      sz := sz * 2;
    }
    LeavesHoldAll(count, size);
    if |b| < need {
      need := |b|;
    }
    var first := if need < sz then need else sz;
    assert b[..need] == Chunk(b, count, size);
    launched, segment := Launch(b, size, leaves, first, need);
  }

  /** Every full segment but the last goes to a leaf of its own. */
  method Launch(b: Bytes, size: nat, leaves: nat, first: nat, total: nat) returns (launched: seq<Bytes>, segment: Bytes)
    requires leaves > 0 && 0 < first <= 2 * size && first <= total <= |b| && (first < total ==> first == 2 * size)
    requires total - first <= Times(leaves - 1, 2 * size)
    ensures Concat(launched) + segment == b[..total] && 0 < |segment| <= 2 * size && |launched| < leaves
    ensures forall j :: 0 <= j < |launched| ==> |launched[j]| == 2 * size
  {
    launched, segment := [], b[..first];
    var rest, need, sz, i := first, total - first, first, 0;
    while need > 0 && i < leaves - 1
      invariant |launched| == i <= leaves - 1 && rest + (if need > 0 then need else 0) == total
      invariant 0 < |segment| <= 2 * size && (need > 0 ==> sz == 2 * size == |segment|)
      invariant Concat(launched) + segment == b[..rest]
      invariant need <= Times(leaves - 1 - i, 2 * size)
      invariant forall j :: 0 <= j < i ==> |launched[j]| == 2 * size
      decreases need
    {
      ConcatMore(launched, segment);
      launched := launched + [segment];
      need := need - sz;
      if need < 0 {
        sz := sz + need;
      }
      segment := b[rest..rest + sz];
      assert b[..rest + sz] == b[..rest] + segment;
      rest := rest + sz;
      i := i + 1;
    }
  }

  /** x added n times. */
  function Times(n: nat, x: nat): nat {
    if n == 0 then 0 else x + Times(n - 1, x)
  }

  lemma {:induction false} TimesIsMul(n: nat, x: nat)
    ensures Times(n, x) == n * x
  {
    if n > 0 { TimesIsMul(n - 1, x); }
  }

  /** The part of the input within capacity. */
  function Chunk(b: Bytes, count: nat, size: nat): Bytes {
    if |b| > count * size then b[..count * size] else b
  }

  /** What exceeds the first double segment fits the other leaves. */
  lemma LeavesHoldAll(count: nat, size: nat)
    requires count > 0
    ensures count * size <= 2 * size + Times((count + 1) / 2 - 1, 2 * size)
    ensures count == 1 ==> count * size == size
    ensures count > 1 ==> count * size >= 2 * size
  {
    var leaves := (count + 1) / 2;
    TimesIsMul(count, size);
    TimesGrows(count, 2 * leaves, size);
    TimesPairs(leaves, size);
    if count > 1 {
      TimesGrows(2, count, size);
      assert Times(0, size) == 0;
      assert Times(1, size) == size + Times(0, size);
      assert Times(2, size) == size + Times(1, size);
    }
  }

  lemma {:induction false} TimesGrows(m: nat, n: nat, x: nat)
    requires m <= n
    ensures Times(m, x) <= Times(n, x)
    decreases n
  {
    if m < n { TimesGrows(m, n - 1, x); }
  }

  lemma {:induction false} TimesPairs(n: nat, x: nat)
    ensures Times(2 * n, x) == Times(n, 2 * x)
  {
    if n > 0 { TimesPairs(n - 1, x); }
  }

  /** Levels above the leaves of a tree for count segments. */
  method Depth(count: nat) returns (d: nat)
    requires count > 0
    ensures (count + 1) / 2 <= Pow2(d)
    ensures d > 0 ==> Pow2(d - 1) < (count + 1) / 2
  {
    d := 0;
    var l := (count - 1) / 2;
    ghost var half := l;
    while l > 0
      invariant l == Last(half, d) && (d > 0 ==> Last(half, d - 1) > 0)
    {
      l := l / 2;
      d := d + 1;
    }
    LastBounds(half, d);
    if d > 0 { LastBounds(half, d - 1); }
  }

  lemma {:induction false} LastShift(n: nat, d: nat)
    ensures Last(n, d + 1) == Last(n / 2, d)
  {
    if d > 0 { LastShift(n, d - 1); }
  }

  /** Halving n d times leaves nothing exactly when n is below 2^d. */
  lemma {:induction false} LastBounds(n: nat, d: nat)
    ensures Last(n, d) == 0 <==> n < Pow2(d)
    decreases d
  {
    if d > 0 {
      LastShift(n, d - 1);
      LastBounds(n / 2, d - 1);
    }
  }

  /** The span a reference hasher for count segments starts from. */
  method NewRefHasher(size: nat, count: nat) returns (span: nat, ghost k: nat)
    requires size > 0
    ensures span == Span(size, k) > 0 && count * size <= Span(size, k + 1)
  {
    var c := 2;
    k := 1;
    while c < count
      invariant k >= 1 && c == Pow2(k) && (k > 1 ==> Pow2(k - 1) < count)
      decreases count - c
    {
      c := c * 2;
      k := k + 1;
    }
    SpanIsProduct(size, k);
    if c > 2 {
      c := c / 2;
      k := k - 1;
    }
    SpanIsProduct(size, k);
    SpanIsProduct(size, k + 1);
    span := c * size;
    TimesIsMul(count, size);
    TimesIsMul(Pow2(k + 1), size);
    TimesGrows(count, Pow2(k + 1), size);
    SpanGrows(size, 0, k);
  }

  lemma {:induction false} SpanIsProduct(size: nat, k: nat)
    ensures Span(size, k) == Pow2(k) * size
  {
    if k > 0 { SpanIsProduct(size, k - 1); }
  }

  // ---- Both hashers agree ------------------------------------------------------------------

  /** A chunk written at once to a fresh hasher. */
  method NewJob(hash: Bytes -> Bytes, b: Bytes, count: nat, size: nat) returns (c: Job)
    requires count > 0 && size > 0
    ensures Cut(c) && c.hash == hash && c.size == size && Concat(c.segs) == Chunk(b, count, size)
  {
    var depth := Depth(count);
    var launched, segment := Write(b, count, size);
    ConcatMore(launched, segment);
    c := Job(hash, size, depth, launched + [segment]);
  }

  /** Every complete run of the concurrent hasher on a clean tree delivers the reference hash. */
  lemma HashersAgree(c: Job, b: Bytes, count: nat, k: nat, n0: map<Pos, Node>, run: seq<Who>, t: State)
    requires Cut(c) && Concat(c.segs) == Chunk(b, count, c.size) && count * c.size <= Span(c.size, k + 1)
    requires Clean(c, n0) && Leads(c, Init(n0), run, t) && forall who :: !Enabled(c, t, who)
    ensures Span(c.size, k) > 0
    ensures t.main == Released(RefHash(c.hash, c.size, Chunk(b, count, c.size), Span(c.size, k)))
    ensures Settled(c, n0, t.nodes)
  {
    ChunkIsRef(c, b, count, k);
    EveryRunHashes(c, n0, run, t);
  }

  lemma ChunkIsRef(c: Job, b: Bytes, count: nat, k: nat)
    requires Cut(c) && Concat(c.segs) == Chunk(b, count, c.size) && count * c.size <= Span(c.size, k + 1)
    ensures Span(c.size, k) > 0
    ensures Result(c) == RefHash(c.hash, c.size, Chunk(b, count, c.size), Span(c.size, k))
  {
    ResultIsRef(c, k);
  }
}
