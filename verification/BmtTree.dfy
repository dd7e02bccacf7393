/**
 The shape of the binary Merkle tree (bmt/bmt.go), which of its nodes a chunk uses,
 and the value each of them must hand on.
 */
module BmtTree {
  import opened Bytes

  // ---- Geometry --------------------------------------------------------------------

  /** A node, by height above the leaves and index within its level. */
  datatype Pos = Pos(height: nat, index: nat)

  /** A way into a node. */
  datatype Edge = Edge(p: Pos, left: bool)

  function Pow2(n: nat): (r: nat)
    ensures r > 0
  {
    if n == 0 then 1 else 2 * Pow2(n - 1)
  }

  predicate InTree(depth: nat, p: Pos) {
    p.height <= depth && p.index < Pow2(depth - p.height)
  }

  /** The edge from a node to its parent. */
  function Up(p: Pos): Edge {
    Edge(Pos(p.height + 1, p.index / 2), p.index % 2 == 0)
  }

  /** The node an edge above the leaves comes from. */
  function Child(e: Edge): Pos
    requires e.p.height > 0
  {
    Pos(e.p.height - 1, 2 * e.p.index + if e.left then 0 else 1)
  }

  /** The rightmost node of each level that has data, when leaf cur is the last. */
  function Last(cur: nat, h: nat): nat {
    if h == 0 then cur else Last(cur, h - 1) / 2
  }

  /** A chunk cut into double segments, and the tree it is hashed on. */
  datatype Job = Job(hash: Bytes -> Bytes, size: nat, depth: nat, segs: seq<Bytes>) {
    ghost predicate Fair() {
      && 0 < |segs| <= Pow2(depth)
      && (forall j :: 0 <= j < |segs| - 1 ==> |segs[j]| > size)
    }

    function Cur(): nat requires |segs| > 0 { |segs| - 1 }

    function At(h: nat): nat requires |segs| > 0 { Last(Cur(), h) }

    /** A segment hashed before it enters the tree. */
    predicate Full(j: nat) requires j < |segs| { |segs[j]| > size && depth > 0 }

    /** Levels up to the one where a single node covers all the data. */
    predicate Covered(h: nat) requires |segs| > 0 { h == 0 || At(h - 1) > 0 }

    predicate IsTop(p: Pos) requires |segs| > 0 { Covered(p.height) && At(p.height) == 0 && p.index == 0 }

    /** Nodes that data passes through. */
    predicate Active(p: Pos) requires |segs| > 0 {
      && Covered(p.height) && p.index <= At(p.height)
      && (p.height == 0 ==> p.index == Cur() && !Full(Cur()))
    }

    predicate Binary(p: Pos) requires |segs| > 0 {
      p.height > 0 && 2 * p.index + 1 <= At(p.height - 1)
    }

    predicate Used(e: Edge) requires |segs| > 0 { Active(e.p) && (e.left || Binary(e.p)) }

    /** Edges that carry data of the last segment. */
    predicate OnPath(e: Edge) requires |segs| > 0 {
      e.p.height == 0 || Child(e).index == At(e.p.height - 1)
    }

    /** What a node must hand on: the hash of its two sides, or its only side. */
    function Value(h: nat, i: nat): Bytes
      requires |segs| > 0 && i <= At(h)
      decreases h
    {
      if h == 0 then (if i == Cur() && !Full(i) && i > 0 then segs[i] else hash(segs[i]))
      else if 2 * i + 1 <= At(h - 1) then hash(Value(h - 1, 2 * i) + Value(h - 1, 2 * i + 1))
      else Value(h - 1, 2 * i)
    }

    /** What must enter a node by an edge. */
    function Carried(e: Edge): Bytes
      requires |segs| > 0 && Used(e)
    {
      if e.p.height == 0 then segs[Cur()] else Value(e.p.height - 1, Child(e).index)
    }
  }

  /** The parent edge of an active node below the top is used, and comes back to it. */
  lemma UpIsUsed(c: Job, p: Pos)
    requires |c.segs| > 0 && c.Active(p) && !c.IsTop(p)
    ensures c.Used(Up(p)) && Child(Up(p)) == p
    ensures c.OnPath(Up(p)) <==> p.index == c.At(p.height)
    ensures c.Carried(Up(p)) == c.Value(p.height, p.index)
  {}

  /** Every used edge above the leaves comes from a full leaf or from an active node. */
  lemma ChildIsActive(c: Job, e: Edge)
    requires c.Fair() && c.Used(e) && e.p.height > 0
    ensures Child(e).index <= c.At(e.p.height - 1) && Up(Child(e)) == e
    ensures c.Active(Child(e)) || (e.p.height == 1 && c.Full(Child(e).index))
    ensures c.Active(Child(e)) ==> !c.IsTop(Child(e))
  {}

  lemma {:induction false} LastFits(cur: nat, depth: nat, h: nat)
    requires cur < Pow2(depth) && h <= depth
    ensures Last(cur, h) < Pow2(depth - h)
  {
    if h > 0 { LastFits(cur, depth, h - 1); }
  }

  lemma {:induction false} LastDies(cur: nat, depth: nat, h: nat)
    requires cur < Pow2(depth) && depth <= h
    ensures Last(cur, h) == 0
    decreases h
  {
    if h == depth {
      LastFits(cur, depth, depth);
    } else {
      LastDies(cur, depth, h - 1);
    }
  }

  /** Data never climbs past the tree. */
  lemma CoveredFits(c: Job, h: nat)
    requires c.Fair() && c.Covered(h)
    ensures h <= c.depth && c.At(h) < Pow2(c.depth - h)
    ensures h == c.depth ==> c.At(h) == 0
  {
    var cur := c.Cur();
    assert h <= c.depth by {
      forall k: nat | c.depth <= k ensures Last(cur, k) == 0 { LastDies(cur, c.depth, k); }
    }
    LastFits(cur, c.depth, h);
  }
}
