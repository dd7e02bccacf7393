/**
 Trees that are given back to their pool and used again (bmt/bmt.go): how often a tree is
 reusable, chunk after chunk, before a toggle wraps.
 */
module BmtReuse {
  import opened Bytes
  import opened BmtTree
  import opened BmtProtocol
  import opened BmtRuns
  import opened BmtSteps

  // ---- One use -------------------------------------------------------------------------------

  /** An even toggle, and a clean node unless the toggle has just wrapped. */
  ghost predicate TidyNode(c: Job, p: Pos, before: Node, n: Node)
    requires c.Fair()
  {
    && n.state % 2 == 0
    && (CleanNode(c, p, n) <==> !(c.Active(p) && c.Binary(p) && before.state == 0x7fff_fffe))
  }

  lemma {:induction false} NodeAgain(c: Job, p: Pos, before: Node, n: Node)
    requires c.Fair() && CleanNode(c, p, before)
    requires !n.unbalanced && (n.root <==> p.height == c.depth)
    requires n.state == if c.Active(p) && c.Binary(p) then Inc32(before.state + 1) else before.state
    ensures TidyNode(c, p, before, n)
  {
  }

  /** A settled tree is clean again, unless a toggle has just wrapped. */
  lemma CleanAgain(c: Job, n0: map<Pos, Node>, nodes: map<Pos, Node>)
    requires c.Fair() && Clean(c, n0) && Settled(c, n0, nodes)
    ensures Clean(c, nodes) <==> forall p :: p in nodes && c.Active(p) && c.Binary(p) ==> n0[p].state != 0x7fff_fffe
    ensures forall p :: p in nodes ==> nodes[p].state % 2 == 0
  {
    forall p | p in nodes ensures TidyNode(c, p, n0[p], nodes[p]) {
      assert CleanNode(c, p, n0[p]);
      NodeAgain(c, p, n0[p], nodes[p]);
    }
    if forall p :: p in nodes && c.Active(p) && c.Binary(p) ==> n0[p].state != 0x7fff_fffe {
      forall p | p in nodes ensures CleanNode(c, p, nodes[p]) { assert TidyNode(c, p, n0[p], nodes[p]); }
    }
    forall p | p in nodes ensures nodes[p].state % 2 == 0 { assert TidyNode(c, p, n0[p], nodes[p]); }
  }

  /** On an even state the first of two goroutines is told to wait exactly when the state is not
      negative; after a wrap both would go on. */
  lemma ToggleTellsApart(x: int)
    requires x % 2 == 0 && -0x8000_0000 <= x <= 0x7fff_ffff
    ensures GoOdd(Inc32(x)) <==> x >= 0
    ensures !GoOdd(Inc32(Inc32(x)))
  {}

  // ---- Many uses -------------------------------------------------------------------------------

  /** A chunk, the steps of its run, and where they end. */
  datatype Use = Use(job: Job, run: seq<Who>, end: State)

  /** How often a node's toggle can be used before it wraps. */
  const MAX_JOINS: nat := 0x3fff_ffff

  /** A tree as it is built. */
  ghost predicate NewTree(depth: nat, nodes: map<Pos, Node>) {
    && (forall p {:trigger InTree(depth, p)} :: p in nodes <==> InTree(depth, p))
    && (forall p :: p in nodes ==>
          nodes[p].state == 0 && !nodes[p].unbalanced && (nodes[p].root <==> p.height == depth))
  }

  /** Ready for any chunk. */
  ghost predicate Reusable(depth: nat, nodes: map<Pos, Node>) {
    forall c: Job :: c.depth == depth ==> Clean(c, nodes)
  }

  lemma {:induction false} CleanForAll(c: Job, nodes: map<Pos, Node>)
    ensures Clean(c, nodes) <==> Reusable(c.depth, nodes)
  {
    if Clean(c, nodes) {
      forall d: Job | d.depth == c.depth ensures Clean(d, nodes) {
        forall p: Pos ensures p in nodes <==> InTree(d.depth, p) { assert p in nodes <==> InTree(c.depth, p); }
        forall p | p in nodes ensures CleanNode(d, p, nodes[p]) { assert CleanNode(c, p, nodes[p]); }
      }
    }
  }

  function TreeAfter(n0: map<Pos, Node>, uses: seq<Use>): map<Pos, Node> {
    if uses == [] then n0 else uses[|uses| - 1].end.nodes
  }

  /** The chunk is hashed to the end on the tree that the uses before it left. */
  ghost predicate UseOk(depth: nat, n0: map<Pos, Node>, before: seq<Use>, u: Use) {
    && u.job.Fair() && u.job.depth == depth
    && Leads(u.job, Init(TreeAfter(n0, before)), u.run, u.end) && forall who :: !Enabled(u.job, u.end, who)
  }

  ghost predicate Delivers(u: Use) {
    u.job.Fair() && u.end.main == Released(Result(u.job))
  }

  /** One chunk after another on one tree. */
  ghost predicate InTurn(depth: nat, n0: map<Pos, Node>, uses: seq<Use>) {
    uses != [] ==>
      && InTurn(depth, n0, uses[..|uses| - 1])
      && UseOk(depth, n0, uses[..|uses| - 1], uses[|uses| - 1])
  }

  /** In how many uses two goroutines met at the node. */
  function Joins(uses: seq<Use>, p: Pos): (n: nat)
    ensures n <= |uses|
  {
    if uses == [] then 0 else
    var c := uses[|uses| - 1].job;
    Joins(uses[..|uses| - 1], p) + if |c.segs| > 0 && c.Active(p) && c.Binary(p) then 1 else 0
  }

  /** A node's toggle: twice the meetings, until it wraps. */
  ghost predicate Toggled(uses: seq<Use>, p: Pos, n: Node) {
    if Joins(uses, p) <= MAX_JOINS then n.state == 2 * Joins(uses, p) else n.state < 0
  }

  /** No node of the tree was met at too often. */
  ghost predicate Fits(depth: nat, uses: seq<Use>) {
    forall p :: InTree(depth, p) ==> Joins(uses, p) <= MAX_JOINS
  }

  lemma {:induction false} FitsBefore(depth: nat, uses: seq<Use>)
    requires uses != [] && Fits(depth, uses)
    ensures Fits(depth, uses[..|uses| - 1])
  {
    forall p | InTree(depth, p) ensures Joins(uses[..|uses| - 1], p) <= MAX_JOINS {
      assert Joins(uses, p) <= MAX_JOINS;
    }
  }

  /** The tree after the uses, as far as the next one depends on it. */
  ghost predicate WornTree(depth: nat, uses: seq<Use>, nodes: map<Pos, Node>) {
    && (forall p {:trigger InTree(depth, p)} :: p in nodes <==> InTree(depth, p))
    && (forall p :: p in nodes ==>
          Toggled(uses, p, nodes[p]) && !nodes[p].unbalanced && (nodes[p].root <==> p.height == depth))
  }

  lemma {:induction false} NodeWorn(before: seq<Use>, u: Use, p: Pos, n: Node, n': Node)
    requires u.job.Fair() && Joins(before, p) <= MAX_JOINS && Toggled(before, p, n)
    requires n'.state == if u.job.Active(p) && u.job.Binary(p) then Inc32(n.state + 1) else n.state
    ensures Toggled(before + [u], p, n')
  {
    assert (before + [u])[..|before|] == before;
  }

  lemma {:induction false} WornCleanly(c: Job, uses: seq<Use>, nodes: map<Pos, Node>)
    requires WornTree(c.depth, uses, nodes)
    ensures Clean(c, nodes) <==> Fits(c.depth, uses)
  {
    if Clean(c, nodes) {
      forall p | InTree(c.depth, p) ensures Joins(uses, p) <= MAX_JOINS { assert CleanNode(c, p, nodes[p]); }
    }
    if Fits(c.depth, uses) {
      forall p | p in nodes ensures CleanNode(c, p, nodes[p]) {
        assert InTree(c.depth, p) && Toggled(uses, p, nodes[p]);
      }
    }
  }

  /** One more use of a tree that is not worn out: its chunk's value is delivered. */
  lemma {:induction false} OneMoreUse(depth: nat, n0: map<Pos, Node>, before: seq<Use>, u: Use)
    requires WornTree(depth, before, TreeAfter(n0, before)) && Fits(depth, before) && UseOk(depth, n0, before, u)
    ensures WornTree(depth, before + [u], u.end.nodes) && Delivers(u)
  {
    var c, nodes := u.job, TreeAfter(n0, before);
    WornCleanly(c, before, nodes);
    EveryRunHashes(c, nodes, u.run, u.end);
    forall p | p in u.end.nodes ensures Toggled(before + [u], p, u.end.nodes[p]) {
      assert InTree(depth, p);
      NodeWorn(before, u, p, nodes[p], u.end.nodes[p]);
    }
  }

  lemma {:induction false} UsesWear(depth: nat, n0: map<Pos, Node>, uses: seq<Use>)
    requires NewTree(depth, n0) && InTurn(depth, n0, uses)
    requires uses != [] ==> Fits(depth, uses[..|uses| - 1])
    ensures WornTree(depth, uses, TreeAfter(n0, uses))
    ensures uses != [] ==> Delivers(uses[|uses| - 1])
    decreases |uses|
  {
    if uses != [] {
      var before, u := uses[..|uses| - 1], uses[|uses| - 1];
      assert uses == before + [u];
      if before != [] { FitsBefore(depth, before); }
      UsesWear(depth, n0, before);
      OneMoreUse(depth, n0, before, u);
    }
  }

  /**
   A tree given back after any number of chunks, all but the last on a reusable tree, is
   reusable again exactly if no node was met at more than 2^30 - 1 times; and the last chunk's
   value was delivered.
   */
  lemma {:induction false} ReuseBudget(depth: nat, n0: map<Pos, Node>, uses: seq<Use>)
    requires NewTree(depth, n0) && InTurn(depth, n0, uses) && uses != [] && Fits(depth, uses[..|uses| - 1])
    ensures Reusable(depth, TreeAfter(n0, uses)) <==> Fits(depth, uses)
    ensures Delivers(uses[|uses| - 1])
  {
    UsesWear(depth, n0, uses);
    var c := uses[|uses| - 1].job;
    WornCleanly(c, uses, TreeAfter(n0, uses));
    CleanForAll(c, TreeAfter(n0, uses));
  }

  lemma {:induction false} FewFit(depth: nat, uses: seq<Use>)
    requires |uses| <= MAX_JOINS
    ensures Fits(depth, uses)
  {
    forall p | InTree(depth, p) ensures Joins(uses, p) <= MAX_JOINS {}
  }

  lemma {:induction false} LastDelivers(depth: nat, n0: map<Pos, Node>, uses: seq<Use>)
    requires NewTree(depth, n0) && InTurn(depth, n0, uses) && 0 < |uses| <= MAX_JOINS + 1
    ensures Delivers(uses[|uses| - 1]) && (|uses| <= MAX_JOINS ==> Reusable(depth, TreeAfter(n0, uses)))
  {
    FewFit(depth, uses[..|uses| - 1]);
    ReuseBudget(depth, n0, uses);
    if |uses| <= MAX_JOINS { FewFit(depth, uses); }
  }

  /** Up to 2^30 chunks one after the other on a new tree: each is hashed rightly. */
  lemma {:induction false} EveryUseHashes(depth: nat, n0: map<Pos, Node>, uses: seq<Use>)
    requires NewTree(depth, n0) && InTurn(depth, n0, uses) && |uses| <= MAX_JOINS + 1
    ensures forall i: nat :: i < |uses| ==> Delivers(uses[i])
    ensures 0 < |uses| <= MAX_JOINS ==> Reusable(depth, TreeAfter(n0, uses))
    decreases |uses|
  {
    if uses != [] {
      var before := uses[..|uses| - 1];
      LastDelivers(depth, n0, uses);
      EveryUseHashes(depth, n0, before);
      forall i: nat | i < |uses| ensures Delivers(uses[i]) {
        if i < |before| { assert uses[i] == before[i]; }
      }
    }
  }

  // ---- A worn tree ------------------------------------------------------------------------------

  /** The node where the first two segments meet. */
  const FIRST_JOIN := Pos(1, 0)

  lemma {:induction false} LastShrinks(cur: nat, h: nat)
    ensures Last(cur, h) > 0 ==> cur > 0
  {
    if h > 0 { LastShrinks(cur, h - 1); }
  }

  /** A chunk that has two goroutines meet anywhere has two meet at the first node. */
  lemma {:induction false} FirstMeetsToo(c: Job, p: Pos)
    requires |c.segs| > 0 && c.Active(p) && c.Binary(p)
    ensures c.Active(FIRST_JOIN) && c.Binary(FIRST_JOIN)
  {
    LastShrinks(c.Cur(), p.height - 1);
    assert c.At(0) == c.Cur() && c.At(1) == c.Cur() / 2;
  }

  lemma {:induction false} FirstWearsMost(uses: seq<Use>, p: Pos)
    ensures Joins(uses, p) <= Joins(uses, FIRST_JOIN)
    decreases |uses|
  {
    if uses != [] {
      var c := uses[|uses| - 1].job;
      FirstWearsMost(uses[..|uses| - 1], p);
      if |c.segs| > 0 && c.Active(p) && c.Binary(p) { FirstMeetsToo(c, p); }
    }
  }

  /** So a tree that is worn out is so at the first node. */
  lemma {:induction false} WornAtFirst(depth: nat, uses: seq<Use>, nodes: map<Pos, Node>)
    requires WornTree(depth, uses, nodes) && !Fits(depth, uses)
    ensures depth > 0 && FIRST_JOIN in nodes && nodes[FIRST_JOIN].state < 0
  {
    var p :| InTree(depth, p) && Joins(uses, p) > MAX_JOINS;
    FirstWearsMost(uses, p);
    if depth == 0 { NoneAtLeaves(uses, p); }
    assert Pow2(depth - 1) > 0 && InTree(depth, FIRST_JOIN);
    assert Toggled(uses, FIRST_JOIN, nodes[FIRST_JOIN]);
  }

  lemma {:induction false} NoneAtLeaves(uses: seq<Use>, p: Pos)
    requires p.height == 0
    ensures Joins(uses, p) == 0
    decreases |uses|
  {
    if uses != [] { NoneAtLeaves(uses[..|uses| - 1], p); }
  }

  /** A chunk of two full segments. */
  ghost predicate TwoSegments(c: Job) {
    c.depth > 0 && |c.segs| == 2 && |c.segs[0]| > c.size && |c.segs[1]| > c.size
  }

  lemma {:induction false} TwoIsFair(c: Job)
    requires TwoSegments(c)
    ensures c.Fair() && c.Cur() == 1 && c.Full(0) && c.Full(1)
  {
    assert Pow2(c.depth) == 2 * Pow2(c.depth - 1);
  }

  lemma {:induction false} TwoValue(c: Job, h: nat)
    requires TwoSegments(c) && h > 0
    ensures c.At(h) == 0 && c.Value(h, 0) == c.hash(c.hash(c.segs[0]) + c.hash(c.segs[1]))
  {
    TwoIsFair(c);
    if h == 1 {
      assert c.At(0) == 1 && c.Value(0, 0) == c.hash(c.segs[0]) && c.Value(0, 1) == c.hash(c.segs[1]);
    } else {
      TwoValue(c, h - 1);
    }
  }

  lemma {:induction false} LeadsOn(c: Job, s: State, run: seq<Who>, m: State, who: Who)
    requires |c.segs| > 0 && Leads(c, s, run, m) && Enabled(c, m, who)
    ensures Leads(c, s, run + [who], Do(c, m, who))
  {
    assert (run + [who])[..|run|] == run;
  }

  ghost predicate Reached(c: Job, s: State, t: State)
    requires |c.segs| > 0
  {
    exists run: seq<Who> :: Leads(c, s, run, t)
  }

  lemma {:induction false} ReachesSelf(c: Job, s: State)
    requires |c.segs| > 0
    ensures Reached(c, s, s)
  {
    assert Leads(c, s, [], s);
  }

  lemma {:induction false} ReachesNext(c: Job, s: State, m: State, who: Who)
    requires |c.segs| > 0 && Reached(c, s, m) && Enabled(c, m, who)
    ensures Reached(c, s, Do(c, m, who))
  {
    var run :| Leads(c, s, run, m);
    LeadsOn(c, s, run, m, who);
  }

  /** The caller has launched both segments, and marked the path of the second. */
  lemma {:induction false} BothLaunched(c: Job, nodes: map<Pos, Node>) returns (t: State)
    requires TwoSegments(c) && FIRST_JOIN in nodes
    ensures Reached(c, Init(nodes), t) && t.main == Awaiting
    ensures t.workers == map[0 := Start(c.depth), 1 := Start(0)]
    ensures t.nodes == nodes[FIRST_JOIN := nodes[FIRST_JOIN].(unbalanced := false, right := [], root := true)]
  {
    TwoIsFair(c);
    var s0 := Init(nodes);
    ReachesSelf(c, s0);
    ReachesNext(c, s0, s0, Caller);
    var s1 := State(nodes, map[0 := Start(c.depth)], Writing(1));
    assert Do(c, s0, Caller) == s1;
    ReachesNext(c, s0, s1, Caller);
    var s2 := s1.(main := Finalising(Edge(FIRST_JOIN, false), 0));
    assert Do(c, s1, Caller) == s2;
    ReachesNext(c, s0, s2, Caller);
    var s3 := Do(c, s2, Caller);
    ReachesNext(c, s0, s3, Caller);
    t := Do(c, s3, Caller);
  }

  /** The first goroutine, and the first node, in a state that is otherwise s. */
  function With(s: State, n: Node, w: Worker): State {
    s.(nodes := s.nodes[FIRST_JOIN := n], workers := s.workers[0 := w])
  }

  /** One step of the first goroutine at the first node. */
  lemma {:induction false} FirstSteps(c: Job, s0: State, s: State, n: Node, w: Worker, n': Node, w': Worker)
    requires |c.segs| > 0 && Reached(c, s0, With(s, n, w)) && w.Climb? && w.e.p == FIRST_JOIN
    requires DoClimb(c, n, w) == (n', w')
    ensures Reached(c, s0, With(s, n', w'))
  {
    var m := With(s, n, w);
    ReachesNext(c, s0, m, Routine(0));
    assert m.nodes[FIRST_JOIN := n'] == s.nodes[FIRST_JOIN := n'];
    assert m.workers[0 := w'] == s.workers[0 := w'];
    assert Do(c, m, Routine(0)) == With(s, n', w');
  }

  /** The first goroutine reaches the node with its hash. */
  lemma {:induction false} FirstArrives(c: Job, s0: State, s: State)
    requires TwoSegments(c) && Reached(c, s0, s) && 0 in s.workers && s.workers[0] == Start(c.depth)
    requires Pos(0, 0) in s.nodes && !s.nodes[Pos(0, 0)].root && FIRST_JOIN in s.nodes
    ensures Reached(c, s0, With(s, s.nodes[FIRST_JOIN],
                                Climb(Store, Edge(FIRST_JOIN, true), c.hash(c.segs[0]), 0, c.depth, false)))
  {
    TwoIsFair(c);
    ReachesNext(c, s0, s, Routine(0));
    var s1 := Do(c, s, Routine(0));
    ReachesNext(c, s0, s1, Routine(0));
    var w := Climb(Store, Edge(FIRST_JOIN, true), c.hash(c.segs[0]), 0, c.depth, false);
    assert s.nodes[FIRST_JOIN := s.nodes[FIRST_JOIN]] == s.nodes;
    assert s1.workers[0 := w] == s.workers[0 := w];
    assert Do(c, s1, Routine(0)) == With(s, s.nodes[FIRST_JOIN], w);
  }

  /** On a negative toggle it is not told to wait: it combines with nothing and goes out with the result. */
  lemma {:induction false} FirstPasses(c: Job, s0: State, s: State, n: Node, v: Bytes) returns (n': Node)
    requires |c.segs| > 0 && n.state < 0 && n.right == [] && !n.unbalanced && n.root
    requires Reached(c, s0, With(s, n, Climb(Store, Edge(FIRST_JOIN, true), v, 0, c.depth, false)))
    ensures Reached(c, s0, With(s, n', Sending(c.hash(v + []))))
  {
    var e, r := Edge(FIRST_JOIN, true), c.hash(v + []);
    var n1 := n.(left := v);
    n' := n1.(state := Inc32(n.state));
    var w0, w1 := Climb(Store, e, v, 0, c.depth, false), Climb(Load, e, v, 0, c.depth, false);
    var w2, w3 := Climb(Toggle, e, v, 0, c.depth, false), Climb(Combine, e, v, 0, c.depth, false);
    FirstSteps(c, s0, s, n, w0, n1, w1);
    FirstSteps(c, s0, s, n1, w1, n1, w2);
    FirstSteps(c, s0, s, n1, w2, n', w3);
    var w4 := Climb(Root, e, r, 0, c.depth, false);
    FirstSteps(c, s0, s, n', w3, n', w4);
    FirstSteps(c, s0, s, n', w4, n', Sending(r));
  }

  /**
   On a tree whose first node has a negative toggle, whatever its depth, a chunk of two full
   segments has a run that delivers a hash before the second segment is even started: the hash
   does not depend on it.
   */
  lemma {:induction false} WornDelivers(c: Job, nodes: map<Pos, Node>) returns (run: seq<Who>, t: State)
    requires TwoSegments(c) && FIRST_JOIN in nodes && nodes[FIRST_JOIN].state < 0
    requires Pos(0, 0) in nodes && !nodes[Pos(0, 0)].root
    ensures Leads(c, Init(nodes), run, t) && 1 in t.workers && t.workers[1].Start?
    ensures t.main == Received(c.hash(c.hash(c.segs[0]) + []))
  {
    var s0, v := Init(nodes), c.hash(c.segs[0]);
    var s := BothLaunched(c, nodes);
    FirstArrives(c, s0, s);
    var n := FirstPasses(c, s0, s, s.nodes[FIRST_JOIN], v);
    var m := With(s, n, Sending(c.hash(v + [])));
    ReachesNext(c, s0, m, Routine(0));
    t := Do(c, m, Routine(0));
    run :| Leads(c, s0, run, t);
  }

  /** Every run of every chunk delivers that chunk's hash or nothing. */
  ghost predicate HashesRightly(depth: nat, nodes: map<Pos, Node>) {
    forall c: Job, run: seq<Who>, t: State ::
      c.Fair() && c.depth == depth && Leads(c, Init(nodes), run, t) ==> Right(c, t.main)
  }

  ghost predicate Right(c: Job, m: Main)
    requires c.Fair()
  {
    (m.Received? || m.Released?) ==> m.r == Result(c)
  }

  lemma {:induction false} CleanHashesRightly(c: Job, nodes: map<Pos, Node>, run: seq<Who>, t: State)
    requires c.Fair() && Clean(c, nodes) && Leads(c, Init(nodes), run, t)
    ensures Right(c, t.main)
  {
    EveryRunHashes(c, nodes, run, t);
    if t.main.Received? {
      LeadsOn(c, Init(nodes), run, t, Caller);
      EveryRunHashes(c, nodes, run + [Caller], Do(c, t, Caller));
    }
  }

  /** With the identity for a hash, a worn tree delivers the first segment for the whole chunk. */
  lemma {:induction false} WornHashesWrongly(depth: nat, uses: seq<Use>, nodes: map<Pos, Node>)
    requires WornTree(depth, uses, nodes) && !Fits(depth, uses)
    ensures !HashesRightly(depth, nodes)
  {
    WornAtFirst(depth, uses, nodes);
    var a: Bytes := [1, 1];
    var c := Job((x: Bytes) => x, 1, depth, [a, a]);
    assert InTree(depth, Pos(0, 0)) by { assert Pow2(depth) > 0; }
    var run, t := WornDelivers(c, nodes);
    TwoIsFair(c);
    TwoValue(c, depth);
    assert Result(c) == a + a && t.main == Received(a + []);
    assert !Right(c, t.main) by { assert |a + a| == 4 && |a + []| == 2; }
  }

  /**
   After any number of chunks, all but the last on a tree that was not worn out, the tree hashes
   every further chunk rightly in every interleaving if and only if at no node two goroutines
   have met more than 2^30 - 1 times.
   */
  lemma {:induction false} WornExactly(depth: nat, n0: map<Pos, Node>, uses: seq<Use>)
    requires NewTree(depth, n0) && InTurn(depth, n0, uses) && uses != [] && Fits(depth, uses[..|uses| - 1])
    ensures HashesRightly(depth, TreeAfter(n0, uses)) <==> Fits(depth, uses)
  {
    var nodes := TreeAfter(n0, uses);
    UsesWear(depth, n0, uses);
    if Fits(depth, uses) {
      forall c: Job, run: seq<Who>, t: State | c.Fair() && c.depth == depth && Leads(c, Init(nodes), run, t)
        ensures Right(c, t.main)
      {
        WornCleanly(c, uses, nodes);
        CleanHashesRightly(c, nodes, run, t);
      }
    } else {
      WornHashesWrongly(depth, uses, nodes);
    }
  }
}
