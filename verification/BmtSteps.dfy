/**
 Every step at a leaf, on the result channel and of the caller of the concurrent hasher
 (bmt/bmt.go) keeps the protocol's invariant.
 */
module BmtSteps {
  import opened BmtTree
  import opened BmtProtocol
  import opened BmtClimb

  // ---- Leaves and the result channel ------------------------------------------------------------

  lemma NodesSame(c: Job, n0: map<Pos, Node>, s: State, tr: Tracks, s': State, tr': Tracks)
    requires c.Fair() && NodesOk(c, s, tr, n0) && s'.nodes == s.nodes
    requires Marked(c, s'.main) == Marked(c, s.main)
    requires forall f :: PhaseOf(s', tr', f) == PhaseOf(s, tr, f)
    ensures NodesOk(c, s', tr', n0)
  {
    forall p ensures FlagsOk(c, s', p) && JoinOk(c, s', tr', n0, p) {
      assert FlagsOk(c, s, p) && JoinOk(c, s, tr, n0, p);
    }
    forall f ensures DataOk(c, s', tr', f) { assert DataOk(c, s, tr, f); }
  }

  lemma StartKeeps(c: Job, n0: map<Pos, Node>, s: State, tr: Tracks, j: nat)
    requires Inv(c, n0, s, tr) && Enabled(c, s, Routine(j)) && s.workers[j].Start?
    ensures Inv(c, n0, DoRoutine(c, s, j), tr)
  {
    var s' := DoRoutine(c, s, j);
    assert WorkerOk(c, s, tr, j);
    forall f ensures EdgeOk(c, s', tr, f) && PhaseOf(s', tr, f) == PhaseOf(s, tr, f) { assert EdgeOk(c, s, tr, f); }
    forall k: nat ensures WorkerOk(c, s', tr, k) { assert WorkerOk(c, s, tr, k); }
    NodesSame(c, n0, s, tr, s', tr);
    SendSame(c, s, tr, s', tr);
  }

  /** A hashed segment is the whole result exactly when it is the only one. */
  lemma LeafRoot(c: Job, n0: map<Pos, Node>, s: State, tr: Tracks, j: nat)
    requires Inv(c, n0, s, tr) && Enabled(c, s, Routine(j)) && s.workers[j].Hashed?
    ensures s.nodes[Pos(0, j)].root <==> c.Cur() == 0
    ensures c.Cur() > 0 ==> c.Used(Up(Pos(0, j))) && Child(Up(Pos(0, j))) == Pos(0, j)
    ensures c.Cur() > 0 ==> c.Carried(Up(Pos(0, j))) == c.Value(0, j)
  {
    assert WorkerOk(c, s, tr, j) && FlagsOk(c, s, Pos(0, j));
  }

  lemma HashedSends(c: Job, n0: map<Pos, Node>, s: State, tr: Tracks, j: nat)
    requires Inv(c, n0, s, tr) && Enabled(c, s, Routine(j)) && s.workers[j].Hashed? && c.Cur() == 0
    ensures Inv(c, n0, DoRoutine(c, s, j), tr)
  {
    var s' := DoRoutine(c, s, j);
    LeafRoot(c, n0, s, tr, j);
    assert WorkerOk(c, s, tr, j) && j == 0;
    TopValue(c, Pos(0, 0), c.depth);
    forall f ensures EdgeOk(c, s', tr, f) && PhaseOf(s', tr, f) == PhaseOf(s, tr, f) {
      assert EdgeOk(c, s, tr, f);
      NoEdges(c, f);
    }
    forall k: nat ensures WorkerOk(c, s', tr, k) { assert WorkerOk(c, s, tr, k); }
    NodesSame(c, n0, s, tr, s', tr);
    forall k | Offers(s', k) ensures k == 0 { assert WorkerOk(c, s, tr, k); }
    assert Offers(s', 0);
  }

  lemma HashedEdges(c: Job, n0: map<Pos, Node>, s: State, tr: Tracks, j: nat)
    requires Inv(c, n0, s, tr) && Enabled(c, s, Routine(j)) && s.workers[j].Hashed? && c.Cur() > 0
    ensures EdgesOk(c, DoRoutine(c, s, j), tr[Up(Pos(0, j)) := Held(j)])
  {
    var s', e := DoRoutine(c, s, j), Up(Pos(0, j));
    var tr' := tr[e := Held(j)];
    LeafRoot(c, n0, s, tr, j);
    assert WorkerOk(c, s, tr, j);
    forall f ensures EdgeOk(c, s', tr', f) {
      assert EdgeOk(c, s, tr, f);
    }
  }

  lemma HashedWorkers(c: Job, n0: map<Pos, Node>, s: State, tr: Tracks, j: nat)
    requires Inv(c, n0, s, tr) && Enabled(c, s, Routine(j)) && s.workers[j].Hashed? && c.Cur() > 0
    ensures WorkersOk(c, DoRoutine(c, s, j), tr[Up(Pos(0, j)) := Held(j)])
  {
    var s', e := DoRoutine(c, s, j), Up(Pos(0, j));
    var tr' := tr[e := Held(j)];
    LeafRoot(c, n0, s, tr, j);
    assert WorkerOk(c, s, tr, j);
    forall k: nat ensures WorkerOk(c, s', tr', k) {
      assert WorkerOk(c, s, tr, k);
      assert k == j || Up(Pos(0, k)) != e;
    }
  }

  lemma HashedClimbs(c: Job, n0: map<Pos, Node>, s: State, tr: Tracks, j: nat)
    requires Inv(c, n0, s, tr) && Enabled(c, s, Routine(j)) && s.workers[j].Hashed? && c.Cur() > 0
    ensures Inv(c, n0, DoRoutine(c, s, j), tr[Up(Pos(0, j)) := Held(j)])
  {
    var s', e := DoRoutine(c, s, j), Up(Pos(0, j));
    var tr' := tr[e := Held(j)];
    LeafRoot(c, n0, s, tr, j);
    assert WorkerOk(c, s, tr, j);
    HashedEdges(c, n0, s, tr, j);
    HashedWorkers(c, n0, s, tr, j);
    forall f ensures PhaseOf(s', tr', f) == PhaseOf(s, tr, f) { assert EdgeOk(c, s, tr, f); }
    NodesSame(c, n0, s, tr, s', tr');
    SendSame(c, s, tr, s', tr');
  }

  lemma SendKeeps(c: Job, n0: map<Pos, Node>, s: State, tr: Tracks, j: nat)
    requires Inv(c, n0, s, tr) && Enabled(c, s, Routine(j)) && s.workers[j].Sending?
    ensures Inv(c, n0, DoRoutine(c, s, j), tr)
  {
    var s' := DoRoutine(c, s, j);
    assert WorkerOk(c, s, tr, j);
    forall f ensures EdgeOk(c, s', tr, f) && PhaseOf(s', tr, f) == PhaseOf(s, tr, f) { assert EdgeOk(c, s, tr, f); }
    forall k: nat ensures WorkerOk(c, s', tr, k) { assert WorkerOk(c, s, tr, k); }
    NodesSame(c, n0, s, tr, s', tr);
    assert Offers(s, j);
    forall k ensures k != j ==> Offers(s', k) == Offers(s, k) {}
  }

  // ---- The caller -----------------------------------------------------------------------------

  lemma LaunchEdges(c: Job, n0: map<Pos, Node>, s: State, tr: Tracks, k: nat)
    requires Inv(c, n0, s, tr) && s.main == Writing(k) && k < c.Cur()
    ensures EdgesOk(c, DoCaller(c, s), tr) && WorkersOk(c, DoCaller(c, s), tr)
  {
    var s' := DoCaller(c, s);
    assert EdgeOk(c, s, tr, Up(Pos(0, k)));
    forall f ensures EdgeOk(c, s', tr, f) { assert EdgeOk(c, s, tr, f); }
    forall i: nat ensures WorkerOk(c, s', tr, i) { assert WorkerOk(c, s, tr, i); }
  }

  lemma LaunchKeeps(c: Job, n0: map<Pos, Node>, s: State, tr: Tracks, k: nat)
    requires Inv(c, n0, s, tr) && s.main == Writing(k) && k < c.Cur()
    ensures Inv(c, n0, DoCaller(c, s), tr)
  {
    var s' := DoCaller(c, s);
    LaunchEdges(c, n0, s, tr, k);
    forall f ensures PhaseOf(s', tr, f) == PhaseOf(s, tr, f) { assert EdgeOk(c, s, tr, f); }
    NodesSame(c, n0, s, tr, s', tr);
    SendSame(c, s, tr, s', tr);
  }

  function LastTrack(c: Job, tr: Tracks): Tracks
    requires |c.segs| > 0
  {
    if c.Full(c.Cur()) then tr else tr[Edge(Pos(0, c.Cur()), true) := Held(c.Cur())]
  }

  lemma LaunchLastEdges(c: Job, n0: map<Pos, Node>, s: State, tr: Tracks)
    requires Inv(c, n0, s, tr) && s.main.Launching?
    ensures EdgesOk(c, DoCaller(c, s), LastTrack(c, tr))
  {
    var s', tr' := DoCaller(c, s), LastTrack(c, tr);
    assert EdgeOk(c, s, tr, Edge(Pos(0, c.Cur()), true));
    forall f ensures EdgeOk(c, s', tr', f) { assert EdgeOk(c, s, tr, f); }
  }

  lemma LaunchLastWorkers(c: Job, n0: map<Pos, Node>, s: State, tr: Tracks)
    requires Inv(c, n0, s, tr) && s.main.Launching?
    ensures WorkersOk(c, DoCaller(c, s), LastTrack(c, tr))
  {
    var s', tr' := DoCaller(c, s), LastTrack(c, tr);
    assert EdgeOk(c, s, tr, Up(Pos(0, c.Cur()))) && EdgeOk(c, s, tr, Edge(Pos(0, c.Cur()), true));
    forall i: nat ensures WorkerOk(c, s', tr', i) { assert WorkerOk(c, s, tr, i); }
  }

  lemma LaunchLastKeeps(c: Job, n0: map<Pos, Node>, s: State, tr: Tracks)
    requires Inv(c, n0, s, tr) && s.main.Launching?
    ensures Inv(c, n0, DoCaller(c, s), LastTrack(c, tr))
  {
    var s', tr', e := DoCaller(c, s), LastTrack(c, tr), Edge(Pos(0, c.Cur()), true);
    LaunchLastEdges(c, n0, s, tr);
    LaunchLastWorkers(c, n0, s, tr);
    assert EdgeOk(c, s, tr, e);
    forall f ensures PhaseOf(s', tr', f) == PhaseOf(s, tr, f) { assert EdgeOk(c, s, tr, f); }
    NodesSame(c, n0, s, tr, s', tr');
    SendSame(c, s, tr, s', tr');
  }

  lemma SumKeeps(c: Job, n0: map<Pos, Node>, s: State, tr: Tracks)
    requires Inv(c, n0, s, tr) && s.main == Writing(c.Cur())
    ensures Inv(c, n0, DoCaller(c, s), tr)
  {
    var s' := DoCaller(c, s);
    forall f ensures EdgeOk(c, s', tr, f) && DataOk(c, s', tr, f) { assert EdgeOk(c, s, tr, f) && DataOk(c, s, tr, f); }
    forall i: nat ensures WorkerOk(c, s', tr, i) { assert WorkerOk(c, s, tr, i); }
    forall p ensures FlagsOk(c, s', p) && JoinOk(c, s', tr, n0, p) {
      assert FlagsOk(c, s, p) && JoinOk(c, s, tr, n0, p);
    }
    SendSame(c, s, tr, s', tr);
  }

  /** Marking one node of the path: its flags become final, and nothing was on its right. */
  lemma MarkFlags(c: Job, n0: map<Pos, Node>, s: State, tr: Tracks)
    requires Inv(c, n0, s, tr) && s.main.Finalising? && s.main.e.p in s.nodes
    ensures forall p :: FlagsOk(c, DoCaller(c, s), p)
  {
    var s', e := DoCaller(c, s), s.main.e;
    forall p ensures FlagsOk(c, s', p) {
      assert FlagsOk(c, s, p) && (p in s.nodes ==> InTree(c.depth, p));
      if p.height > e.p.height && e.p.index == 0 && p.height > 0 && c.At(p.height - 1) > 0 {
        StaysAlive(c.Cur(), e.p.height, p.height - 1);
      }
    }
  }

  lemma MarkData(c: Job, n0: map<Pos, Node>, s: State, tr: Tracks, f: Edge)
    requires Inv(c, n0, s, tr) && s.main.Finalising? && s.main.e.p in s.nodes
    ensures DataOk(c, DoCaller(c, s), tr, f)
  {
    var e := s.main.e;
    assert DataOk(c, s, tr, f);
    assert PhaseOf(DoCaller(c, s), tr, f) == PhaseOf(s, tr, f);
    if f.p == e.p && !f.left && c.Used(f) { PathIdle(c, n0, s, tr, f); }
  }

  lemma MarkNodes(c: Job, n0: map<Pos, Node>, s: State, tr: Tracks)
    requires Inv(c, n0, s, tr) && s.main.Finalising? && s.main.e.p in s.nodes
    ensures NodesOk(c, DoCaller(c, s), tr, n0)
  {
    var s' := DoCaller(c, s);
    MarkFlags(c, n0, s, tr);
    forall f ensures DataOk(c, s', tr, f) { MarkData(c, n0, s, tr, f); }
    forall p ensures JoinOk(c, s', tr, n0, p) {
      assert JoinOk(c, s, tr, n0, p);
      assert PhaseOf(s', tr, Edge(p, true)) == PhaseOf(s, tr, Edge(p, true));
      assert PhaseOf(s', tr, Edge(p, false)) == PhaseOf(s, tr, Edge(p, false));
    }
  }

  lemma MarkKeeps(c: Job, n0: map<Pos, Node>, s: State, tr: Tracks)
    requires Inv(c, n0, s, tr) && s.main.Finalising? && s.main.e.p in s.nodes
    ensures Inv(c, n0, DoCaller(c, s), tr)
  {
    var s' := DoCaller(c, s);
    MarkNodes(c, n0, s, tr);
    forall f ensures EdgeOk(c, s', tr, f) { assert EdgeOk(c, s, tr, f); }
    forall i: nat ensures WorkerOk(c, s', tr, i) { assert WorkerOk(c, s, tr, i); }
    SendSame(c, s, tr, s', tr);
  }

  // ---- Runs -------------------------------------------------------------------------------------

  function Init(nodes: map<Pos, Node>): State {
    State(nodes, map[], Writing(0))
  }

  lemma InitOk(c: Job, n0: map<Pos, Node>)
    requires c.Fair() && Clean(c, n0)
    ensures Inv(c, n0, Init(n0), map[])
  {
    var s, tr: Tracks := Init(n0), map[];
    forall e ensures EdgeOk(c, s, tr, e) && DataOk(c, s, tr, e) {}
    forall p ensures FlagsOk(c, s, p) && JoinOk(c, s, tr, n0, p) {}
    assert !Done(c, s, tr);
  }

  lemma RoutineKeeps(c: Job, n0: map<Pos, Node>, s: State, tr: Tracks, j: nat) returns (tr': Tracks)
    requires Inv(c, n0, s, tr) && Enabled(c, s, Routine(j))
    ensures Inv(c, n0, DoRoutine(c, s, j), tr')
  {
    tr' := tr;
    match s.workers[j] {
      case Start(_) => StartKeeps(c, n0, s, tr, j);
      case Hashed(_, _) =>
        if c.Cur() == 0 {
          HashedSends(c, n0, s, tr, j);
        } else {
          tr' := tr[Up(Pos(0, j)) := Held(j)];
          HashedClimbs(c, n0, s, tr, j);
        }
      case Climb(pc, _, _, _, _, _) =>
        tr' := NextTrack(c, s, tr, j);
        assert WorkerOk(c, s, tr, j);
        if pc.Root? {
          RootKeeps(c, n0, s, tr, DoRoutine(c, s, j), tr', j);
        } else {
          NodeStepKeeps(c, n0, s, tr, DoRoutine(c, s, j), tr', j);
        }
      case Sending(_) => SendKeeps(c, n0, s, tr, j);
    }
  }

  lemma CallerKeeps(c: Job, n0: map<Pos, Node>, s: State, tr: Tracks) returns (tr': Tracks)
    requires Inv(c, n0, s, tr) && Enabled(c, s, Caller) && !s.main.Received?
    ensures Inv(c, n0, DoCaller(c, s), tr')
  {
    tr' := tr;
    match s.main {
      case Writing(k) =>
        if k < c.Cur() { LaunchKeeps(c, n0, s, tr, k); } else { SumKeeps(c, n0, s, tr); }
      case Finalising(_, _) => MarkKeeps(c, n0, s, tr);
      case Launching(_) =>
        tr' := LastTrack(c, tr);
        LaunchLastKeeps(c, n0, s, tr);
    }
  }
}
