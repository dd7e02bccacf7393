/**
 Every climbing step of a goroutine in the concurrent hasher (bmt/bmt.go) keeps the
 protocol's invariant.
 */
module BmtClimb {
  import opened BmtTree
  import opened BmtProtocol

  // ---- Every climbing step keeps the invariant --------------------------------------------------

  /** Goroutine j climbs along e; only its record, the node of e, and the tracks of e and of the
      edge above change. */
  ghost predicate Climbs(c: Job, s: State, tr: Tracks, s': State, tr': Tracks, j: nat) {
    && |c.segs| > 0 && Enabled(c, s, Routine(j)) && s.workers[j].Climb? && T(tr, s.workers[j].e) == Held(j)
    && s' == DoRoutine(c, s, j)
    && tr' == NextTrack(c, s, tr, j)
  }

  function NextTrack(c: Job, s: State, tr: Tracks, j: nat): Tracks
    requires |c.segs| > 0 && Enabled(c, s, Routine(j)) && s.workers[j].Climb?
  {
    var Climb(pc, e, _, _, _, _) := s.workers[j];
    var n := s.nodes[e.p];
    if pc.Toggle? && GoOdd(Inc32(n.state)) then tr[e := Waiting]
    else if pc.Root? then (if n.root then tr[e := Passed] else tr[e := Passed][Up(e.p) := Held(j)])
    else tr
  }

  /** The edge above is free until the node below hands something on. */
  lemma AboveIsIdle(c: Job, n0: map<Pos, Node>, s: State, tr: Tracks, e: Edge)
    requires Inv(c, n0, s, tr) && T(tr, e).Held? && !c.IsTop(e.p)
    ensures c.Used(Up(e.p)) && T(tr, Up(e.p)) == Idle && Up(e.p) != e
  {
    assert EdgeOk(c, s, tr, e) && EdgeOk(c, s, tr, Up(e.p));
    UpIsUsed(c, e.p);
    ActiveInTree(c, e.p);
    assert JoinOk(c, s, tr, n0, e.p);
    assert EdgeOk(c, s, tr, Edge(e.p, !e.left));
  }

  lemma OtherPhases(c: Job, n0: map<Pos, Node>, s: State, tr: Tracks, s': State, tr': Tracks, j: nat, f: Edge)
    requires Inv(c, n0, s, tr) && Climbs(c, s, tr, s', tr', j) && f != s.workers[j].e
    ensures PhaseOf(s', tr', f) == PhaseOf(s, tr, f)
  {
    var e := s.workers[j].e;
    assert EdgeOk(c, s, tr, f) && EdgeOk(c, s, tr, e);
    if s.workers[j].pc.Root? && f == Up(e.p) && !s.nodes[e.p].root {
      RootSeen(c, n0, s, tr, e);
      AboveIsIdle(c, n0, s, tr, e);
    }
  }

  /** Away from the node of the step, nodes and their data are as they were. */
  lemma NodesKept(c: Job, n0: map<Pos, Node>, s: State, tr: Tracks, s': State, tr': Tracks, j: nat)
    requires Inv(c, n0, s, tr) && Climbs(c, s, tr, s', tr', j)
    requires var e := s.workers[j].e;
             && FlagsOk(c, s', e.p) && JoinOk(c, s', tr', n0, e.p)
             && DataOk(c, s', tr', Edge(e.p, true)) && DataOk(c, s', tr', Edge(e.p, false))
    ensures NodesOk(c, s', tr', n0)
  {
    var e := s.workers[j].e;
    forall p ensures FlagsOk(c, s', p) { assert FlagsOk(c, s, p); }
    forall p ensures JoinOk(c, s', tr', n0, p) {
      if p != e.p {
        assert JoinOk(c, s, tr, n0, p);
        OtherPhases(c, n0, s, tr, s', tr', j, Edge(p, true));
        OtherPhases(c, n0, s, tr, s', tr', j, Edge(p, false));
      }
    }
    forall f ensures DataOk(c, s', tr', f) {
      if f.p != e.p {
        assert DataOk(c, s, tr, f);
        OtherPhases(c, n0, s, tr, s', tr', j, f);
      } else {
        assert f == Edge(e.p, f.left);
      }
    }
  }

  /** The other goroutines are where they were. */
  lemma WorkersKept(c: Job, n0: map<Pos, Node>, s: State, tr: Tracks, s': State, tr': Tracks, j: nat)
    requires Inv(c, n0, s, tr) && Climbs(c, s, tr, s', tr', j) && WorkerOk(c, s', tr', j)
    ensures WorkersOk(c, s', tr')
  {
    var e := s.workers[j].e;
    assert EdgeOk(c, s, tr, e);
    if s.workers[j].pc.Root? && !s.nodes[e.p].root {
      RootSeen(c, n0, s, tr, e);
      AboveIsIdle(c, n0, s, tr, e);
    }
    forall k: nat ensures WorkerOk(c, s', tr', k) {
      assert WorkerOk(c, s, tr, k);
      if k in s.workers && k < |c.segs| && Up(e.p) == Up(Pos(0, k)) { assert e.p == Pos(0, k); }
    }
  }

  lemma NoEdges(c: Job, e: Edge)
    requires c.Fair() && c.Cur() == 0 && c.Full(0)
    ensures !c.Used(e)
  {
    if e.p.height > 0 { LastDies(0, 0, e.p.height - 1); }
  }

  /** A climbing step short of the root check leaves every edge's standing as it was. */
  lemma EdgesKept(c: Job, n0: map<Pos, Node>, s: State, tr: Tracks, s': State, tr': Tracks, j: nat)
    requires Inv(c, n0, s, tr) && Climbs(c, s, tr, s', tr', j) && !s.workers[j].pc.Root?
    ensures EdgesOk(c, s', tr') && forall p :: Emitted(tr', p) == Emitted(tr, p)
  {
    var e := s.workers[j].e;
    forall f ensures EdgeOk(c, s', tr', f) && (T(tr', f).Passed? <==> T(tr, f).Passed?) {
      assert EdgeOk(c, s, tr, f);
    }
  }

  lemma SendKept(c: Job, n0: map<Pos, Node>, s: State, tr: Tracks, s': State, tr': Tracks, j: nat)
    requires Inv(c, n0, s, tr) && Climbs(c, s, tr, s', tr', j) && !s.workers[j].pc.Root?
    requires forall p :: Emitted(tr', p) == Emitted(tr, p)
    ensures SendOk(c, s', tr') && MainOk(c, s')
  {
    var e := s.workers[j].e;
    assert EdgeOk(c, s, tr, e);
    if c.Cur() == 0 && c.Full(0) { NoEdges(c, e); }
    SendSame(c, s, tr, s', tr');
  }

  /** Store, load, toggle, combine: what happens at the node, the rest following. */
  lemma {:induction false} NodeStepKeeps(c: Job, n0: map<Pos, Node>, s: State, tr: Tracks, s': State, tr': Tracks,
                                         j: nat)
    requires Inv(c, n0, s, tr) && Climbs(c, s, tr, s', tr', j) && !s.workers[j].pc.Root?
    ensures Inv(c, n0, s', tr')
  {
    var e := s.workers[j].e;
    match s.workers[j].pc {
      case Store => StoreAt(c, n0, s, tr, s', tr', j);
      case Load => LoadAt(c, n0, s, tr, s', tr', j);
      case Toggle => ToggleAt(c, n0, s, tr, s', tr', j);
      case Combine => CombineAt(c, n0, s, tr, s', tr', j);
    }
    WorkersKept(c, n0, s, tr, s', tr', j);
    EdgesKept(c, n0, s, tr, s', tr', j);
    SendKept(c, n0, s, tr, s', tr', j);
    NodesKept(c, n0, s, tr, s', tr', j);
  }

  /** After goroutine j's step, it and the node it is at are in order. */
  ghost predicate StepOk(c: Job, n0: map<Pos, Node>, s: State, tr: Tracks, j: nat, p: Pos)
    requires c.Fair()
  {
    && WorkerOk(c, s, tr, j) && FlagsOk(c, s, p) && JoinOk(c, s, tr, n0, p)
    && DataOk(c, s, tr, Edge(p, true)) && DataOk(c, s, tr, Edge(p, false))
  }

  /** What is known before the step, of its node. */
  lemma NodeFacts(c: Job, n0: map<Pos, Node>, s: State, tr: Tracks, s': State, tr': Tracks, j: nat)
    requires Inv(c, n0, s, tr) && Climbs(c, s, tr, s', tr', j)
    ensures var e := s.workers[j].e; var f := Edge(e.p, !e.left);
            && StepOk(c, n0, s, tr, j, e.p) && c.Used(e) && e.p in n0
            && PhaseOf(s', tr', f) == PhaseOf(s, tr, f)
            && (s.nodes[e.p].unbalanced <==> !c.Binary(e.p)) && n0[e.p].state >= 0 && n0[e.p].state % 2 == 0
            && (!c.Binary(e.p) ==> s.nodes[e.p].right == [])
  {
    var e := s.workers[j].e;
    assert WorkerOk(c, s, tr, j) && FlagsOk(c, s, e.p) && JoinOk(c, s, tr, n0, e.p);
    assert DataOk(c, s, tr, Edge(e.p, true)) && DataOk(c, s, tr, Edge(e.p, false));
    MarkSeen(c, n0, s, tr, e);
    ActiveInTree(c, e.p);
    OtherPhases(c, n0, s, tr, s', tr', j, Edge(e.p, !e.left));
  }

  lemma StoreAt(c: Job, n0: map<Pos, Node>, s: State, tr: Tracks, s': State, tr': Tracks, j: nat)
    requires Inv(c, n0, s, tr) && Climbs(c, s, tr, s', tr', j) && s.workers[j].pc.Store?
    ensures StepOk(c, n0, s', tr', j, s.workers[j].e.p)
  {
    NodeFacts(c, n0, s, tr, s', tr', j);
  }

  lemma LoadAt(c: Job, n0: map<Pos, Node>, s: State, tr: Tracks, s': State, tr': Tracks, j: nat)
    requires Inv(c, n0, s, tr) && Climbs(c, s, tr, s', tr', j) && s.workers[j].pc.Load?
    ensures StepOk(c, n0, s', tr', j, s.workers[j].e.p)
  {
    NodeFacts(c, n0, s, tr, s', tr', j);
  }

  /** The first of two finds the state even and leaves; the second finds it odd and goes on. */
  lemma ToggleAt(c: Job, n0: map<Pos, Node>, s: State, tr: Tracks, s': State, tr': Tracks, j: nat)
    requires Inv(c, n0, s, tr) && Climbs(c, s, tr, s', tr', j) && s.workers[j].pc.Toggle?
    ensures StepOk(c, n0, s', tr', j, s.workers[j].e.p)
  {
    NodeFacts(c, n0, s, tr, s', tr', j);
  }

  lemma CombineAt(c: Job, n0: map<Pos, Node>, s: State, tr: Tracks, s': State, tr': Tracks, j: nat)
    requires Inv(c, n0, s, tr) && Climbs(c, s, tr, s', tr', j) && s.workers[j].pc.Combine?
    ensures StepOk(c, n0, s', tr', j, s.workers[j].e.p)
  {
    NodeFacts(c, n0, s, tr, s', tr', j);
    SidesInPlace(c, n0, s, tr, s.workers[j].e);
    CombinedValue(c, s.nodes[s.workers[j].e.p], s.workers[j]);
  }

  // ---- Going on from a node, or out with the result --------------------------------------------

  /** The top hands on the value of the whole tree. */
  lemma {:induction false} TopValue(c: Job, p: Pos, h: nat)
    requires c.Fair() && c.IsTop(p) && p.height <= h <= c.depth
    ensures c.At(h) == 0 && c.Value(h, 0) == c.Value(p.height, 0)
    decreases h
  {
    if h > p.height { TopValue(c, p, h - 1); }
  }

  lemma {:induction false} TopIsOne(c: Job, p: Pos)
    requires c.Fair() && c.IsTop(p)
    ensures p == Top(c)
  {
    TopReached(c, p.height, 0);
  }

  lemma {:induction false} TopReached(c: Job, t: nat, h: nat)
    requires c.Fair() && c.Covered(t) && c.At(t) == 0 && c.Covered(h) && h <= t
    ensures TopHeight(c, h) == t
    decreases t - h
  {
    CoveredFits(c, h);
    if h < t {
      StaysAlive(c.Cur(), h, t - 1);
      TopReached(c, t, h + 1);
    }
  }

  lemma {:induction false} StaysAlive(cur: nat, h: nat, k: nat)
    requires h <= k && Last(cur, k) > 0
    ensures Last(cur, h) > 0
    decreases k
  {
    if h < k { StaysAlive(cur, h, k - 1); }
  }

  /** The goroutine takes on the node's value for the edge above, or offers it as the result. */
  lemma RootWorker(c: Job, n0: map<Pos, Node>, s: State, tr: Tracks, s': State, tr': Tracks, j: nat)
    requires Inv(c, n0, s, tr) && Climbs(c, s, tr, s', tr', j) && s.workers[j].pc.Root?
    ensures WorkerOk(c, s', tr', j)
  {
    var e := s.workers[j].e;
    assert WorkerOk(c, s, tr, j);
    RootSeen(c, n0, s, tr, e);
    ActiveInTree(c, e.p);
    if c.IsTop(e.p) {
      TopValue(c, e.p, c.depth);
    } else {
      UpIsUsed(c, e.p);
      StepUp(c, e.p);
    }
  }

  lemma StepUp(c: Job, p: Pos)
    requires c.Fair() && c.Active(p) && !c.IsTop(p)
    ensures c.Cur() > 0
  {
    if c.Cur() == 0 { LastDies(0, 0, p.height); }
  }

  lemma RootAt(c: Job, n0: map<Pos, Node>, s: State, tr: Tracks, s': State, tr': Tracks, j: nat)
    requires Inv(c, n0, s, tr) && Climbs(c, s, tr, s', tr', j) && s.workers[j].pc.Root?
    ensures StepOk(c, n0, s', tr', j, s.workers[j].e.p)
  {
    var e := s.workers[j].e;
    NodeFacts(c, n0, s, tr, s', tr', j);
    RootWorker(c, n0, s, tr, s', tr', j);
    assert Up(e.p) != e;
    assert PhaseOf(s', tr', e) == PhaseOf(s, tr, e);
  }

  /** Passing a node makes it emitted, and nothing else. */
  lemma EmittedNow(c: Job, n0: map<Pos, Node>, s: State, tr: Tracks, s': State, tr': Tracks, j: nat, p: Pos)
    requires Inv(c, n0, s, tr) && Climbs(c, s, tr, s', tr', j) && s.workers[j].pc.Root?
    ensures Emitted(tr', p) <==> (Emitted(tr, p) || p == s.workers[j].e.p)
  {
    var e := s.workers[j].e;
    assert EdgeOk(c, s, tr, e);
    RootSeen(c, n0, s, tr, e);
    if !c.IsTop(e.p) { AboveIsIdle(c, n0, s, tr, e); }
    assert e == Edge(e.p, true) || e == Edge(e.p, false);
  }

  /** Only the edge above becomes ready. */
  lemma ReadyNow(c: Job, n0: map<Pos, Node>, s: State, tr: Tracks, s': State, tr': Tracks, j: nat, f: Edge)
    requires Inv(c, n0, s, tr) && Climbs(c, s, tr, s', tr', j) && s.workers[j].pc.Root? && c.Used(f)
    ensures Ready(c, s', tr', f) <==> (Ready(c, s, tr, f) || f == Up(s.workers[j].e.p))
  {
    assert EdgeOk(c, s, tr, s.workers[j].e);
    if f.p.height > 0 {
      ChildIsActive(c, f);
      EmittedNow(c, n0, s, tr, s', tr', j, Child(f));
    }
  }

  lemma RootEdges(c: Job, n0: map<Pos, Node>, s: State, tr: Tracks, s': State, tr': Tracks, j: nat)
    requires Inv(c, n0, s, tr) && Climbs(c, s, tr, s', tr', j) && s.workers[j].pc.Root?
    ensures EdgesOk(c, s', tr')
  {
    var e := s.workers[j].e;
    assert EdgeOk(c, s, tr, e);
    RootSeen(c, n0, s, tr, e);
    if !c.IsTop(e.p) { AboveIsIdle(c, n0, s, tr, e); }
    forall f ensures EdgeOk(c, s', tr', f) {
      assert EdgeOk(c, s, tr, f);
      if c.Used(f) {
        ReadyNow(c, n0, s, tr, s', tr', j, f);
        if f == Up(e.p) { TopHasNoParent(c, e.p); }
      }
    }
  }

  lemma TopHasNoParent(c: Job, p: Pos)
    requires c.Fair() && c.Used(Up(p))
    ensures !c.IsTop(p)
  {}

  lemma RootSends(c: Job, n0: map<Pos, Node>, s: State, tr: Tracks, s': State, tr': Tracks, j: nat)
    requires Inv(c, n0, s, tr) && Climbs(c, s, tr, s', tr', j) && s.workers[j].pc.Root?
    ensures SendOk(c, s', tr') && MainOk(c, s')
  {
    var e := s.workers[j].e;
    assert EdgeOk(c, s, tr, e) && EdgeOk(c, s, tr, Edge(e.p, !e.left)) && JoinOk(c, s, tr, n0, e.p);
    RootSeen(c, n0, s, tr, e);
    ActiveInTree(c, e.p);
    if c.Cur() == 0 && c.Full(0) { NoEdges(c, e); }
    EmittedNow(c, n0, s, tr, s', tr', j, Top(c));
    if c.IsTop(e.p) { TopIsOne(c, e.p); }
    assert c.IsTop(e.p) ==> !Done(c, s, tr);
    assert Offers(s', j) <==> c.IsTop(e.p);
    forall k ensures k != j ==> Offers(s', k) == Offers(s, k) {}
    if !c.IsTop(e.p) { SendSame(c, s, tr, s', tr'); }
  }

  lemma RootKeeps(c: Job, n0: map<Pos, Node>, s: State, tr: Tracks, s': State, tr': Tracks, j: nat)
    requires Inv(c, n0, s, tr) && Climbs(c, s, tr, s', tr', j) && s.workers[j].pc.Root?
    ensures Inv(c, n0, s', tr')
  {
    RootAt(c, n0, s, tr, s', tr', j);
    WorkersKept(c, n0, s, tr, s', tr', j);
    RootEdges(c, n0, s, tr, s', tr', j);
    RootSends(c, n0, s, tr, s', tr', j);
    NodesKept(c, n0, s, tr, s', tr', j);
  }
}
