/**
 Whole runs of the concurrent hasher (bmt/bmt.go): they end, are never stuck, and deliver
 the result on a settled tree.
 */
module BmtRuns {
  import opened BmtTree
  import opened BmtProtocol
  import opened BmtClimb
  import opened BmtSteps

  // ---- The end of a run ----------------------------------------------------------------------------

  /** Once the top is out, every edge below has been gone through. */
  lemma {:induction false} AllThrough(c: Job, n0: map<Pos, Node>, s: State, tr: Tracks, e: Edge)
    requires Inv(c, n0, s, tr) && Emitted(tr, Top(c)) && c.Used(e)
    ensures T(tr, e).Waiting? || T(tr, e).Passed?
    decreases c.depth - e.p.height
  {
    ActiveInTree(c, e.p);
    assert JoinOk(c, s, tr, n0, e.p);
    assert EdgeOk(c, s, tr, Edge(e.p, true)) && EdgeOk(c, s, tr, Edge(e.p, false));
    if c.IsTop(e.p) {
      TopIsOne(c, e.p);
    } else {
      UpIsUsed(c, e.p);
      CoveredFits(c, e.p.height + 1);
      AllThrough(c, n0, s, tr, Up(e.p));
      assert EdgeOk(c, s, tr, Up(e.p));
    }
    assert Emitted(tr, e.p);
  }

  /** When the caller has the result, every goroutine is gone. */
  lemma AllGone(c: Job, n0: map<Pos, Node>, s: State, tr: Tracks, j: nat)
    requires Inv(c, n0, s, tr) && s.main.Received? && j < |c.segs|
    ensures j in s.workers && s.workers[j].Exited?
  {
    assert WorkerOk(c, s, tr, j) && !Offers(s, j);
    if c.Cur() == 0 && c.Full(0) {
      if s.workers[j].Climb? { NoEdges(c, s.workers[j].e); }
    } else {
      var e := if s.workers[j].Climb? then s.workers[j].e else Up(Pos(0, j));
      if s.workers[j].Climb? || s.workers[j].Start? || s.workers[j].Hashed? {
        AllThrough(c, n0, s, tr, e);
      }
    }
  }

  /** The tree after a chunk: unmarked, every node that joined two toggled twice. */
  ghost predicate Settled(c: Job, n0: map<Pos, Node>, nodes: map<Pos, Node>)
    requires c.Fair()
  {
    && Domain(c, nodes) && nodes.Keys == n0.Keys
    && forall p :: p in nodes ==>
         && !nodes[p].unbalanced && (nodes[p].root <==> p.height == c.depth)
         && nodes[p].state == if c.Active(p) && c.Binary(p) then Inc32(n0[p].state + 1) else n0[p].state
  }

  /** The result is delivered, no goroutine is left, and the tree is settled. */
  ghost predicate Finished(c: Job, n0: map<Pos, Node>, s: State)
    requires c.Fair()
  {
    && s.main == Released(Result(c))
    && (forall j: nat :: j in s.workers <==> j < |c.segs|)
    && (forall j: nat :: j in s.workers ==> s.workers[j].Exited?)
    && Settled(c, n0, s.nodes)
  }

  lemma ReleasedNode(c: Job, n0: map<Pos, Node>, s: State, tr: Tracks, p: Pos)
    requires Inv(c, n0, s, tr) && s.main.Received? && p in s.nodes && p in n0
    ensures var n := Clear(c, s.nodes)[p];
            && !n.unbalanced && (n.root <==> p.height == c.depth)
            && n.state == if c.Active(p) && c.Binary(p) then Inc32(n0[p].state + 1) else n0[p].state
  {
    assert FlagsOk(c, s, p) && JoinOk(c, s, tr, n0, p) && InTree(c.depth, p);
    if c.Active(p) && c.Binary(p) {
      if c.Cur() == 0 && c.Full(0) { NoEdges(c, Edge(p, true)); }
      AllThrough(c, n0, s, tr, Edge(p, true));
      AllThrough(c, n0, s, tr, Edge(p, false));
    }
  }

  lemma SameKeys(c: Job, n0: map<Pos, Node>, nodes: map<Pos, Node>)
    requires Domain(c, n0) && Domain(c, nodes)
    ensures nodes.Keys == n0.Keys
  {
    forall p ensures p in nodes <==> p in n0 { assert p in nodes <==> InTree(c.depth, p); }
  }

  lemma ReleaseFinishes(c: Job, n0: map<Pos, Node>, s: State, tr: Tracks)
    requires Inv(c, n0, s, tr) && s.main.Received?
    ensures Finished(c, n0, DoCaller(c, s))
  {
    var s' := DoCaller(c, s);
    SameKeys(c, n0, s.nodes);
    forall j: nat | j in s'.workers ensures s'.workers[j].Exited? { AllGone(c, n0, s, tr, j); }
    forall p | p in s'.nodes
      ensures && !s'.nodes[p].unbalanced && (s'.nodes[p].root <==> p.height == c.depth)
              && s'.nodes[p].state == if c.Active(p) && c.Binary(p) then Inc32(n0[p].state + 1) else n0[p].state
    {
      ReleasedNode(c, n0, s, tr, p);
    }
  }

  // ---- Progress --------------------------------------------------------------------------------------

  /** With every goroutine gone, every used edge has been gone through. */
  lemma {:induction false} Drained(c: Job, n0: map<Pos, Node>, s: State, tr: Tracks, e: Edge)
    requires Inv(c, n0, s, tr) && s.main.Awaiting? && c.Used(e)
    requires forall j :: j in s.workers ==> s.workers[j].Exited?
    ensures T(tr, e).Waiting? || T(tr, e).Passed?
    decreases e.p.height, 0
  {
    assert EdgeOk(c, s, tr, e);
    if e.p.height > 0 {
      ChildIsActive(c, e);
      if c.Active(Child(e)) { DrainedNode(c, n0, s, tr, Child(e)); }
    }
  }

  lemma {:induction false} DrainedNode(c: Job, n0: map<Pos, Node>, s: State, tr: Tracks, p: Pos)
    requires Inv(c, n0, s, tr) && s.main.Awaiting? && c.Active(p)
    requires forall j :: j in s.workers ==> s.workers[j].Exited?
    ensures Emitted(tr, p)
    decreases p.height, 1
  {
    ActiveInTree(c, p);
    Drained(c, n0, s, tr, Edge(p, true));
    if c.Binary(p) { Drained(c, n0, s, tr, Edge(p, false)); }
    assert JoinOk(c, s, tr, n0, p);
  }

  /** The caller never waits in vain. */
  lemma SomeoneLeft(c: Job, n0: map<Pos, Node>, s: State, tr: Tracks)
    requires Inv(c, n0, s, tr) && s.main.Awaiting?
    ensures exists j: nat :: j in s.workers && !s.workers[j].Exited?
  {
    if forall j: nat :: j in s.workers ==> s.workers[j].Exited? {
      if c.Cur() == 0 && c.Full(0) {
        assert 0 in s.workers;
      } else {
        TopIsActive(c);
        DrainedNode(c, n0, s, tr, Top(c));
      }
      assert Done(c, s, tr);
    }
  }

  lemma NotStuck(c: Job, n0: map<Pos, Node>, s: State, tr: Tracks) returns (who: Who)
    requires Inv(c, n0, s, tr)
    ensures Enabled(c, s, who)
  {
    if !s.main.Awaiting? {
      who := Caller;
      if s.main.Finalising? {
        CoveredFits(c, s.main.e.p.height);
        assert InTree(c.depth, s.main.e.p);
      }
    } else {
      SomeoneLeft(c, n0, s, tr);
      var j: nat :| j in s.workers && !s.workers[j].Exited?;
      who := Routine(j);
      assert WorkerOk(c, s, tr, j);
      LeafInTree(c, j);
      if s.workers[j].Climb? { ActiveInTree(c, s.workers[j].e.p); }
    }
  }

  lemma LeafInTree(c: Job, j: nat)
    requires c.Fair() && j < |c.segs|
    ensures InTree(c.depth, Pos(0, j))
  {}

  lemma TopIsActive(c: Job)
    requires c.Fair() && !(c.Cur() == 0 && c.Full(0))
    ensures c.Active(Top(c))
  {}

  // ---- Termination -----------------------------------------------------------------------------------

  function PcRank(pc: Pc): nat {
    match pc case Store => 5 case Load => 4 case Toggle => 3 case Combine => 2 case Root => 1
  }

  /** An upper bound on the steps a goroutine still takes. */
  function Rank(c: Job, s: State, j: nat): nat {
    if j !in s.workers then 5 * (c.depth + 2) + 3
    else match s.workers[j]
      case Start(_) => 5 * (c.depth + 2) + 2
      case Hashed(_, _) => 5 * (c.depth + 2) + 1
      case Climb(pc, e, _, _, _, _) =>
        5 * (if e.p.height <= c.depth + 1 then c.depth + 1 - e.p.height else 0) + PcRank(pc)
      case Sending(_) => 1
      case Exited => 0
  }

  function MainRank(c: Job, m: Main): nat
    requires |c.segs| > 0
  {
    match m
    case Writing(k) => (if k <= c.Cur() then c.Cur() - k else 0) + c.depth + 6
    case Finalising(e, _) => (if e.p.height <= c.depth then c.depth - e.p.height else 0) + 4
    case Launching(_) => 3
    case Awaiting => 2
    case Received(_) => 1
    case Released(_) => 0
  }

  function RankSum(c: Job, s: State, n: nat): nat {
    if n == 0 then 0 else RankSum(c, s, n - 1) + Rank(c, s, n - 1)
  }

  function Left(c: Job, s: State): nat
    requires |c.segs| > 0
  {
    RankSum(c, s, |c.segs|) + MainRank(c, s.main)
  }

  lemma {:induction false} RankSumDown(c: Job, s: State, s': State, n: nat, j: nat)
    requires forall k :: 0 <= k < n ==> Rank(c, s', k) <= Rank(c, s, k)
    ensures RankSum(c, s', n) <= RankSum(c, s, n)
    ensures j < n && Rank(c, s', j) < Rank(c, s, j) ==> RankSum(c, s', n) < RankSum(c, s, n)
  {
    if n > 0 { RankSumDown(c, s, s', n - 1, j); }
  }

  /** Every step leaves fewer to take. */
  lemma RoutineDown(c: Job, n0: map<Pos, Node>, s: State, tr: Tracks, j: nat)
    requires Inv(c, n0, s, tr) && Enabled(c, s, Routine(j))
    ensures Left(c, DoRoutine(c, s, j)) < Left(c, s)
  {
    var s' := DoRoutine(c, s, j);
    assert WorkerOk(c, s, tr, j);
    if s.workers[j].Climb? { ActiveInTree(c, s.workers[j].e.p); }
    assert Rank(c, s', j) < Rank(c, s, j);
    RankSumDown(c, s, s', |c.segs|, j);
  }

  lemma MainDown(c: Job, n0: map<Pos, Node>, s: State, tr: Tracks)
    requires Inv(c, n0, s, tr) && Enabled(c, s, Caller)
    ensures MainRank(c, DoCaller(c, s).main) < MainRank(c, s.main)
  {
    if s.main.Finalising? && s.main.e.p.index > 0 { CoveredFits(c, s.main.e.p.height + 1); }
  }

  lemma CallerDown(c: Job, n0: map<Pos, Node>, s: State, tr: Tracks)
    requires Inv(c, n0, s, tr) && Enabled(c, s, Caller)
    ensures Left(c, DoCaller(c, s)) < Left(c, s)
  {
    MainDown(c, n0, s, tr);
    RankSumDown(c, s, DoCaller(c, s), |c.segs|, 0);
  }

  // ---- The theorems --------------------------------------------------------------------------------------

  /** run is an interleaving that leads from s to t. */
  ghost predicate Leads(c: Job, s: State, run: seq<Who>, t: State)
    requires |c.segs| > 0
  {
    if run == [] then t == s
    else
      var n := |run| - 1;
      exists m :: Leads(c, s, run[..n], m) && Enabled(c, m, run[n]) && Do(c, m, run[n]) == t
  }

  /** Whatever the interleaving, a run is either under way and in order, or finished. */
  lemma {:induction false} RunKeeps(c: Job, n0: map<Pos, Node>, run: seq<Who>, t: State)
    requires c.Fair() && Clean(c, n0) && Leads(c, Init(n0), run, t)
    ensures Finished(c, n0, t) || exists tr :: Inv(c, n0, t, tr)
    ensures |run| + Left(c, t) <= Left(c, Init(n0))
  {
    if run == [] {
      InitOk(c, n0);
    } else {
      var n := |run| - 1;
      var m :| Leads(c, Init(n0), run[..n], m) && Enabled(c, m, run[n]) && Do(c, m, run[n]) == t;
      RunKeeps(c, n0, run[..n], m);
      var tr :| Inv(c, n0, m, tr);
      StepKeeps(c, n0, m, tr, run[n]);
    }
  }

  lemma StepKeeps(c: Job, n0: map<Pos, Node>, s: State, tr: Tracks, who: Who)
    requires Inv(c, n0, s, tr) && Enabled(c, s, who)
    ensures Finished(c, n0, Do(c, s, who)) || exists tr' :: Inv(c, n0, Do(c, s, who), tr')
    ensures Left(c, Do(c, s, who)) < Left(c, s)
  {
    match who {
      case Routine(j) =>
        var tr' := RoutineKeeps(c, n0, s, tr, j);
        RoutineDown(c, n0, s, tr, j);
      case Caller =>
        CallerDown(c, n0, s, tr);
        if s.main.Received? {
          ReleaseFinishes(c, n0, s, tr);
        } else {
          var tr' := CallerKeeps(c, n0, s, tr);
        }
    }
  }

  /** Every interleaving on a clean tree has at most Left(Init) steps; one that cannot be continued
      has delivered exactly the value of the whole tree, with all goroutines gone and the tree settled. */
  lemma EveryRunHashes(c: Job, n0: map<Pos, Node>, run: seq<Who>, t: State)
    requires c.Fair() && Clean(c, n0) && Leads(c, Init(n0), run, t)
    ensures |run| <= Left(c, Init(n0))
    ensures (forall who :: !Enabled(c, t, who)) ==> Finished(c, n0, t)
    ensures t.main.Released? ==> Finished(c, n0, t)
  {
    RunKeeps(c, n0, run, t);
    if !Finished(c, n0, t) {
      var tr :| Inv(c, n0, t, tr);
      var who := NotStuck(c, n0, t, tr);
    }
  }
}
