/**
 The concurrent binary Merkle tree hasher (bmt/bmt.go).

 Goroutines carry segment hashes up a shared tree.  Two that meet at a node are told
 apart by an atomic toggle: the first leaves, the second combines and climbs on.  The
 last segment's path is marked beforehand, so a node with only a left child is passed
 through.  The model is a state machine over the atomic steps of every goroutine and of
 the caller, which first launches the segments (Write), then marks the path, launches
 the last segment, waits, and releases the tree (Sum).
 */
module BmtProtocol {
  import opened Bytes
  import opened BmtTree

  // ---- States ----------------------------------------------------------------------

  datatype Node = Node(left: Bytes, right: Bytes, state: int, unbalanced: bool, root: bool)

  datatype Pc = Store | Load | Toggle | Combine | Root

  /** A goroutine: before and after hashing a full segment, climbing, blocked on the result
      channel, or gone. */
  datatype Worker =
    | Start(d: nat)
    | Hashed(d: nat, s: Bytes)
    | Climb(pc: Pc, e: Edge, s: Bytes, i: nat, d: nat, unb: bool)
    | Sending(s: Bytes)
    | Exited

  datatype Main =
    | Writing(next: nat)
    | Finalising(e: Edge, d: nat)
    | Launching(d: nat)
    | Awaiting
    | Received(r: Bytes)
    | Released(r: Bytes)

  datatype State = State(nodes: map<Pos, Node>, workers: map<nat, Worker>, main: Main)

  datatype Who = Caller | Routine(j: nat)

  /** int32 addition wraps. */
  function Inc32(x: int): int {
    if x == 0x7fff_ffff then -0x8000_0000 else x + 1
  }

  /** Go's x % 2 == 1: the remainder of a negative number is not positive. */
  predicate GoOdd(x: int) {
    x >= 0 && x % 2 == 1
  }

  // ---- Steps -----------------------------------------------------------------------

  predicate Enabled(c: Job, s: State, who: Who)
    requires |c.segs| > 0
  {
    match who
    case Caller => (
      match s.main
      case Writing(k) => k <= c.Cur()
      case Finalising(e, _) => e.p in s.nodes
      case Launching(_) => true
      case Awaiting => false
      case Received(_) => true
      case Released(_) => false)
    case Routine(j) =>
      j < |c.segs| && j in s.workers &&
      match s.workers[j]
      case Start(_) => true
      case Hashed(_, _) => Pos(0, j) in s.nodes
      case Climb(_, e, _, _, _, _) => e.p in s.nodes
      case Sending(_) => s.main.Awaiting?
      case Exited => false
  }

  /** The goroutine writeSegment starts for leaf j. */
  function Launch(c: Job, j: nat, d: nat): Worker
    requires j < |c.segs|
  {
    if c.Full(j) then Start(d) else Climb(Store, Edge(Pos(0, j), true), c.segs[j], 2 * j, d, false)
  }

  function DoClimb(c: Job, n: Node, w: Worker): (r: (Node, Worker))
    requires w.Climb?
  {
    var Climb(pc, e, v, i, d, unb) := w;
    match pc
    case Store => (if e.left then n.(left := v) else n.(right := v), w.(pc := Load))
    case Load => (n, w.(unb := n.unbalanced, pc := if n.unbalanced then Combine else Toggle))
    case Toggle =>
      var x := Inc32(n.state);
      (n.(state := x), if GoOdd(x) then Exited else w.(pc := Combine))
    case Combine =>
      var v' := if !unb || !e.left || (i == 0 && d == 0) then c.hash(n.left + n.right) else n.left + n.right;
      (n, w.(s := v', pc := Root))
    case Root =>
      (n, if n.root then Sending(v) else Climb(Store, Up(e.p), v, i + 1, d, unb))
  }

  function DoRoutine(c: Job, s: State, j: nat): State
    requires |c.segs| > 0 && Enabled(c, s, Routine(j))
  {
    match s.workers[j]
    case Start(d) => s.(workers := s.workers[j := Hashed(d, c.hash(c.segs[j]))])
    case Hashed(d, v) =>
      s.(workers := s.workers[j := if s.nodes[Pos(0, j)].root then Sending(v)
                                   else Climb(Store, Up(Pos(0, j)), v, j, d, false)])
    case Climb(_, e, _, _, _, _) =>
      var (n, w) := DoClimb(c, s.nodes[e.p], s.workers[j]);
      s.(nodes := s.nodes[e.p := n], workers := s.workers[j := w])
    case Sending(v) => s.(main := Received(v), workers := s.workers[j := Exited])
  }

  /** Clearing the marks from the last leaf to the top (releaseTree). */
  function Clear(c: Job, nodes: map<Pos, Node>): map<Pos, Node>
    requires |c.segs| > 0
  {
    map p | p in nodes :: if p.index == c.At(p.height)
                          then nodes[p].(unbalanced := false, root := nodes[p].root && p.height == c.depth)
                          else nodes[p]
  }

  function DoCaller(c: Job, s: State): State
    requires |c.segs| > 0 && Enabled(c, s, Caller)
  {
    var cur := c.Cur();
    match s.main
    case Writing(k) =>
      if k < cur then s.(main := Writing(k + 1), workers := s.workers[k := Launch(c, k, c.depth)])
      else s.(main := Finalising(if c.Full(cur) && cur > 0 then Up(Pos(0, cur)) else Edge(Pos(0, cur), true), 0))
    case Finalising(e, d) =>
      var n := s.nodes[e.p].(unbalanced := e.left, right := []);
      if e.p.index == 0
      then s.(nodes := s.nodes[e.p := n.(root := true)], main := Launching(d))
      else s.(nodes := s.nodes[e.p := n], main := Finalising(Up(e.p), d + 1))
    case Launching(d) => s.(main := Awaiting, workers := s.workers[cur := Launch(c, cur, d)])
    case Received(r) => s.(nodes := Clear(c, s.nodes), main := Released(r))
  }

  function Do(c: Job, s: State, who: Who): State
    requires |c.segs| > 0 && Enabled(c, s, who)
  {
    match who
    case Caller => DoCaller(c, s)
    case Routine(j) => DoRoutine(c, s, j)
  }

  // ---- What a run has achieved -------------------------------------------------------

  /** How far an edge has been taken: not reached, held by a goroutine, left by the first of
      two, or gone through. */
  datatype Track = Idle | Held(id: nat) | Waiting | Passed

  type Tracks = map<Edge, Track>

  function T(tr: Tracks, e: Edge): Track {
    if e in tr then tr[e] else Idle
  }

  datatype Phase = Before | Stored | Parked | Through

  function PhaseOf(s: State, tr: Tracks, e: Edge): Phase {
    match T(tr, e)
    case Idle => Before
    case Held(j) =>
      if j in s.workers && s.workers[j].Climb? then
        (match s.workers[j].pc
         case Store => Before
         case Load => Stored
         case Toggle => Stored
         case Combine => Through
         case Root => Through)
      else Before
    case Waiting => Parked
    case Passed => Through
  }

  predicate Emitted(tr: Tracks, p: Pos) {
    T(tr, Edge(p, true)).Passed? || T(tr, Edge(p, false)).Passed?
  }

  /** The value for edge e has been produced. */
  predicate Ready(c: Job, s: State, tr: Tracks, e: Edge)
    requires |c.segs| > 0 && c.Used(e)
  {
    if e.p.height == 0 then c.Cur() in s.workers
    else if e.p.height == 1 && c.Full(Child(e).index)
    then Child(e).index in s.workers && !s.workers[Child(e).index].Start? && !s.workers[Child(e).index].Hashed?
    else Emitted(tr, Child(e))
  }

  // ---- The invariant -------------------------------------------------------------------

  ghost predicate Domain(c: Job, nodes: map<Pos, Node>) {
    forall p {:trigger InTree(c.depth, p)} :: p in nodes <==> InTree(c.depth, p)
  }

  /** A tree ready for a chunk; left and right may hold anything. */
  predicate CleanNode(c: Job, p: Pos, n: Node) {
    0 <= n.state <= 0x7fff_ffff && n.state % 2 == 0 && !n.unbalanced && (n.root <==> p.height == c.depth)
  }

  ghost predicate Clean(c: Job, nodes: map<Pos, Node>) {
    Domain(c, nodes) && forall p :: p in nodes ==> CleanNode(c, p, nodes[p])
  }

  function Result(c: Job): Bytes
    requires c.Fair()
  {
    CoveredTop(c);
    c.Value(c.depth, 0)
  }

  lemma CoveredTop(c: Job)
    requires c.Fair()
    ensures c.At(c.depth) == 0
  {
    LastFits(c.Cur(), c.depth, c.depth);
  }

  predicate WorkerOk(c: Job, s: State, tr: Tracks, j: nat)
    requires c.Fair()
  {
    j in s.workers ==> j < |c.segs| && LocalOk(c, s.workers[j], tr, j)
  }

  predicate LocalOk(c: Job, w: Worker, tr: Tracks, j: nat)
    requires c.Fair() && j < |c.segs|
  {
    match w
    case Start(_) => c.Full(j) && T(tr, Up(Pos(0, j))) == Idle
    case Hashed(_, v) => c.Full(j) && v == c.Value(0, j) && T(tr, Up(Pos(0, j))) == Idle
    case Climb(pc, e, v, i, d, unb) =>
      && c.Used(e) && T(tr, e) == Held(j)
      && (pc.Store? ==> v == c.Carried(e))
      && (pc.Root? ==> v == c.Value(e.p.height, e.p.index))
      && (pc.Toggle? ==> c.Binary(e.p) && !unb)
      && (pc.Combine? ==> (unb <==> !c.Binary(e.p)))
      && (c.OnPath(e) ==> if c.Cur() == 0 then i == 0 && d == 0 else i > 0)
    case Sending(v) => v == Result(c)
    case Exited => true
  }

  predicate EdgeOk(c: Job, s: State, tr: Tracks, e: Edge)
    requires c.Fair()
  {
    && (T(tr, e) != Idle ==> c.Used(e))
    && (T(tr, e).Held? ==> var j := T(tr, e).id; j in s.workers && s.workers[j].Climb? && s.workers[j].e == e)
    && (c.Used(e) ==> (T(tr, e) != Idle <==> Ready(c, s, tr, e)))
  }

  predicate DataOk(c: Job, s: State, tr: Tracks, e: Edge)
    requires c.Fair()
  {
    c.Used(e) && e.p in s.nodes && PhaseOf(s, tr, e) != Before ==>
      (if e.left then s.nodes[e.p].left else s.nodes[e.p].right) == c.Carried(e)
  }

  /** How far up the path is marked. */
  function Marked(c: Job, m: Main): nat {
    match m
    case Writing(_) => 0
    case Finalising(e, _) => e.p.height
    case _ => c.depth + 1
  }

  /** Nodes the path enters from the left only. */
  predicate LeftOnly(c: Job, p: Pos)
    requires |c.segs| > 0
  {
    && c.Covered(p.height) && p.index == c.At(p.height)
    && (if p.height == 0 then c.Cur() == 0 || !c.Full(c.Cur()) else c.At(p.height - 1) % 2 == 0)
  }

  predicate FlagsOk(c: Job, s: State, p: Pos)
    requires c.Fair()
  {
    p in s.nodes ==>
      var n, done := s.nodes[p], p.height < Marked(c, s.main);
      && (n.unbalanced <==> LeftOnly(c, p) && done)
      && (LeftOnly(c, p) && done ==> n.right == [])
      && (n.root <==> p.height == c.depth || (c.IsTop(p) && done))
  }

  /** Where the two goroutines that meet at a node have got to, against the toggle. */
  predicate JoinOk(c: Job, s: State, tr: Tracks, n0: map<Pos, Node>, p: Pos)
    requires c.Fair()
  {
    p in s.nodes && p in n0 ==>
      var l, r := PhaseOf(s, tr, Edge(p, true)), PhaseOf(s, tr, Edge(p, false));
      if c.Active(p) && c.Binary(p) then Meeting(l, r, n0[p].state, s.nodes[p].state)
      else s.nodes[p].state == n0[p].state && l != Parked
  }

  predicate Meeting(l: Phase, r: Phase, x0: int, x: int) {
    || (!l.Parked? && !l.Through? && !r.Parked? && !r.Through? && x == x0)
    || (l.Parked? && !r.Parked? && !r.Through? && x == x0 + 1)
    || (r.Parked? && !l.Parked? && !l.Through? && x == x0 + 1)
    || (l.Parked? && r.Through? && x == Inc32(x0 + 1))
    || (r.Parked? && l.Through? && x == Inc32(x0 + 1))
  }

  ghost predicate Launched(c: Job, s: State, n: nat) {
    forall j: nat :: j in s.workers <==> j < n
  }

  ghost predicate MainOk(c: Job, s: State)
    requires c.Fair()
  {
    var cur := c.Cur();
    match s.main
    case Writing(k) => k <= cur && Launched(c, s, k)
    case Finalising(e, d) =>
      && Launched(c, s, cur) && c.Covered(e.p.height) && e.p.index == c.At(e.p.height)
      && (e.left <==> e.p.height == 0 || c.At(e.p.height - 1) % 2 == 0)
      && (e.p.height == 0 ==> cur == 0 || !c.Full(cur))
      && (cur == 0 ==> d == 0 && e.p.height == 0)
    case Launching(d) => Launched(c, s, cur) && (cur == 0 ==> d == 0)
    case Awaiting => Launched(c, s, cur + 1)
    case Received(r) => Launched(c, s, cur + 1) && r == Result(c)
    case Released(_) => false
  }

  // ---- The top, and the result -----------------------------------------------------------

  function TopHeight(c: Job, h: nat): (t: nat)
    requires c.Fair() && c.Covered(h)
    ensures c.Covered(t) && c.At(t) == 0
    decreases c.depth - h
  {
    CoveredFits(c, h);
    if c.At(h) == 0 then h else TopHeight(c, h + 1)
  }

  function Top(c: Job): (p: Pos)
    requires c.Fair()
    ensures c.IsTop(p)
  {
    Pos(TopHeight(c, 0), 0)
  }

  /** The goroutine that has the whole tree's value has taken it out. */
  predicate Done(c: Job, s: State, tr: Tracks)
    requires c.Fair()
  {
    if c.Cur() == 0 && c.Full(0) then 0 in s.workers && (s.workers[0].Sending? || s.workers[0].Exited?)
    else Emitted(tr, Top(c))
  }

  predicate Offers(s: State, j: nat) {
    j in s.workers && s.workers[j].Sending?
  }

  /** One goroutine at most offers the result, once the top is out and until it is received. */
  ghost predicate SendOk(c: Job, s: State, tr: Tracks)
    requires c.Fair()
  {
    && (forall j, k :: Offers(s, j) && Offers(s, k) ==> j == k)
    && (forall j :: Offers(s, j) ==> Done(c, s, tr) && !s.main.Received?)
    && (s.main.Received? ==> Done(c, s, tr))
    && (Done(c, s, tr) ==> s.main.Received? || exists j :: Offers(s, j))
  }

  lemma SendSame(c: Job, s: State, tr: Tracks, s': State, tr': Tracks)
    requires c.Fair() && SendOk(c, s, tr) && Done(c, s', tr') == Done(c, s, tr)
    requires s'.main.Received? == s.main.Received? && forall i :: Offers(s', i) == Offers(s, i)
    ensures SendOk(c, s', tr')
  {}

  ghost predicate WorkersOk(c: Job, s: State, tr: Tracks)
    requires c.Fair()
  {
    forall j: nat :: WorkerOk(c, s, tr, j)
  }

  ghost predicate EdgesOk(c: Job, s: State, tr: Tracks)
    requires c.Fair()
  {
    forall e :: EdgeOk(c, s, tr, e)
  }

  ghost predicate NodesOk(c: Job, s: State, tr: Tracks, n0: map<Pos, Node>)
    requires c.Fair()
  {
    && Domain(c, s.nodes) && Clean(c, n0)
    && (forall p :: FlagsOk(c, s, p))
    && (forall p :: JoinOk(c, s, tr, n0, p))
    && (forall e :: DataOk(c, s, tr, e))
  }

  ghost predicate Inv(c: Job, n0: map<Pos, Node>, s: State, tr: Tracks) {
    && c.Fair() && MainOk(c, s)
    && WorkersOk(c, s, tr) && EdgesOk(c, s, tr) && NodesOk(c, s, tr, n0) && SendOk(c, s, tr)
  }

  // ---- Consequences of the invariant -------------------------------------------------------

  lemma ActiveInTree(c: Job, p: Pos)
    requires c.Fair() && c.Active(p)
    ensures InTree(c.depth, p) && (p.height == c.depth ==> c.IsTop(p))
  {
    CoveredFits(c, p.height);
  }

  /** Before the last segment is launched, nothing has moved along its path. */
  lemma {:induction false} PathIdle(c: Job, n0: map<Pos, Node>, s: State, tr: Tracks, e: Edge)
    requires Inv(c, n0, s, tr) && c.Used(e) && c.OnPath(e) && c.Cur() !in s.workers
    ensures T(tr, e) == Idle
    decreases e.p.height
  {
    assert EdgeOk(c, s, tr, e);
    if e.p.height > 0 {
      var p := Child(e);
      ChildIsActive(c, e);
      if c.Active(p) {
        ActiveInTree(c, p);
        PathIdle(c, n0, s, tr, Edge(p, !c.Binary(p)));
        assert JoinOk(c, s, tr, n0, p);
        assert EdgeOk(c, s, tr, Edge(p, false));
      }
    }
  }

  /** A goroutine in a one-sided node sees the mark; in a two-sided node it does not. */
  lemma MarkSeen(c: Job, n0: map<Pos, Node>, s: State, tr: Tracks, e: Edge)
    requires Inv(c, n0, s, tr) && c.Used(e) && T(tr, e) != Idle
    ensures e.p in s.nodes && (s.nodes[e.p].unbalanced <==> !c.Binary(e.p))
    ensures !c.Binary(e.p) ==> s.nodes[e.p].right == []
    ensures c.OnPath(e) ==> c.Cur() in s.workers
  {
    ActiveInTree(c, e.p);
    if c.OnPath(e) && c.Cur() !in s.workers { PathIdle(c, n0, s, tr, e); }
    assert FlagsOk(c, s, e.p);
  }

  /** Past a node's toggle, the root mark is there exactly at the top. */
  lemma RootSeen(c: Job, n0: map<Pos, Node>, s: State, tr: Tracks, e: Edge)
    requires Inv(c, n0, s, tr) && c.Used(e) && PhaseOf(s, tr, e) == Through
    ensures e.p in s.nodes && (s.nodes[e.p].root <==> c.IsTop(e.p))
  {
    ActiveInTree(c, e.p);
    assert FlagsOk(c, s, e.p) && JoinOk(c, s, tr, n0, e.p);
    var f := Edge(e.p, !e.left);
    MarkSeen(c, n0, s, tr, e);
    if c.Binary(e.p) { MarkSeen(c, n0, s, tr, f); }
  }

  /** Past a node's toggle, both sides are in place. */
  lemma SidesInPlace(c: Job, n0: map<Pos, Node>, s: State, tr: Tracks, e: Edge)
    requires Inv(c, n0, s, tr) && c.Used(e) && PhaseOf(s, tr, e) == Through
    ensures e.p in s.nodes && s.nodes[e.p].left == c.Carried(Edge(e.p, true))
    ensures s.nodes[e.p].right == if c.Binary(e.p) then c.Carried(Edge(e.p, false)) else []
  {
    MarkSeen(c, n0, s, tr, e);
    ActiveInTree(c, e.p);
    assert DataOk(c, s, tr, e) && JoinOk(c, s, tr, n0, e.p);
    if c.Binary(e.p) { assert DataOk(c, s, tr, Edge(e.p, !e.left)); }
  }

  /** What is combined at a node is what the node must hand on. */
  lemma CombinedValue(c: Job, n: Node, w: Worker)
    requires c.Fair() && w.Climb? && w.pc.Combine? && c.Used(w.e) && (w.unb <==> !c.Binary(w.e.p))
    requires c.OnPath(w.e) ==> if c.Cur() == 0 then w.i == 0 && w.d == 0 else w.i > 0
    requires n.left == c.Carried(Edge(w.e.p, true))
    requires n.right == if c.Binary(w.e.p) then c.Carried(Edge(w.e.p, false)) else []
    ensures DoClimb(c, n, w).1 == w.(pc := Root, s := c.Value(w.e.p.height, w.e.p.index))
  {
    assert n.left + [] == n.left;
    if c.Cur() == 0 && w.e.p.height > 0 { LastDies(0, 0, w.e.p.height - 1); }
  }
}
