/**
 Promotion and demotion of every account (core/tx_pool.go): what each does to an account's
 lists, and that accounts do not disturb one another.
 */
module PoolMoves {
  import opened Wrappers
  import opened SortedMap
  import opened TxList
  import opened PoolLists
  import opened Reinjection
  import opened PoolState

  /** The queued transactions that are neither stale nor too expensive. */
  function Executable(q: seq<Tx>, state: State, a: nat): seq<Tx> {
    Unmatched(q[Cut(q, state.Nonce(a))..], Costly(state, a))
  }

  /** As many of the queue as an account may have. */
  function Allowed(q: seq<Tx>, local: bool, limit: nat): seq<Tx> {
    if local || |q| <= limit then q else q[..limit]
  }

  lemma {:induction false} ExecutableSound(a: nat, p: seq<Tx>, q: seq<Tx>, all: set<Tx>, state: State)
    requires AccountSound(a, p, q, all)
    ensures var kept := q[Cut(q, state.Nonce(a))..]; var f := Costly(state, a);
      AccountSound(a, p, Executable(q, state, a),
                   all - Members(q[..Cut(q, state.Nonce(a))]) - set t | t in kept && f(t))
  {
    var k := Cut(q, state.Nonce(a));
    QueueDropsFront(a, p, q, all, k);
    QueueDropsMatches(a, p, q[k..], all - Members(q[..k]), Costly(state, a));
  }

  /** The first queued transaction moves to pending, where it meets none of the same nonce. */
  lemma {:induction false} PromoteStep(pending: Accounts, queue: Accounts, all: set<Tx>, a: nat)
    requires Sound(pending, queue, all) && a in queue && queue[a] != []
    ensures Find(Of(pending, a), queue[a][0].nonce).None? && queue[a][0] in all
    ensures Sound(pending[a := Placed(Of(pending, a), queue[a][0])], queue[a := queue[a][1..]], all)
  {
    var p, t, rest := Of(pending, a), queue[a][0], queue[a][1..];
    assert SoundAt(pending, queue, all, a);
    assert [t] + rest == queue[a];
    PromotesOne(a, p, t, rest, all);
    SameSelf(pending, a);
    SameSelf(queue, a);
    PutElsewhere(pending, pending, a, Placed(p, t));
    PutElsewhere(queue, queue, a, rest);
    OneAccount(pending, queue, all, pending[a := Placed(p, t)], queue[a := rest], all, a);
  }

  /** The queued transactions that Ready hands over, and those it leaves. */
  function Due(q: seq<Tx>, vnonces: map<nat, nat>, state: State, a: nat): seq<Tx> {
    q[..ReadyLength(q, VirtualNonce(vnonces, state, a))]
  }

  function Late(q: seq<Tx>, vnonces: map<nat, nat>, state: State, a: nat): seq<Tx> {
    q[ReadyLength(q, VirtualNonce(vnonces, state, a))..]
  }

  /** The virtual nonces once the transactions are promoted in order. */
  function Advanced(vnonces: map<nat, nat>, a: nat, run: seq<Tx>): map<nat, nat> {
    if run == [] then vnonces else vnonces[a := run[|run| - 1].nonce + 1]
  }

  /** The first i transactions of an account's queue q have moved to pending. */
  ghost predicate Promoting(s0: Pools, s: Pools, a: nat, q: seq<Tx>, i: nat) {
    && i <= |q| && a in s.queue && s.queue[a] == q[i..]
    && SameElsewhere(s0.pending, s.pending, a) && SameElsewhere(s0.queue, s.queue, a)
    && s.P(a) == PutAll(s0.P(a), q[..i]) && s.vnonces == Advanced(s0.vnonces, a, q[..i]) && s.all == s0.all
  }

  lemma {:induction false} PromotingStarts(s: Pools, a: nat)
    requires a in s.queue
    ensures Promoting(s, s, a, s.queue[a], 0)
  {
    SameSelf(s.pending, a);
    SameSelf(s.queue, a);
  }

  /** The pool with the first queued transaction of an account moved to pending. */
  function FirstMoved(s: Pools, a: nat): Pools
    requires a in s.queue && s.queue[a] != []
  {
    var t := s.queue[a][0];
    Pools(s.pending[a := Placed(s.P(a), t)], s.queue[a := s.queue[a][1..]], s.all, s.vnonces[a := t.nonce + 1])
  }

  lemma {:induction false} PromotingStep(s0: Pools, s: Pools, a: nat, q: seq<Tx>, i: nat)
    requires Promoting(s0, s, a, q, i) && i < |q|
    ensures Promoting(s0, FirstMoved(s, a), a, q, i + 1)
  {
    PutElsewhere(s0.queue, s.queue, a, s.queue[a][1..]);
    PutElsewhere(s0.pending, s.pending, a, Placed(s.P(a), q[i]));
    assert q[..i + 1][..i] == q[..i];
  }

  /** What is due has moved. */
  lemma {:induction false} PromotingEnds(s0: Pools, s: Pools, state: State, a: nat)
    requires a in s0.queue
    requires Promoting(s0, s, a, s0.queue[a], ReadyLength(s0.queue[a], s0.Vn(state, a)))
    ensures a in s.queue && SameElsewhere(s0.pending, s.pending, a) && SameElsewhere(s0.queue, s.queue, a)
    ensures s.P(a) == PutAll(s0.P(a), Due(s0.Q(a), s0.vnonces, state, a))
    ensures s.Q(a) == Late(s0.Q(a), s0.vnonces, state, a)
    ensures s.vnonces == Advanced(s0.vnonces, a, Due(s0.Q(a), s0.vnonces, state, a)) && s.all == s0.all
  {
  }

  /** Nothing queued is stale, unaffordable, due, or over the limit of an account that is not local. */
  ghost predicate Quiet(q: seq<Tx>, vn: nat, state: State, a: nat, local: bool, limit: nat) {
    && (forall t :: t in q ==> t.nonce >= state.Nonce(a) && !Costly(state, a)(t))
    && (q != [] ==> q[0].nonce > vn)
    && (local || |q| <= limit)
  }

  ghost predicate QuietAt(s: Pools, r: Rules, a: nat) {
    Quiet(s.Q(a), s.Vn(r.state, a), r.state, a, a in r.locals, r.limit)
  }

  /** Every account's queue is quiet. */
  ghost predicate AllQuiet(s: Pools, r: Rules) {
    forall a: nat :: QuietAt(s, r, a)
  }

  /** What Ready leaves starts above the new virtual nonce. */
  lemma {:induction false} LateIsLater(q: seq<Tx>, vnonces: map<nat, nat>, state: State, a: nat)
    requires Increasing(q)
    ensures var late := Late(q, vnonces, state, a);
      late != [] ==> late[0].nonce > VirtualNonce(Advanced(vnonces, a, Due(q, vnonces, state, a)), state, a)
  {
    var k := ReadyLength(q, VirtualNonce(vnonces, state, a));
    if 0 < k < |q| {
      RunLengthIsMaximal(q);
      assert Before(q, k - 1, k) && q[k - 1].nonce == q[0].nonce + (k - 1);
    }
  }

  /** After promotion an account's queue is quiet. */
  lemma {:induction false} PromotionQuiets(q: seq<Tx>, vnonces: map<nat, nat>, state: State, a: nat, local: bool,
                                           limit: nat)
    requires Increasing(q)
    ensures var e := Executable(q, state, a);
      Quiet(Allowed(Late(e, vnonces, state, a), local, limit),
            VirtualNonce(Advanced(vnonces, a, Due(e, vnonces, state, a)), state, a), state, a, local, limit)
  {
    var k := Cut(q, state.Nonce(a));
    PartsIncrease(q, k);
    CutKeeps(q, state.Nonce(a));
    UnmatchedIncreasing(q[k..], Costly(state, a));
    var e := Executable(q, state, a);
    LateIsLater(e, vnonces, state, a);
    var left := Allowed(Late(e, vnonces, state, a), local, limit);
    forall t | t in left ensures t.nonce >= state.Nonce(a) && !Costly(state, a)(t) { assert t in e; }
  }

  /** What the list's own promotion hands over and keeps is what is due and what is allowed of the rest. */
  lemma {:induction false} ListPromotes(q: seq<Tx>, vnonces: map<nat, nat>, state: State, a: nat, local: bool,
                                        limit: nat, ready: seq<Tx>, kept: seq<Tx>)
    requires TakenFrom(Executable(q, state, a), VirtualNonce(vnonces, state, a), if local then None else Some(limit),
                       ready, kept)
    ensures ready == Due(Executable(q, state, a), vnonces, state, a)
    ensures kept == Allowed(Late(Executable(q, state, a), vnonces, state, a), local, limit)
  {
    var e, vn := Executable(q, state, a), VirtualNonce(vnonces, state, a);
    if e != [] && e[0].nonce <= vn {
      RunLengthIsMaximal(e);
      RunIsOne(e, |ready|, RunLength(e));
    }
  }

  /** One account's promotion, and nothing else changed. */
  ghost predicate PromotedTo(s: Pools, s': Pools, r: Rules, a: nat) {
    var e := Executable(s.Q(a), r.state, a);
    && SameElsewhere(s.pending, s'.pending, a) && SameElsewhere(s.queue, s'.queue, a)
    && s'.P(a) == PutAll(s.P(a), Due(e, s.vnonces, r.state, a))
    && s'.Q(a) == Allowed(Late(e, s.vnonces, r.state, a), a in r.locals, r.limit)
    && s'.vnonces == Advanced(s.vnonces, a, Due(e, s.vnonces, r.state, a))
  }

  // ---- Promotion of many accounts -------------------------------------------------------------

  predicate SameNonceAt(vnonces: map<nat, nat>, vnonces': map<nat, nat>, a: nat) {
    (a in vnonces' <==> a in vnonces) && (a in vnonces ==> vnonces'[a] == vnonces[a])
  }

  /** One account's lists and virtual nonce after its promotion. */
  ghost predicate PromotedAt(s: Pools, s': Pools, r: Rules, a: nat) {
    var e := Executable(s.Q(a), r.state, a);
    && s'.P(a) == PutAll(s.P(a), Due(e, s.vnonces, r.state, a))
    && s'.Q(a) == Allowed(Late(e, s.vnonces, r.state, a), a in r.locals, r.limit)
    && SameNonceAt(Advanced(s.vnonces, a, Due(e, s.vnonces, r.state, a)), s'.vnonces, a)
  }

  ghost predicate KeptAt(s: Pools, s': Pools, a: nat) {
    s'.P(a) == s.P(a) && s'.Q(a) == s.Q(a) && SameNonceAt(s.vnonces, s'.vnonces, a)
  }

  ghost predicate MovedAt(s: Pools, s': Pools, r: Rules, done: set<nat>, a: nat) {
    if a in done then PromotedAt(s, s', r, a) else KeptAt(s, s', a)
  }

  /** The accounts that are done are promoted and the others are as before. */
  ghost predicate AllMoved(s: Pools, s': Pools, r: Rules, done: set<nat>) {
    forall a: nat :: MovedAt(s, s', r, done, a)
  }

  lemma {:induction false} MovesStart(s: Pools, r: Rules)
    ensures AllMoved(s, s, r, {})
  {
    forall a: nat ensures MovedAt(s, s, r, {}, a) {}
  }

  /** An account's promotion depends on its own lists and nonce only. */
  lemma {:induction false} PromotedLater(s0: Pools, s1: Pools, s2: Pools, r: Rules, a: nat)
    requires KeptAt(s0, s1, a) && PromotedTo(s1, s2, r, a)
    ensures PromotedAt(s0, s2, r, a)
  {
    assert s0.Vn(r.state, a) == s1.Vn(r.state, a);
  }

  lemma {:induction false} OthersKept(s1: Pools, s2: Pools, r: Rules, a: nat, b: nat)
    requires PromotedTo(s1, s2, r, a) && b != a
    ensures KeptAt(s1, s2, b)
  {
    assert SameList(s1.pending, s2.pending, a, b) && SameList(s1.queue, s2.queue, a, b);
  }

  /** An account left alone afterwards stays as it was moved. */
  lemma {:induction false} KeptAfter(s0: Pools, s1: Pools, s2: Pools, r: Rules, done: set<nat>, b: nat)
    requires MovedAt(s0, s1, r, done, b) && KeptAt(s1, s2, b)
    ensures MovedAt(s0, s2, r, done, b)
  {
  }

  lemma {:induction false} SameDone(s0: Pools, s1: Pools, r: Rules, done: set<nat>, done': set<nat>, b: nat)
    requires MovedAt(s0, s1, r, done, b) && (b in done <==> b in done')
    ensures MovedAt(s0, s1, r, done', b)
  {
  }

  lemma {:induction false} MovesOn(s0: Pools, s1: Pools, s2: Pools, r: Rules, done: set<nat>, a: nat)
    requires AllMoved(s0, s1, r, done) && a !in done && PromotedTo(s1, s2, r, a)
    ensures AllMoved(s0, s2, r, done + {a})
  {
    var done' := done + {a};
    forall b: nat ensures MovedAt(s0, s2, r, done', b) {
      assert MovedAt(s0, s1, r, done, b);
      if b == a {
        PromotedLater(s0, s1, s2, r, a);
      } else {
        OthersKept(s1, s2, r, a, b);
        KeptAfter(s0, s1, s2, r, done, b);
        SameDone(s0, s2, r, done, done', b);
      }
    }
  }

  lemma {:induction false} EmptyPromoted(s0: Pools, s1: Pools, r: Rules, a: nat)
    requires KeptAt(s0, s1, a) && s0.Q(a) == []
    ensures PromotedAt(s0, s1, r, a)
  {
  }

  /** Promoting an account without a queue changes nothing. */
  lemma {:induction false} NothingToMove(s0: Pools, s1: Pools, r: Rules, done: set<nat>, a: nat)
    requires AllMoved(s0, s1, r, done) && a !in done && s1.Q(a) == []
    ensures AllMoved(s0, s1, r, done + {a})
  {
    var done' := done + {a};
    forall b: nat ensures MovedAt(s0, s1, r, done', b) {
      assert MovedAt(s0, s1, r, done, b);
      if b == a { EmptyPromoted(s0, s1, r, a); } else { SameDone(s0, s1, r, done, done', b); }
    }
  }

  /** What an account's promotion moves is queued, current, payable and new to pending. */
  lemma {:induction false} DueMoves(a: nat, p: seq<Tx>, q: seq<Tx>, all: set<Tx>, vnonces: map<nat, nat>, state: State)
    requires AccountSound(a, p, q, all)
    ensures var e := Executable(q, state, a); var run := Due(e, vnonces, state, a);
      && Increasing(e) && Increasing(run) && Apart(p, run) && Increasing(PutAll(p, run))
      && (forall t :: t in e ==> t in q && t.nonce >= state.Nonce(a) && !Costly(state, a)(t))
      && (forall t :: t in run ==> t in e) && (forall t :: t in PutAll(p, run) <==> t in p || t in run)
  {
    var k := Cut(q, state.Nonce(a));
    PartsIncrease(q, k);
    CutKeeps(q, state.Nonce(a));
    UnmatchedIncreasing(q[k..], Costly(state, a));
    var e := Executable(q, state, a);
    PartsIncrease(e, ReadyLength(e, VirtualNonce(vnonces, state, a)));
    var run := Due(e, vnonces, state, a);
    PutAllHas(p, run);
  }

  /** What is ready continues the pending nonces, and its last is just below the next virtual nonce. */
  lemma {:induction false} RunContinues(p: seq<Tx>, e: seq<Tx>, sn: nat, vn: nat)
    requires Increasing(p) && Contiguous(p, sn, vn) && Apart(p, e) && forall t :: t in e ==> t.nonce >= sn
    ensures var run := e[..ReadyLength(e, vn)];
      Contiguous(PutAll(p, run), sn, vn + |run|) && (run != [] ==> run[|run| - 1].nonce + 1 == vn + |run|)
  {
    var k := ReadyLength(e, vn);
    PromotedContiguous(p, e, sn, vn, k);
    if k > 0 { ReadyStarts(p, e, sn, vn, k - 1); }
  }

  lemma {:induction false} DueContinues(s: Pools, r: Rules, a: nat)
    requires SoundAt(s.pending, s.queue, s.all, a) && s.OrderedAt(r.state, a)
    ensures var vn := s.Vn(r.state, a); var run := Due(Executable(s.Q(a), r.state, a), s.vnonces, r.state, a);
      && Contiguous(PutAll(s.P(a), run), r.state.Nonce(a), vn + |run|)
      && (run != [] ==> run[|run| - 1].nonce + 1 == vn + |run|)
  {
    DueMoves(a, s.P(a), s.Q(a), s.all, s.vnonces, r.state);
    RunContinues(s.P(a), Executable(s.Q(a), r.state, a), r.state.Nonce(a), s.Vn(r.state, a));
  }

  /** Promotion keeps an account's pending nonces contiguous up to its virtual nonce. */
  lemma {:induction false} PromotedInOrder(s: Pools, s': Pools, r: Rules, a: nat)
    requires PromotedAt(s, s', r, a) && SoundAt(s.pending, s.queue, s.all, a) && s.OrderedAt(r.state, a)
    ensures s'.OrderedAt(r.state, a)
  {
    DueContinues(s, r, a);
  }

  lemma {:induction false} MovedContiguous(s: Pools, s': Pools, r: Rules, done: set<nat>, a: nat)
    requires AllMoved(s, s', r, done) && s.Agrees() && s.OrderedAt(r.state, a)
    ensures s'.OrderedAt(r.state, a)
  {
    assert MovedAt(s, s', r, done, a);
    if a in done {
      assert SoundAt(s.pending, s.queue, s.all, a);
      PromotedInOrder(s, s', r, a);
    }
  }

  lemma {:induction false} MovedInOrder(s: Pools, s': Pools, r: Rules, done: set<nat>)
    requires AllMoved(s, s', r, done) && s.Agrees() && s.Ordered(r.state)
    ensures s'.Ordered(r.state)
  {
    forall a: nat ensures ContiguousAt(s'.pending, s'.vnonces, r.state, a) {
      assert ContiguousAt(s.pending, s.vnonces, r.state, a);
      MovedContiguous(s, s', r, done, a);
    }
  }

  lemma {:induction false} MovedQuiet(s: Pools, s': Pools, r: Rules, done: set<nat>, a: nat)
    requires AllMoved(s, s', r, done) && s.Agrees() && (a in done || a !in s.queue)
    ensures QuietAt(s', r, a)
  {
    assert MovedAt(s, s', r, done, a) && SoundAt(s.pending, s.queue, s.all, a);
    if a in done { PromotionQuiets(s.Q(a), s.vnonces, r.state, a, a in r.locals, r.limit); }
  }

  lemma {:induction false} MovedAllQuiet(s: Pools, s': Pools, r: Rules)
    requires AllMoved(s, s', r, s.queue.Keys) && s.Agrees()
    ensures AllQuiet(s', r)
  {
    forall a: nat ensures QuietAt(s', r, a) { MovedQuiet(s, s', r, s.queue.Keys, a); }
  }

  // ---- What is missing stays missing ------------------------------------------------------------

  predicate UnpayableAt(state: State, a: nat, n: nat, t: Tx) {
    t.sender == a && t.nonce == n ==> Costly(state, a)(t)
  }

  /** Nonce n is missing below a pending one, and no payable transaction has it. */
  ghost predicate Hole(p: seq<Tx>, all: set<Tx>, state: State, a: nat, n: nat) {
    && state.Nonce(a) <= n
    && (forall t :: t in p ==> t.nonce != n)
    && (exists t :: t in p && t.nonce > n)
    && (forall t :: t in all ==> UnpayableAt(state, a, n, t))
  }

  lemma {:induction false} HoleBreaks(p: seq<Tx>, all: set<Tx>, state: State, a: nat, n: nat, vn: nat)
    requires Hole(p, all, state, a, n)
    ensures !Contiguous(p, state.Nonce(a), vn)
  {
    if Contiguous(p, state.Nonce(a), vn) {
      var t :| t in p && t.nonce > n;
      var i: nat :| i < |p| && p[i] == t;
      assert Follows(p, state.Nonce(a), i);
      ContiguousHas(p, state.Nonce(a), vn, n);
    }
  }

  lemma {:induction false} HoleStays(s: Pools, s': Pools, r: Rules, done: set<nat>, a: nat, n: nat)
    requires AllMoved(s, s', r, done) && s.Agrees() && Hole(s.P(a), s.all, r.state, a, n)
    ensures Hole(s'.P(a), s.all, r.state, a, n)
  {
    assert MovedAt(s, s', r, done, a);
    if a in done {
      var p, q := s.P(a), s.Q(a);
      assert SoundAt(s.pending, s.queue, s.all, a);
      DueMoves(a, p, q, s.all, s.vnonces, r.state);
      forall t | t in s'.P(a) ensures t.nonce != n {
        if t !in p {
          assert t in q && Known(a, p, q, s.all, t) && UnpayableAt(r.state, a, n, t);
        }
      }
      var t :| t in p && t.nonce > n;
      assert t in s'.P(a);
    }
  }

  /** Nothing is pending and the virtual nonce is below the state nonce: nothing is ever due. */
  ghost predicate Behind(s: Pools, state: State, a: nat) {
    s.P(a) == [] && s.Vn(state, a) < state.Nonce(a)
  }

  lemma {:induction false} BehindStays(s: Pools, s': Pools, r: Rules, done: set<nat>, a: nat)
    requires AllMoved(s, s', r, done) && s.Agrees() && Behind(s, r.state, a)
    ensures Behind(s', r.state, a)
  {
    assert MovedAt(s, s', r, done, a);
    if a in done {
      assert SoundAt(s.pending, s.queue, s.all, a);
      DueMoves(a, s.P(a), s.Q(a), s.all, s.vnonces, r.state);
      var e := Executable(s.Q(a), r.state, a);
      if e != [] { assert e[0] in e; }
    }
  }

  // ---- Nothing below the state nonce ------------------------------------------------------------

  ghost predicate CurrentTx(t: Tx, state: State) {
    t.nonce >= state.Nonce(t.sender)
  }

  /** No transaction of the pool is below its sender's state nonce. */
  ghost predicate AllCurrent(all: set<Tx>, state: State) {
    forall t :: t in all ==> CurrentTx(t, state)
  }

  lemma {:induction false} MovedCurrent(s: Pools, s': Pools, r: Rules)
    requires AllMoved(s, s', r, s.queue.Keys) && s.Agrees() && s'.Agrees()
    requires forall a: nat, t :: t in s.P(a) ==> CurrentTx(t, r.state)
    ensures AllCurrent(s'.all, r.state)
  {
    forall t | t in s'.all ensures CurrentTx(t, r.state) {
      var a := t.sender;
      assert SoundAt(s'.pending, s'.queue, s'.all, a) && Known(a, s'.P(a), s'.Q(a), s'.all, t);
      assert MovedAt(s, s', r, s.queue.Keys, a) && SoundAt(s.pending, s.queue, s.all, a);
      if t in s'.Q(a) {
        MovedQuiet(s, s', r, s.queue.Keys, a);
      } else if a in s.queue {
        DueMoves(a, s.P(a), s.Q(a), s.all, s.vnonces, r.state);
      }
    }
  }

  // ---- Trims --------------------------------------------------------------------------------------

  /** An account's pending list lost its last k, and its virtual nonce is set back with them. */
  ghost predicate TrimmedAt(s: Pools, s': Pools, state: State, k: nat, a: nat) {
    var p := s.P(a);
    var m := Untrimmed(p, k);
    s'.P(a) == p[..m] && s'.Vn(state, a) == NonceAfter(p, m, s.Vn(state, a))
  }

  ghost predicate AllTrimmed(s: Pools, s': Pools, state: State, trims: multiset<nat>) {
    forall a: nat :: TrimmedAt(s, s', state, trims[a], a)
  }

  lemma {:induction false} TrimsStart(s: Pools, state: State)
    ensures AllTrimmed(s, s, state, multiset{})
  {
    forall a: nat ensures TrimmedAt(s, s, state, multiset{}[a], a) {}
  }

  /** One more trim of an account, which does nothing to an empty list. */
  ghost predicate TrimsOne(s: Pools, s': Pools, state: State, a: nat) {
    if s.P(a) == [] then s'.pending == s.pending && s'.vnonces == s.vnonces else
    var p := s.P(a);
    && SameElsewhere(s.pending, s'.pending, a) && s'.P(a) == p[..|p| - 1]
    && s'.vnonces == Lowered(s.vnonces, state, a, p[|p| - 1].nonce)
  }

  lemma {:induction false} TrimmedMore(s0: Pools, s1: Pools, s2: Pools, state: State, k: nat, a: nat)
    requires TrimmedAt(s0, s1, state, k, a) && TrimsOne(s1, s2, state, a) && Increasing(s0.P(a))
    ensures TrimmedAt(s0, s2, state, k + 1, a)
  {
    var p, m := s0.P(a), Untrimmed(s0.P(a), k);
    if m > 0 {
      assert p[..m][..m - 1] == p[..m - 1];
      if m < |p| { assert Before(p, m - 1, m); }
    }
  }

  lemma {:induction false} TrimmedElsewhere(s0: Pools, s1: Pools, s2: Pools, state: State, k: nat, a: nat, b: nat)
    requires TrimmedAt(s0, s1, state, k, b) && TrimsOne(s1, s2, state, a) && b != a
    ensures TrimmedAt(s0, s2, state, k, b)
  {
    if s1.P(a) != [] { assert SameList(s1.pending, s2.pending, a, b); }
  }

  lemma {:induction false} TrimsOn(s0: Pools, s1: Pools, s2: Pools, state: State, trims: multiset<nat>, a: nat)
    requires AllTrimmed(s0, s1, state, trims) && TrimsOne(s1, s2, state, a) && s0.Agrees()
    ensures AllTrimmed(s0, s2, state, trims + multiset{a})
  {
    var trims' := trims + multiset{a};
    forall b: nat ensures TrimmedAt(s0, s2, state, trims'[b], b) {
      assert TrimmedAt(s0, s1, state, trims[b], b);
      if b == a {
        assert SoundAt(s0.pending, s0.queue, s0.all, a);
        TrimmedMore(s0, s1, s2, state, trims[a], a);
      } else {
        TrimmedElsewhere(s0, s1, s2, state, trims[b], a, b);
      }
    }
  }

  lemma {:induction false} SameTrims(s0: Pools, s: Pools, s': Pools, state: State, trims: multiset<nat>)
    requires AllTrimmed(s0, s, state, trims) && s'.pending == s.pending && s'.vnonces == s.vnonces
    ensures AllTrimmed(s0, s', state, trims)
  {
    forall a: nat ensures TrimmedAt(s0, s', state, trims[a], a) { assert TrimmedAt(s0, s, state, trims[a], a); }
  }

  // ---- Demotion ---------------------------------------------------------------------------------

  /** Old and unpayable transactions leave, later ones and a list that starts late go to the queue. */
  method DemoteLists(p: seq<Tx>, q: seq<Tx>, nonce: nat, f: Tx -> bool)
    returns (p': seq<Tx>, q': seq<Tx>, gone: set<Tx>)
    ensures p' == DemotedPending(p, nonce, f) && q' == DemotedQueue(p, q, nonce, f) && gone == Refused(p, nonce, f)
  {
    var k := Cut(p, nonce);
    var kept := p[k..];
    var i := FirstMatch(kept, f);
    gone, p', q' := Members(p[..k]), kept[..i], q;
    if i < |kept| {
      assert kept[i] == p[k + i];
      gone, q' := gone + {kept[i]}, PutAll(q', kept[i + 1..]);
    }
    if p' != [] && Find(p', nonce).None? {
      q', p' := PutAll(q', p'), [];
    } else if p' == [] {
      FindInEmpty(nonce);
      assert PutAll(q', p') == q';
    }
  }

  lemma {:induction false} DemoteStep(pending: Accounts, queue: Accounts, all: set<Tx>, state: State, a: nat,
                                      p: seq<Tx>, q: seq<Tx>, gone: set<Tx>)
    requires Sound(pending, queue, all)
    requires p == DemotedPending(Of(pending, a), state.Nonce(a), Costly(state, a))
    requires q == DemotedQueue(Of(pending, a), Of(queue, a), state.Nonce(a), Costly(state, a))
    requires gone == Refused(Of(pending, a), state.Nonce(a), Costly(state, a))
    ensures Sound(With(pending, a, p, false), With(queue, a, q, false), all - gone) && |all - gone| <= |all|
    ensures SameElsewhere(pending, With(pending, a, p, false), a) && SameElsewhere(queue, With(queue, a, q, false), a)
    ensures Tidy(pending, With(pending, a, p, false), a)
  {
    assert SoundAt(pending, queue, all, a);
    DemotedSound(a, Of(pending, a), Of(queue, a), all, state.Nonce(a), Costly(state, a));
    RefusedOf(a, Of(pending, a), Of(queue, a), all, state.Nonce(a), Costly(state, a));
    BothStep(pending, queue, all, a, p, false, q, false, all - gone);
    SubsetSize(all - gone, all);
    WithTidy(pending, a, p);
  }

  /** An account still to be demoted is as before; the others are demoted. */
  ghost predicate DemotedAt(s: Pools, s': Pools, state: State, todo: set<nat>, b: nat) {
    if b in todo then s'.P(b) == s.P(b) && s'.Q(b) == s.Q(b) else
    var n, f := state.Nonce(b), Costly(state, b);
    && s'.P(b) == DemotedPending(s.P(b), n, f) && s'.Q(b) == DemotedQueue(s.P(b), s.Q(b), n, f)
    && (b in s'.pending ==> s'.pending[b] != [])
  }

  ghost predicate AllDemoted(s: Pools, s': Pools, state: State, todo: set<nat>) {
    forall b: nat :: DemotedAt(s, s', state, todo, b)
  }

  lemma {:induction false} DemotionStarts(s: Pools, state: State)
    ensures AllDemoted(s, s, state, s.pending.Keys)
  {
    forall b: nat ensures DemotedAt(s, s, state, s.pending.Keys, b) {
      if b !in s.pending { FindInEmpty(state.Nonce(b)); }
    }
  }

  /** One account demoted, and nothing else changed. */
  ghost predicate DemotedTo(s: Pools, s': Pools, state: State, a: nat) {
    && SameElsewhere(s.pending, s'.pending, a) && SameElsewhere(s.queue, s'.queue, a) && Tidy(s.pending, s'.pending, a)
    && s'.P(a) == DemotedPending(s.P(a), state.Nonce(a), Costly(state, a))
    && s'.Q(a) == DemotedQueue(s.P(a), s.Q(a), state.Nonce(a), Costly(state, a))
  }

  lemma {:induction false} DemotionMoves(s0: Pools, s1: Pools, s2: Pools, state: State, todo: set<nat>, a: nat)
    requires AllDemoted(s0, s1, state, todo) && a in todo && DemotedTo(s1, s2, state, a)
    ensures AllDemoted(s0, s2, state, todo - {a})
  {
    var rest := todo - {a};
    forall b: nat ensures DemotedAt(s0, s2, state, rest, b) {
      assert DemotedAt(s0, s1, state, todo, b);
      assert SameList(s1.pending, s2.pending, a, b) && SameList(s1.queue, s2.queue, a, b);
    }
  }

  lemma {:induction false} DemotedStill(s: Pools, s1: Pools, s2: Pools, state: State)
    requires AllDemoted(s, s1, state, {}) && s2.pending == s1.pending && s2.queue == s1.queue
    ensures AllDemoted(s, s2, state, {})
  {
    forall b: nat ensures DemotedAt(s, s2, state, {}, b) { assert DemotedAt(s, s1, state, {}, b); }
  }

  lemma {:induction false} DemotedCurrent(s: Pools, s': Pools, state: State)
    requires AllDemoted(s, s', state, {}) && s.Agrees()
    ensures forall a: nat, t :: t in s'.P(a) ==> CurrentTx(t, state)
  {
    forall a: nat, t | t in s'.P(a) ensures CurrentTx(t, state) {
      assert DemotedAt(s, s', state, {}, a) && SoundAt(s.pending, s.queue, s.all, a);
      CutKeeps(s.P(a), state.Nonce(a));
      assert t in s.P(a)[Cut(s.P(a), state.Nonce(a))..];
    }
  }

  /** Each pending account has the nonce after its last transaction; the others are unchanged. */
  ghost predicate NonceSet(pending: Accounts, vnonces: map<nat, nat>, vnonces': map<nat, nat>, todo: set<nat>, b: nat) {
    if b in pending && pending[b] != [] && b !in todo
    then b in vnonces' && vnonces'[b] == pending[b][|pending[b]| - 1].nonce + 1
    else (b in vnonces' <==> b in vnonces) && (b in vnonces ==> vnonces'[b] == vnonces[b])
  }

  ghost predicate NoncesSet(pending: Accounts, vnonces: map<nat, nat>, vnonces': map<nat, nat>, todo: set<nat>) {
    forall b: nat :: NonceSet(pending, vnonces, vnonces', todo, b)
  }

  ghost predicate NoneEmpty(pending: Accounts) {
    forall b :: b in pending ==> pending[b] != []
  }

  /** With nothing reinjected, contiguous lists are contiguous from the new state's nonces. */
  lemma {:induction false} SettledInOrder(s0: Pools, state: State, s: Pools, s': Pools, state': State)
    requires s0.Ordered(state) && s.pending == s0.pending && AllDemoted(s, s', state', {})
    requires NoncesSet(s'.pending, map[], s'.vnonces, {})
    ensures s'.Ordered(state')
  {
    forall a: nat ensures ContiguousAt(s'.pending, s'.vnonces, state', a) {
      assert ContiguousAt(s0.pending, s0.vnonces, state, a) && DemotedAt(s, s', state', {}, a);
      assert NonceSet(s'.pending, map[], s'.vnonces, {}, a);
      var r := s'.P(a);
      DemotedContiguous(s.P(a), state.Nonce(a), s0.Vn(state, a), state'.Nonce(a), Costly(state', a));
      if r != [] { assert Follows(r, state'.Nonce(a), |r| - 1); }
    }
  }
}
