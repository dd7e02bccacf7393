/**
 Transactions offered to the pool in a batch, and which resets leave an account out of order
 (core/tx_pool.go): what the pool holds for an account's nonce after the batch is read off the
 batch and what was there before.
 */
module PoolOffers {
  import opened Wrappers
  import opened SortedMap
  import opened TxList
  import opened PoolLists
  import opened Reinjection
  import opened PoolState
  import opened PoolMoves

  /** Each transaction with whether it passes the checks on itself. */
  type Offers = seq<(Tx, bool)>

  /** Transactions offered in a chain state, and by how much one must outbid another. */
  datatype Batch = Batch(txs: Offers, state: State, priceBump: nat)

  function CellOf(s: Pools, a: nat, n: nat): Option<Tx> {
    Cell(s.pending, s.queue, a, n)
  }

  predicate Pays(x: Option<Tx>, state: State, a: nat) {
    x.Some? && !Costly(state, a)(x.value)
  }

  /** The j-th transaction is good for the account's nonce, and outbids what was there. */
  predicate OfferAt(b: Batch, j: nat, a: nat, n: nat, prior: Option<Tx>) {
    && j < |b.txs| && b.txs[j].1 && b.txs[j].0.sender == a && b.txs[j].0.nonce == n
    && Admissible(b.txs[j].0, b.state) && Wins(prior, b.txs[j].0, b.priceBump)
  }

  ghost predicate Offered(b: Batch, i: nat, a: nat, n: nat, prior: Option<Tx>) {
    exists j: nat :: j < i && OfferAt(b, j, a, n, prior)
  }

  /** A payable transaction was there for the nonce, or one is offered that outbids what was. */
  ghost predicate Filled(b: Batch, i: nat, a: nat, n: nat, prior: Option<Tx>) {
    Pays(prior, b.state, a) || Offered(b, i, a, n, prior)
  }

  /**
   After i offers a cell is as it was or payable, and payable only if it was filled; if the pool
   has room for the batch, exactly if it was filled.
   */
  ghost predicate CellOk(prior: Option<Tx>, x: Option<Tx>, b: Batch, i: nat, a: nat, n: nat, room: bool) {
    && (x == prior || Pays(x, b.state, a))
    && (Pays(x, b.state, a) ==> Filled(b, i, a, n, prior))
    && (room && Filled(b, i, a, n, prior) ==> Pays(x, b.state, a))
  }

  lemma {:induction false} OfferedNext(b: Batch, i: nat, a: nat, n: nat, prior: Option<Tx>)
    ensures Offered(b, i + 1, a, n, prior) <==> Offered(b, i, a, n, prior) || OfferAt(b, i, a, n, prior)
  {
    if Offered(b, i + 1, a, n, prior) {
      var j: nat :| j < i + 1 && OfferAt(b, j, a, n, prior);
      assert j < i || j == i;
    }
    if OfferAt(b, i, a, n, prior) { assert i < i + 1; }
    if Offered(b, i, a, n, prior) {
      var j: nat :| j < i && OfferAt(b, j, a, n, prior);
      assert j < i + 1;
    }
  }

  /** The pool takes what it does not know, what passes, and what wins against what is there. */
  predicate Takes(b: Batch, i: nat, known: bool, x: Option<Tx>)
    requires i < |b.txs|
  {
    !known && b.txs[i].1 && Admissible(b.txs[i].0, b.state) && Wins(x, b.txs[i].0, b.priceBump)
  }

  lemma {:induction false} CellNext(prior: Option<Tx>, x: Option<Tx>, b: Batch, i: nat, known: bool, taken: bool,
                                    room: bool)
    requires i < |b.txs| && (known ==> x == Some(b.txs[i].0))
    requires (taken ==> Takes(b, i, known, x)) && (room && Takes(b, i, known, x) ==> taken)
    requires CellOk(prior, x, b, i, b.txs[i].0.sender, b.txs[i].0.nonce, room)
    ensures CellOk(prior, if taken then Some(b.txs[i].0) else x, b, i + 1, b.txs[i].0.sender, b.txs[i].0.nonce, room)
  {
    OfferedNext(b, i, b.txs[i].0.sender, b.txs[i].0.nonce, prior);
  }

  lemma {:induction false} CellElsewhere(prior: Option<Tx>, x: Option<Tx>, b: Batch, i: nat, a: nat, n: nat, room: bool)
    requires i < |b.txs| && !(a == b.txs[i].0.sender && n == b.txs[i].0.nonce)
    requires CellOk(prior, x, b, i, a, n, room)
    ensures CellOk(prior, x, b, i + 1, a, n, room)
  {
    OfferedNext(b, i, a, n, prior);
  }

  /** The nonce is new to the account since s0. */
  predicate NewSince(s0: Pools, s: Pools, a: nat, n: nat) {
    CellOf(s0, a, n).None? && CellOf(s, a, n).Some?
  }

  /** A cell's history, and that an account with a new nonce is dirty. */
  ghost predicate CellAt(s0: Pools, s: Pools, b: Batch, i: nat, dirty: set<nat>, room: bool, a: nat, n: nat) {
    && CellOk(CellOf(s0, a, n), CellOf(s, a, n), b, i, a, n, room)
    && (NewSince(s0, s, a, n) ==> a in dirty)
  }

  /** A dirty account has a new nonce. */
  ghost predicate DirtyAt(s0: Pools, s: Pools, dirty: set<nat>, a: nat) {
    a in dirty ==> exists n: nat :: NewSince(s0, s, a, n)
  }

  ghost predicate AllCells(s0: Pools, s: Pools, b: Batch, i: nat, dirty: set<nat>, room: bool) {
    && (forall a: nat, n: nat :: CellAt(s0, s, b, i, dirty, room, a, n))
    && (forall a: nat :: DirtyAt(s0, s, dirty, a))
  }

  lemma {:induction false} CellsStart(s: Pools, b: Batch, room: bool)
    ensures AllCells(s, s, b, 0, {}, room)
  {
    forall a: nat, n: nat ensures CellAt(s, s, b, 0, {}, room, a, n) {}
    forall a: nat ensures DirtyAt(s, s, {}, a) {}
  }

  /** An offer that is not taken leaves every cell. */
  lemma {:induction false} CellsRefuse(s0: Pools, s: Pools, b: Batch, i: nat, dirty: set<nat>, room: bool)
    requires AllCells(s0, s, b, i, dirty, room) && s.Agrees() && i < |b.txs|
    requires room ==> !Takes(b, i, b.txs[i].0 in s.all, Prior(s.pending, s.queue, b.txs[i].0))
    ensures AllCells(s0, s, b, i + 1, dirty, room)
  {
    var t, next := b.txs[i].0, i + 1;
    if t in s.all { KnownCell(s.pending, s.queue, s.all, t); }
    forall a: nat, n: nat ensures CellAt(s0, s, b, next, dirty, room, a, n) {
      assert CellAt(s0, s, b, i, dirty, room, a, n);
      if a == t.sender && n == t.nonce {
        CellNext(CellOf(s0, a, n), CellOf(s, a, n), b, i, t in s.all, false, room);
      } else {
        CellElsewhere(CellOf(s0, a, n), CellOf(s, a, n), b, i, a, n, room);
      }
    }
  }

  /** The pool with one more transaction. */
  function Added(s: Pools, t: Tx): Pools {
    s.(pending := AddedPending(s.pending, t), queue := AddedQueue(s.pending, s.queue, t),
       all := s.all - Gone(Prior(s.pending, s.queue, t)) + {t})
  }

  /** An offer that is taken fills its cell, and marks its account unless it replaced another. */
  lemma {:induction false} CellsTake(s0: Pools, s: Pools, b: Batch, i: nat, dirty: set<nat>, dirty': set<nat>,
                                     room: bool)
    requires AllCells(s0, s, b, i, dirty, room) && s.Agrees() && i < |b.txs|
    requires Takes(b, i, b.txs[i].0 in s.all, Prior(s.pending, s.queue, b.txs[i].0))
    requires dirty' == if Prior(s.pending, s.queue, b.txs[i].0).Some? then dirty else dirty + {b.txs[i].0.sender}
    ensures AllCells(s0, Added(s, b.txs[i].0), b, i + 1, dirty', room)
  {
    var t, next, s' := b.txs[i].0, i + 1, Added(s, b.txs[i].0);
    forall a: nat, n: nat ensures CellAt(s0, s', b, next, dirty', room, a, n) {
      assert CellAt(s0, s, b, i, dirty, room, a, n);
      AddedCell(s.pending, s.queue, s.all, t, a, n);
      if a == t.sender && n == t.nonce {
        CellNext(CellOf(s0, a, n), CellOf(s, a, n), b, i, false, true, room);
      } else {
        CellElsewhere(CellOf(s0, a, n), CellOf(s, a, n), b, i, a, n, room);
      }
    }
    forall a: nat ensures DirtyAt(s0, s', dirty', a) { DirtyStays(s0, s, b, i, dirty, dirty', room, a); }
  }

  lemma {:induction false} DirtyStays(s0: Pools, s: Pools, b: Batch, i: nat, dirty: set<nat>, dirty': set<nat>,
                                      room: bool, a: nat)
    requires AllCells(s0, s, b, i, dirty, room) && s.Agrees() && i < |b.txs|
    requires dirty' == if Prior(s.pending, s.queue, b.txs[i].0).Some? then dirty else dirty + {b.txs[i].0.sender}
    ensures DirtyAt(s0, Added(s, b.txs[i].0), dirty', a)
  {
    var t, s' := b.txs[i].0, Added(s, b.txs[i].0);
    assert DirtyAt(s0, s, dirty, a);
    if a in dirty {
      var n: nat :| NewSince(s0, s, a, n);
      AddedCell(s.pending, s.queue, s.all, t, a, n);
      assert NewSince(s0, s', a, n);
    } else if a in dirty' {
      assert CellAt(s0, s, b, i, dirty, room, a, t.nonce);
      AddedCell(s.pending, s.queue, s.all, t, a, t.nonce);
      assert NewSince(s0, s', a, t.nonce);
    }
  }

  // ---- Which resets leave an account out of order -----------------------------------------------

  ghost predicate FilledAt(s: Pools, b: Batch, a: nat, n: nat) {
    Filled(b, |b.txs|, a, n, CellOf(s, a, n))
  }

  ghost predicate FilledFrom(s: Pools, b: Batch, a: nat, lo: nat, hi: nat) {
    forall n: nat :: lo <= n < hi ==> FilledAt(s, b, a, n)
  }

  /** The batch fills a nonce that the account did not have. */
  ghost predicate NewNonce(s: Pools, b: Batch, a: nat) {
    exists n: nat :: CellOf(s, a, n).None? && FilledAt(s, b, a, n)
  }

  /** It does so for some account, so that the pool promotes and trims. */
  ghost predicate SomeNew(s: Pools, b: Batch) {
    exists a: nat :: NewNonce(s, b, a)
  }

  /** The state nonce steps back: the old list is trimmed away, or one of the nonces that make the gap is missing. */
  ghost predicate BackOk(s: Pools, b: Batch, sn0: nat, k: nat, room: bool, a: nat) {
    var sn := b.state.Nonce(a);
    || k >= |s.P(a)| || !FilledAt(s, b, a, sn) || !FilledAt(s, b, a, sn0)
    || (room && FilledFrom(s, b, a, sn + 1, sn0))
  }

  /** It does not: no transaction below the state nonce is trimmed. */
  ghost predicate OnOk(s: Pools, b: Batch, sn0: nat, k: nat, room: bool, a: nat) {
    var sn, vn0 := b.state.Nonce(a), sn0 + |s.P(a)|;
    || k == 0 || sn0 == sn || sn + k <= vn0
    || (room && vn0 <= sn && NewNonce(s, b, a) && FilledFrom(s, b, a, sn, sn + k))
  }

  /**
   An account that was in order before a reset with the batch and k trims of its list will be in
   order again.  If the pool has room for the batch, the condition is exact.
   */
  ghost predicate StaysInOrder(s: Pools, state0: State, b: Batch, k: nat, room: bool, a: nat) {
    var sn0 := state0.Nonce(a);
    || s.P(a) == [] || !SomeNew(s, b)
    || (if b.state.Nonce(a) < sn0 then BackOk(s, b, sn0, k, room, a) else OnOk(s, b, sn0, k, room, a))
  }

  /**
   The state nonce steps back below pending transactions; the new state nonce and the first
   pending nonce are filled, but not every nonce between them.
   */
  ghost predicate GapAt(s: Pools, state0: State, b: Batch, a: nat) {
    var sn0, sn := state0.Nonce(a), b.state.Nonce(a);
    && sn < sn0 && s.P(a) != []
    && FilledAt(s, b, a, sn) && FilledAt(s, b, a, sn0) && !FilledFrom(s, b, a, sn + 1, sn0)
  }

  /** Nothing is below the state nonce. */
  lemma {:induction false} NoneBelow(s: Pools, state: State, a: nat, n: nat)
    requires s.Agrees() && AllCurrent(s.all, state) && n < state.Nonce(a)
    ensures CellOf(s, a, n).None?
  {
    assert SoundAt(s.pending, s.queue, s.all, a);
    var p, q := s.P(a), s.Q(a);
    forall t | t in p || t in q ensures t.nonce != n { assert Known(a, p, q, s.all, t) && CurrentTx(t, state); }
    FindNone(p, n);
    FindNone(q, n);
  }

  /** Without trims and with room, an account is out of order after a reset exactly if there is a gap. */
  lemma {:induction false} GapWithoutTrims(s: Pools, state0: State, b: Batch, a: nat)
    requires s.Agrees() && AllCurrent(s.all, state0)
    ensures StaysInOrder(s, state0, b, 0, true, a) <==> !GapAt(s, state0, b, a)
  {
    if GapAt(s, state0, b, a) {
      NoneBelow(s, state0, a, b.state.Nonce(a));
      assert NewNonce(s, b, a);
    }
  }

  lemma {:induction false} ExecutableHas(q: seq<Tx>, state: State, a: nat, t: Tx)
    requires Increasing(q)
    ensures t in Executable(q, state, a) <==> t in q && t.nonce >= state.Nonce(a) && !Costly(state, a)(t)
  {
    var k := Cut(q, state.Nonce(a));
    CutKeeps(q, state.Nonce(a));
    if t in q && t.nonce >= state.Nonce(a) {
      var i: nat :| i < |q| && q[i] == t;
      CutAt(q, state.Nonce(a), i);
      assert q[k..][i - k] == t;
    }
  }

  lemma {:induction false} ExecutableOrder(s: Pools, state: State, a: nat)
    requires s.Agrees()
    ensures var e := Executable(s.Q(a), state, a); Increasing(e) && forall t :: t in e ==> t.nonce >= state.Nonce(a)
  {
    assert SoundAt(s.pending, s.queue, s.all, a);
    DueMoves(a, s.P(a), s.Q(a), s.all, map[], state);
  }

  /** A nonce that is not pending is executable exactly if its cell pays. */
  lemma {:induction false} ExecutableCell(s: Pools, state: State, a: nat, n: nat)
    requires s.Agrees() && Find(s.P(a), n).None? && n >= state.Nonce(a)
    ensures Find(Executable(s.Q(a), state, a), n).Some? <==> Pays(CellOf(s, a, n), state, a)
  {
    var q, e, x := s.Q(a), Executable(s.Q(a), state, a), CellOf(s, a, n);
    assert SoundAt(s.pending, s.queue, s.all, a);
    DueMoves(a, s.P(a), q, s.all, map[], state);
    FindNone(e, n);
    if Find(e, n).Some? {
      FindIs(q, n, Find(e, n).value);
    }
    if Pays(x, state, a) {
      ExecutableHas(q, state, a, x.value);
    }
  }

  /** What the promotion of the dirty accounts moves to an account's pending list. */
  function Reinjected(s: Pools, state: State, dirty: set<nat>, a: nat): seq<Tx> {
    if a in dirty then Due(Executable(s.Q(a), state, a), map[], state, a) else []
  }

  lemma {:induction false} ReinjectedLength(s: Pools, state: State, dirty: set<nat>, a: nat)
    ensures a in dirty ==> |Reinjected(s, state, dirty, a)| == ReadyLength(Executable(s.Q(a), state, a), state.Nonce(a))
    ensures a !in dirty ==> Reinjected(s, state, dirty, a) == []
  {
  }

  /** It is a payable run from the state nonce that shares no nonce with pending. */
  lemma {:induction false} ReinjectedRun(s: Pools, state: State, dirty: set<nat>, a: nat)
    requires s.Agrees()
    ensures var run := Reinjected(s, state, dirty, a);
      && Contiguous(run, state.Nonce(a), state.Nonce(a) + |run|) && Apart(s.P(a), run)
      && FirstMatch(run, Costly(state, a)) == |run|
  {
    var e, run := Executable(s.Q(a), state, a), Reinjected(s, state, dirty, a);
    assert SoundAt(s.pending, s.queue, s.all, a);
    DueMoves(a, s.P(a), s.Q(a), s.all, map[], state);
    ReadyRun(e, state.Nonce(a));
    AllPayable(run, Costly(state, a));
  }

  /** A batch is offered to a pool s0 that was in order with virtual nonces v0, giving s. */
  datatype Offering = Offering(s0: Pools, v0: map<nat, nat>, state0: State, s: Pools, b: Batch, dirty: set<nat>,
                               room: bool)
  {
    ghost predicate Made() {
      && s0.Agrees() && AllCurrent(s0.all, state0) && AllContiguous(s0.pending, v0, state0)
      && s.Agrees() && AllSameNonces(s0.pending, s.pending) && AllCells(s0, s, b, |b.txs|, dirty, room)
    }

    /** Whether an account ends in order after k trims. */
    predicate Orderly(k: nat, a: nat) {
      Reinjection.Orderly(s.P(a), Reinjected(s, b.state, dirty, a), state0.Nonce(a), b.state.Nonce(a), k,
                          Costly(b.state, a))
    }
  }

  lemma {:induction false} OldPending(s0: Pools, v0: map<nat, nat>, state0: State, s: Pools, a: nat)
    requires AllContiguous(s0.pending, v0, state0) && AllSameNonces(s0.pending, s.pending)
    ensures Contiguous(s.P(a), state0.Nonce(a), state0.Nonce(a) + |s.P(a)|) && |s.P(a)| == |s0.P(a)|
  {
    assert ContiguousAt(s0.pending, v0, state0, a) && SameNoncesAt(s0.pending, s.pending, a);
    SameNoncesContiguous(s0.P(a), s.P(a), state0.Nonce(a), VirtualNonce(v0, state0, a));
  }

  lemma {:induction false} NotPending(s0: Pools, v0: map<nat, nat>, state0: State, s: Pools, a: nat, n: nat)
    requires AllContiguous(s0.pending, v0, state0) && AllSameNonces(s0.pending, s.pending)
    requires n < state0.Nonce(a) || state0.Nonce(a) + |s0.P(a)| <= n
    ensures Find(s.P(a), n).None?
  {
    OldPending(s0, v0, state0, s, a);
    var p, sn0 := s.P(a), state0.Nonce(a);
    ContiguousIncreasing(p, sn0, sn0 + |p|);
    forall t | t in p ensures t.nonce != n {
      var i: nat :| i < |p| && p[i] == t;
      assert Follows(p, sn0, i);
    }
    FindNone(p, n);
  }

  /** A nonce that is not pending is executable only if it was filled, and with room exactly then. */
  lemma {:induction false} FilledNonce(o: Offering, a: nat, n: nat)
    requires o.Made() && o.b.state.Nonce(a) <= n
    requires n < o.state0.Nonce(a) || o.state0.Nonce(a) + |o.s0.P(a)| <= n
    ensures Find(Executable(o.s.Q(a), o.b.state, a), n).Some? ==> FilledAt(o.s0, o.b, a, n)
    ensures o.room && FilledAt(o.s0, o.b, a, n) ==> Find(Executable(o.s.Q(a), o.b.state, a), n).Some?
  {
    assert CellAt(o.s0, o.s, o.b, |o.b.txs|, o.dirty, o.room, a, n);
    NotPending(o.s0, o.v0, o.state0, o.s, a, n);
    ExecutableCell(o.s, o.b.state, a, n);
  }

  lemma {:induction false} FilledNonces(o: Offering, a: nat, lo: nat, hi: nat)
    requires o.Made() && o.b.state.Nonce(a) <= lo
    requires hi <= o.state0.Nonce(a) || o.state0.Nonce(a) + |o.s0.P(a)| <= lo
    ensures var e := Executable(o.s.Q(a), o.b.state, a);
      && (FoundFrom(e, lo, hi) ==> FilledFrom(o.s0, o.b, a, lo, hi))
      && (o.room && FilledFrom(o.s0, o.b, a, lo, hi) ==> FoundFrom(e, lo, hi))
  {
    forall n: nat | lo <= n < hi
      ensures Find(Executable(o.s.Q(a), o.b.state, a), n).Some? ==> FilledAt(o.s0, o.b, a, n)
      ensures o.room && FilledAt(o.s0, o.b, a, n) ==> Find(Executable(o.s.Q(a), o.b.state, a), n).Some?
    {
      FilledNonce(o, a, n);
    }
  }

  /** The first pending transaction is payable only if its nonce is filled, and with room exactly then. */
  lemma {:induction false} FilledFirst(o: Offering, a: nat)
    requires o.Made() && o.s.P(a) != []
    ensures !FilledAt(o.s0, o.b, a, o.state0.Nonce(a)) ==> Costly(o.b.state, a)(o.s.P(a)[0])
    ensures o.room && Costly(o.b.state, a)(o.s.P(a)[0]) ==> !FilledAt(o.s0, o.b, a, o.state0.Nonce(a))
  {
    var sn0 := o.state0.Nonce(a);
    assert SoundAt(o.s.pending, o.s.queue, o.s.all, a) && CellAt(o.s0, o.s, o.b, |o.b.txs|, o.dirty, o.room, a, sn0);
    OldPending(o.s0, o.v0, o.state0, o.s, a);
    assert Follows(o.s.P(a), sn0, 0);
    FindIs(o.s.P(a), sn0, o.s.P(a)[0]);
  }

  /** Only an account with a new nonce is dirty, and with room exactly such an account. */
  lemma {:induction false} DirtyIsNew(s0: Pools, s: Pools, b: Batch, dirty: set<nat>, room: bool, a: nat)
    requires AllCells(s0, s, b, |b.txs|, dirty, room)
    ensures (a in dirty ==> NewNonce(s0, b, a)) && (room && NewNonce(s0, b, a) ==> a in dirty)
  {
    assert DirtyAt(s0, s, dirty, a);
    if a in dirty {
      var n: nat :| NewSince(s0, s, a, n);
      assert CellAt(s0, s, b, |b.txs|, dirty, room, a, n);
      assert FilledAt(s0, b, a, n);
    }
    if room && NewNonce(s0, b, a) {
      var n: nat :| CellOf(s0, a, n).None? && FilledAt(s0, b, a, n);
      assert CellAt(s0, s, b, |b.txs|, dirty, room, a, n);
    }
  }

  lemma {:induction false} SomeDirty(s0: Pools, s: Pools, b: Batch, dirty: set<nat>, room: bool)
    requires AllCells(s0, s, b, |b.txs|, dirty, room)
    ensures (dirty != {} ==> SomeNew(s0, b)) && (room && SomeNew(s0, b) ==> dirty != {})
  {
    if dirty != {} {
      var a :| a in dirty;
      DirtyIsNew(s0, s, b, dirty, room, a);
    }
    if room && SomeNew(s0, b) {
      var a: nat :| NewNonce(s0, b, a);
      DirtyIsNew(s0, s, b, dirty, room, a);
    }
  }

  /** The state nonce stepped back. */
  lemma {:induction false} BackDecides(o: Offering, k: nat, a: nat)
    requires o.Made() && o.s.P(a) != [] && o.b.state.Nonce(a) < o.state0.Nonce(a)
    ensures var ok := BackOk(o.s0, o.b, o.state0.Nonce(a), k, o.room, a);
      (ok ==> o.Orderly(k, a)) && (o.room && o.Orderly(k, a) ==> ok)
  {
    var sn0, sn, run := o.state0.Nonce(a), o.b.state.Nonce(a), Reinjected(o.s, o.b.state, o.dirty, a);
    var e := Executable(o.s.Q(a), o.b.state, a);
    OldPending(o.s0, o.v0, o.state0, o.s, a);
    FilledFirst(o, a);
    RunStarts(o, a);
    if run != [] {
      RunMeets(o, a);
    }
  }

  /** There is a run only if the state nonce is filled, and with room exactly then. */
  lemma {:induction false} RunStarts(o: Offering, a: nat)
    requires o.Made() && o.b.state.Nonce(a) < o.state0.Nonce(a)
    ensures Reinjected(o.s, o.b.state, o.dirty, a) != [] ==> FilledAt(o.s0, o.b, a, o.b.state.Nonce(a))
    ensures o.room && FilledAt(o.s0, o.b, a, o.b.state.Nonce(a)) ==> Reinjected(o.s, o.b.state, o.dirty, a) != []
  {
    var sn := o.b.state.Nonce(a);
    ExecutableOrder(o.s, o.b.state, a);
    ReadyRun(Executable(o.s.Q(a), o.b.state, a), sn);
    FilledNonce(o, a, sn);
    NoneBelow(o.s0, o.state0, a, sn);
    DirtyIsNew(o.s0, o.s, o.b, o.dirty, o.room, a);
  }

  /** A run reaches the old list if every nonce up to it is filled, which they are only if it does. */
  lemma {:induction false} RunMeets(o: Offering, a: nat)
    requires o.Made() && o.s.P(a) != [] && o.b.state.Nonce(a) < o.state0.Nonce(a)
    requires Reinjected(o.s, o.b.state, o.dirty, a) != []
    ensures var sn0, sn, run := o.state0.Nonce(a), o.b.state.Nonce(a), Reinjected(o.s, o.b.state, o.dirty, a);
      && sn + |run| <= sn0 && (sn + |run| == sn0 ==> FilledFrom(o.s0, o.b, a, sn + 1, sn0))
      && (o.room && FilledFrom(o.s0, o.b, a, sn + 1, sn0) ==> sn + |run| == sn0)
  {
    var sn0, sn, run := o.state0.Nonce(a), o.b.state.Nonce(a), Reinjected(o.s, o.b.state, o.dirty, a);
    var e := Executable(o.s.Q(a), o.b.state, a);
    OldPending(o.s0, o.v0, o.state0, o.s, a);
    ReinjectedRun(o.s, o.b.state, o.dirty, a);
    RunsApart(o.s.P(a), run, sn0, sn0 + |o.s.P(a)|, sn);
    RunStarts(o, a);
    ExecutableOrder(o.s, o.b.state, a);
    ReinjectedLength(o.s, o.b.state, o.dirty, a);
    ReadyCovers(e, sn, sn0 - sn);
    FilledNonces(o, a, sn, sn0);
    FromNext(o.s0, o.b, a, sn, sn0);
  }

  lemma {:induction false} FromNext(s: Pools, b: Batch, a: nat, lo: nat, hi: nat)
    requires lo < hi && FilledAt(s, b, a, lo)
    ensures FilledFrom(s, b, a, lo, hi) <==> FilledFrom(s, b, a, lo + 1, hi)
  {
  }

  /** The state nonce did not step back. */
  lemma {:induction false} OnDecides(o: Offering, k: nat, a: nat)
    requires o.Made() && o.s.P(a) != [] && o.state0.Nonce(a) <= o.b.state.Nonce(a)
    ensures var ok := OnOk(o.s0, o.b, o.state0.Nonce(a), k, o.room, a);
      (ok ==> o.Orderly(k, a)) && (o.room && o.Orderly(k, a) ==> ok)
  {
    OldPending(o.s0, o.v0, o.state0, o.s, a);
    if o.state0.Nonce(a) + |o.s0.P(a)| <= o.b.state.Nonce(a) {
      RunLongEnough(o, k, a);
    }
  }

  /** A run above the old list has k transactions if the account is dirty and their nonces are filled. */
  lemma {:induction false} RunLongEnough(o: Offering, k: nat, a: nat)
    requires o.Made() && o.state0.Nonce(a) + |o.s0.P(a)| <= o.b.state.Nonce(a)
    ensures var sn, run := o.b.state.Nonce(a), Reinjected(o.s, o.b.state, o.dirty, a);
      && (0 < k <= |run| ==> NewNonce(o.s0, o.b, a) && FilledFrom(o.s0, o.b, a, sn, sn + k))
      && (o.room && NewNonce(o.s0, o.b, a) && FilledFrom(o.s0, o.b, a, sn, sn + k) ==> k <= |run|)
  {
    var sn := o.b.state.Nonce(a);
    ExecutableOrder(o.s, o.b.state, a);
    ReinjectedLength(o.s, o.b.state, o.dirty, a);
    ReadyCovers(Executable(o.s.Q(a), o.b.state, a), sn, k);
    FilledNonces(o, a, sn, sn + k);
    DirtyIsNew(o.s0, o.s, o.b, o.dirty, o.room, a);
  }

  /** How often an account's list is trimmed: not at all if no account got a new nonce. */
  function Trims(dirty: set<nat>, trims: multiset<nat>): multiset<nat> {
    if dirty == {} then multiset{} else trims
  }

  /** Whether an account ends in order is decided by the batch, the trims and what was there before. */
  lemma {:induction false} OffersDecide(o: Offering, trims: multiset<nat>, a: nat)
    requires o.Made()
    ensures var stays, k := StaysInOrder(o.s0, o.state0, o.b, trims[a], o.room, a), Trims(o.dirty, trims)[a];
      (stays ==> o.Orderly(k, a)) && (o.room && o.Orderly(k, a) ==> stays)
  {
    OldPending(o.s0, o.v0, o.state0, o.s, a);
    SomeDirty(o.s0, o.s, o.b, o.dirty, o.room);
    if o.s.P(a) != [] && o.dirty != {} {
      if o.b.state.Nonce(a) < o.state0.Nonce(a) {
        BackDecides(o, trims[a], a);
      } else {
        OnDecides(o, trims[a], a);
      }
    }
  }

  // ---- A whole reset ----------------------------------------------------------------------------

  /** Whatever entered the lookup is admissible. */
  ghost predicate Grown(all: set<Tx>, all': set<Tx>, state: State) {
    forall t :: t in all' ==> t in all || Admissible(t, state)
  }

  lemma {:induction false} GrownCurrent(all: set<Tx>, all': set<Tx>, state: State)
    requires Grown(all, all', state) && AllCurrent(all, state)
    ensures AllCurrent(all', state)
  {
  }

  /** The batch is added to s0, giving s1, and the dirty accounts promoted, giving s2. */
  ghost predicate Stages(s0: Pools, s1: Pools, s2: Pools, b: Batch, r: Rules, dirty: set<nat>, room: bool) {
    && s1.Agrees() && s1.vnonces == s0.vnonces && AllSameNonces(s0.pending, s1.pending)
    && AllCells(s0, s1, b, |b.txs|, dirty, room) && s2.Agrees() && AllMoved(s1, s2, r, dirty) && s2.all <= s1.all
  }

  /** And then lists are trimmed, unless no account is dirty; the lookup only loses more. */
  ghost predicate BatchTo(s0: Pools, s': Pools, b: Batch, r: Rules, trims: multiset<nat>, room: bool) {
    exists s1: Pools, s2: Pools, dirty: set<nat> ::
      && Stages(s0, s1, s2, b, r, dirty, room) && AllTrimmed(s2, s', r.state, Trims(dirty, trims)) && s'.all <= s2.all
  }

  /** An account's pending list and virtual nonce after reinjection, trims, demotion and the new nonces. */
  ghost predicate ResettledAt(s1: Pools, s3: Pools, state: State, dirty: set<nat>, k: nat, a: nat) {
    var p, run, sn := s1.P(a), Reinjected(s1, state, dirty, a), state.Nonce(a);
    && s3.P(a) == Left(p, run, sn, k, Costly(state, a))
    && s3.Vn(state, a) ==
       if s3.P(a) == [] then LeftNonce(p, run, sn, k) else s3.P(a)[|s3.P(a)| - 1].nonce + 1
  }

  /** What the promotion of the dirty accounts did to an account. */
  lemma {:induction false} MovedPending(s1: Pools, s2: Pools, r: Rules, dirty: set<nat>, a: nat)
    requires MovedAt(s1, s2, r, dirty, a) && s1.vnonces == map[] && s1.Agrees()
    ensures var run := Reinjected(s1, r.state, dirty, a);
      s2.P(a) == PutAll(s1.P(a), run) && s2.Vn(r.state, a) == r.state.Nonce(a) + |run|
  {
    var run := Reinjected(s1, r.state, dirty, a);
    ReinjectedRun(s1, r.state, dirty, a);
    if run != [] { assert Follows(run, r.state.Nonce(a), |run| - 1); }
  }

  /** And what the trims left of it. */
  lemma {:induction false} TrimmedPending(s1: Pools, s2: Pools, s2': Pools, r: Rules, dirty: set<nat>, k: nat, a: nat)
    requires MovedAt(s1, s2, r, dirty, a) && s1.vnonces == map[] && s1.Agrees() && TrimmedAt(s2, s2', r.state, k, a)
    ensures var p, run, sn := s1.P(a), Reinjected(s1, r.state, dirty, a), r.state.Nonce(a);
      s2'.P(a) == Kept(p, run, k) && s2'.Vn(r.state, a) == LeftNonce(p, run, sn, k)
  {
    MovedPending(s1, s2, r, dirty, a);
  }

  lemma {:induction false} Resettled(s1: Pools, s2: Pools, s2': Pools, s3: Pools, r: Rules, dirty: set<nat>,
                                     trims: multiset<nat>, a: nat)
    requires AllMoved(s1, s2, r, dirty) && s1.vnonces == map[] && s1.Agrees() && AllTrimmed(s2, s2', r.state, trims)
    requires AllDemoted(s2', s3, r.state, {}) && NoncesSet(s3.pending, s2'.vnonces, s3.vnonces, {})
    ensures ResettledAt(s1, s3, r.state, dirty, trims[a], a)
  {
    assert MovedAt(s1, s2, r, dirty, a) && TrimmedAt(s2, s2', r.state, trims[a], a);
    TrimmedPending(s1, s2, s2', r, dirty, trims[a], a);
    assert DemotedAt(s2', s3, r.state, {}, a);
    NonceIsSet(s3, s2'.vnonces, r.state, a);
  }

  lemma {:induction false} NonceIsSet(s: Pools, v: map<nat, nat>, state: State, a: nat)
    requires NoncesSet(s.pending, v, s.vnonces, {})
    ensures s.Vn(state, a) == if s.P(a) == [] then VirtualNonce(v, state, a) else s.P(a)[|s.P(a)| - 1].nonce + 1
  {
    assert NonceSet(s.pending, v, s.vnonces, {}, a);
  }

  lemma {:induction false} NonceTells(r: seq<Tx>, sn: nat, vn: nat)
    requires r != [] && vn == r[|r| - 1].nonce + 1
    ensures Contiguous(r, sn, vn) <==> Contiguous(r, sn, sn + |r|)
  {
    if Contiguous(r, sn, sn + |r|) { assert Follows(r, sn, |r| - 1); }
  }

  lemma {:induction false} ResettledEnds(s1: Pools, s3: Pools, state: State, dirty: set<nat>, k: nat, a: nat)
    requires ResettledAt(s1, s3, state, dirty, k, a)
    ensures s3.OrderedAt(state, a) <==>
      EndsInOrder(s1.P(a), Reinjected(s1, state, dirty, a), state.Nonce(a), k, Costly(state, a))
  {
    var r, sn := s3.P(a), state.Nonce(a);
    if r == [] {
      assert Contiguous(r, sn, s3.Vn(state, a)) <==> s3.Vn(state, a) == sn;
    } else {
      NonceTells(r, sn, s3.Vn(state, a));
    }
  }

  lemma {:induction false} MakesHole(r: seq<Tx>, all: set<Tx>, state: State, a: nat, n: nat)
    requires Skips(r, n) && n >= state.Nonce(a) && forall t :: t in all ==> UnpayableAt(state, a, n, t)
    ensures exists m: nat :: Hole(r, all, state, a, m)
  {
    assert Hole(r, all, state, a, n);
  }

  lemma {:induction false} UnpayableCell(s: Pools, state: State, a: nat, n: nat)
    requires s.Agrees() && !Pays(CellOf(s, a, n), state, a)
    ensures forall t :: t in s.all ==> UnpayableAt(state, a, n, t)
  {
    forall t | t in s.all ensures UnpayableAt(state, a, n, t) {
      if t.sender == a && t.nonce == n { KnownCell(s.pending, s.queue, s.all, t); }
    }
  }

  /** The nonce after the reinjected run is not executable. */
  lemma {:induction false} RunEnds(s0: Pools, v0: map<nat, nat>, state0: State, s: Pools, state: State, dirty: set<nat>,
                                   a: nat, n: nat)
    requires s.Agrees() && AllContiguous(s0.pending, v0, state0) && AllSameNonces(s0.pending, s.pending) && a in dirty
    requires n == state.Nonce(a) + |Reinjected(s, state, dirty, a)| && n < state0.Nonce(a)
    ensures forall t :: t in s.all ==> UnpayableAt(state, a, n, t)
  {
    NotPending(s0, v0, state0, s, a, n);
    ReinjectedLength(s, state, dirty, a);
    RunEndsUnpaid(s, state, a, |Reinjected(s, state, dirty, a)|);
    UnpayableCell(s, state, a, n);
  }

  lemma {:induction false} RunEndsUnpaid(s: Pools, state: State, a: nat, k: nat)
    requires s.Agrees() && k == ReadyLength(Executable(s.Q(a), state, a), state.Nonce(a))
    requires Find(s.P(a), state.Nonce(a) + k).None?
    ensures !Pays(CellOf(s, a, state.Nonce(a) + k), state, a)
  {
    ExecutableOrder(s, state, a);
    ReadyEnds(Executable(s.Q(a), state, a), state.Nonce(a));
    ExecutableCell(s, state, a, state.Nonce(a) + k);
  }

  /** An account that is not in order now never will be by promotion. */
  ghost predicate Stuck(s: Pools, state: State, a: nat) {
    Behind(s, state, a) || exists n: nat :: Hole(s.P(a), s.all, state, a, n)
  }

  /** An account that ends out of order is behind, or has a hole that no payable transaction fills. */
  lemma {:induction false} BrokenIsStuck(s0: Pools, v0: map<nat, nat>, state0: State, s1: Pools, s3: Pools,
                                         state: State, dirty: set<nat>, k: nat, a: nat)
    requires s1.Agrees() && AllContiguous(s0.pending, v0, state0) && AllSameNonces(s0.pending, s1.pending)
    requires ResettledAt(s1, s3, state, dirty, k, a) && s3.all <= s1.all
    requires EndsBroken(s1.P(a), Reinjected(s1, state, dirty, a), state0.Nonce(a), state.Nonce(a), k, Costly(state, a))
    ensures Stuck(s3, state, a)
  {
    var run, sn := Reinjected(s1, state, dirty, a), state.Nonce(a);
    if !Behind(s3, state, a) {
      RunEnds(s0, v0, state0, s1, state, dirty, a, sn + |run|);
      MakesHole(s3.P(a), s3.all, state, a, sn + |run|);
    }
  }

  /** Before the last promotion: in order if it is to stay so, and else stuck if the batch had room. */
  lemma {:induction false} SettledDecides(s0: Pools, v0: map<nat, nat>, state0: State, s2: Pools, s3: Pools, b: Batch,
                                          r: Rules, trims: multiset<nat>, room: bool, a: nat)
    requires s0.Agrees() && AllCurrent(s0.all, state0) && AllContiguous(s0.pending, v0, state0) && s0.vnonces == map[]
    requires BatchTo(s0, s2, b, r, trims, room) && r.state == b.state && s3.all <= s2.all
    requires AllDemoted(s2, s3, r.state, {}) && NoncesSet(s3.pending, s2.vnonces, s3.vnonces, {})
    ensures StaysInOrder(s0, state0, b, trims[a], room, a) ==> s3.OrderedAt(b.state, a)
    ensures room && !StaysInOrder(s0, state0, b, trims[a], room, a) ==> Stuck(s3, b.state, a)
  {
    var s1, m, dirty :|
      Stages(s0, s1, m, b, r, dirty, room) && AllTrimmed(m, s2, r.state, Trims(dirty, trims)) && s2.all <= m.all;
    var run, k, f := Reinjected(s1, b.state, dirty, a), Trims(dirty, trims)[a], Costly(b.state, a);
    Resettled(s1, m, s2, s3, r, dirty, Trims(dirty, trims), a);
    ResettledEnds(s1, s3, b.state, dirty, k, a);
    OldPending(s0, v0, state0, s1, a);
    ReinjectedRun(s1, b.state, dirty, a);
    TrimmedGap(s1.P(a), run, state0.Nonce(a), b.state.Nonce(a), k, f);
    OffersDecide(Offering(s0, v0, state0, s1, b, dirty, room), trims, a);
    if !Orderly(s1.P(a), run, state0.Nonce(a), b.state.Nonce(a), k, f) {
      BrokenIsStuck(s0, v0, state0, s1, s3, b.state, dirty, k, a);
    }
  }

  /** The last promotion of a reset neither breaks an account's order nor mends it. */
  lemma {:induction false} LastPromotion(s3: Pools, s4: Pools, r: Rules, done: set<nat>, a: nat)
    requires s3.Agrees() && AllMoved(s3, s4, r, done)
    ensures s3.OrderedAt(r.state, a) ==> s4.OrderedAt(r.state, a)
    ensures Stuck(s3, r.state, a) ==> !s4.OrderedAt(r.state, a)
  {
    if s3.OrderedAt(r.state, a) { MovedContiguous(s3, s4, r, done, a); }
    if Behind(s3, r.state, a) {
      BehindStays(s3, s4, r, done, a);
    } else if n: nat :| Hole(s3.P(a), s3.all, r.state, a, n) {
      HoleStays(s3, s4, r, done, a, n);
      HoleBreaks(s4.P(a), s3.all, r.state, a, n, s4.Vn(r.state, a));
    }
  }

  /** An account is in order after a reset if it stays so, and if the batch had room, only then. */
  ghost predicate DecidedAt(s0: Pools, state0: State, b: Batch, trims: multiset<nat>, room: bool, s': Pools, a: nat) {
    && (StaysInOrder(s0, state0, b, trims[a], room, a) ==> s'.OrderedAt(b.state, a))
    && (room && s'.OrderedAt(b.state, a) ==> StaysInOrder(s0, state0, b, trims[a], room, a))
  }

  lemma {:induction false} ResetDecides(s0: Pools, v0: map<nat, nat>, state0: State, s2: Pools, s3: Pools, s4: Pools,
                                        b: Batch, r: Rules, trims: multiset<nat>, room: bool)
    requires s0.Agrees() && AllCurrent(s0.all, state0) && AllContiguous(s0.pending, v0, state0) && s0.vnonces == map[]
    requires BatchTo(s0, s2, b, r, trims, room) && r.state == b.state && s3.all <= s2.all
    requires AllDemoted(s2, s3, r.state, {}) && NoncesSet(s3.pending, s2.vnonces, s3.vnonces, {})
    requires s3.Agrees() && AllMoved(s3, s4, r, s3.queue.Keys)
    ensures forall a: nat :: DecidedAt(s0, state0, b, trims, room, s4, a)
  {
    forall a: nat ensures DecidedAt(s0, state0, b, trims, room, s4, a) {
      SettledDecides(s0, v0, state0, s2, s3, b, r, trims, room, a);
      LastPromotion(s3, s4, r, s3.queue.Keys, a);
    }
  }

  /** The virtual nonces before a reset do not matter to it. */
  lemma {:induction false} NoncesDoNotMatter(s: Pools, v: map<nat, nat>, state0: State, b: Batch, k: nat, room: bool,
                                             a: nat)
    ensures StaysInOrder(s.(vnonces := v), state0, b, k, room, a) <==> StaysInOrder(s, state0, b, k, room, a)
  {
    var s' := s.(vnonces := v);
    forall c: nat, n: nat ensures FilledAt(s', b, c, n) <==> FilledAt(s, b, c, n) {
      assert CellOf(s', c, n) == CellOf(s, c, n);
    }
    forall c: nat ensures NewNonce(s', b, c) <==> NewNonce(s, b, c) {
      if n: nat :| CellOf(s', c, n).None? && FilledAt(s', b, c, n) {
        assert CellOf(s, c, n).None? && FilledAt(s, b, c, n);
      }
      if n: nat :| CellOf(s, c, n).None? && FilledAt(s, b, c, n) {
        assert CellOf(s', c, n).None? && FilledAt(s', b, c, n);
      }
    }
    forall lo: nat, hi: nat ensures FilledFrom(s', b, a, lo, hi) <==> FilledFrom(s, b, a, lo, hi) {}
  }

  lemma {:induction false} SameDecision(s: Pools, v: map<nat, nat>, state0: State, b: Batch, trims: multiset<nat>,
                                        room: bool, s': Pools)
    requires forall a: nat :: DecidedAt(s.(vnonces := v), state0, b, trims, room, s', a)
    ensures forall a: nat :: DecidedAt(s, state0, b, trims, room, s', a)
  {
    forall a: nat ensures DecidedAt(s, state0, b, trims, room, s', a) {
      assert DecidedAt(s.(vnonces := v), state0, b, trims, room, s', a);
      NoncesDoNotMatter(s, v, state0, b, trims[a], room, a);
    }
  }

  lemma {:induction false} NothingOffered(s: Pools, state: State, priceBump: nat)
    ensures !SomeNew(s, Batch([], state, priceBump))
  {
  }
}
