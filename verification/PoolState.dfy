/**
 All accounts of the transaction pool as values (core/tx_pool.go): executable and future
 transactions, the lookup of all of them and the virtual nonces, and what one account's
 change does to them.
 */
module PoolState {
  import opened Wrappers
  import opened SortedMap
  import opened TxList
  import opened PoolLists

  type Accounts = map<nat, seq<Tx>>

  /** What the pool reads of the chain state. */
  datatype State = State(nonces: map<nat, nat>, balances: map<nat, int>, maxGas: nat) {
    function Nonce(a: nat): nat { if a in nonces then nonces[a] else 0 }

    function Balance(a: nat): int { if a in balances then balances[a] else 0 }
  }

  function Of(m: Accounts, a: nat): seq<Tx> {
    if a in m then m[a] else []
  }

  ghost predicate SoundAt(pending: Accounts, queue: Accounts, all: set<Tx>, a: nat) {
    AccountSound(a, Of(pending, a), Of(queue, a), all)
  }

  /** The lookup is the disjoint union of both pools and no account has a nonce in both. */
  ghost predicate Sound(pending: Accounts, queue: Accounts, all: set<Tx>) {
    forall a: nat :: SoundAt(pending, queue, all, a)
  }

  predicate SameList(m: Accounts, m': Accounts, a: nat, b: nat) {
    b != a ==> Of(m', b) == Of(m, b)
  }

  ghost predicate SameElsewhere(m: Accounts, m': Accounts, a: nat) {
    forall b: nat :: SameList(m, m', a, b)
  }

  /** Only transactions of the account left or entered the lookup. */
  ghost predicate OnlyOf(all: set<Tx>, all': set<Tx>, a: nat) {
    forall t: Tx :: t.sender != a ==> (t in all <==> t in all')
  }

  lemma {:induction false} OneAccount(pending: Accounts, queue: Accounts, all: set<Tx>,
                                      pending': Accounts, queue': Accounts, all': set<Tx>, a: nat)
    requires Sound(pending, queue, all) && SoundAt(pending', queue', all', a)
    requires SameElsewhere(pending, pending', a) && SameElsewhere(queue, queue', a) && OnlyOf(all, all', a)
    ensures Sound(pending', queue', all')
  {
    forall b: nat ensures SoundAt(pending', queue', all', b) {
      assert SoundAt(pending, queue, all, b);
      if b != a {
        assert SameList(pending, pending', a, b) && SameList(queue, queue', a, b);
        var p, q := Of(pending, b), Of(queue, b);
        forall t ensures Known(b, p, q, all', t) { assert Known(b, p, q, all, t); }
      }
    }
  }

  function VirtualNonce(vnonces: map<nat, nat>, state: State, a: nat): nat {
    if a in vnonces then vnonces[a] else state.Nonce(a)
  }

  ghost predicate ContiguousAt(pending: Accounts, vnonces: map<nat, nat>, state: State, a: nat) {
    Contiguous(Of(pending, a), state.Nonce(a), VirtualNonce(vnonces, state, a))
  }

  /** Every account's pending nonces run from its state nonce up to its virtual nonce. */
  ghost predicate AllContiguous(pending: Accounts, vnonces: map<nat, nat>, state: State) {
    forall a: nat :: ContiguousAt(pending, vnonces, state, a)
  }

  lemma {:induction false} OneContiguous(pending: Accounts, vnonces: map<nat, nat>, state: State,
                                         pending': Accounts, vnonces': map<nat, nat>, a: nat)
    requires AllContiguous(pending, vnonces, state) && ContiguousAt(pending', vnonces', state, a)
    requires SameElsewhere(pending, pending', a) && vnonces' - {a} == vnonces - {a}
    ensures AllContiguous(pending', vnonces', state)
  {
    forall b: nat ensures ContiguousAt(pending', vnonces', state, b) {
      if b != a {
        assert SameList(pending, pending', a, b) && ContiguousAt(pending, vnonces, state, b);
        assert b in vnonces' - {a} <==> b in vnonces';
        assert b in vnonces - {a} <==> b in vnonces;
        assert b in vnonces ==> (vnonces - {a})[b] == vnonces[b];
        assert b in vnonces' ==> (vnonces' - {a})[b] == vnonces'[b];
      }
    }
  }

  predicate Admissible(t: Tx, state: State) {
    && t.gas <= state.maxGas
    && state.Nonce(t.sender) <= t.nonce
    && t.cost <= state.Balance(t.sender)
  }

  /** The transaction of an account that has the nonce: a pending one before a queued one. */
  function Cell(pending: Accounts, queue: Accounts, a: nat, n: nat): Option<Tx> {
    var p, q := Find(Of(pending, a), n), Find(Of(queue, a), n);
    if p.Some? then p else q
  }

  /** The transaction an addition would replace. */
  function Prior(pending: Accounts, queue: Accounts, t: Tx): Option<Tx> {
    Cell(pending, queue, t.sender, t.nonce)
  }

  predicate Wins(prior: Option<Tx>, t: Tx, priceBump: nat) {
    prior.Some? ==> Outbids(prior.value, t, priceBump)
  }

  lemma {:induction false} OneMore(all: set<Tx>, gone: set<Tx>, t: Tx)
    ensures |all - gone + {t}| <= |all| + 1
  {
    var rest := all - gone;
    SubsetSize(rest, all);
    if t !in rest { assert |rest + {t}| == |rest| + 1; } else { assert rest + {t} == rest; }
  }

  lemma {:induction false} SubsetSize(s: set<Tx>, t: set<Tx>)
    requires s <= t
    ensures |s| <= |t|
  {
    assert t == s + (t - s);
  }

  lemma {:induction false} ReplacedSound(pending: Accounts, queue: Accounts, all: set<Tx>, t: Tx)
    requires Sound(pending, queue, all) && t !in all && Find(Of(pending, t.sender), t.nonce).Some?
    ensures var a := t.sender; var p := Of(pending, a);
      Sound(pending[a := Placed(p, t)], queue, all - Gone(Find(p, t.nonce)) + {t})
  {
    var a := t.sender;
    var p := Of(pending, a);
    assert SoundAt(pending, queue, all, a);
    AddSound(a, p, Of(queue, a), all, t);
    var pending', all' := pending[a := Placed(p, t)], all - Gone(Find(p, t.nonce)) + {t};
    assert SameElsewhere(pending, pending', a) by { forall b: nat ensures SameList(pending, pending', a, b) {} }
    assert SameElsewhere(queue, queue, a) by { forall b: nat ensures SameList(queue, queue, a, b) {} }
    OneAccount(pending, queue, all, pending', queue, all', a);
  }

  lemma {:induction false} EnqueuedSound(pending: Accounts, queue: Accounts, all: set<Tx>, t: Tx)
    requires Sound(pending, queue, all) && t !in all && Find(Of(pending, t.sender), t.nonce).None?
    ensures var a := t.sender; var q := Of(queue, a);
      Sound(pending, queue[a := Placed(q, t)], all - Gone(Find(q, t.nonce)) + {t})
  {
    var a := t.sender;
    var q := Of(queue, a);
    assert SoundAt(pending, queue, all, a);
    AddSound(a, Of(pending, a), q, all, t);
    var queue', all' := queue[a := Placed(q, t)], all - Gone(Find(q, t.nonce)) + {t};
    assert SameElsewhere(queue, queue', a) by { forall b: nat ensures SameList(queue, queue', a, b) {} }
    assert SameElsewhere(pending, pending, a) by { forall b: nat ensures SameList(pending, pending, a, b) {} }
    OneAccount(pending, queue, all, pending, queue', all', a);
  }

  /** Only one account's queue changed, and the lookup lost what it lost. */
  lemma {:induction false} QueueStep(pending: Accounts, queue: Accounts, all: set<Tx>,
                                     queue': Accounts, all': set<Tx>, a: nat)
    requires Sound(pending, queue, all) && AccountSound(a, Of(pending, a), Of(queue', a), all')
    requires SameElsewhere(queue, queue', a) && OnlyOf(all, all', a)
    ensures Sound(pending, queue', all')
  {
    assert SameElsewhere(pending, pending, a) by { forall b: nat ensures SameList(pending, pending, a, b) {} }
    OneAccount(pending, queue, all, pending, queue', all', a);
  }

  /** The account's list set, or its entry deleted. */
  function With(m: Accounts, a: nat, s: seq<Tx>, keepEmpty: bool): (r: Accounts)
    ensures Of(r, a) == s
  {
    if s == [] && !keepEmpty then m - {a} else m[a := s]
  }

  /** No new entries, and none that is empty for the account. */
  ghost predicate Tidy(m: Accounts, m': Accounts, a: nat) {
    m'.Keys <= m.Keys + {a} && (a in m' ==> m'[a] != [])
  }

  lemma {:induction false} WithTidy(m: Accounts, a: nat, s: seq<Tx>)
    ensures Tidy(m, With(m, a, s, false), a)
  {
  }

  lemma {:induction false} WithElsewhere(m: Accounts, a: nat, s: seq<Tx>, keepEmpty: bool)
    ensures SameElsewhere(m, With(m, a, s, keepEmpty), a)
  {
    var r := With(m, a, s, keepEmpty);
    forall b: nat ensures SameList(m, r, a, b) {}
  }

  lemma {:induction false} SameTwice(m: Accounts, m': Accounts, m'': Accounts, a: nat)
    requires SameElsewhere(m, m', a) && SameElsewhere(m', m'', a)
    ensures SameElsewhere(m, m'', a)
  {
    forall b: nat ensures SameList(m, m'', a, b) { assert SameList(m, m', a, b) && SameList(m', m'', a, b); }
  }

  function Costly(state: State, a: nat): Tx -> bool {
    TooMuch(state.Balance(a), state.maxGas)
  }

  lemma {:induction false} PutElsewhere(m: Accounts, m': Accounts, a: nat, s: seq<Tx>)
    requires SameElsewhere(m, m', a)
    ensures SameElsewhere(m, m'[a := s], a)
  {
    var r := m'[a := s];
    forall b: nat ensures SameList(m, r, a, b) { assert SameList(m, m', a, b); }
  }

  lemma {:induction false} SameSelf(m: Accounts, a: nat)
    ensures SameElsewhere(m, m, a)
  {
    forall b: nat ensures SameList(m, m, a, b) {}
  }

  // ---- The pool as one value ------------------------------------------------------------------

  /** Executable and future transactions, the lookup of all of them, and the virtual nonces. */
  datatype Pools = Pools(pending: Accounts, queue: Accounts, all: set<Tx>, vnonces: map<nat, nat>) {
    function P(a: nat): seq<Tx> { Of(pending, a) }

    function Q(a: nat): seq<Tx> { Of(queue, a) }

    function Vn(state: State, a: nat): nat { VirtualNonce(vnonces, state, a) }

    ghost predicate Agrees() { Sound(pending, queue, all) }

    ghost predicate OrderedAt(state: State, a: nat) { ContiguousAt(pending, vnonces, state, a) }

    ghost predicate Ordered(state: State) { AllContiguous(pending, vnonces, state) }
  }

  /** What promotion goes by: the chain state, the local accounts and the account limit. */
  datatype Rules = Rules(state: State, locals: set<nat>, limit: nat)

  // ---- Adding -------------------------------------------------------------------------------

  /** Pending with the transaction, if its nonce is pending. */
  function AddedPending(pending: Accounts, t: Tx): Accounts {
    var p := Of(pending, t.sender);
    if Find(p, t.nonce).Some? then pending[t.sender := Placed(p, t)] else pending
  }

  /** The queue with the transaction, if its nonce is not pending. */
  function AddedQueue(pending: Accounts, queue: Accounts, t: Tx): Accounts {
    if Find(Of(pending, t.sender), t.nonce).Some? then queue
    else queue[t.sender := Placed(Of(queue, t.sender), t)]
  }

  lemma {:induction false} AddedSound(pending: Accounts, queue: Accounts, all: set<Tx>, t: Tx)
    requires Sound(pending, queue, all) && t !in all
    ensures Sound(AddedPending(pending, t), AddedQueue(pending, queue, t), all - Gone(Prior(pending, queue, t)) + {t})
  {
    if Find(Of(pending, t.sender), t.nonce).Some? {
      ReplacedSound(pending, queue, all, t);
    } else {
      EnqueuedSound(pending, queue, all, t);
    }
  }

  lemma {:induction false} FindIs(s: seq<Tx>, n: nat, u: Tx)
    requires Increasing(s)
    ensures Find(s, n) == Some(u) <==> u in s && u.nonce == n
  {
    FindNone(s, n);
    if u in s && u.nonce == n { NonceIsOne(s, u, Find(s, n).value); }
  }

  lemma {:induction false} FindSame(s: seq<Tx>, s': seq<Tx>, n: nat)
    requires Increasing(s) && Increasing(s') && forall u: Tx :: u.nonce == n ==> (u in s <==> u in s')
    ensures Find(s, n) == Find(s', n)
  {
    FindNone(s, n);
    if Find(s, n).Some? { FindIs(s', n, Find(s, n).value); } else { FindNone(s', n); }
  }

  lemma {:induction false} PlacedFind(s: seq<Tx>, t: Tx, n: nat)
    requires Increasing(s)
    ensures Find(Placed(s, t), n) == if n == t.nonce then Some(t) else Find(s, n)
  {
    PlacedIncreasing(s, t);
    forall u: Tx ensures u in Placed(s, t) <==> u == t || (u in s && u.nonce != t.nonce) { PlacedHas(s, t, u); }
    if n == t.nonce { FindIs(Placed(s, t), n, t); } else { FindSame(Placed(s, t), s, n); }
  }

  /** An addition fills the cell of its sender and nonce and no other. */
  lemma {:induction false} AddedCell(pending: Accounts, queue: Accounts, all: set<Tx>, t: Tx, a: nat, n: nat)
    requires Sound(pending, queue, all)
    ensures Cell(AddedPending(pending, t), AddedQueue(pending, queue, t), a, n) ==
      if a == t.sender && n == t.nonce then Some(t) else Cell(pending, queue, a, n)
  {
    assert SoundAt(pending, queue, all, t.sender);
    PlacedFind(Of(pending, t.sender), t, n);
    PlacedFind(Of(queue, t.sender), t, n);
  }

  /** A known transaction is what its cell holds. */
  lemma {:induction false} KnownCell(pending: Accounts, queue: Accounts, all: set<Tx>, t: Tx)
    requires Sound(pending, queue, all) && t in all
    ensures Cell(pending, queue, t.sender, t.nonce) == Some(t)
  {
    assert SoundAt(pending, queue, all, t.sender);
    FoundByNonce(t.sender, Of(pending, t.sender), Of(queue, t.sender), all, t);
  }

  ghost predicate SameNonces(p: seq<Tx>, p': seq<Tx>) {
    |p'| == |p| && forall i: nat :: i < |p| ==> p'[i].nonce == p[i].nonce
  }

  ghost predicate SameNoncesAt(pending: Accounts, pending': Accounts, a: nat) {
    SameNonces(Of(pending, a), Of(pending', a))
  }

  /** Every account's pending nonces are the same. */
  ghost predicate AllSameNonces(pending: Accounts, pending': Accounts) {
    forall a: nat :: SameNoncesAt(pending, pending', a)
  }

  lemma {:induction false} NoncesStart(pending: Accounts)
    ensures AllSameNonces(pending, pending)
  {
    forall a: nat ensures SameNoncesAt(pending, pending, a) {}
  }

  lemma {:induction false} AddedNonces(pending0: Accounts, pending: Accounts, t: Tx)
    requires AllSameNonces(pending0, pending)
    ensures AllSameNonces(pending0, AddedPending(pending, t))
  {
    var pending' := AddedPending(pending, t);
    forall a: nat ensures SameNoncesAt(pending0, pending', a) { assert SameNoncesAt(pending0, pending, a); }
  }

  lemma {:induction false} SameNoncesContiguous(p: seq<Tx>, p': seq<Tx>, sn: nat, vn: nat)
    requires SameNonces(p, p') && Contiguous(p, sn, vn)
    ensures Contiguous(p', sn, vn)
  {
    forall i: nat ensures Follows(p', sn, i) { assert Follows(p, sn, i); }
  }

  lemma {:induction false} SameNoncesInOrder(pending: Accounts, vnonces: map<nat, nat>, state: State,
                                             pending': Accounts)
    requires AllContiguous(pending, vnonces, state) && AllSameNonces(pending, pending')
    ensures AllContiguous(pending', vnonces, state)
  {
    forall a: nat ensures ContiguousAt(pending', vnonces, state, a) {
      assert ContiguousAt(pending, vnonces, state, a) && SameNoncesAt(pending, pending', a);
      SameNoncesContiguous(Of(pending, a), Of(pending', a), state.Nonce(a), VirtualNonce(vnonces, state, a));
    }
  }

  lemma {:induction false} AddedInOrder(pending: Accounts, vnonces: map<nat, nat>, state: State, t: Tx)
    requires AllContiguous(pending, vnonces, state)
    ensures AllContiguous(AddedPending(pending, t), vnonces, state)
  {
    NoncesStart(pending);
    AddedNonces(pending, pending, t);
    SameNoncesInOrder(pending, vnonces, state, AddedPending(pending, t));
  }

  // ---- Taking out ---------------------------------------------------------------------------

  /** Both lists of one account changed. */
  lemma {:induction false} BothStep(pending: Accounts, queue: Accounts, all: set<Tx>, a: nat,
                                    p: seq<Tx>, keepP: bool, q: seq<Tx>, keepQ: bool, all': set<Tx>)
    requires Sound(pending, queue, all) && AccountSound(a, p, q, all') && OnlyOf(all, all', a)
    ensures Sound(With(pending, a, p, keepP), With(queue, a, q, keepQ), all')
    ensures SameElsewhere(pending, With(pending, a, p, keepP), a) && SameElsewhere(queue, With(queue, a, q, keepQ), a)
  {
    WithElsewhere(pending, a, p, keepP);
    WithElsewhere(queue, a, q, keepQ);
    OneAccount(pending, queue, all, With(pending, a, p, keepP), With(queue, a, q, keepQ), all', a);
  }

  /** Pending up to the transaction's nonce. */
  function PendingBelow(pending: Accounts, t: Tx): Accounts {
    var p := Of(pending, t.sender);
    With(pending, t.sender, p[..Cut(p, t.nonce)], false)
  }

  /** The queue with what was pending above the transaction's nonce. */
  function QueueAbove(pending: Accounts, queue: Accounts, t: Tx): Accounts {
    var p := Of(pending, t.sender);
    var k := Cut(p, t.nonce);
    With(queue, t.sender, PutAll(Of(queue, t.sender), if k < |p| then p[k + 1..] else []), false)
  }

  lemma {:induction false} RemoveStep(pending: Accounts, queue: Accounts, all: set<Tx>, t: Tx)
    requires Sound(pending, queue, all) && t in all && Find(Of(pending, t.sender), t.nonce).Some?
    ensures var p, k := Of(pending, t.sender), Cut(Of(pending, t.sender), t.nonce); k < |p| && p[k] == t
    ensures Sound(PendingBelow(pending, t), QueueAbove(pending, queue, t), all - {t}) && |all - {t}| <= |all|
    ensures SameElsewhere(pending, PendingBelow(pending, t), t.sender)
    ensures SameElsewhere(queue, QueueAbove(pending, queue, t), t.sender)
  {
    var a := t.sender;
    var p, q, k := Of(pending, a), Of(queue, a), Cut(Of(pending, a), t.nonce);
    assert SoundAt(pending, queue, all, a);
    FoundByNonce(a, p, q, all, t);
    PendingLosesOne(a, p, q, all, k);
    BothStep(pending, queue, all, a, p[..k], false, PutAll(q, p[k + 1..]), false, all - {t});
    SubsetSize(all - {t}, all);
  }

  /** A virtual nonce above n set back to n. */
  function Lowered(vnonces: map<nat, nat>, state: State, a: nat, n: nat): map<nat, nat> {
    if VirtualNonce(vnonces, state, a) > n then vnonces[a := n] else vnonces
  }

  /** Pending cut off below nonce n. */
  lemma {:induction false} LoweredInOrder(pending: Accounts, vnonces: map<nat, nat>, state: State, a: nat, k: nat,
                                          pending': Accounts)
    requires AllContiguous(pending, vnonces, state) && k < |Of(pending, a)|
    requires Of(pending', a) == Of(pending, a)[..k] && SameElsewhere(pending, pending', a)
    ensures AllContiguous(pending', Lowered(vnonces, state, a, Of(pending, a)[k].nonce), state)
  {
    var p, sn, vn := Of(pending, a), state.Nonce(a), VirtualNonce(vnonces, state, a);
    assert ContiguousAt(pending, vnonces, state, a);
    assert Follows(p, sn, k);
    ContiguousFront(p, sn, vn, k);
    OneContiguous(pending, vnonces, state, pending', Lowered(vnonces, state, a, p[k].nonce), a);
  }

  lemma {:induction false} RemovedInOrder(pending: Accounts, vnonces: map<nat, nat>, state: State, t: Tx)
    requires AllContiguous(pending, vnonces, state)
    requires var p, k := Of(pending, t.sender), Cut(Of(pending, t.sender), t.nonce); k < |p| && p[k] == t
    ensures AllContiguous(PendingBelow(pending, t), Lowered(vnonces, state, t.sender, t.nonce), state)
  {
    var p := Of(pending, t.sender);
    var k := Cut(p, t.nonce);
    WithElsewhere(pending, t.sender, p[..k], false);
    LoweredInOrder(pending, vnonces, state, t.sender, k, PendingBelow(pending, t));
  }
}
