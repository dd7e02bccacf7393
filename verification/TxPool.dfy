/**
 The transaction pool (core/tx_pool.go): executable and future transactions of every
 account, the lookup of all of them, and the virtual nonces.
 */
module TxPool {
  import opened Wrappers
  import opened SortedMap
  import opened TxList
  import opened PoolLists
  import opened Reinjection
  import opened PoolState
  import opened PoolMoves
  import opened PoolCount
  import opened PoolOffers

  /** One event at the pool. */
  datatype Op =
    | Submit(t: Tx, local: bool, passes: bool)
    | SubmitMany(txs: Offers, local: bool)
    | Drop(t: Tx)
    | Expire(a: nat)
    | Finish(trims: seq<nat>)
    | Reset(next: State, reinject: Offers, trims: seq<nat>)

  /** No reset in the run reinjects a transaction. */
  predicate NoReinjection(ops: seq<Op>) {
    forall i :: 0 <= i < |ops| && ops[i].Reset? ==> ops[i].reinject == []
  }

  class Pool {
    const priceBump: nat
    const globalSlots: nat
    const globalQueue: nat
    const accountQueue: nat

    var state: State
    var pending: Accounts
    var queue: Accounts
    var all: set<Tx>
    var vnonces: map<nat, nat>
    var locals: set<nat>

    ghost predicate Valid() reads this {
      Sound(pending, queue, all) && |all| <= globalSlots + globalQueue
    }

    ghost predicate InOrder() reads this {
      AllContiguous(pending, vnonces, state)
    }

    /** No transaction is below its sender's state nonce. */
    ghost predicate Current() reads this {
      AllCurrent(all, state)
    }

    /** The pool as one value, and what promotion goes by. */
    ghost function Now(): Pools reads this {
      Pools(pending, queue, all, vnonces)
    }

    ghost function Terms(): Rules reads this {
      Rules(state, locals, accountQueue)
    }

    /** Whether so many more transactions fit. */
    predicate Room(n: nat) reads this {
      |all| + n <= globalSlots + globalQueue
    }

    constructor (priceBump: nat, globalSlots: nat, globalQueue: nat, accountQueue: nat, state: State)
      ensures Valid() && InOrder() && Current() && all == {} && this.state == state
      ensures pending == map[] && queue == map[]
      ensures vnonces == map[] && locals == {} && this.priceBump == priceBump && this.accountQueue == accountQueue
      ensures this.globalSlots == globalSlots && this.globalQueue == globalQueue
    {
      this.priceBump, this.globalSlots, this.globalQueue, this.accountQueue :=
        priceBump, globalSlots, globalQueue, accountQueue;
      this.state, pending, queue, all, vnonces, locals := state, map[], map[], {}, map[], {};
      new;
      forall a: nat ensures SoundAt(pending, queue, all, a) && ContiguousAt(pending, vnonces, this.state, a) {
        var p: seq<Tx> := [];
        forall i: nat, j: nat ensures Before(p, i, j) {}
        forall t ensures Known(a, p, p, all, t) {}
        forall i: nat ensures Follows(p, this.state.Nonce(a), i) {}
      }
    }

    /** A pending transaction with the same nonce is outbid. */
    method ReplacePending(t: Tx) returns (accepted: bool)
      requires Find(Of(pending, t.sender), t.nonce).Some?
      modifies `pending, `all
      ensures accepted == Wins(Prior(old(pending), queue, t), t, priceBump)
      ensures !accepted ==> pending == old(pending) && all == old(all)
      ensures accepted ==> pending == AddedPending(old(pending), t)
      ensures accepted ==> all == old(all) - Gone(Prior(old(pending), queue, t)) + {t}
    {
      var a := t.sender;
      var p := Of(pending, a);
      var prior := Find(p, t.nonce).value;
      if !Outbids(prior, t, priceBump) { return false; }
      pending, all := pending[a := Placed(p, t)], all - {prior} + {t};
      accepted := true;
    }

    /** The future queue takes a transaction, or keeps a better one of the same nonce. */
    method EnqueueTx(t: Tx) returns (accepted: bool, replaced: bool)
      requires Find(Of(pending, t.sender), t.nonce).None?
      modifies `queue, `all
      ensures replaced == (accepted && Prior(pending, old(queue), t).Some?)
      ensures accepted == Wins(Prior(pending, old(queue), t), t, priceBump)
      ensures !accepted ==> queue == old(queue) && all == old(all)
      ensures accepted ==> queue == AddedQueue(pending, old(queue), t)
      ensures accepted ==> all == old(all) - Gone(Prior(pending, old(queue), t)) + {t}
    {
      var a := t.sender;
      var q := Of(queue, a);
      var prior := Find(q, t.nonce);
      if prior.Some? && !Outbids(prior.value, t, priceBump) { return false, false; }
      queue, all := queue[a := Placed(q, t)], all - Gone(prior) + {t};
      accepted, replaced := true, prior.Some?;
    }

    /** Admission: known, invalid and underbidding transactions are refused and change nothing. */
    method Add(t: Tx, local: bool, passes: bool) returns (accepted: bool, replaced: bool)
      requires Valid()
      modifies `pending, `queue, `all, `locals
      ensures Valid() && (old(InOrder()) ==> InOrder())
      ensures accepted == (t !in old(all) && passes && Admissible(t, state) && old(Room(1)) &&
        Wins(Prior(old(pending), old(queue), t), t, priceBump))
      ensures !accepted ==> !replaced && pending == old(pending) && queue == old(queue)
      ensures !accepted ==> all == old(all) && locals == old(locals)
      ensures accepted ==> replaced == Prior(old(pending), old(queue), t).Some?
      ensures accepted ==> pending == AddedPending(old(pending), t) && queue == AddedQueue(old(pending), old(queue), t)
      ensures accepted ==> all == old(all) - Gone(Prior(old(pending), old(queue), t)) + {t} && |all| <= |old(all)| + 1
      ensures accepted && local && Find(Of(old(pending), t.sender), t.nonce).None? ==>
        locals == old(locals) + {t.sender}
      ensures !local || Find(Of(old(pending), t.sender), t.nonce).Some? ==> locals == old(locals)
    {
      accepted, replaced := false, false;
      if t in all || !passes || !Admissible(t, state) || |all| >= globalSlots + globalQueue { return; }
      AddedSound(pending, queue, all, t);
      OneMore(all, Gone(Prior(pending, queue, t)), t);
      if Find(Of(pending, t.sender), t.nonce).Some? {
        accepted := ReplacePending(t);
        replaced := accepted;
        if accepted && old(InOrder()) { AddedInOrder(old(pending), vnonces, state, t); }
      } else {
        accepted, replaced := EnqueueTx(t);
        if accepted && local { locals := locals + {t.sender}; }
      }
    }

    /** Puts a transaction in pending, unless a better one of the same nonce is there. */
    method PromoteTx(a: nat, t: Tx) returns (promoted: bool)
      modifies `pending, `all, `vnonces
      ensures promoted == Wins(Find(Of(old(pending), a), t.nonce), t, priceBump)
      ensures !promoted ==> pending == old(pending) && all == old(all) - {t} && vnonces == old(vnonces)
      ensures promoted ==> pending == old(pending)[a := Placed(Of(old(pending), a), t)]
      ensures promoted ==> all == old(all) - Gone(Find(Of(old(pending), a), t.nonce)) + {t}
      ensures promoted ==> vnonces == old(vnonces)[a := t.nonce + 1]
    {
      var prior := Find(Of(pending, a), t.nonce);
      if prior.Some? && !Outbids(prior.value, t, priceBump) {
        all := all - {t};
        return false;
      }
      pending := pending[a := Placed(Of(pending, a), t)];
      all := all - Gone(prior) + {t};
      vnonces := vnonces[a := t.nonce + 1];
      promoted := true;
    }

    /** Stale and unaffordable queued transactions are dropped. */
    method DropUnexecutable(a: nat)
      requires Sound(pending, queue, all) && a in queue
      modifies `queue, `all
      ensures Sound(pending, queue, all) && all <= old(all) && SameElsewhere(old(queue), queue, a)
      ensures Of(queue, a) == Executable(Of(old(queue), a), state, a) && a in queue
    {
      var q := queue[a];
      assert SoundAt(pending, queue, all, a);
      ExecutableSound(a, Of(pending, a), q, all, state);
      var k, f := Cut(q, state.Nonce(a)), Costly(state, a);
      all := all - Members(q[..k]);
      q := q[k..];
      all := all - set t | t in q && f(t);
      queue := With(queue, a, Unmatched(q, f), true);
      WithElsewhere(old(queue), a, Unmatched(q, f), true);
      QueueStep(pending, old(queue), old(all), queue, all, a);
    }

    /** Queued transactions over the limit are dropped, and an empty queue is deleted. */
    method LimitQueue(a: nat)
      requires Sound(pending, queue, all) && a in queue
      modifies `queue, `all
      ensures Sound(pending, queue, all) && all <= old(all) && SameElsewhere(old(queue), queue, a)
      ensures Of(queue, a) == Allowed(Of(old(queue), a), a in locals, accountQueue) && (a in queue ==> queue[a] != [])
    {
      var q := queue[a];
      assert SoundAt(pending, queue, all, a);
      if a !in locals && |q| > accountQueue {
        QueueDropsBack(a, Of(pending, a), q, all, accountQueue);
        all := all - Members(q[accountQueue..]);
        q := q[..accountQueue];
      }
      WithElsewhere(queue, a, q, false);
      queue := With(queue, a, q, false);
      QueueStep(pending, old(queue), old(all), queue, all, a);
    }

    /** The first queued transaction moves to pending. */
    method PromoteFirst(a: nat)
      requires Sound(pending, queue, all) && a in queue && queue[a] != []
      modifies `pending, `queue, `all, `vnonces
      ensures Sound(pending, queue, all) && all == old(all) && queue == old(queue)[a := old(queue[a])[1..]]
      ensures pending == old(pending)[a := Placed(Of(old(pending), a), old(queue[a])[0])]
      ensures vnonces == old(vnonces)[a := old(queue[a])[0].nonce + 1]
    {
      PromoteStep(pending, queue, all, a);
      var t := queue[a][0];
      queue := queue[a := queue[a][1..]];
      var promoted := PromoteTx(a, t);
      assert all == old(all);
    }

    /** The run of queued transactions from the virtual nonce moves to pending, one at a time. */
    method PromoteReady(a: nat)
      requires Sound(pending, queue, all) && a in queue
      modifies `pending, `queue, `all, `vnonces
      ensures Sound(pending, queue, all) && all == old(all) && a in queue
      ensures SameElsewhere(old(queue), queue, a) && SameElsewhere(old(pending), pending, a)
      ensures Of(pending, a) == PutAll(Of(old(pending), a), Due(Of(old(queue), a), old(vnonces), state, a))
      ensures Of(queue, a) == Late(Of(old(queue), a), old(vnonces), state, a)
      ensures vnonces == Advanced(old(vnonces), a, Due(Of(old(queue), a), old(vnonces), state, a))
    {
      var q := queue[a];
      var k := ReadyLength(q, VirtualNonce(vnonces, state, a));
      PromotingStarts(Now(), a);
      for i := 0 to k
        invariant Sound(pending, queue, all) && Promoting(old(Now()), Now(), a, q, i)
      {
        ghost var s := Now();
        PromotingStep(old(Now()), s, a, q, i);
        PromoteFirst(a);
        assert Now() == FirstMoved(s, a);
      }
      PromotingEnds(old(Now()), Now(), state, a);
    }

    /** One account: drop what cannot run, promote what can, limit the rest. */
    method PromoteExecutable(a: nat)
      requires Valid() && a in queue
      modifies `pending, `queue, `all, `vnonces
      ensures Valid() && all <= old(all)
      ensures PromotedTo(old(Now()), Now(), Terms(), a)
    {
      DropUnexecutable(a);
      ghost var q1 := queue;
      PromoteReady(a);
      SameTwice(old(queue), q1, queue, a);
      ghost var q2 := queue;
      LimitQueue(a);
      SameTwice(old(queue), q2, queue, a);
      SubsetSize(all, old(all));
    }

    /** A pending transaction goes; those above it return to the queue. */
    method RemovePending(t: Tx)
      requires Valid() && t in all && Find(Of(pending, t.sender), t.nonce).Some?
      modifies `pending, `queue, `all, `vnonces
      ensures Valid() && all == old(all) - {t} && (old(InOrder()) ==> InOrder())
      ensures pending == PendingBelow(old(pending), t) && queue == QueueAbove(old(pending), old(queue), t)
      ensures vnonces == Lowered(old(vnonces), state, t.sender, t.nonce)
    {
      RemoveStep(pending, queue, all, t);
      if InOrder() { RemovedInOrder(pending, vnonces, state, t); }
      queue := QueueAbove(pending, queue, t);
      pending, all := PendingBelow(pending, t), all - {t};
      vnonces := Lowered(vnonces, state, t.sender, t.nonce);
    }

    /** Takes out a known transaction, from pending or else from the queue. */
    method RemoveTx(t: Tx)
      requires Valid() && t in all
      modifies `pending, `queue, `all, `vnonces
      ensures Valid() && all == old(all) - {t} && (old(InOrder()) ==> InOrder())
      ensures SameElsewhere(old(queue), queue, t.sender) && SameElsewhere(old(pending), pending, t.sender)
      ensures t in Of(old(pending), t.sender) ==>
        PendingLost(Of(old(pending), t.sender), t, Of(pending, t.sender), Of(old(queue), t.sender), Of(queue, t.sender))
      ensures t in Of(old(pending), t.sender) ==> vnonces == Lowered(old(vnonces), state, t.sender, t.nonce)
      ensures t !in Of(old(pending), t.sender) ==> pending == old(pending) && vnonces == old(vnonces)
      ensures t !in Of(old(pending), t.sender) ==> QueueLost(Of(old(queue), t.sender), t, Of(queue, t.sender))
    {
      var a := t.sender;
      var p, q := Of(pending, a), Of(queue, a);
      assert SoundAt(pending, queue, all, a);
      FoundByNonce(a, p, q, all, t);
      if Find(p, t.nonce).Some? {
        RemoveStep(pending, queue, all, t);
        RemovePending(t);
      } else {
        var k := Cut(q, t.nonce);
        QueueDropsOne(a, p, q, all, k);
        SameSelf(pending, a);
        WithElsewhere(queue, a, q[..k] + q[k + 1..], false);
        queue, all := With(queue, a, q[..k] + q[k + 1..], false), all - {t};
        QueueStep(pending, old(queue), old(all), queue, all, a);
        SubsetSize(all, old(all));
      }
    }

    /** Drops the highest pending transaction of an account. */
    method TrimPending(a: nat)
      requires Valid() && Of(pending, a) != []
      modifies `pending, `all, `vnonces
      ensures Valid() && (old(InOrder()) ==> InOrder()) && SameElsewhere(old(pending), pending, a)
      ensures var p := Of(old(pending), a); var k := |p| - 1;
        && Of(pending, a) == p[..k] && all == old(all) - {p[k]}
        && vnonces == Lowered(old(vnonces), state, a, p[k].nonce)
    {
      var p := Of(pending, a);
      var k := |p| - 1;
      assert SoundAt(pending, queue, all, a);
      PendingDropsBack(a, p, Of(queue, a), all, k);
      assert p[k..] == [p[k]] && Members(p[k..]) == {p[k]};
      SameSelf(pending, a);
      SameSelf(queue, a);
      PutElsewhere(pending, pending, a, p[..k]);
      pending, all := pending[a := p[..k]], all - {p[k]};
      OneAccount(old(pending), queue, old(all), pending, queue, all, a);
      if old(InOrder()) { LoweredInOrder(old(pending), vnonces, state, a, k, pending); }
      vnonces := Lowered(vnonces, state, a, p[k].nonce);
      SubsetSize(all, old(all));
    }

    /** An inactive account's queue goes. */
    method Evict(a: nat)
      requires Valid() && a in queue && a !in locals
      modifies `queue, `all
      ensures Valid() && queue == old(queue) - {a} && all == old(all) - Members(Of(old(queue), a))
    {
      var q := queue[a];
      assert SoundAt(pending, queue, all, a);
      QueueDropsBack(a, Of(pending, a), q, all, 0);
      assert q[0..] == q && q[..0] == [];
      WithElsewhere(queue, a, [], false);
      queue, all := With(queue, a, [], false), all - Members(q);
      QueueStep(pending, old(queue), old(all), queue, all, a);
      SubsetSize(all, old(all));
    }

    /** One account's pending list against the new state. */
    method Demote(a: nat)
      requires Valid()
      modifies `pending, `queue, `all
      ensures Valid() && DemotedTo(old(Now()), Now(), state, a)
      ensures all == old(all) - Refused(Of(old(pending), a), state.Nonce(a), Costly(state, a))
    {
      var p, q, gone := DemoteLists(Of(pending, a), Of(queue, a), state.Nonce(a), Costly(state, a));
      DemoteStep(pending, queue, all, state, a, p, q, gone);
      pending, queue, all := With(pending, a, p, false), With(queue, a, q, false), all - gone;
    }

    method DemoteUnexecutables()
      requires Valid()
      modifies `pending, `queue, `all
      ensures Valid() && NoneEmpty(pending) && all <= old(all) && AllDemoted(old(Now()), Now(), state, {})
    {
      var todo := pending.Keys;
      DemotionStarts(Now(), state);
      while todo != {}
        invariant Valid() && all <= old(all) && AllDemoted(old(Now()), Now(), state, todo)
        decreases todo
      {
        var a :| a in todo;
        ghost var s := Now();
        Demote(a);
        DemotionMoves(old(Now()), s, Now(), state, todo, a);
        todo := todo - {a};
      }
      forall b | b in pending ensures pending[b] != [] { assert DemotedAt(old(Now()), Now(), state, {}, b); }
    }

    /** Every account with pending transactions continues after its last one. */
    method SetNonces()
      requires NoneEmpty(pending)
      modifies `vnonces
      ensures NoncesSet(pending, old(vnonces), vnonces, {})
    {
      var todo := pending.Keys;
      assert NoncesSet(pending, vnonces, vnonces, todo) by {
        forall b: nat ensures NonceSet(pending, vnonces, vnonces, todo, b) {}
      }
      while todo != {}
        invariant todo <= pending.Keys && NoncesSet(pending, old(vnonces), vnonces, todo)
        decreases todo
      {
        var a :| a in todo;
        ghost var before, rest := vnonces, todo - {a};
        vnonces := vnonces[a := pending[a][|pending[a]| - 1].nonce + 1];
        forall b: nat ensures NonceSet(pending, old(vnonces), vnonces, rest, b) {
          assert NonceSet(pending, old(vnonces), before, todo, b);
        }
        todo := todo - {a};
      }
    }

    /** The accounts are promoted one after the other, and the others are left alone. */
    method PromoteAccounts(accounts: set<nat>)
      requires Valid()
      modifies `pending, `queue, `all, `vnonces
      ensures Valid() && all <= old(all) && (old(InOrder()) ==> InOrder())
      ensures AllMoved(old(Now()), Now(), Terms(), accounts)
      ensures forall a :: a in accounts ==> QuietAt(Now(), Terms(), a)
    {
      var todo := accounts;
      ghost var done: set<nat> := {};
      MovesStart(Now(), Terms());
      while todo != {}
        invariant Valid() && all <= old(all) && done !! todo && done + todo == accounts
        invariant AllMoved(old(Now()), Now(), Terms(), done)
        decreases todo
      {
        var a :| a in todo;
        ghost var s := Now();
        if a in queue {
          PromoteExecutable(a);
          MovesOn(old(Now()), s, Now(), Terms(), done, a);
        } else {
          NothingToMove(old(Now()), s, Terms(), done, a);
        }
        todo, done := todo - {a}, done + {a};
      }
      if old(InOrder()) { MovedInOrder(old(Now()), Now(), Terms(), accounts); }
      forall a | a in accounts ensures QuietAt(Now(), Terms(), a) {
        MovedQuiet(old(Now()), Now(), Terms(), accounts, a);
      }
    }

    /** Every account with queued transactions is promoted. */
    method PromoteAll()
      requires Valid()
      modifies `pending, `queue, `all, `vnonces
      ensures Valid() && all <= old(all) && (old(InOrder()) ==> InOrder())
      ensures AllMoved(old(Now()), Now(), Terms(), old(queue).Keys) && AllQuiet(Now(), Terms())
    {
      PromoteAccounts(queue.Keys);
      MovedAllQuiet(old(Now()), Now(), Terms());
    }

    /** The queued transactions over the global limit go, from accounts that are not local. */
    method LimitQueues()
      requires Valid()
      modifies `queue, `all
      ensures Valid() && all <= old(all)
      ensures Total(queue) <= globalQueue || queue.Keys <= locals
      ensures Shrunk(old(queue), queue, locals)
    {
      ShrunkSelf(queue, locals);
      var queued := Count(queue);
      if queued <= globalQueue { return; }
      var drop, addresses := queued - globalQueue, queue.Keys - locals;
      while drop > 0 && addresses != {}
        invariant Valid() && all <= old(all) && Total(queue) == globalQueue + drop
        invariant drop > 0 ==> addresses == queue.Keys - locals
        invariant Shrunk(old(queue), queue, locals)
        decreases drop, addresses
      {
        var a :| a in addresses;
        ghost var before := queue;
        addresses := addresses - {a};
        drop := DropSome(a, drop);
        ShrunkTwice(old(queue), before, queue, locals);
      }
      if drop > 0 {
        forall a | a in queue ensures a in locals { assert a !in queue.Keys - locals; }
      }
    }

    /** An account's queued transactions go, or as many of the last as are too many. */
    method DropSome(a: nat, drop: nat) returns (left: nat)
      requires Valid() && a in queue && a !in locals
      modifies `queue, `all
      ensures Valid() && all <= old(all) && Shrunk(old(queue), queue, locals)
      ensures Total(queue) + drop == Total(old(queue)) + left && left <= drop
      ensures left > 0 ==> queue == old(queue) - {a}
    {
      var size := |queue[a]|;
      TotalAt(queue, a);
      ShrunkSelf(queue, locals);
      if size <= drop {
        ShrunkMore(queue, queue, locals, a, 0);
        Evict(a);
        left := drop - size;
      } else {
        ShrunkMore(queue, queue, locals, a, size - drop);
        DropLast(a, drop);
        left := 0;
      }
    }

    /** The last n queued transactions of an account go. */
    method DropLast(a: nat, n: nat)
      requires Valid() && a in queue && n <= |queue[a]|
      modifies `queue, `all
      ensures Valid() && queue == old(queue)[a := old(queue[a])[..|old(queue[a])| - n]]
      ensures all == old(all) - Members(old(queue[a])[|old(queue[a])| - n..])
      ensures Total(queue) == Total(old(queue)) - n
    {
      var q := queue[a];
      var k := |q| - n;
      assert SoundAt(pending, queue, all, a);
      QueueDropsBack(a, Of(pending, a), q, all, k);
      SameSelf(queue, a);
      PutElsewhere(queue, queue, a, q[..k]);
      TotalPut(queue, a, q[..k]);
      queue, all := queue[a := q[..k]], all - Members(q[k..]);
      QueueStep(pending, old(queue), old(all), queue, all, a);
      SubsetSize(all, old(all));
    }

    /** Adding one transaction and promoting its account unless it replaced another. */
    method AddTx(t: Tx, local: bool, passes: bool) returns (accepted: bool)
      requires Valid()
      modifies `pending, `queue, `all, `locals, `vnonces
      ensures Valid() && (old(InOrder()) ==> InOrder()) && Grown(old(all), all, state) && all <= old(all) + {t}
      ensures accepted == (t !in old(all) && passes && Admissible(t, state) && old(Room(1)) &&
        Wins(Prior(old(pending), old(queue), t), t, priceBump))
      ensures !accepted ==> pending == old(pending) && queue == old(queue) && all == old(all) && vnonces == old(vnonces)
      ensures accepted && Prior(old(pending), old(queue), t).Some? ==> Now() == Added(old(Now()), t)
      ensures accepted && Prior(old(pending), old(queue), t).None? ==>
        AllMoved(Added(old(Now()), t), Now(), Terms(), {t.sender}) && QuietAt(Now(), Terms(), t.sender)
    {
      var replaced;
      accepted, replaced := Add(t, local, passes);
      assert accepted ==> Now() == Added(old(Now()), t);
      if accepted && !replaced { PromoteAccounts({t.sender}); }
    }

    /** A batch is offered one by one; the accounts that got a new nonce are dirty. */
    method AddAll(txs: Offers, local: bool) returns (dirty: set<nat>)
      requires Valid()
      modifies `pending, `queue, `all, `locals
      ensures Valid() && Grown(old(all), all, state) && AllSameNonces(old(pending), pending)
      ensures AllCells(old(Now()), Now(), Batch(txs, state, priceBump), |txs|, dirty, old(Room(|txs|)))
      ensures txs == [] ==> dirty == {} && pending == old(pending) && queue == old(queue) && all == old(all)
    {
      dirty := {};
      CellsStart(Now(), Batch(txs, state, priceBump), Room(|txs|));
      NoncesStart(pending);
      for i := 0 to |txs|
        invariant Valid() && Grown(old(all), all, state) && AllSameNonces(old(pending), pending)
        invariant |all| <= |old(all)| + i
        invariant AllCells(old(Now()), Now(), Batch(txs, state, priceBump), i, dirty, old(Room(|txs|)))
        invariant i == 0 ==> dirty == {} && pending == old(pending) && queue == old(queue) && all == old(all)
      {
        dirty := AddNext(txs, i, local, dirty, old(Now()), old(Room(|txs|)));
      }
    }

    /** One transaction of a batch. */
    method AddNext(txs: Offers, i: nat, local: bool, dirty: set<nat>, ghost s0: Pools, ghost room: bool)
      returns (dirty': set<nat>)
      requires Valid() && i < |txs| && AllSameNonces(s0.pending, pending) && (room ==> Room(1))
      requires AllCells(s0, Now(), Batch(txs, state, priceBump), i, dirty, room)
      modifies `pending, `queue, `all, `locals
      ensures Valid() && Grown(old(all), all, state) && AllSameNonces(s0.pending, pending) && |all| <= |old(all)| + 1
      ensures AllCells(s0, Now(), Batch(txs, state, priceBump), i + 1, dirty', room)
    {
      dirty' := dirty;
      ghost var b := Batch(txs, state, priceBump);
      var accepted, replaced := Add(txs[i].0, local, txs[i].1);
      if accepted && !replaced { dirty' := dirty + {txs[i].0.sender}; }
      if accepted {
        AddedNonces(s0.pending, old(pending), txs[i].0);
        CellsTake(s0, old(Now()), b, i, dirty, dirty', room);
        assert Now() == Added(old(Now()), txs[i].0);
      } else {
        CellsRefuse(s0, Now(), b, i, dirty, room);
      }
    }

    /** A batch is added and then the dirty accounts promoted. */
    method AddTxs(txs: Offers, local: bool) returns (dirty: set<nat>, ghost s1: Pools)
      requires Valid()
      modifies `pending, `queue, `all, `locals, `vnonces
      ensures Valid() && (old(InOrder()) ==> InOrder()) && Grown(old(all), all, state)
      ensures forall a :: a in dirty ==> QuietAt(Now(), Terms(), a)
      ensures Stages(old(Now()), s1, Now(), Batch(txs, state, priceBump), Terms(), dirty, old(Room(|txs|)))
      ensures txs == [] ==> dirty == {} && Now() == old(Now())
    {
      dirty := AddAll(txs, local);
      s1 := Now();
      if old(InOrder()) { SameNoncesInOrder(old(pending), vnonces, state, pending); }
      if dirty == {} {
        MovesStart(Now(), Terms());
      } else {
        PromoteAccounts(dirty);
      }
    }

    /** Trims of pending lists, whichever are chosen, and then the queue limit. */
    method FinishPromotion(trims: seq<nat>)
      requires Valid()
      modifies `pending, `queue, `all, `vnonces
      ensures Valid() && all <= old(all) && (old(InOrder()) ==> InOrder())
      ensures AllTrimmed(old(Now()), Now(), state, multiset(trims))
      ensures Total(queue) <= globalQueue || queue.Keys <= locals
    {
      TrimsStart(Now(), state);
      for i := 0 to |trims|
        invariant Valid() && all <= old(all) && (old(InOrder()) ==> InOrder())
        invariant AllTrimmed(old(Now()), Now(), state, multiset(trims[..i]))
      {
        ghost var s := Now();
        if Of(pending, trims[i]) != [] { TrimPending(trims[i]); }
        TrimsOn(old(Now()), s, Now(), state, multiset(trims[..i]), trims[i]);
        assert trims[..i + 1] == trims[..i] + [trims[i]];
      }
      assert trims[..|trims|] == trims;
      ghost var s := Now();
      LimitQueues();
      SameTrims(old(Now()), s, Now(), state, multiset(trims));
    }

    /** Transactions of abandoned blocks are offered again. */
    method Reinject(txs: Offers, trims: seq<nat>)
      requires Valid()
      modifies `pending, `queue, `all, `locals, `vnonces
      ensures Valid()
      ensures BatchTo(old(Now()), Now(), Batch(txs, state, priceBump), Terms(), multiset(trims), old(Room(|txs|)))
      ensures txs == [] ==> Now() == old(Now())
    {
      var dirty;
      ghost var s1;
      dirty, s1 := AddTxs(txs, false);
      ghost var s2 := Now();
      if dirty == {} {
        TrimsStart(s2, state);
      } else {
        FinishPromotion(trims);
      }
      assert AllTrimmed(s2, Now(), state, Trims(dirty, multiset(trims)));
    }

    /**
     A new head: the pool follows its state.  An account that was in order is in order again if
     StaysInOrder, whatever is trimmed; if the reinjected fit, exactly then.
     */
    method ResetTo(next: State, reinject: Offers, trims: seq<nat>)
      requires Valid()
      modifies this
      ensures Valid() && Current() && state == next
      ensures old(InOrder()) && reinject == [] ==> InOrder()
      ensures old(InOrder()) && old(Current()) ==> forall a: nat ::
        DecidedAt(old(Now()), old(state), Batch(reinject, next, priceBump), multiset(trims), old(Room(|reinject|)),
                  Now(), a)
      ensures AllQuiet(Now(), Terms())
    {
      state, vnonces := next, map[];
      ghost var s0, room := Now(), Room(|reinject|);
      Reinject(reinject, trims);
      ghost var s2 := Now();
      DemoteUnexecutables();
      ghost var d := Now();
      SetNonces();
      ghost var s3 := Now();
      DemotedStill(s2, d, s3, next);
      DemotedCurrent(s2, s3, next);
      if old(InOrder()) && reinject == [] { SettledInOrder(old(Now()), old(state), s2, s3, next); }
      PromoteAll();
      MovedCurrent(s3, Now(), Terms());
      if old(InOrder()) && old(Current()) {
        ghost var b := Batch(reinject, next, priceBump);
        ResetDecides(s0, old(vnonces), old(state), s2, s3, Now(), b, Terms(), multiset(trims), room);
        SameDecision(old(Now()), map[], old(state), b, multiset(trims), room, Now());
      }
    }

    /** A reset after which some account may be out of order. */
    ghost predicate MayBreak(op: Op) reads this {
      op.Reset? && exists a: nat :: !StaysInOrder(Now(), state, Batch(op.reinject, op.next, priceBump),
                                                  multiset(op.trims)[a], Room(|op.reinject|), a)
    }

    /** One that reinjects nothing leaves every account in order. */
    lemma NoneBreaks(op: Op)
      requires NoReinjection([op])
      ensures !MayBreak(op)
    {
      assert [op][0] == op;
      if op.Reset? { NothingOffered(Now(), op.next, priceBump); }
    }

    method Step(op: Op)
      requires Valid()
      modifies this
      ensures Valid() && (old(Current()) ==> Current())
      ensures old(InOrder()) && NoReinjection([op]) ==> InOrder()
      ensures old(InOrder()) && old(Current()) && !old(MayBreak(op)) ==> InOrder()
      ensures op.Reset? && old(InOrder()) && old(Current()) && old(Room(|op.reinject|)) ==>
        (InOrder() <==> !old(MayBreak(op)))
    {
      match op {
        case Submit(t, local, passes) =>
          var accepted := AddTx(t, local, passes);
          if old(Current()) { GrownCurrent(old(all), all, state); }
        case SubmitMany(txs, local) =>
          var dirty;
          ghost var s1;
          dirty, s1 := AddTxs(txs, local);
          if old(Current()) { GrownCurrent(old(all), all, state); }
        case Drop(t) => if t in all { RemoveTx(t); }
        case Expire(a) => if a in queue && a !in locals { Evict(a); }
        case Finish(trims) => FinishPromotion(trims);
        case Reset(next, reinject, trims) =>
          assert [op][0] == op;
          ResetTo(next, reinject, trims);
          if old(InOrder()) && old(Current()) {
            AllDecided(old(Now()), old(state), Batch(reinject, next, priceBump), multiset(trims),
                       old(Room(|reinject|)), Now());
          }
      }
    }

    /**
     Every run keeps the pool valid.  Pending nonces stay contiguous unless one of its resets may
     break that, which none does that reinjects nothing.
     */
    method Run(ops: seq<Op>) returns (ghost broken: bool)
      requires Valid()
      modifies this
      ensures Valid() && |all| == Total(pending) + Total(queue) && (old(Current()) ==> Current())
      ensures old(InOrder()) && NoReinjection(ops) ==> InOrder()
      ensures old(InOrder()) && old(Current()) && !broken ==> InOrder()
      ensures NoReinjection(ops) ==> !broken
    {
      broken := false;
      for i := 0 to |ops|
        invariant Valid() && (old(Current()) ==> Current())
        invariant old(InOrder()) && NoReinjection(ops) ==> InOrder()
        invariant old(InOrder()) && old(Current()) && !broken ==> InOrder()
        invariant NoReinjection(ops) ==> !broken
      {
        assert NoReinjection(ops) ==> NoReinjection([ops[i]]);
        if NoReinjection([ops[i]]) { NoneBreaks(ops[i]); }
        broken := broken || MayBreak(ops[i]);
        Step(ops[i]);
      }
      SizeIsTotal(pending, queue, all);
    }
  }

  /** All accounts are in order after a reset if all stay so, and if the batch had room, only then. */
  lemma {:induction false} AllDecided(s: Pools, state0: State, b: Batch, trims: multiset<nat>, room: bool,
                                      s': Pools)
    requires forall a: nat :: DecidedAt(s, state0, b, trims, room, s', a)
    ensures (forall a: nat :: StaysInOrder(s, state0, b, trims[a], room, a)) ==> s'.Ordered(b.state)
    ensures room && s'.Ordered(b.state) ==> forall a: nat :: StaysInOrder(s, state0, b, trims[a], room, a)
  {
    if forall a: nat :: StaysInOrder(s, state0, b, trims[a], room, a) {
      forall a: nat ensures ContiguousAt(s'.pending, s'.vnonces, b.state, a) {
        assert DecidedAt(s, state0, b, trims, room, s', a) && StaysInOrder(s, state0, b, trims[a], room, a);
      }
    }
    if room && s'.Ordered(b.state) {
      forall a: nat ensures StaysInOrder(s, state0, b, trims[a], room, a) {
        assert DecidedAt(s, state0, b, trims, room, s', a) && ContiguousAt(s'.pending, s'.vnonces, b.state, a);
      }
    }
  }

  // ---- Resets that leave an account out of order ----------------------------------------------

  lemma {:induction false} LoneTx(vnonces: map<nat, nat>, state: State, t: Tx)
    requires Admissible(t, state) && t.nonce == VirtualNonce(vnonces, state, t.sender)
    ensures var e := Executable(Placed([], t), state, t.sender);
      e == [t] && Due(e, vnonces, state, t.sender) == [t] && Late(e, vnonces, state, t.sender) == []
  {
    var q := [t];
    assert Placed([], t) == q && Cut(q, state.Nonce(t.sender)) == 0 && q[0..] == q;
    assert Unmatched(q[..0], Costly(state, t.sender)) == [];
    assert Unmatched(q, Costly(state, t.sender)) == q;
    assert q[..1] == q;
  }

  /** A transaction with the next nonce of an account without a queue is appended to its pending list. */
  lemma {:induction false} NextPromoted(s: Pools, s': Pools, r: Rules, t: Tx)
    requires var a := t.sender; s.OrderedAt(r.state, a) && s.Q(a) == [] && t.nonce == s.Vn(r.state, a)
    requires Admissible(t, r.state) && AllMoved(Added(s, t), s', r, {t.sender})
    ensures s'.P(t.sender) == s.P(t.sender) + [t] && s'.Q(t.sender) == []
  {
    var a, p, sn := t.sender, s.P(t.sender), r.state.Nonce(t.sender);
    ContiguousIncreasing(p, sn, t.nonce);
    forall u | u in p ensures u.nonce != t.nonce {
      var i: nat :| i < |p| && p[i] == u;
      assert Follows(p, sn, i);
    }
    FindNone(p, t.nonce);
    assert MovedAt(Added(s, t), s', r, {a}, a);
    LoneTx(s.vnonces, r.state, t);
    ContiguousGrows(p, sn, t.nonce, t);
    assert [t][..0] == [] && PutAll(p, [t]) == Placed(PutAll(p, []), t);
  }

  /** A transfer of nothing at price 2, which a balance for price 1 does not cover. */
  const REFUSED := Tx(4, 0, 4, 2, 42000, 21000)

  /** What the reset of the first example fills: the nonces 3 and 5, and not 4. */
  lemma {:induction false} ExampleGap(s: Pools, state0: State, b: Batch)
    requires s.Agrees() && AllCurrent(s.all, state0) && s.P(0) == [Sample(5)] && state0.Nonce(0) == 5
    requires b.state.Nonce(0) == 3 && b.state.Balance(0) == 21000 && b.state.maxGas == 21000
    requires b.txs == [(Sample(3), true), (REFUSED, true)]
    ensures GapAt(s, state0, b, 0)
  {
    NoneBelow(s, state0, 0, 3);
    NoneBelow(s, state0, 0, 4);
    assert OfferAt(b, 0, 0, 3, None);
    assert CellOf(s, 0, 5) == Some(Sample(5));
    assert !FilledAt(s, b, 0, 4) by {
      forall j: nat | j < 2 ensures !OfferAt(b, j, 0, 4, None) {}
    }
  }

  /** Nonce 5 pending, the state back at 3, and 3 reinjected but 4 unaffordable: the pool ends out of order. */
  method FailingReset(priceBump: nat) returns (pool: Pool)
    ensures fresh(pool) && pool.Valid() && pool.Current() && !pool.InOrder()
  {
    var t, before := Sample(5), State(map[0 := 5], map[0 := 21000], 21000);
    var after := State(map[0 := 3], map[0 := 21000], 21000);
    pool := new Pool(priceBump, 4, 4, 4, before);
    Append(pool, t);
    var txs := [(Sample(3), true), (REFUSED, true)];
    ghost var s, b := pool.Now(), Batch(txs, after, priceBump);
    assert s.P(0) == [t];
    ExampleGap(s, before, b);
    GapWithoutTrims(s, before, b, 0);
    assert pool.Room(|txs|);
    pool.ResetTo(after, txs, []);
    assert DecidedAt(s, before, b, multiset([]), true, pool.Now(), 0);
    assert !ContiguousAt(pool.pending, pool.vnonces, pool.state, 0);
  }

  /** The next transaction of an account is submitted, and becomes pending. */
  method Append(pool: Pool, t: Tx)
    requires pool.Valid() && pool.InOrder() && pool.Current() && pool.Room(1)
    requires var s := pool.Now(); s.Q(t.sender) == [] && t.nonce == s.Vn(pool.state, t.sender)
    requires Admissible(t, pool.state)
    modifies pool
    ensures pool.Valid() && pool.InOrder() && pool.Current() && pool.state == old(pool.state)
    ensures pool.Now().P(t.sender) == old(pool.Now().P(t.sender)) + [t] && pool.Now().Q(t.sender) == []
    ensures |pool.all| <= |old(pool.all)| + 1
    ensures forall b: nat :: b != t.sender ==> KeptAt(old(pool.Now()), pool.Now(), b)
  {
    ghost var s := pool.Now();
    NextIsNew(s, pool.state, t);
    var accepted := pool.AddTx(t, false, true);
    NextPromoted(s, pool.Now(), pool.Terms(), t);
    GrownCurrent(s.all, pool.all, pool.state);
    OneMore(s.all, {}, t);
    SubsetSize(pool.all, s.all - {} + {t});
    forall b: nat | b != t.sender ensures KeptAt(s, pool.Now(), b) {
      assert MovedAt(Added(s, t), pool.Now(), pool.Terms(), {t.sender}, b);
    }
  }

  lemma {:induction false} NextIsNew(s: Pools, state: State, t: Tx)
    requires var a := t.sender; s.Agrees() && s.Ordered(state) && s.Q(a) == [] && t.nonce == s.Vn(state, a)
    ensures t !in s.all && Prior(s.pending, s.queue, t).None?
  {
    var a, p, sn := t.sender, s.P(t.sender), state.Nonce(t.sender);
    assert ContiguousAt(s.pending, s.vnonces, state, a) && SoundAt(s.pending, s.queue, s.all, a);
    forall u | u in p ensures u.nonce != t.nonce {
      var i: nat :| i < |p| && p[i] == u;
      assert Follows(p, sn, i);
    }
    FindNone(p, t.nonce);
    FindInEmpty(t.nonce);
    assert Known(a, p, s.Q(a), s.all, t);
  }

  /** A transfer of another account. */
  const OTHER := Tx(9, 1, 0, 1, 21000, 21000)

  /** In the second example only the other account gets a new nonce. */
  lemma {:induction false} ExampleTrim(s: Pools, state0: State, b: Batch)
    requires s.P(0) == [Sample(3), Sample(4)] && state0.Nonce(0) == 3 && b.state.Nonce(0) == 5
    requires s.P(1) == [] && s.Q(1) == [] && b.state.Nonce(1) == 0 && b.state.Balance(1) == 21000
    requires b.state.maxGas == 21000 && b.txs == [(OTHER, true)]
    ensures !StaysInOrder(s, state0, b, 1, true, 0)
  {
    FindInEmpty(0);
    assert CellOf(s, 1, 0).None? && OfferAt(b, 0, 1, 0, None);
    assert NewNonce(s, b, 1);
    forall n: nat ensures !(CellOf(s, 0, n).None? && FilledAt(s, b, 0, n)) {
      forall j: nat | j < 1 ensures !OfferAt(b, j, 0, n, CellOf(s, 0, n)) {}
    }
  }

  /**
   Nonces 3 and 4 pending, the state on to 5, another account's transaction reinjected, and the
   list trimmed meanwhile, as it is with two slots of which one account may have one: its virtual
   nonce ends below the state nonce.
   */
  method TrimmedReset(priceBump: nat) returns (pool: Pool)
    ensures fresh(pool) && pool.Valid() && pool.Current() && !pool.InOrder()
  {
    var before := State(map[0 := 3], map[0 := 21000, 1 := 21000], 21000);
    var after := State(map[0 := 5], map[0 := 21000, 1 := 21000], 21000);
    pool := new Pool(priceBump, 2, 8, 4, before);
    ghost var s0 := pool.Now();
    Append(pool, Sample(3));
    ghost var s1 := pool.Now();
    assert ContiguousAt(pool.pending, pool.vnonces, before, 0);
    Append(pool, Sample(4));
    ghost var s, b := pool.Now(), Batch([(OTHER, true)], after, priceBump);
    assert KeptAt(s0, s1, 1) && KeptAt(s1, s, 1);
    assert s.P(0) == [Sample(3), Sample(4)];
    ExampleTrim(s, before, b);
    assert pool.Room(1);
    pool.ResetTo(after, [(OTHER, true)], [0]);
    assert DecidedAt(s, before, b, multiset([0]), true, pool.Now(), 0);
    assert !ContiguousAt(pool.pending, pool.vnonces, pool.state, 0);
  }
}
