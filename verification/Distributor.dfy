/**
 The light client's request distributor (les/distributor.go): requests wait in creation
 order, go to a peer that can serve them, and a loop is woken up as long as any wait.
 */
module Distributor {
  import opened Wrappers

  /** A channel handed to a caller: the peers sent on it and how often it was closed. */
  datatype Chan = Chan(sent: seq<nat>, closes: nat)

  /** Whether a peer can serve a request, and how long it has to wait first. */
  datatype Offer = Unable | Able(wait: nat)

  /** The peers and their offers at one moment. */
  datatype World = World(peers: set<nat>, offer: (nat, nat) -> Offer)

  // ---- The queue ------------------------------------------------------------------------------

  predicate Earlier(q: seq<nat>, order: map<nat, nat>, i: nat, j: nat) {
    i < j < |q| ==> q[i] in order && q[j] in order && order[q[i]] < order[q[j]]
  }

  ghost predicate Sorted(q: seq<nat>, order: map<nat, nat>) {
    (forall i: nat :: i < |q| ==> q[i] in order) && forall i: nat, j: nat :: Earlier(q, order, i, j)
  }

  lemma {:induction false} SortedOnce(q: seq<nat>, order: map<nat, nat>, i: nat, j: nat)
    requires Sorted(q, order) && i < |q| && j < |q| && q[i] == q[j]
    ensures i == j
  {
    assert Earlier(q, order, i, j) && Earlier(q, order, j, i);
  }

  function Without(q: seq<nat>, i: nat): seq<nat>
    requires i < |q|
  {
    q[..i] + q[i + 1..]
  }

  lemma {:induction false} WithoutSorted(q: seq<nat>, order: map<nat, nat>, i: nat)
    requires Sorted(q, order) && i < |q|
    ensures Sorted(Without(q, i), order)
    ensures forall r :: r in Without(q, i) <==> r in q && r != q[i]
  {
    var s := Without(q, i);
    forall x: nat, y: nat ensures Earlier(s, order, x, y) {
      assert Earlier(q, order, x, y) && Earlier(q, order, x, y + 1) && Earlier(q, order, x + 1, y + 1);
    }
    forall r ensures r in s <==> r in q && r != q[i] {
      if r in q && r != q[i] {
        var k: nat :| k < |q| && q[k] == r;
        assert s[if k < i then k else k - 1] == r;
      }
      if r in s {
        var k: nat :| k < |s| && s[k] == r;
        assert r == q[if k < i then k else k + 1];
        if r == q[i] { SortedOnce(q, order, i, if k < i then k else k + 1); }
      }
    }
  }

  predicate Inserted(q: seq<nat>, q': seq<nat>, r: nat, i: nat) {
    i <= |q| && q' == q[..i] + [r] + q[i..]
  }

  /** The requests that still have a channel keep it. */
  predicate SentKept(sent: map<nat, nat>, sent': map<nat, nat>) {
    forall r :: r in sent' ==> r in sent && sent'[r] == sent[r]
  }

  lemma {:induction false} AtEnd(q: seq<nat>, r: nat)
    ensures q[..|q|] + [r] + q[|q|..] == q + [r]
  {
  }

  lemma {:induction false} InsertedSorted(q: seq<nat>, order: map<nat, nat>, r: nat, i: nat)
    requires Sorted(q, order) && r in order && i <= |q|
    requires forall k: nat :: k < i ==> order[q[k]] < order[r]
    requires forall k: nat :: i <= k < |q| ==> order[r] < order[q[k]]
    ensures Sorted(q[..i] + [r] + q[i..], order)
  {
    var s := q[..i] + [r] + q[i..];
    forall x: nat, y: nat ensures Earlier(s, order, x, y) {
      assert Earlier(q, order, x, y) && (y > 0 ==> Earlier(q, order, x, y - 1));
      assert x > 0 && y > 0 ==> Earlier(q, order, x - 1, y - 1);
    }
  }

  // ---- Orders and channels --------------------------------------------------------------------

  predicate OrderOk(order: map<nat, nat>, last: nat, r: nat, s: nat) {
    r in order ==> 0 < order[r] <= last && (s in order && order[s] == order[r] ==> r == s)
  }

  ghost predicate OrdersOk(order: map<nat, nat>, last: nat) {
    forall r: nat, s: nat :: OrderOk(order, last, r, s)
  }

  /** A request is queued exactly while it has a channel, which is open and its own. */
  predicate RequestOk(q: seq<nat>, sentChn: map<nat, nat>, owner: map<nat, nat>, r: nat) {
    && (r in q <==> r in sentChn)
    && (r in sentChn ==> sentChn[r] in owner && owner[sentChn[r]] == r)
  }

  /** An open channel belongs to a request and is empty; a closed one was closed once. */
  predicate ChanOk(chans: seq<Chan>, sentChn: map<nat, nat>, owner: map<nat, nat>, c: nat) {
    && (c in owner ==> c < |chans| && owner[c] in sentChn && sentChn[owner[c]] == c)
    && (c < |chans| ==> |chans[c].sent| <= 1 && chans[c].closes <= 1)
    && (c < |chans| ==> (chans[c].closes == 0 <==> c in owner))
    && (c in owner ==> chans[c].sent == [])
  }

  ghost predicate ChannelsOk(q: seq<nat>, chans: seq<Chan>, sentChn: map<nat, nat>, owner: map<nat, nat>) {
    && (forall r: nat :: RequestOk(q, sentChn, owner, r))
    && (forall c: nat :: ChanOk(chans, sentChn, owner, c))
  }

  predicate MovedAt(chans: seq<Chan>, chans': seq<Chan>, c: nat) {
    c < |chans| <= |chans'| && chans[c].closes > 0 ==> chans'[c] == chans[c]
  }

  /** A channel that is closed stays as it is. */
  ghost predicate Moved(chans: seq<Chan>, chans': seq<Chan>) {
    |chans| <= |chans'| && forall c: nat :: MovedAt(chans, chans', c)
  }

  lemma {:induction false} MovedTwice(a: seq<Chan>, b: seq<Chan>, c: seq<Chan>)
    requires Moved(a, b) && Moved(b, c)
    ensures Moved(a, c)
  {
    forall i: nat ensures MovedAt(a, c, i) { assert MovedAt(a, b, i) && MovedAt(b, c, i); }
  }

  /** The request at i leaves the queue and its channel is closed, perhaps with a peer on it. */
  lemma {:induction false} LeaveOk(q: seq<nat>, order: map<nat, nat>, chans: seq<Chan>, sentChn: map<nat, nat>,
                                   owner: map<nat, nat>, i: nat, sent: seq<nat>)
    requires Sorted(q, order) && ChannelsOk(q, chans, sentChn, owner) && i < |q| && |sent| <= 1
    ensures q[i] in sentChn && sentChn[q[i]] < |chans| && chans[sentChn[q[i]]] == Chan([], 0)
    ensures Moved(chans, chans[sentChn[q[i]] := Chan(sent, 1)])
    ensures ChannelsOk(Without(q, i), chans[sentChn[q[i]] := Chan(sent, 1)], sentChn - {q[i]}, owner - {sentChn[q[i]]})
  {
    var r := q[i];
    assert RequestOk(q, sentChn, owner, r);
    var c := sentChn[r];
    assert ChanOk(chans, sentChn, owner, c);
    WithoutSorted(q, order, i);
    var q', chans', sentChn', owner' := Without(q, i), chans[c := Chan(sent, 1)], sentChn - {r}, owner - {c};
    forall d: nat ensures MovedAt(chans, chans', d) {}
    forall s: nat ensures RequestOk(q', sentChn', owner', s) { assert RequestOk(q, sentChn, owner, s); }
    forall d: nat ensures ChanOk(chans', sentChn', owner', d) { assert ChanOk(chans, sentChn, owner, d); }
  }

  lemma {:induction false} EnterOk(q: seq<nat>, chans: seq<Chan>, sentChn: map<nat, nat>, owner: map<nat, nat>,
                                   r: nat, i: nat)
    requires ChannelsOk(q, chans, sentChn, owner) && r !in q && i <= |q|
    ensures ChannelsOk(q[..i] + [r] + q[i..], chans + [Chan([], 0)], sentChn[r := |chans|], owner[|chans| := r])
  {
    var q', chans', sentChn', owner' :=
      q[..i] + [r] + q[i..], chans + [Chan([], 0)], sentChn[r := |chans|], owner[|chans| := r];
    assert q == q[..i] + q[i..];
    assert RequestOk(q, sentChn, owner, r) && ChanOk(chans, sentChn, owner, |chans|);
    forall s: nat ensures RequestOk(q', sentChn', owner', s) {
      assert RequestOk(q, sentChn, owner, s);
      if s in sentChn { assert ChanOk(chans, sentChn, owner, sentChn[s]); }
    }
    forall d: nat ensures ChanOk(chans', sentChn', owner', d) { assert ChanOk(chans, sentChn, owner, d); }
  }

  // ---- Peers for one request ------------------------------------------------------------------

  predicate CanServe(w: World, r: nat, p: nat) {
    p in w.peers && w.offer(r, p).Able?
  }

  ghost predicate NobodyServes(w: World, r: nat) {
    forall p :: !CanServe(w, r, p)
  }

  /** From a queue, the first k requests, which nobody serves, are given up. */
  ghost predicate GivenUp(w: World, q: seq<nat>, q': seq<nat>, k: nat) {
    k <= |q| && q' == q[k..] && forall j: nat :: j < k ==> NobodyServes(w, q[j])
  }

  lemma {:induction false} GivesUpOne(w: World, q: seq<nat>, q': seq<nat>, k: nat)
    requires GivenUp(w, q, q', k) && q' != [] && NobodyServes(w, q'[0])
    ensures GivenUp(w, q, Without(q', 0), k + 1)
  {
    assert Without(q', 0) == q'[1..] == q[k + 1..];
  }

  /** A peer found for a request; with no wait it can be sent at once. */
  predicate Found(w: World, q: seq<nat>, best: Option<(nat, nat)>, wait: nat) {
    best.Some? ==> best.value.1 in q && best.value.0 in w.peers && w.offer(best.value.1, best.value.0) == Able(wait)
  }

  datatype Search = Search(checked: set<nat>, now: seq<(nat, nat)>, best: Option<(nat, nat)>, wait: nat)

  ghost predicate SearchOk(w: World, q: seq<nat>, s: Search) {
    && Found(w, q, s.best, s.wait) && (s.best.Some? ==> s.wait > 0)
    && (forall i :: 0 <= i < |s.now| ==> Found(w, q, Some(s.now[i]), 0))
    && (s.checked != {} ==> s.now != [] || s.best.Some?)
  }

  /** The offers of a peer asked about a request are reflected in the search. */
  predicate Asked(w: World, r: nat, s: Search, s': Search, todo: set<nat>, p: nat) {
    CanServe(w, r, p) && p !in s.checked && p !in todo ==>
      if w.offer(r, p).wait == 0 then s'.now != [] else s'.best.Some? && s'.wait <= w.offer(r, p).wait
  }

  /** The search only gets better. */
  predicate Better(s: Search, s': Search) {
    s.now <= s'.now && (s.best.Some? ==> s'.best.Some? && s'.wait <= s.wait)
  }

  ghost predicate AskedAll(w: World, r: nat, s: Search, s': Search, todo: set<nat>) {
    Better(s, s') && forall p: nat :: Asked(w, r, s, s', todo, p)
  }

  /** One peer that can serve the request is taken into the search. */
  function Take(w: World, r: nat, p: nat, s: Search): Search
    requires CanServe(w, r, p)
  {
    var wait := w.offer(r, p).wait;
    if wait == 0 then s.(checked := s.checked + {p}, now := s.now + [(p, r)])
    else if s.best.None? || wait < s.wait then s.(checked := s.checked + {p}, best := Some((p, r)), wait := wait)
    else s.(checked := s.checked + {p})
  }

  lemma {:induction false} TakeOk(w: World, q: seq<nat>, r: nat, p: nat, s: Search, s': Search, todo: set<nat>)
    requires SearchOk(w, q, s') && r in q && CanServe(w, r, p) && AskedAll(w, r, s, s', todo)
    ensures SearchOk(w, q, Take(w, r, p, s')) && AskedAll(w, r, s, Take(w, r, p, s'), todo - {p})
  {
    var t, rest := Take(w, r, p, s'), todo - {p};
    forall x: nat ensures Asked(w, r, s, t, rest, x) { assert Asked(w, r, s, s', todo, x); }
  }

  lemma {:induction false} SkipOk(w: World, r: nat, p: nat, s: Search, s': Search, todo: set<nat>)
    requires AskedAll(w, r, s, s', todo) && (p in s.checked || !CanServe(w, r, p))
    ensures AskedAll(w, r, s, s', todo - {p})
  {
    var rest := todo - {p};
    forall x: nat ensures Asked(w, r, s, s', rest, x) { assert Asked(w, r, s, s', todo, x); }
  }

  /** Every peer not yet taken for an earlier request is asked about this one. */
  method AskPeers(w: World, ghost q: seq<nat>, r: nat, s: Search) returns (canSend: bool, s': Search)
    requires SearchOk(w, q, s) && r in q
    ensures SearchOk(w, q, s') && AskedAll(w, r, s, s', {})
    ensures canSend <==> exists p :: CanServe(w, r, p) && p !in s.checked
    ensures if canSend then s'.checked != {} else s' == s
  {
    canSend, s' := false, s;
    var todo := w.peers;
    assert AskedAll(w, r, s, s, todo) by { forall p: nat ensures Asked(w, r, s, s, todo, p) {} }
    while todo != {}
      invariant todo <= w.peers && SearchOk(w, q, s') && AskedAll(w, r, s, s', todo)
      invariant forall p :: p in todo ==> (p in s'.checked <==> p in s.checked)
      invariant canSend <==> exists p :: CanServe(w, r, p) && p !in s.checked && p !in todo
      invariant if canSend then s'.checked != {} else s' == s
      decreases todo
    {
      var p :| p in todo;
      if p !in s'.checked && w.offer(r, p).Able? {
        assert CanServe(w, r, p);
        TakeOk(w, q, r, p, s, s', todo);
        canSend, s' := true, Take(w, r, p, s');
        assert p in s'.checked;
      } else {
        SkipOk(w, r, p, s, s', todo);
      }
      todo := todo - {p};
    }
  }

  /** All peers were asked about the front request, and some can serve it. */
  ghost predicate FrontAsked(w: World, front: nat, s: Search) {
    AskedAll(w, front, Search({}, [], None, 0), s, {}) && exists p :: CanServe(w, front, p)
  }

  lemma {:induction false} FrontKept(w: World, front: nat, r: nat, s: Search, s': Search, i: nat)
    requires AskedAll(w, r, s, s', {}) && (i > 0 ==> FrontAsked(w, front, s))
    requires i == 0 ==> front == r && s == Search({}, [], None, 0) && exists p :: CanServe(w, r, p)
    ensures FrontAsked(w, front, s')
  {
    var start := Search({}, [], None, 0);
    forall p: nat ensures Asked(w, front, start, s', {}, p) {
      if i > 0 { assert Asked(w, front, start, s, {}, p); } else { assert Asked(w, r, s, s', {}, p); }
    }
  }

  /** The request left the queue and its caller was told a peer that takes it without waiting. */
  predicate Served(q: seq<nat>, q': seq<nat>, sentChn: map<nat, nat>, chans': seq<Chan>, w: World, r: nat, p: nat) {
    && r in q && r !in q' && p in w.peers && w.offer(r, p) == Able(0)
    && r in sentChn && sentChn[r] < |chans'| && chans'[sentChn[r]] == Chan([p], 1)
  }

  datatype Event =
    | Queueing(r: nat)
    | Cancelling(r: nat)
    | Receiving
    | Distributing(world: nat -> World)
    | Waking

  // ---- The distributor ------------------------------------------------------------------------

  class Distributor {
    var queue: seq<nat>
    var order: map<nat, nat>
    var lastOrder: nat
    var sentChn: map<nat, nat>
    var chans: seq<Chan>
    var loopNextSent: bool
    var signals: nat
    var sleepers: nat
    var received: nat
    ghost var owner: map<nat, nat>

    /** The queue, the orders and the channels agree. */
    ghost predicate Consistent() reads this {
      Sorted(queue, order) && OrdersOk(order, lastOrder) && ChannelsOk(queue, chans, sentChn, owner)
    }

    /** One wake-up at most is on its way, and one is as long as requests wait. */
    ghost predicate Valid() reads this {
      && Consistent()
      && signals + sleepers + received == (if loopNextSent then 1 else 0)
      && (queue != [] ==> loopNextSent)
    }

    constructor ()
      ensures Valid() && queue == [] && chans == []
    {
      queue, order, lastOrder, sentChn, chans := [], map[], 0, map[], [];
      loopNextSent, signals, sleepers, received, owner := false, 0, 0, 0, map[];
      new;
      forall r: nat, s: nat ensures OrderOk(order, lastOrder, r, s) && Earlier(queue, order, r, s) {}
      forall r: nat ensures RequestOk(queue, sentChn, owner, r) && ChanOk(chans, sentChn, owner, r) {}
    }

    /** A request takes its place by order; a new one comes last. */
    method Queue(r: nat) returns (chn: nat)
      requires Valid() && r !in queue
      modifies this
      ensures Valid() && chn == |old(chans)| && chans == old(chans) + [Chan([], 0)]
      ensures r in sentChn && sentChn[r] == chn
      ensures exists i: nat :: Inserted(old(queue), queue, r, i)
      ensures r in old(order) ==> order == old(order)
      ensures r !in old(order) ==> order == old(order)[r := old(lastOrder) + 1] && queue == old(queue) + [r]
    {
      if r in order {
        var i := Place(r);
        chn := Insert(r, i);
      } else {
        chn := Append(r);
      }
      if !loopNextSent {
        loopNextSent, signals := true, signals + 1;
      }
    }

    /** A request without an order gets the next one, and the last place. */
    method Append(r: nat) returns (chn: nat)
      requires Consistent() && r !in queue && r !in order
      modifies `queue, `chans, `sentChn, `owner, `order, `lastOrder
      ensures Consistent() && queue == old(queue) + [r] && Inserted(old(queue), queue, r, |old(queue)|)
      ensures order == old(order)[r := old(lastOrder) + 1]
      ensures chn == |old(chans)| && chans == old(chans) + [Chan([], 0)] && sentChn == old(sentChn)[r := chn]
    {
      NewOrder(r);
      var i := Place(r);
      AtEnd(queue, r);
      chn := Insert(r, i);
    }

    method Insert(r: nat, i: nat) returns (chn: nat)
      requires Consistent() && r !in queue && r in order && i <= |queue|
      requires forall k: nat :: k < i ==> order[queue[k]] < order[r]
      requires forall k: nat :: i <= k < |queue| ==> order[r] < order[queue[k]]
      modifies `queue, `chans, `sentChn, `owner
      ensures Consistent() && Inserted(old(queue), queue, r, i)
      ensures chn == |old(chans)| && chans == old(chans) + [Chan([], 0)] && sentChn == old(sentChn)[r := chn]
    {
      InsertedSorted(queue, order, r, i);
      EnterOk(queue, chans, sentChn, owner, r, i);
      chn := |chans|;
      queue := queue[..i] + [r] + queue[i..];
      chans, sentChn := chans + [Chan([], 0)], sentChn[r := chn];
      owner := owner[chn := r];
    }

    method NewOrder(r: nat)
      requires Consistent() && r !in order && r !in queue
      modifies `order, `lastOrder
      ensures Consistent() && lastOrder == old(lastOrder) + 1 && order == old(order)[r := lastOrder]
      ensures forall k: nat :: k < |queue| ==> order[queue[k]] < order[r]
    {
      lastOrder := lastOrder + 1;
      order := order[r := lastOrder];
      forall x: nat, y: nat ensures OrderOk(order, lastOrder, x, y) {
        assert OrderOk(old(order), old(lastOrder), x, y) && OrderOk(old(order), old(lastOrder), y, x);
      }
      forall x: nat, y: nat ensures Earlier(queue, order, x, y) { assert Earlier(queue, old(order), x, y); }
      forall k: nat | k < |queue| ensures order[queue[k]] < order[r] {
        assert OrderOk(old(order), old(lastOrder), queue[k], queue[k]);
      }
    }

    /** Where a request belongs: last if its order is above all, else before the first that is later. */
    method Place(r: nat) returns (i: nat)
      requires Consistent() && r in order && r !in queue
      ensures i <= |queue|
      ensures forall k: nat :: k < i ==> order[queue[k]] < order[r]
      ensures forall k: nat :: i <= k < |queue| ==> order[r] < order[queue[k]]
      ensures (forall k: nat :: k < |queue| ==> order[queue[k]] < order[r]) ==> i == |queue|
    {
      forall k: nat | k < |queue| ensures order[queue[k]] != order[r] { assert OrderOk(order, lastOrder, r, queue[k]); }
      var back := |queue| - 1;
      if queue == [] || order[r] > order[queue[back]] {
        forall k: nat | k < |queue| ensures order[queue[k]] < order[r] { assert Earlier(queue, order, k, back); }
        return |queue|;
      }
      i := 0;
      while order[queue[i]] < order[r]
        invariant i <= back && forall k: nat :: k < i ==> order[queue[k]] < order[r]
        decreases back - i
      {
        i := i + 1;
      }
      forall k: nat | i <= k < |queue| ensures order[r] < order[queue[k]] { assert Earlier(queue, order, i, k); }
    }

    /** The request at i leaves; its channel is closed after at most one peer. */
    method Leave(i: nat, sent: seq<nat>)
      requires Consistent() && i < |queue| && |sent| <= 1
      modifies `queue, `chans, `sentChn, `owner
      ensures Consistent() && queue == Without(old(queue), i) && Moved(old(chans), chans)
      ensures old(queue)[i] in old(sentChn) && old(sentChn)[old(queue)[i]] < |old(chans)|
      ensures chans == old(chans)[old(sentChn)[old(queue)[i]] := Chan(sent, 1)]
      ensures sentChn == old(sentChn) - {old(queue)[i]}
    {
      var r := queue[i];
      LeaveOk(queue, order, chans, sentChn, owner, i, sent);
      WithoutSorted(queue, order, i);
      var chn := sentChn[r];
      assert chans[chn].sent + sent == sent;
      sentChn, queue := sentChn - {r}, Without(queue, i);
      chans := chans[chn := Chan(chans[chn].sent + sent, chans[chn].closes + 1)];
      owner := owner - {chn};
    }

    /** Takes back a request that was not sent yet. */
    method Cancel(r: nat) returns (cancelled: bool)
      requires Valid()
      modifies `queue, `chans, `sentChn, `owner
      ensures Valid() && cancelled == (r in old(queue)) && r !in queue && Moved(old(chans), chans)
      ensures cancelled ==> exists i: nat :: i < |old(queue)| && old(queue)[i] == r && queue == Without(old(queue), i)
      ensures cancelled ==> r in old(sentChn) && old(sentChn)[r] < |old(chans)|
      ensures cancelled ==> chans == old(chans)[old(sentChn)[r] := Chan([], 1)]
      ensures !cancelled ==> queue == old(queue) && chans == old(chans)
    {
      assert RequestOk(queue, sentChn, owner, r);
      assert Moved(chans, chans) by { forall c: nat ensures MovedAt(chans, chans, c) {} }
      if r !in sentChn { return false; }
      var i: nat :| i < |queue| && queue[i] == r;
      WithoutSorted(queue, order, i);
      Leave(i, []);
      cancelled := true;
    }

    /**
     The next request to send, or how long to wait.  Requests at the front that no peer can
     serve are given up; if nothing is returned, that was all of them.
     */
    method NextRequest(w: World) returns (best: Option<(nat, nat)>, wait: nat)
      requires Consistent()
      modifies `queue, `chans, `sentChn, `owner
      ensures Consistent() && Found(w, queue, best, wait) && (best.None? ==> queue == [] && wait == 0)
      ensures Moved(old(chans), chans) && SentKept(old(sentChn), sentChn)
      ensures |queue| <= |old(queue)| && GivenUp(w, old(queue), queue, |old(queue)| - |queue|)
      ensures queue != [] ==> exists p :: CanServe(w, queue[0], p)
      ensures queue != [] && wait > 0 ==> forall p :: CanServe(w, queue[0], p) ==> w.offer(queue[0], p).wait >= wait
    {
      var s := Search({}, [], None, 0);
      var i := 0;
      ghost var k := 0;
      assert Moved(chans, chans) by { forall c: nat ensures MovedAt(chans, chans, c) {} }
      while (w.peers != {} || i == 0) && i < |queue|
        invariant Consistent() && i <= |queue| && SearchOk(w, queue, s)
        invariant GivenUp(w, old(queue), queue, k) && Moved(old(chans), chans) && SentKept(old(sentChn), sentChn)
        invariant i == 0 ==> s == Search({}, [], None, 0)
        invariant i > 0 ==> s.checked != {} && FrontAsked(w, queue[0], s)
        decreases |queue| - i
      {
        var canSend;
        ghost var before := s;
        canSend, s := AskPeers(w, queue, queue[i], s);
        if !canSend && i == 0 {
          ghost var was := chans;
          GivesUpOne(w, old(queue), queue, k);
          Leave(0, []);
          MovedTwice(old(chans), was, chans);
          k := k + 1;
        } else {
          FrontKept(w, queue[0], queue[i], before, s, i);
          i := i + 1;
        }
      }
      if s.now != [] {
        var k: nat :| k < |s.now|;
        best, wait := Some(s.now[k]), 0;
      } else {
        best, wait := s.best, s.wait;
        if queue != [] {
          forall p | CanServe(w, queue[0], p) ensures w.offer(queue[0], p).wait >= wait {
            assert Asked(w, queue[0], Search({}, [], None, 0), s, {}, p);
          }
        }
      }
    }

    /** The loop takes the signal; it does not hold the lock yet. */
    method Receive()
      requires Valid() && signals > 0
      modifies `signals, `received
      ensures Valid() && received == 1 && signals == 0
    {
      signals, received := signals - 1, received + 1;
    }

    /** One turn of the loop: a request is sent, or a wake-up is arranged if any still wait. */
    method Turn(w: World) returns (again: bool)
      requires Consistent() && !loopNextSent && signals == sleepers == received == 0
      modifies this
      ensures Moved(old(chans), chans) && received == 0 && (forall r :: r in queue ==> r in old(queue))
      ensures again ==> Consistent() && !loopNextSent && signals == sleepers == 0 && |queue| < |old(queue)|
      ensures again ==> exists r, p :: Served(old(queue), queue, old(sentChn), chans, w, r, p)
      ensures !again ==> Valid()
    {
      var best, wait := NextRequest(w);
      if best.Some? && wait == 0 {
        var i: nat :| i < |queue| && queue[i] == best.value.1;
        WithoutSorted(queue, order, i);
        ghost var was := chans;
        Leave(i, [best.value.0]);
        MovedTwice(old(chans), was, chans);
        assert Served(old(queue), queue, old(sentChn), chans, w, best.value.1, best.value.0);
        return true;
      }
      if wait > 0 {
        loopNextSent, sleepers := true, sleepers + 1;
      }
      again := false;
    }

    /** With the lock: requests are sent as long as one can be. */
    method Distribute(world: nat -> World)
      requires Valid() && received > 0
      modifies this
      ensures Valid() && received == 0 && Moved(old(chans), chans)
      ensures forall r :: r in queue ==> r in old(queue)
    {
      received, loopNextSent := received - 1, false;
      var turn, again := 0, true;
      assert Moved(chans, chans) by { forall c: nat ensures MovedAt(chans, chans, c) {} }
      while again
        invariant received == 0 && Moved(old(chans), chans) && forall r :: r in queue ==> r in old(queue)
        invariant again ==> Consistent() && !loopNextSent && signals == sleepers == 0
        invariant !again ==> Valid()
        decreases again, |queue|
      {
        ghost var was := chans;
        again := Turn(world(turn));
        MovedTwice(old(chans), was, chans);
        turn := turn + 1;
      }
    }

    /** A sleeping wake-up is delivered; the signal channel has room. */
    method SleeperWakes()
      requires Valid() && sleepers > 0
      modifies `sleepers, `signals
      ensures Valid() && signals == 1 && sleepers == 0
    {
      sleepers, signals := sleepers - 1, signals + 1;
    }

    /** One event, if it can happen now; closed channels stay as they are. */
    method Step(e: Event)
      requires Valid()
      modifies this
      ensures Valid() && Moved(old(chans), chans)
    {
      assert Moved(chans, chans) by { forall c: nat ensures MovedAt(chans, chans, c) {} }
      match e {
        case Queueing(r) =>
          if r !in queue {
            var chn := Queue(r);
            forall c: nat ensures MovedAt(old(chans), chans, c) {}
          }
        case Cancelling(r) => var cancelled := Cancel(r);
        case Receiving => if signals > 0 { Receive(); }
        case Distributing(world) => if received > 0 { Distribute(world); }
        case Waking => if sleepers > 0 { SleeperWakes(); }
      }
    }

    /** Whatever happens in whatever order, requests in the queue are never forgotten. */
    method Run(events: seq<Event>)
      requires Valid()
      modifies this
      ensures Valid() && signals <= 1 && Moved(old(chans), chans)
      ensures queue != [] ==> signals + sleepers + received == 1
      ensures forall c: nat :: c < |chans| ==> |chans[c].sent| <= 1 && chans[c].closes <= 1
    {
      assert Moved(chans, chans) by { forall c: nat ensures MovedAt(chans, chans, c) {} }
      for i := 0 to |events|
        invariant Valid() && Moved(old(chans), chans)
      {
        ghost var was := chans;
        Step(events[i]);
        MovedTwice(old(chans), was, chans);
      }
      forall c: nat | c < |chans| ensures |chans[c].sent| <= 1 && chans[c].closes <= 1 {
        assert ChanOk(chans, sentChn, owner, c);
      }
    }
  }
}
