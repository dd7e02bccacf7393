/**
 The pool's lists as sequences in nonce order: how one account's pending and queued lists
 and the lookup of all transactions stay in step (core/tx_pool.go).
 */
module PoolLists {
  import opened Wrappers
  import opened SortedMap
  import opened TxList

  function Members(s: seq<Tx>): (r: set<Tx>)
    ensures forall t :: t in r <==> t in s
  {
    set t | t in s
  }

  // ---- One account ------------------------------------------------------------------------

  ghost predicate Listing(a: nat, s: seq<Tx>) {
    Increasing(s) && forall t :: t in s ==> t.sender == a
  }

  ghost predicate Apart(p: seq<Tx>, q: seq<Tx>) {
    forall t, u :: t in p && u in q ==> t.nonce != u.nonce
  }

  predicate Known(a: nat, p: seq<Tx>, q: seq<Tx>, all: set<Tx>, t: Tx) {
    t.sender == a ==> (t in all <==> t in p || t in q)
  }

  /** The lookup holds exactly the account's pending and queued transactions, which share no nonce. */
  ghost predicate AccountSound(a: nat, p: seq<Tx>, q: seq<Tx>, all: set<Tx>) {
    Listing(a, p) && Listing(a, q) && Apart(p, q) && forall t :: Known(a, p, q, all, t)
  }

  /** Fewer pending, fewer queued, and a lookup without the ones that went. */
  lemma {:induction false} FewerSound(a: nat, p: seq<Tx>, q: seq<Tx>, all: set<Tx>,
                                      p': seq<Tx>, q': seq<Tx>, gone: set<Tx>)
    requires AccountSound(a, p, q, all) && Increasing(p') && Increasing(q')
    requires forall t :: t in p' ==> t in p
    requires forall t :: t in q' ==> t in q
    requires forall t :: t in p || t in q ==> (t in gone <==> t !in p' && t !in q')
    ensures AccountSound(a, p', q', all - gone)
  {
    forall t ensures Known(a, p', q', all - gone, t) { assert Known(a, p, q, all, t); }
  }

  lemma {:induction false} ApartMember(p: seq<Tx>, q: seq<Tx>, t: Tx)
    requires Apart(p, q)
    ensures !(t in p && t in q)
  {
  }

  lemma {:induction false} QueueDropsFront(a: nat, p: seq<Tx>, q: seq<Tx>, all: set<Tx>, k: nat)
    requires AccountSound(a, p, q, all) && k <= |q|
    ensures AccountSound(a, p, q[k..], all - Members(q[..k]))
  {
    PartsIncrease(q, k);
    forall t | t in p || t in q ensures t in q[..k] <==> t !in p && t !in q[k..] {
      Sides(q, k, t);
      ApartMember(p, q, t);
    }
    FewerSound(a, p, q, all, p, q[k..], Members(q[..k]));
  }

  lemma {:induction false} QueueDropsBack(a: nat, p: seq<Tx>, q: seq<Tx>, all: set<Tx>, k: nat)
    requires AccountSound(a, p, q, all) && k <= |q|
    ensures AccountSound(a, p, q[..k], all - Members(q[k..]))
  {
    PartsIncrease(q, k);
    forall t | t in p || t in q ensures t in q[k..] <==> t !in p && t !in q[..k] {
      Sides(q, k, t);
      ApartMember(p, q, t);
    }
    FewerSound(a, p, q, all, p, q[..k], Members(q[k..]));
  }

  lemma {:induction false} QueueDropsMatches(a: nat, p: seq<Tx>, q: seq<Tx>, all: set<Tx>, f: Tx -> bool)
    requires AccountSound(a, p, q, all)
    ensures AccountSound(a, p, Unmatched(q, f), all - set t | t in q && f(t))
  {
    UnmatchedIncreasing(q, f);
    forall t | t in p || t in q ensures (t in q && f(t)) <==> t !in p && t !in Unmatched(q, f) {
      ApartMember(p, q, t);
    }
    FewerSound(a, p, q, all, p, Unmatched(q, f), set t | t in q && f(t));
  }

  lemma {:induction false} PendingDropsFront(a: nat, p: seq<Tx>, q: seq<Tx>, all: set<Tx>, k: nat)
    requires AccountSound(a, p, q, all) && k <= |p|
    ensures AccountSound(a, p[k..], q, all - Members(p[..k]))
  {
    PartsIncrease(p, k);
    forall t | t in p || t in q ensures t in p[..k] <==> t !in q && t !in p[k..] {
      Sides(p, k, t);
      ApartMember(p, q, t);
    }
    FewerSound(a, p, q, all, p[k..], q, Members(p[..k]));
  }

  lemma {:induction false} PendingDropsBack(a: nat, p: seq<Tx>, q: seq<Tx>, all: set<Tx>, k: nat)
    requires AccountSound(a, p, q, all) && k <= |p|
    ensures AccountSound(a, p[..k], q, all - Members(p[k..]))
  {
    PartsIncrease(p, k);
    forall t | t in p || t in q ensures t in p[k..] <==> t !in q && t !in p[..k] {
      Sides(p, k, t);
      ApartMember(p, q, t);
    }
    FewerSound(a, p, q, all, p[..k], q, Members(p[k..]));
  }

  lemma {:induction false} WithoutOne(s: seq<Tx>, k: nat)
    requires Increasing(s) && k < |s|
    ensures Increasing(s[..k] + s[k + 1..])
    ensures forall t :: t in s[..k] + s[k + 1..] <==> t in s && t != s[k]
  {
    var r := s[..k] + s[k + 1..];
    forall i: nat, j: nat ensures Before(r, i, j) {
      assert Before(s, i, j) && Before(s, i, j + 1) && Before(s, i + 1, j + 1);
    }
    forall t ensures t in r <==> t in s && t != s[k] {
      assert s == s[..k] + [s[k]] + s[k + 1..];
      Sides(s, k, t);
      Sides(s, k + 1, t);
      assert s[..k + 1] == s[..k] + [s[k]];
      assert s[k] in s[k..] && s[k] in s[..k + 1];
      Sides(s, k, s[k]);
      Sides(s, k + 1, s[k]);
    }
  }

  lemma {:induction false} QueueDropsOne(a: nat, p: seq<Tx>, q: seq<Tx>, all: set<Tx>, k: nat)
    requires AccountSound(a, p, q, all) && k < |q|
    ensures AccountSound(a, p, q[..k] + q[k + 1..], all - {q[k]})
  {
    WithoutOne(q, k);
    ApartMember(p, q, q[k]);
    FewerSound(a, p, q, all, p, q[..k] + q[k + 1..], {q[k]});
  }

  // ---- Moving and adding --------------------------------------------------------------------

  lemma {:induction false} FindNone(s: seq<Tx>, n: nat)
    requires Increasing(s)
    ensures Find(s, n).None? <==> forall t :: t in s ==> t.nonce != n
  {
    if t :| t in s && t.nonce == n {
      var i: nat :| i < |s| && s[i] == t;
      CutAt(s, n, i);
      var k := Cut(s, n);
      CutAt(s, n, k);
      assert Before(s, k, i);
    }
  }

  /** Putting a transaction in a list it does not share a nonce with. */
  lemma {:induction false} PlacedNew(s: seq<Tx>, t: Tx)
    requires Increasing(s) && forall u :: u in s ==> u.nonce != t.nonce
    ensures Increasing(Placed(s, t)) && |Placed(s, t)| == |s| + 1
    ensures forall u :: u in Placed(s, t) <==> u == t || u in s
  {
    PlacedIncreasing(s, t);
    FindNone(s, t.nonce);
    forall u ensures u in Placed(s, t) <==> u == t || u in s { PlacedHas(s, t, u); }
  }

  /** The pending list takes the first of the queue: it replaces nothing. */
  lemma {:induction false} PromotesOne(a: nat, p: seq<Tx>, t: Tx, q: seq<Tx>, all: set<Tx>)
    requires AccountSound(a, p, [t] + q, all)
    ensures Find(p, t.nonce).None? && t in all && t.sender == a
    ensures AccountSound(a, Placed(p, t), q, all)
  {
    var q0 := [t] + q;
    assert q0[0] == t && t in q0 && q == q0[1..];
    forall u | u in p ensures u.nonce != t.nonce { assert u in p && t in q0; }
    FindNone(p, t.nonce);
    PlacedNew(p, t);
    PartsIncrease(q0, 1);
    forall u | u in q ensures u in q0 && u.nonce != t.nonce {
      var i: nat :| i < |q| && q[i] == u;
      assert Before(q0, 0, i + 1);
    }
    assert Known(a, p, q0, all, t);
    var r := Placed(p, t);
    forall u ensures Known(a, r, q, all, u) { assert Known(a, p, q0, all, u); }
  }

  /** Several transactions put in one after the other. */
  function PutAll(s: seq<Tx>, txs: seq<Tx>): seq<Tx> {
    if txs == [] then s else Placed(PutAll(s, txs[..|txs| - 1]), txs[|txs| - 1])
  }

  lemma {:induction false} PutAllHas(s: seq<Tx>, txs: seq<Tx>)
    requires Increasing(s) && Increasing(txs) && Apart(txs, s)
    ensures Increasing(PutAll(s, txs)) && forall u :: u in PutAll(s, txs) <==> u in s || u in txs
  {
    if txs != [] {
      var k := |txs| - 1;
      var front := txs[..k];
      PartsIncrease(txs, k);
      assert txs == front + [txs[k]];
      PutAllHas(s, front);
      forall u | u in PutAll(s, front) ensures u.nonce != txs[k].nonce {
        if u in front {
          var i: nat :| i < k && front[i] == u;
          assert Before(txs, i, k);
        } else {
          assert txs[k] in txs;
        }
      }
      PlacedNew(PutAll(s, front), txs[k]);
    }
  }

  /** The upper part of pending goes back to the queue. */
  lemma {:induction false} DemotesBack(a: nat, p: seq<Tx>, q: seq<Tx>, all: set<Tx>, k: nat)
    requires AccountSound(a, p, q, all) && k <= |p|
    ensures AccountSound(a, p[..k], PutAll(q, p[k..]), all)
  {
    var front, back := p[..k], p[k..];
    PartsIncrease(p, k);
    assert p == front + back;
    PutAllHas(q, back);
    var q' := PutAll(q, back);
    forall t, u | t in front && u in q' ensures t.nonce != u.nonce {
      if u in back && t.nonce == u.nonce {
        NonceIsOne(p, t, u);
        Sides(p, k, t);
      }
    }
    forall t ensures Known(a, front, q', all, t) { assert Known(a, p, q, all, t); }
  }

  lemma {:induction false} PlacedFound(s: seq<Tx>, t: Tx)
    requires Increasing(s) && Find(s, t.nonce).Some?
    ensures forall u :: u in Placed(s, t) <==> u == t || (u in s && u != Find(s, t.nonce).value)
  {
    var prior := Find(s, t.nonce).value;
    forall u ensures u in Placed(s, t) <==> u == t || (u in s && u != prior) {
      PlacedHas(s, t, u);
      if u in s && u.nonce == t.nonce { NonceIsOne(s, u, prior); }
    }
  }

  function Gone(prior: Option<Tx>): set<Tx> {
    if prior.Some? then {prior.value} else {}
  }

  lemma {:induction false} PlacedMembers(s: seq<Tx>, t: Tx)
    requires Increasing(s) && t !in s
    ensures Increasing(Placed(s, t))
    ensures forall u :: u in Placed(s, t) <==> u == t || (u in s && u !in Gone(Find(s, t.nonce)))
  {
    PlacedIncreasing(s, t);
    FindNone(s, t.nonce);
    if Find(s, t.nonce).Some? { PlacedFound(s, t); } else { PlacedNew(s, t); }
  }

  /** A new transaction goes into pending if its nonce is there, and else into the queue. */
  lemma {:induction false} AddSound(a: nat, p: seq<Tx>, q: seq<Tx>, all: set<Tx>, t: Tx)
    requires AccountSound(a, p, q, all) && t.sender == a && t !in all
    ensures Find(p, t.nonce).Some? ==>
      AccountSound(a, Placed(p, t), q, all - Gone(Find(p, t.nonce)) + {t})
    ensures Find(p, t.nonce).None? ==>
      AccountSound(a, p, Placed(q, t), all - Gone(Find(q, t.nonce)) + {t})
  {
    assert Known(a, p, q, all, t);
    FindNone(p, t.nonce);
    if Find(p, t.nonce).Some? {
      PlacedMembers(p, t);
      var p', all' := Placed(p, t), all - Gone(Find(p, t.nonce)) + {t};
      forall u | u in q ensures u.nonce != t.nonce { assert Find(p, t.nonce).value in p; }
      forall u ensures Known(a, p', q, all', u) { assert Known(a, p, q, all, u); }
    } else {
      PlacedMembers(q, t);
      var q', all' := Placed(q, t), all - Gone(Find(q, t.nonce)) + {t};
      forall u ensures Known(a, p, q', all', u) {
        assert Known(a, p, q, all, u);
        ApartMember(p, q, u);
      }
    }
  }

  // ---- Runs of consecutive nonces -------------------------------------------------------------

  function RunLength(s: seq<Tx>): (k: nat)
    ensures k <= |s|
  {
    if s == [] then 0
    else if |s| == 1 || s[1].nonce != s[0].nonce + 1 then 1
    else 1 + RunLength(s[1..])
  }

  lemma {:induction false} RunLengthIsMaximal(s: seq<Tx>)
    requires s != []
    ensures MaximalRun(s, RunLength(s))
  {
    if |s| > 1 && s[1].nonce == s[0].nonce + 1 {
      var r, k := s[1..], RunLength(s[1..]);
      RunLengthIsMaximal(r);
      forall i: nat | i < k + 1 ensures s[i].nonce == s[0].nonce + i {
        if i > 0 { assert s[i] == r[i - 1]; }
      }
      if k + 1 < |s| { assert s[k + 1] == r[k]; }
    }
  }

  /** How many transactions Ready hands over. */
  function ReadyLength(q: seq<Tx>, start: nat): (k: nat)
    ensures k <= |q|
  {
    if q == [] || q[0].nonce > start then 0 else RunLength(q)
  }

  predicate Follows(p: seq<Tx>, sn: nat, i: nat) {
    i < |p| ==> p[i].nonce == sn + i
  }

  /** The nonces are those from sn up to vn. */
  ghost predicate Contiguous(p: seq<Tx>, sn: nat, vn: nat) {
    vn == sn + |p| && forall i: nat :: Follows(p, sn, i)
  }

  lemma {:induction false} ContiguousHas(p: seq<Tx>, sn: nat, vn: nat, n: nat)
    requires Contiguous(p, sn, vn) && sn <= n < vn
    ensures p[n - sn].nonce == n && p[n - sn] in p
  {
    assert Follows(p, sn, n - sn);
  }

  /** One more nonce at the end. */
  lemma {:induction false} ContiguousGrows(p: seq<Tx>, sn: nat, vn: nat, t: Tx)
    requires Increasing(p) && Contiguous(p, sn, vn) && t.nonce == vn
    ensures Placed(p, t) == p + [t] && Contiguous(Placed(p, t), sn, vn + 1)
  {
    var k := Cut(p, vn);
    if k < |p| {
      assert Follows(p, sn, k);
      CutAt(p, vn, k);
    }
    var r := p + [t];
    forall i: nat ensures Follows(r, sn, i) { assert Follows(p, sn, i); }
  }

  lemma {:induction false} ContiguousFront(p: seq<Tx>, sn: nat, vn: nat, k: nat)
    requires Contiguous(p, sn, vn) && k <= |p|
    ensures Contiguous(p[..k], sn, sn + k)
  {
    var r := p[..k];
    forall i: nat ensures Follows(r, sn, i) { assert Follows(p, sn, i); }
  }

  /** What Ready hands over starts at the virtual nonce. */
  lemma {:induction false} ReadyStarts(p: seq<Tx>, q: seq<Tx>, sn: nat, vn: nat, i: nat)
    requires Contiguous(p, sn, vn) && Apart(p, q) && (forall t :: t in q ==> t.nonce >= sn)
    requires i < ReadyLength(q, vn)
    ensures q[i].nonce == vn + i
  {
    RunLengthIsMaximal(q);
    assert q[0] in q;
    if q[0].nonce < vn { ContiguousHas(p, sn, vn, q[0].nonce); }
  }

  lemma {:induction false} PromotedContiguous(p: seq<Tx>, q: seq<Tx>, sn: nat, vn: nat, k: nat)
    requires Increasing(p) && Contiguous(p, sn, vn) && Apart(p, q) && (forall t :: t in q ==> t.nonce >= sn)
    requires k <= ReadyLength(q, vn)
    ensures Increasing(PutAll(p, q[..k])) && Contiguous(PutAll(p, q[..k]), sn, vn + k)
  {
    if k > 0 {
      var t := q[k - 1];
      PromotedContiguous(p, q, sn, vn, k - 1);
      ReadyStarts(p, q, sn, vn, k - 1);
      assert q[..k][..k - 1] == q[..k - 1] && q[..k][k - 1] == t;
      PlacedIncreasing(PutAll(p, q[..k - 1]), t);
      ContiguousGrows(PutAll(p, q[..k - 1]), sn, vn + k - 1, t);
    }
  }

  // ---- Demotion -------------------------------------------------------------------------------

  /** Pending from the state nonce on, up to the first that cannot be paid. */
  function Payable(p: seq<Tx>, sn: nat, f: Tx -> bool): seq<Tx> {
    var kept := p[Cut(p, sn)..];
    kept[..FirstMatch(kept, f)]
  }

  /** What stays pending: nothing if the state nonce itself is missing. */
  function DemotedPending(p: seq<Tx>, sn: nat, f: Tx -> bool): seq<Tx> {
    var fit := Payable(p, sn, f);
    if Find(fit, sn).None? then [] else fit
  }

  /** The queue with what was above the first that cannot be paid, and with a list that starts late. */
  function DemotedQueue(p: seq<Tx>, q: seq<Tx>, sn: nat, f: Tx -> bool): seq<Tx> {
    var kept := p[Cut(p, sn)..];
    var i := FirstMatch(kept, f);
    var more := if i < |kept| then PutAll(q, kept[i + 1..]) else q;
    if Find(kept[..i], sn).None? then PutAll(more, kept[..i]) else more
  }

  lemma {:induction false} FindInEmpty(n: nat)
    ensures Find([], n).None?
  {
  }

  lemma {:induction false} CutKeeps(s: seq<Tx>, n: nat)
    requires Increasing(s)
    ensures forall t :: t in s[Cut(s, n)..] ==> t in s && t.nonce >= n
  {
    var k := Cut(s, n);
    forall t | t in s[k..] ensures t in s && t.nonce >= n {
      var i: nat :| i < |s| - k && s[k..][i] == t;
      CutAt(s, n, i + k);
    }
  }

  lemma {:induction false} ContiguousIncreasing(p: seq<Tx>, sn: nat, vn: nat)
    requires Contiguous(p, sn, vn)
    ensures Increasing(p)
  {
    forall i: nat, j: nat ensures Before(p, i, j) { assert Follows(p, sn, i) && Follows(p, sn, j); }
  }

  /** A contiguous list is contiguous from the new state nonce after demotion. */
  lemma {:induction false} DemotedContiguous(p: seq<Tx>, sn0: nat, vn0: nat, sn: nat, f: Tx -> bool)
    requires Contiguous(p, sn0, vn0)
    ensures var r := DemotedPending(p, sn, f); Contiguous(r, sn, sn + |r|)
  {
    ContiguousIncreasing(p, sn0, vn0);
    var k, fit, r := Cut(p, sn), Payable(p, sn, f), DemotedPending(p, sn, f);
    if r != [] {
      var t := Find(fit, sn).value;
      assert t in fit;
      var j: nat :| j < |fit| && fit[j] == t;
      assert fit[0] == p[k] && fit[j] == p[k + j];
      CutAt(p, sn, k);
      assert Before(p, k, k + j) && Follows(p, sn0, k);
      forall i: nat ensures Follows(r, sn, i) { assert Follows(p, sn0, k + i); }
    }
  }

  /** A known transaction is the one its nonce finds, in pending or else in the queue. */
  lemma {:induction false} FoundByNonce(a: nat, p: seq<Tx>, q: seq<Tx>, all: set<Tx>, t: Tx)
    requires AccountSound(a, p, q, all) && t in all && t.sender == a
    ensures t in p ==> Find(p, t.nonce) == Some(t)
    ensures t !in p ==> Find(p, t.nonce).None? && Find(q, t.nonce) == Some(t)
  {
    assert Known(a, p, q, all, t);
    FindNone(p, t.nonce);
    FindNone(q, t.nonce);
    if t in p { NonceIsOne(p, t, Find(p, t.nonce).value); } else { NonceIsOne(q, t, Find(q, t.nonce).value); }
  }

  /** A pending transaction goes and those above it return to the queue. */
  lemma {:induction false} PendingLosesOne(a: nat, p: seq<Tx>, q: seq<Tx>, all: set<Tx>, k: nat)
    requires AccountSound(a, p, q, all) && k < |p|
    ensures AccountSound(a, p[..k], PutAll(q, p[k + 1..]), all - {p[k]})
  {
    DemotesBack(a, p, q, all, k + 1);
    var front := p[..k + 1];
    PendingDropsBack(a, front, PutAll(q, p[k + 1..]), all, k);
    assert front[..k] == p[..k] && front[k..] == [p[k]];
    assert Members(front[k..]) == {p[k]};
  }

  /** What demotion takes out of the lookup. */
  function Refused(p: seq<Tx>, sn: nat, f: Tx -> bool): set<Tx> {
    var k := Cut(p, sn);
    var i := FirstMatch(p[k..], f);
    Members(p[..k]) + if i < |p| - k then {p[k + i]} else {}
  }

  lemma {:induction false} DemotedSound(a: nat, p: seq<Tx>, q: seq<Tx>, all: set<Tx>, sn: nat, f: Tx -> bool)
    requires AccountSound(a, p, q, all)
    ensures AccountSound(a, DemotedPending(p, sn, f), DemotedQueue(p, q, sn, f), all - Refused(p, sn, f))
  {
    var k := Cut(p, sn);
    var kept, all1 := p[k..], all - Members(p[..k]);
    var i := FirstMatch(kept, f);
    var fit := kept[..i];
    PendingDropsFront(a, p, q, all, k);
    if i < |kept| {
      PendingLosesOne(a, kept, q, all1, i);
      assert all1 - {kept[i]} == all - Refused(p, sn, f);
    } else {
      assert fit == kept && all1 == all - Refused(p, sn, f);
    }
    if Find(fit, sn).None? {
      DemotesBack(a, fit, if i < |kept| then PutAll(q, kept[i + 1..]) else q, all - Refused(p, sn, f), 0);
      assert fit[..0] == [] && fit[0..] == fit;
    }
  }

  lemma {:induction false} RefusedOf(a: nat, p: seq<Tx>, q: seq<Tx>, all: set<Tx>, sn: nat, f: Tx -> bool)
    requires AccountSound(a, p, q, all)
    ensures forall t :: t in Refused(p, sn, f) ==> t.sender == a
  {
  }

  /** Pending loses t, found by its nonce, and everything above t, which the queue gets. */
  ghost predicate PendingLost(p: seq<Tx>, t: Tx, p': seq<Tx>, q: seq<Tx>, q': seq<Tx>) {
    var k := Cut(p, t.nonce);
    k < |p| && p[k] == t && p' == p[..k] && q' == PutAll(q, p[k + 1..])
  }

  /** The queue loses t, found by its nonce, and nothing else. */
  ghost predicate QueueLost(q: seq<Tx>, t: Tx, q': seq<Tx>) {
    var k := Cut(q, t.nonce);
    k < |q| && q[k] == t && q' == q[..k] + q[k + 1..]
  }
}
