/**
 One account's transactions with the price bump for replacements and the cost and gas
 caps that let Filter skip its work (txList in core/tx_list.go).
 */
module TxList {
  import opened Wrappers
  import opened SortedMap

  function Find(s: seq<Tx>, n: nat): (r: Option<Tx>)
    ensures r.Some? ==> r.value in s && r.value.nonce == n
  {
    var k := Cut(s, n);
    if k < |s| && s[k].nonce == n then Some(s[k]) else None
  }

  lemma {:induction false} FindIsGet(s: seq<Tx>, items: Items, n: nat)
    requires Lists(s, items)
    ensures Find(s, n) == if n in items then Some(items[n]) else None
  {
    var k := Cut(s, n);
    if n in items { FindIn(s, items, n); } else if k < |s| { assert Stored(s, items, k); }
  }

  /** Whether a transaction pays enough to replace an old one of the same nonce. */
  predicate Outbids(prior: Tx, next: Tx, priceBump: nat) {
    prior.price < next.price && next.price >= prior.price * (100 + priceBump) / 100
  }

  function TooMuch(costLimit: int, gasLimit: nat): Tx -> bool {
    (t: Tx) => t.cost > costLimit || t.gas > gasLimit
  }

  predicate Within(t: Tx, costcap: int, gascap: nat) {
    t.cost <= costcap && t.gas <= gascap
  }

  ghost predicate Capped(s: seq<Tx>, costcap: int, gascap: nat) {
    forall t :: t in s ==> Within(t, costcap, gascap)
  }

  lemma {:induction false} PlacedHas(s: seq<Tx>, t: Tx, u: Tx)
    requires Increasing(s)
    ensures u in Placed(s, t) <==> u == t || (u in s && u.nonce != t.nonce)
  {
    var k, r := Cut(s, t.nonce), Placed(s, t);
    forall i: nat | i < |s| ensures s[i].nonce == t.nonce ==> i == k {
      CutAt(s, t.nonce, i);
      if k < |s| { CutAt(s, t.nonce, k); assert Before(s, k, i); }
    }
    if k < |s| && s[k].nonce == t.nonce {
      assert r[k] == t;
      if u in s && u.nonce != t.nonce { var i: nat :| i < |s| && s[i] == u; assert r[i] == u; }
      if u in r && u != t { var i: nat :| i < |r| && r[i] == u; assert s[i] == u; }
    } else {
      assert s == s[..k] + s[k..];
    }
  }

  lemma {:induction false} PlacedIncreasing(s: seq<Tx>, t: Tx)
    requires Increasing(s)
    ensures Increasing(Placed(s, t))
  {
    var k, r := Cut(s, t.nonce), Placed(s, t);
    if k < |s| { CutAt(s, t.nonce, k); }
    forall i: nat, j: nat ensures Before(r, i, j) {
      if i < j < |r| {
        assert Before(s, i, j);
        if i < |s| { CutAt(s, t.nonce, i); }
        if 0 < j <= |s| { CutAt(s, t.nonce, j - 1); assert Before(s, i, j - 1) && Before(s, k, j - 1); }
        if 0 < i { assert Before(s, i - 1, j - 1); }
      }
    }
  }

  lemma {:induction false} PartsIncrease(s: seq<Tx>, k: nat)
    requires Increasing(s) && k <= |s|
    ensures Increasing(s[..k]) && Increasing(s[k..])
  {
    forall i: nat, j: nat ensures Before(s[..k], i, j) && Before(s[k..], i, j) {
      assert Before(s, i, j) && Before(s, k + i, k + j);
    }
  }

  lemma {:induction false} NonceIsOne(s: seq<Tx>, t: Tx, u: Tx)
    requires Increasing(s) && t in s && u in s && t.nonce == u.nonce
    ensures t == u
  {
    var i: nat :| i < |s| && s[i] == t;
    var j: nat :| j < |s| && s[j] == u;
    assert Before(s, i, j) && Before(s, j, i);
  }

  /** A transaction is on one side of a cut only. */
  lemma {:induction false} Sides(s: seq<Tx>, k: nat, t: Tx)
    requires Increasing(s) && k <= |s|
    ensures t in s <==> t in s[..k] || t in s[k..]
    ensures !(t in s[..k] && t in s[k..])
  {
    assert s == s[..k] + s[k..];
    forall i: nat, j: nat | i < k && j < |s| - k ensures s[..k][i] != s[k..][j] { assert Before(s, i, k + j); }
  }

  /** With the caps as bounds, not filtering is filtering. */
  lemma {:induction false} NothingToFilter(s: seq<Tx>, costcap: int, gascap: nat, costLimit: int, gasLimit: nat)
    requires Capped(s, costcap, gascap) && costcap <= costLimit && gascap <= gasLimit
    ensures Unmatched(s, TooMuch(costLimit, gasLimit)) == s && FirstMatch(s, TooMuch(costLimit, gasLimit)) == |s|
  {
    forall t | t in s ensures !TooMuch(costLimit, gasLimit)(t) { assert Within(t, costcap, gascap); }
    NoneMatched(s, TooMuch(costLimit, gasLimit));
  }

  /** What a promotion takes out and does not hand over. */
  lemma {:induction false} PromotionParts(s: seq<Tx>, k: nat, f: Tx -> bool, m: nat, c: nat, t: Tx)
    requires Increasing(s) && k <= |s|
    requires m <= |Unmatched(s[k..], f)| && c <= |Unmatched(s[k..], f)| - m
    ensures var e := Unmatched(s[k..], f);
      (t in s[..k] || (t in s[k..] && f(t)) || t in e[m..][c..]) <==> (t in s && t !in e[..m] && t !in e[m..][..c])
  {
    var e := Unmatched(s[k..], f);
    Sides(s, k, t);
    PartsIncrease(s, k);
    UnmatchedIncreasing(s[k..], f);
    Sides(e, m, t);
    PartsIncrease(e, m);
    Sides(e[m..], c, t);
  }

  lemma {:induction false} SameBackwards(s: seq<Tx>, c: nat, r: seq<Tx>, t: Tx)
    requires c <= |s| && |r| == |s| - c && forall j: nat :: j < |r| ==> r[j] == s[|s| - 1 - j]
    ensures t in r <==> t in s[c..]
  {
    if t in r {
      var j: nat :| j < |r| && r[j] == t;
      assert s[c..][|s| - 1 - j - c] == t;
    }
    if t in s[c..] {
      var j: nat :| j < |s| - c && s[c..][j] == t;
      assert r[|s| - 1 - (c + j)] == t;
    }
  }

  /** From e what is ready at start is handed over, and of the rest as many kept as the limit allows. */
  ghost predicate TakenFrom(e: seq<Tx>, start: nat, limit: Option<nat>, ready: seq<Tx>, kept: seq<Tx>) {
    var m, c := |ready|, |kept|;
    && m <= |e| && ready == e[..m]
    && (if e == [] || e[0].nonce > start then m == 0 else MaximalRun(e, m))
    && c == (if limit.Some? && limit.value < |e| - m then limit.value else |e| - m) && kept == e[m..][..c]
  }

  class TxList {
    const strict: bool
    const txs: TxSortedMap
    var costcap: int
    var gascap: nat

    /** The caps bound every listed transaction. */
    ghost predicate Valid() reads this, txs {
      txs.Valid() && Capped(txs.view, costcap, gascap)
    }

    /** A cache, if any, is right. */
    ghost predicate Fresh() reads txs, this {
      txs.Fresh()
    }

    constructor (strict: bool)
      ensures Valid() && Fresh() && this.strict == strict && txs.view == [] && fresh(txs)
    {
      this.strict, costcap, gascap := strict, 0, 0;
      txs := new TxSortedMap();
    }

    method Add(t: Tx, priceBump: nat) returns (inserted: bool, replaced: Option<Tx>)
      requires Valid()
      modifies this, txs
      ensures Valid() && (old(Fresh()) || inserted ==> Fresh())
      ensures var prior := Find(old(txs.view), t.nonce);
        inserted == (prior.Some? ==> Outbids(prior.value, t, priceBump))
      ensures inserted ==> txs.view == Placed(old(txs.view), t) && replaced == Find(old(txs.view), t.nonce)
      ensures !inserted ==> txs.view == old(txs.view) && replaced.None?
    {
      FindIsGet(txs.view, txs.items, t.nonce);
      replaced := None;
      if t.nonce in txs.items {
        var prior := txs.items[t.nonce];
        var threshold := prior.price * (100 + priceBump) / 100;
        if prior.price >= t.price || t.price < threshold { return false, None; }
        replaced := Some(prior);
      }
      Insert(t);
      inserted := true;
    }

    method Insert(t: Tx)
      requires Valid()
      modifies this, txs
      ensures Valid() && Fresh() && txs.view == Placed(old(txs.view), t)
    {
      ghost var before := txs.view;
      txs.Put(t);
      if costcap < t.cost { costcap := t.cost; }
      if gascap < t.gas { gascap := t.gas; }
      forall u | u in txs.view ensures Within(u, costcap, gascap) {
        PlacedHas(before, t, u);
        assert u in before ==> Within(u, old(costcap), old(gascap));
      }
    }

    /** The full filter, whether or not the caps cut it short. */
    method Filter(costLimit: int, gasLimit: nat) returns (removed: set<Tx>, invalid: seq<Tx>)
      requires Valid()
      modifies this, txs
      ensures Valid() && (old(Fresh()) ==> Fresh())
      ensures !strict ==> txs.view == Unmatched(old(txs.view), TooMuch(costLimit, gasLimit)) && invalid == []
      ensures !strict ==> removed == set t | t in old(txs.view) && TooMuch(costLimit, gasLimit)(t)
      ensures strict ==> txs.view == old(txs.view)[..FirstMatch(old(txs.view), TooMuch(costLimit, gasLimit))]
      ensures strict && old(Fresh()) ==> SplitAt(old(txs.view), |txs.view|, removed, invalid)
      ensures strict && old(costcap) <= costLimit && old(gascap) <= gasLimit ==> removed == {} && invalid == []
      ensures strict && !(old(costcap) <= costLimit && old(gascap) <= gasLimit) ==>
        SplitAt(old(txs.Cached()), FirstMatch(old(txs.Cached()), TooMuch(costLimit, gasLimit)), removed, invalid)
    {
      if costcap <= costLimit && gascap <= gasLimit {
        NothingToFilter(txs.view, costcap, gascap, costLimit, gasLimit);
        forall t | t in txs.view ensures !TooMuch(costLimit, gasLimit)(t) { assert Within(t, costcap, gascap); }
        return {}, [];
      }
      costcap, gascap := costLimit, gasLimit;
      removed, invalid := txs.Filter(TooMuch(costLimit, gasLimit), strict);
      forall t | t in txs.view ensures Within(t, costLimit, gasLimit) {
        assert !TooMuch(costLimit, gasLimit)(t);
      }
    }

    method Forward(threshold: nat) returns (removed: seq<Tx>)
      requires Valid()
      modifies txs
      ensures Valid() && (old(Fresh()) ==> Fresh())
      ensures removed == old(txs.view)[..Cut(old(txs.view), threshold)]
      ensures txs.view == old(txs.view)[Cut(old(txs.view), threshold)..]
    {
      removed := txs.Forward(threshold);
    }

    method Cap(threshold: nat) returns (removed: seq<Tx>)
      requires Valid()
      modifies txs
      ensures Valid() && (old(Fresh()) ==> Fresh())
      ensures txs.view == old(txs.view)[..if |old(txs.view)| <= threshold then |old(txs.view)| else threshold]
      ensures |removed| == |old(txs.view)| - |txs.view|
      ensures forall j: nat :: j < |removed| ==> removed[j] == old(txs.view)[|old(txs.view)| - 1 - j]
    {
      removed := txs.Cap(threshold);
    }

    method Ready(start: nat) returns (ready: seq<Tx>)
      requires Valid()
      modifies txs
      ensures Valid() && |ready| <= |old(txs.view)|
      ensures ready == old(txs.view)[..|ready|] && txs.view == old(txs.view)[|ready|..]
      ensures old(txs.view) == [] || old(txs.view)[0].nonce > start ==> ready == []
      ensures old(txs.view) != [] && old(txs.view)[0].nonce <= start ==> MaximalRun(old(txs.view), |ready|)
      ensures Fresh() <==> if ready == [] then old(Fresh()) else old(txs.cache).None? || txs.view != []
    {
      ready := txs.Ready(start);
    }

    method ForLast(n: nat) returns (last: seq<Tx>)
      requires Valid()
      modifies txs
      ensures Valid() && (old(Fresh()) ==> Fresh())
      ensures txs.view == old(txs.view)[..LastFrom(old(txs.view), n)]
      ensures old(Fresh()) || old(txs.view) != [] ==> last == old(txs.view)[LastFrom(old(txs.view), n)..]
    {
      last := txs.ForLast(n);
    }

    predicate Empty()
      reads this, txs
    {
      |txs.items| == 0
    }

    /** Forward and then filter: what is stale or too expensive goes. */
    method Drop(nonce: nat, costLimit: int, gasLimit: nat) returns (removed: set<Tx>)
      requires Valid() && !strict
      modifies this, txs
      ensures Valid()
      ensures var s, k, f := old(txs.view), Cut(old(txs.view), nonce), TooMuch(costLimit, gasLimit);
        txs.view == Unmatched(s[k..], f) && forall t :: t in removed <==> t in s[..k] || (t in s[k..] && f(t))
    {
      var stale := Forward(nonce);
      var costly, invalid := Filter(costLimit, gasLimit);
      removed := (set t | t in stale) + costly;
    }

    /** Hand over what is ready, then cap. */
    method Take(start: nat, limit: Option<nat>) returns (ready: seq<Tx>, over: seq<Tx>)
      requires Valid()
      modifies txs
      ensures Valid() && TakenFrom(old(txs.view), start, limit, ready, txs.view)
      ensures forall t :: t in over <==> t in old(txs.view)[|ready|..][|txs.view|..]
    {
      ready := Ready(start);
      ghost var late := txs.view;
      over := [];
      if limit.Some? { over := Cap(limit.value); }
      forall t ensures t in over <==> t in late[|txs.view|..] { SameBackwards(late, |txs.view|, over, t); }
    }

    /**
     The queue's part of a promotion: forward, filter, hand over, cap, and discard if empty.
     The hand-over may leave a stale cache, but only in a list that is discarded.
     */
    method Promote(nonce: nat, costLimit: int, gasLimit: nat, start: nat, limit: Option<nat>)
      returns (removed: set<Tx>, ready: seq<Tx>, discard: bool)
      requires Valid() && !strict
      modifies this, txs
      ensures Valid() && (discard <==> txs.view == []) && (!discard ==> Fresh())
      ensures var e := Unmatched(old(txs.view)[Cut(old(txs.view), nonce)..], TooMuch(costLimit, gasLimit));
        TakenFrom(e, start, limit, ready, txs.view)
      ensures forall t :: t in removed <==> t in old(txs.view) && t !in ready && t !in txs.view
    {
      ghost var s, k, f := txs.view, Cut(txs.view, nonce), TooMuch(costLimit, gasLimit);
      var gone := Drop(nonce, costLimit, gasLimit);
      var over;
      ready, over := Take(start, limit);
      removed := gone + set t | t in over;
      CountLists(txs.view, txs.items);
      discard := Empty();
      forall t ensures t in removed <==> t in s && t !in ready && t !in txs.view {
        PromotionParts(s, k, f, |ready|, |txs.view|, t);
      }
    }

    method Remove(t: Tx) returns (found: bool, invalid: seq<Tx>)
      requires Valid()
      modifies txs
      ensures Valid() && (old(Fresh()) || found ==> Fresh())
      ensures found == Find(old(txs.view), t.nonce).Some?
      ensures !found ==> txs.view == old(txs.view) && invalid == []
      ensures found && strict ==> txs.view == old(txs.view)[..Cut(old(txs.view), t.nonce)]
      ensures found && strict ==> invalid == old(txs.view)[Cut(old(txs.view), t.nonce) + 1..]
      ensures found && !strict ==> invalid == []
      ensures found && !strict ==> var k := Cut(old(txs.view), t.nonce);
        txs.view == old(txs.view)[..k] + old(txs.view)[k + 1..]
    {
      FindIsGet(txs.view, txs.items, t.nonce);
      found, invalid := txs.Remove(t.nonce, strict);
    }
  }
}
