/**
 Transactions of one account by nonce (txSortedMap in core/tx_list.go): a map, a heap
 of its nonces, and a cache of the transactions in nonce order.
 */
module SortedMap {
  import opened Wrappers

  datatype Tx = Tx(id: nat, sender: nat, nonce: nat, price: nat, cost: int, gas: nat)

  type Items = map<nat, Tx>

  // ---- Nonce order -------------------------------------------------------------------

  predicate Before(s: seq<Tx>, i: nat, j: nat) {
    i < j < |s| ==> s[i].nonce < s[j].nonce
  }

  ghost predicate Increasing(s: seq<Tx>) {
    forall i: nat, j: nat :: Before(s, i, j)
  }

  predicate Stored(s: seq<Tx>, items: Items, i: nat) {
    i < |s| ==> s[i].nonce in items && items[s[i].nonce] == s[i]
  }

  ghost predicate Has(s: seq<Tx>, n: nat) {
    exists i: nat :: i < |s| && s[i].nonce == n
  }

  ghost predicate Listed(s: seq<Tx>, items: Items, n: nat) {
    n in items ==> Has(s, n)
  }

  /** s lists the items in nonce order. */
  ghost predicate Lists(s: seq<Tx>, items: Items) {
    && Increasing(s)
    && (forall i: nat :: Stored(s, items, i))
    && (forall n: nat :: Listed(s, items, n))
  }

  /** An item and where it is listed. */
  lemma Locate(s: seq<Tx>, items: Items, n: nat) returns (i: nat)
    requires Lists(s, items) && n in items
    ensures i < |s| && s[i] == items[n] && items[n].nonce == n
  {
    assert Listed(s, items, n);
    i :| i < |s| && s[i].nonce == n;
    assert Stored(s, items, i);
  }

  /** Removing the nonces of a front part, or of a back part, leaves the other part. */
  lemma {:induction false} ListsParts(s: seq<Tx>, items: Items, k: nat, rest: Items, front: Items)
    requires Lists(s, items) && k <= |s|
    requires forall n: nat :: n in rest <==> n in items && !Has(s[..k], n)
    requires forall n: nat :: n in front <==> n in items && !Has(s[k..], n)
    requires forall n :: n in rest ==> rest[n] == items[n]
    requires forall n :: n in front ==> front[n] == items[n]
    ensures Lists(s[k..], rest) && Lists(s[..k], front)
  {
    var a, b := s[..k], s[k..];
    forall i: nat, j: nat ensures Before(a, i, j) && Before(b, i, j) {
      assert Before(s, i, j) && Before(s, i + k, j + k);
    }
    forall i: nat ensures Stored(b, rest, i) {
      if i < |b| {
        assert Stored(s, items, i + k);
        forall j: nat | j < k ensures a[j].nonce != b[i].nonce { assert Before(s, j, i + k); }
      }
    }
    forall i: nat ensures Stored(a, front, i) {
      if i < k {
        assert Stored(s, items, i);
        forall j: nat | j < |b| ensures b[j].nonce != a[i].nonce { assert Before(s, i, j + k); }
      }
    }
    forall n: nat ensures Listed(b, rest, n) && Listed(a, front, n) {
      if n in items {
        var i := Locate(s, items, n);
        if i < k { assert a[i].nonce == n; } else { assert b[i - k].nonce == n; }
      }
    }
  }

  lemma {:induction false} BackStays(s: seq<Tx>, items: Items, k: nat, rest: Items)
    requires Lists(s, items) && k <= |s|
    requires forall n: nat :: n in rest <==> n in items && !Has(s[..k], n)
    requires forall n :: n in rest ==> rest[n] == items[n]
    ensures Lists(s[k..], rest)
  {
    ListsParts(s, items, k, rest, map n: nat | n in items && !Has(s[k..], n) :: items[n]);
  }

  lemma {:induction false} FrontStays(s: seq<Tx>, items: Items, k: nat, front: Items)
    requires Lists(s, items) && k <= |s|
    requires forall n: nat :: n in front <==> n in items && !Has(s[k..], n)
    requires forall n :: n in front ==> front[n] == items[n]
    ensures Lists(s[..k], front)
  {
    ListsParts(s, items, k, map n: nat | n in items && !Has(s[..k], n) :: items[n], front);
  }

  /** Removing the last nonce. */
  lemma {:induction false} LastGoes(s: seq<Tx>, items: Items)
    requires Lists(s, items) && s != []
    ensures var t := s[|s| - 1];
      t.nonce in items && items[t.nonce] == t && Lists(s[..|s| - 1], items - {t.nonce})
  {
    var k := |s| - 1;
    assert Stored(s, items, k);
    forall m: nat ensures Has(s[k..], m) <==> m == s[k].nonce { assert s[k..][0].nonce == s[k].nonce; }
    FrontStays(s, items, k, items - {s[k].nonce});
  }

  lemma {:induction false} CountLists(s: seq<Tx>, items: Items)
    requires Lists(s, items)
    ensures |items| == |s|
  {
    if s == [] {
      forall n: nat ensures n !in items { assert Listed(s, items, n); }
      assert items.Keys == {};
    } else {
      var k, n := |s| - 1, s[|s| - 1].nonce;
      var front := items - {n};
      LastGoes(s, items);
      CountLists(s[..k], front);
      assert items.Keys == front.Keys + {n};
    }
  }

  /** Two listings of the same items are equal. */
  lemma {:induction false} ListsIsOne(s: seq<Tx>, t: seq<Tx>, items: Items)
    requires Lists(s, items) && Lists(t, items)
    ensures s == t
  {
    CountLists(s, items);
    CountLists(t, items);
    forall i: nat | i < |s| ensures s[i] == t[i] { SameAt(s, t, items, i); }
  }

  lemma {:induction false} SameAt(s: seq<Tx>, t: seq<Tx>, items: Items, i: nat)
    requires Lists(s, items) && Lists(t, items) && |s| == |t| && i < |s|
    ensures s[i] == t[i]
  {
    forall j: nat | j < i ensures s[j] == t[j] { SameAt(s, t, items, j); }
    assert Stored(s, items, i) && Stored(t, items, i);
    var j := Locate(t, items, s[i].nonce);
    var k := Locate(s, items, t[i].nonce);
    assert Before(t, i, j) && Before(s, i, k) && Before(s, j, i) && Before(t, k, i);
  }

  /** How many nonces are below n. */
  function Cut(s: seq<Tx>, n: nat): (k: nat)
    ensures k <= |s|
  {
    if s == [] || s[0].nonce >= n then 0 else 1 + Cut(s[1..], n)
  }

  lemma {:induction false} CutAt(s: seq<Tx>, n: nat, i: nat)
    requires Increasing(s) && i < |s|
    ensures s[i].nonce < n <==> i < Cut(s, n)
  {
    assert Before(s, 0, i);
    if s[0].nonce < n && i > 0 {
      forall a: nat, b: nat ensures Before(s[1..], a, b) { assert Before(s, a + 1, b + 1); }
      CutAt(s[1..], n, i - 1);
    }
  }

  /** The listed item with a given nonce. */
  lemma {:induction false} FindIn(s: seq<Tx>, items: Items, n: nat)
    requires Lists(s, items) && n in items
    ensures Cut(s, n) < |s| && s[Cut(s, n)] == items[n] && items[n].nonce == n
  {
    var i := Locate(s, items, n);
    CutAt(s, n, i);
    var k := Cut(s, n);
    CutAt(s, n, k);
    assert Before(s, k, i);
  }

  /** s with t in its place, replacing one of the same nonce. */
  function Placed(s: seq<Tx>, t: Tx): seq<Tx> {
    var k := Cut(s, t.nonce);
    if k < |s| && s[k].nonce == t.nonce then s[k := t] else s[..k] + [t] + s[k..]
  }

  lemma {:induction false} ReplacedLists(s: seq<Tx>, items: Items, t: Tx, k: nat)
    requires Lists(s, items) && k < |s| && s[k].nonce == t.nonce
    ensures Lists(s[k := t], items[t.nonce := t])
  {
    var r, items' := s[k := t], items[t.nonce := t];
    forall i: nat, j: nat ensures Before(r, i, j) { assert Before(s, i, j); }
    forall i: nat ensures Stored(r, items', i) {
      assert Stored(s, items, i) && Before(s, i, k) && Before(s, k, i);
    }
    forall n: nat ensures Listed(r, items', n) {
      if n in items {
        var i := Locate(s, items, n);
        assert r[i].nonce == n;
      } else if n in items' {
        assert r[k].nonce == n;
      }
    }
  }

  lemma {:induction false} InsertedLists(s: seq<Tx>, items: Items, t: Tx, k: nat)
    requires Lists(s, items) && k <= |s| && t.nonce !in items
    requires forall i: nat :: i < |s| ==> (s[i].nonce < t.nonce <==> i < k)
    ensures Lists(s[..k] + [t] + s[k..], items[t.nonce := t])
  {
    var r, items' := s[..k] + [t] + s[k..], items[t.nonce := t];
    forall i: nat | i < |s| ensures s[i].nonce != t.nonce { assert Stored(s, items, i); }
    forall i: nat, j: nat ensures Before(r, i, j) {
      if i < j < |r| {
        var i', j' := if i < k then i else i - 1, if j < k then j else j - 1;
        if i' >= 0 && j' >= 0 { assert Before(s, i', j'); }
      }
    }
    forall i: nat ensures Stored(r, items', i) {
      if i < k { assert Stored(s, items, i); } else if i > k { assert Stored(s, items, i - 1); }
    }
    forall n: nat ensures Listed(r, items', n) {
      if n in items {
        var i := Locate(s, items, n);
        assert r[if i < k then i else i + 1].nonce == n;
      } else if n in items' {
        assert r[k].nonce == n;
      }
    }
  }

  lemma {:induction false} PlacedLists(s: seq<Tx>, items: Items, t: Tx)
    requires Lists(s, items)
    ensures Lists(Placed(s, t), items[t.nonce := t])
  {
    var k := Cut(s, t.nonce);
    if k < |s| && s[k].nonce == t.nonce {
      ReplacedLists(s, items, t, k);
    } else {
      if t.nonce in items { FindIn(s, items, t.nonce); }
      forall i: nat | i < |s| ensures s[i].nonce < t.nonce <==> i < k { CutAt(s, t.nonce, i); }
      InsertedLists(s, items, t, k);
    }
  }

  /** Removing one nonce from the middle. */
  lemma {:induction false} OneGoes(s: seq<Tx>, items: Items, k: nat)
    requires Lists(s, items) && k < |s|
    ensures Lists(s[..k] + s[k + 1..], items - {s[k].nonce})
  {
    var r, items' := s[..k] + s[k + 1..], items - {s[k].nonce};
    forall i: nat, j: nat ensures Before(r, i, j) {
      assert Before(s, i, j) && Before(s, i, j + 1) && Before(s, i + 1, j + 1);
    }
    forall i: nat ensures Stored(r, items', i) {
      assert Stored(s, items, i) && Stored(s, items, i + 1) && Before(s, i, k) && Before(s, k, i + 1);
    }
    forall n: nat ensures Listed(r, items', n) {
      if n in items' {
        var i := Locate(s, items, n);
        assert r[if i < k then i else i - 1].nonce == n;
      }
    }
  }

  /** The items without those listed in txs. */
  method DeleteAll(items: Items, txs: seq<Tx>) returns (rest: Items)
    ensures forall n: nat :: n in rest <==> n in items && !Has(txs, n)
    ensures forall n :: n in rest ==> rest[n] == items[n]
  {
    rest := items;
    for k := 0 to |txs|
      invariant forall n: nat :: n in rest <==> n in items && !Has(txs[..k], n)
      invariant forall n :: n in rest ==> rest[n] == items[n]
    {
      forall n: nat ensures Has(txs[..k + 1], n) <==> Has(txs[..k], n) || n == txs[k].nonce {
        if n == txs[k].nonce { assert txs[..k + 1][k].nonce == n; }
        if Has(txs[..k], n) {
          var i: nat :| i < k && txs[..k][i].nonce == n;
          assert txs[..k + 1][i].nonce == n;
        }
        if Has(txs[..k + 1], n) && n != txs[k].nonce {
          var i: nat :| i < k + 1 && txs[..k + 1][i].nonce == n;
          assert txs[..k][i].nonce == n;
        }
      }
      rest := rest - {txs[k].nonce};
    }
    assert txs[..|txs|] == txs;
  }

  // ---- Filtering and runs ---------------------------------------------------------------

  /** The first index whose transaction matches, or the length. */
  function FirstMatch(s: seq<Tx>, f: Tx -> bool): (i: nat)
    ensures i <= |s| && (i < |s| ==> f(s[i])) && forall j: nat :: j < i ==> !f(s[j])
  {
    if s == [] || f(s[0]) then 0 else 1 + FirstMatch(s[1..], f)
  }

  /** Those that do not match. */
  function Unmatched(s: seq<Tx>, f: Tx -> bool): (r: seq<Tx>)
    ensures forall t :: t in r <==> t in s && !f(t)
  {
    if s == [] then [] else
    var k := |s| - 1;
    assert s == s[..k] + [s[k]];
    if f(s[k]) then Unmatched(s[..k], f) else Unmatched(s[..k], f) + [s[k]]
  }

  lemma {:induction false} UnmatchedIncreasing(s: seq<Tx>, f: Tx -> bool)
    requires Increasing(s)
    ensures Increasing(Unmatched(s, f))
  {
    var r := Unmatched(s, f);
    if s != [] {
      var k := |s| - 1;
      var p := s[..k];
      forall i: nat, j: nat ensures Before(p, i, j) { assert Before(s, i, j); }
      UnmatchedIncreasing(p, f);
      var q := Unmatched(p, f);
      forall i: nat, j: nat ensures Before(r, i, j) {
        assert Before(q, i, j);
        if i < |q| {
          assert q[i] in p;
          var m: nat :| m < k && p[m] == q[i];
          assert Before(s, m, k);
        }
      }
    }
  }

  lemma {:induction false} UnmatchedLists(s: seq<Tx>, items: Items, f: Tx -> bool, rest: Items)
    requires Lists(s, items)
    requires forall n: nat :: n in rest <==> n in items && !f(items[n])
    requires forall n :: n in rest ==> rest[n] == items[n]
    ensures Lists(Unmatched(s, f), rest)
  {
    var r := Unmatched(s, f);
    UnmatchedIncreasing(s, f);
    forall i: nat ensures Stored(r, rest, i) {
      if i < |r| {
        assert r[i] in r;
        var m: nat :| m < |s| && s[m] == r[i];
        assert Stored(s, items, m);
      }
    }
    forall n: nat ensures Listed(r, rest, n) {
      if n in rest {
        var i := Locate(s, items, n);
        assert s[i] in r;
        var j: nat :| j < |r| && r[j] == s[i];
        assert r[j].nonce == n;
      }
    }
  }

  lemma {:induction false} MatchedItems(s: seq<Tx>, items: Items, f: Tx -> bool)
    requires Lists(s, items)
    ensures (set n | n in items && f(items[n]) :: items[n]) == set t | t in s && f(t)
  {
    forall n | n in items ensures items[n] in s { var i := Locate(s, items, n); }
    forall t | t in s ensures t.nonce in items && items[t.nonce] == t {
      var i: nat :| i < |s| && s[i] == t;
      assert Stored(s, items, i);
    }
  }

  lemma {:induction false} NoneMatched(s: seq<Tx>, f: Tx -> bool)
    requires forall t :: t in s ==> !f(t)
    ensures Unmatched(s, f) == s
  {
    if s != [] {
      var k := |s| - 1;
      assert s == s[..k] + [s[k]];
      NoneMatched(s[..k], f);
    }
  }

  /** The k first nonces are consecutive and no longer run is. */
  ghost predicate MaximalRun(s: seq<Tx>, k: nat) {
    && 0 < k <= |s|
    && (forall i: nat :: i < k ==> s[i].nonce == s[0].nonce + i)
    && (k < |s| ==> s[k].nonce != s[0].nonce + k)
  }

  lemma {:induction false} RunIsOne(s: seq<Tx>, k: nat, m: nat)
    requires MaximalRun(s, k) && MaximalRun(s, m)
    ensures k == m
  {
  }

  // ---- The nonce heap (container/heap and sort of Go's library, by what they promise) -----

  predicate Under(h: seq<nat>, i: nat) {
    0 < i < |h| ==> h[(i - 1) / 2] <= h[i]
  }

  ghost predicate IsHeap(h: seq<nat>) {
    forall i: nat :: Under(h, i)
  }

  lemma {:induction false} HeapRoot(h: seq<nat>, i: nat)
    requires IsHeap(h) && i < |h|
    ensures h[0] <= h[i]
  {
    assert Under(h, i);
    if i > 0 { HeapRoot(h, (i - 1) / 2); }
  }

  ghost predicate Ascending(h: seq<nat>) {
    forall i, j :: 0 <= i < j < |h| ==> h[i] <= h[j]
  }

  method InsertAscending(h: seq<nat>, x: nat) returns (r: seq<nat>)
    requires Ascending(h)
    ensures Ascending(r) && multiset(r) == multiset(h) + multiset{x} && |r| == |h| + 1
  {
    var i := 0;
    while i < |h| && h[i] < x
      invariant 0 <= i <= |h| && forall j :: 0 <= j < i ==> h[j] < x
    {
      i := i + 1;
    }
    assert h == h[..i] + h[i..];
    r := h[..i] + [x] + h[i..];
  }

  method Sort(h: seq<nat>) returns (r: seq<nat>)
    ensures Ascending(r) && multiset(r) == multiset(h) && |r| == |h|
  {
    r := [];
    for n := 0 to |h|
      invariant Ascending(r) && multiset(r) == multiset(h[..n]) && |r| == n
    {
      assert h[..n + 1] == h[..n] + [h[n]];
      r := InsertAscending(r, h[n]);
    }
    assert h[..|h|] == h;
  }

  method HeapInit(h: seq<nat>) returns (r: seq<nat>)
    ensures IsHeap(r) && multiset(r) == multiset(h)
  {
    r := Sort(h);
  }

  method HeapPush(h: seq<nat>, x: nat) returns (r: seq<nat>)
    requires IsHeap(h)
    ensures IsHeap(r) && multiset(r) == multiset(h) + multiset{x}
  {
    r := HeapInit(h + [x]);
  }

  method HeapPop(h: seq<nat>) returns (x: nat, r: seq<nat>)
    requires IsHeap(h) && h != []
    ensures x == h[0] && IsHeap(r) && multiset(h) == multiset(r) + multiset{x}
  {
    x := h[0];
    assert h == [h[0]] + h[1..];
    r := HeapInit(h[1..]);
  }

  method HeapRemove(h: seq<nat>, i: nat) returns (r: seq<nat>)
    requires IsHeap(h) && i < |h|
    ensures IsHeap(r) && multiset(h) == multiset(r) + multiset{h[i]}
  {
    assert h == h[..i] + [h[i]] + h[i + 1..];
    r := HeapInit(h[..i] + h[i + 1..]);
  }

  predicate Counted(h: seq<nat>, items: Items, n: nat) {
    multiset(h)[n] == if n in items then 1 else 0
  }

  /** The heap holds exactly the map's nonces, each once. */
  ghost predicate Indexes(h: seq<nat>, items: Items) {
    IsHeap(h) && forall n: nat :: Counted(h, items, n)
  }

  lemma InHeap(h: seq<nat>, items: Items, n: nat)
    requires Indexes(h, items)
    ensures n in h <==> n in items
  {
    assert Counted(h, items, n);
    assert n in h <==> n in multiset(h);
  }

  /** The heap of a map's nonces, built from scratch. */
  method Rebuild(items: Items) returns (r: seq<nat>)
    ensures Indexes(r, items)
  {
    var rest := items.Keys;
    r := [];
    while rest != {}
      invariant rest <= items.Keys
      invariant forall n: nat :: multiset(r)[n] == if n in items && n !in rest then 1 else 0
      decreases rest
    {
      var n :| n in rest;
      r := r + [n];
      rest := rest - {n};
    }
    r := HeapInit(r);
    forall n: nat ensures Counted(r, items, n) {}
  }

  lemma PushIndexes(h: seq<nat>, r: seq<nat>, t: Tx, items: Items)
    requires Indexes(h, items) && t.nonce !in items && IsHeap(r) && multiset(r) == multiset(h) + multiset{t.nonce}
    ensures Indexes(r, items[t.nonce := t])
  {
    var items' := items[t.nonce := t];
    forall n: nat ensures Counted(r, items', n) { assert Counted(h, items, n); }
  }

  lemma PopIndexes(h: seq<nat>, r: seq<nat>, x: nat, items: Items)
    requires Indexes(h, items) && x in items && IsHeap(r) && multiset(h) == multiset(r) + multiset{x}
    ensures Indexes(r, items - {x})
  {
    var items' := items - {x};
    forall n: nat ensures Counted(r, items', n) { assert Counted(h, items, n); }
  }

  lemma {:induction false} NoRepeats(h: seq<nat>, items: Items, i: nat, j: nat)
    requires (forall n: nat :: Counted(h, items, n)) && i < j < |h|
    ensures h[i] != h[j]
  {
    assert h == h[..i] + [h[i]] + h[i + 1..j] + [h[j]] + h[j + 1..];
    assert Counted(h, items, h[i]);
  }

  /** The items under ascending nonces are a listing. */
  lemma {:induction false} AscendingLists(h: seq<nat>, items: Items, s: seq<Tx>)
    requires Ascending(h) && (forall n: nat :: Counted(h, items, n)) && |s| == |h|
    requires forall n :: n in items ==> items[n].nonce == n
    requires forall i: nat :: i < |h| ==> h[i] in items && s[i] == items[h[i]]
    ensures Lists(s, items)
  {
    forall i: nat, j: nat ensures Before(s, i, j) {
      if i < j < |s| { NoRepeats(h, items, i, j); }
    }
    forall i: nat ensures Stored(s, items, i) {}
    forall n: nat ensures Listed(s, items, n) {
      assert Counted(h, items, n);
      if n in items {
        assert n in h;
        var i: nat :| i < |h| && h[i] == n;
        assert s[i].nonce == n;
      }
    }
  }

  /** The first listed item has the nonce at the root of the heap. */
  lemma {:induction false} RootIsFirst(s: seq<Tx>, items: Items, h: seq<nat>)
    requires Lists(s, items) && Indexes(h, items)
    ensures h == [] <==> s == []
    ensures s != [] ==> h[0] == s[0].nonce && h[0] in items && items[h[0]] == s[0]
  {
    if s != [] {
      assert Stored(s, items, 0);
      InHeap(h, items, s[0].nonce);
      var i: nat :| i < |h| && h[i] == s[0].nonce;
      HeapRoot(h, i);
      InHeap(h, items, h[0]);
      var j := Locate(s, items, h[0]);
      assert Before(s, 0, j);
    }
    if h != [] {
      InHeap(h, items, h[0]);
      var j := Locate(s, items, h[0]);
    }
  }

  lemma {:induction false} HasOne(s: seq<Tx>, n: nat)
    requires s != []
    ensures Has(s[..1], n) <==> n == s[0].nonce
  {
    assert s[..1][0] == s[0];
  }

  /** The items in nonce order (a slice of the items, sorted by nonce). */
  method SortedItems(items: Items, ghost view: seq<Tx>) returns (s: seq<Tx>)
    requires Lists(view, items)
    ensures s == view
  {
    var h := Rebuild(items);
    var nonces := Sort(h);
    forall n: nat ensures Counted(nonces, items, n) { assert Counted(h, items, n); }
    forall i: nat | i < |nonces| ensures nonces[i] in items {
      assert nonces[i] in multiset(nonces);
      assert Counted(nonces, items, nonces[i]);
    }
    s := [];
    for i := 0 to |nonces|
      invariant |s| == i && forall j: nat :: j < i ==> s[j] == items[nonces[j]]
    {
      s := s + [items[nonces[i]]];
    }
    forall n | n in items ensures items[n].nonce == n { var i := Locate(view, items, n); }
    AscendingLists(nonces, items, s);
    ListsIsOne(s, view, items);
  }

  /** The nonces of a heap in order are the listed nonces in order. */
  lemma {:induction false} SortedIndex(h: seq<nat>, view: seq<Tx>, items: Items)
    requires Lists(view, items) && Ascending(h) && forall n: nat :: Counted(h, items, n)
    ensures |h| == |view| && forall i: nat :: i < |h| ==> h[i] == view[i].nonce
  {
    forall n | n in items ensures items[n].nonce == n { var i := Locate(view, items, n); }
    forall i: nat | i < |h| ensures h[i] in items {
      assert h[i] in multiset(h);
      assert Counted(h, items, h[i]);
    }
    var s := seq(|h|, i requires 0 <= i < |h| => items[h[i]]);
    AscendingLists(h, items, s);
    ListsIsOne(s, view, items);
  }

  lemma {:induction false} LastIndexGoes(h: seq<nat>, items: Items)
    requires Indexes(h, items) && Ascending(h) && h != []
    ensures h[|h| - 1] in items && Indexes(h[..|h| - 1], items - {h[|h| - 1]})
  {
    var k := |h| - 1;
    assert h == h[..k] + [h[k]];
    InHeap(h, items, h[k]);
    forall i: nat ensures Under(h[..k], i) { assert Under(h, i); }
    PopIndexes(h, h[..k], h[k], items);
  }

  /** Taking the root off the heap and its item off the map removes the first listed. */
  lemma {:induction false} PopFirst(s: seq<Tx>, items: Items, h: seq<nat>, r: seq<nat>)
    requires Lists(s, items) && Indexes(h, items) && h != []
    requires IsHeap(r) && multiset(h) == multiset(r) + multiset{h[0]}
    ensures s != [] && h[0] == s[0].nonce && h[0] in items && items[h[0]] == s[0]
    ensures Lists(s[1..], items - {h[0]}) && Indexes(r, items - {h[0]})
  {
    RootIsFirst(s, items, h);
    PopIndexes(h, r, h[0], items);
    forall n: nat ensures Has(s[..1], n) <==> n == h[0] { HasOne(s, n); }
    BackStays(s, items, 1, items - {h[0]});
  }

  method SortIndex(h: seq<nat>, ghost view: seq<Tx>, ghost items: Items) returns (r: seq<nat>)
    requires Lists(view, items) && Indexes(h, items)
    ensures |r| == |view| && Ascending(r) && Indexes(r, items)
  {
    r := Sort(h);
    forall n: nat ensures Counted(r, items, n) { assert Counted(h, items, n); }
    SortedIndex(r, view, items);
    forall i: nat ensures Under(r, i) {}
  }

  method HeapAgain(h: seq<nat>, ghost items: Items) returns (r: seq<nat>)
    requires Indexes(h, items)
    ensures Indexes(r, items)
  {
    r := HeapInit(h);
    forall n: nat ensures Counted(r, items, n) { assert Counted(h, items, n); }
  }

  /** Only the first of the sorted heap, and of the listing, are left. */
  ghost predicate Shortened(h: seq<nat>, all: seq<Tx>, size: nat, items: Items) {
    size <= |all| == |h| && Ascending(h) && Lists(all[..size], items) && Indexes(h[..size], items)
  }

  lemma {:induction false} ShortenedStep(h: seq<nat>, all: seq<Tx>, size: nat, items: Items)
    requires Shortened(h, all, size, items) && size > 0
    ensures h[size - 1] in items && items[h[size - 1]] == all[size - 1]
    ensures Shortened(h, all, size - 1, items - {h[size - 1]})
  {
    var s, g := all[..size], h[..size];
    LastGoes(s, items);
    LastIndexGoes(g, items);
    SortedIndex(g, s, items);
    assert s[..size - 1] == all[..size - 1] && g[..size - 1] == h[..size - 1];
  }

  /** What a strict filter or removal hands over when it cuts a list at its i-th transaction. */
  ghost predicate SplitAt(s: seq<Tx>, i: nat, removed: set<Tx>, invalid: seq<Tx>) {
    if i < |s| then removed == {s[i]} && invalid == s[i + 1..] else removed == {} && invalid == []
  }

  /** Where the last n begin. */
  function LastFrom(s: seq<Tx>, n: nat): (i: nat)
    ensures i <= |s|
  {
    if n <= |s| then |s| - n else 0
  }

  lemma {:induction false} EmptyListing(items: Items)
    requires Lists([], items)
    ensures items == map[]
  {
    forall n: nat ensures n !in items { assert Listed([], items, n); }
  }

  // ---- The map, its heap and its cache ------------------------------------------------------

  class TxSortedMap {
    var items: Items
    var index: seq<nat>
    var cache: Option<seq<Tx>>
    ghost var view: seq<Tx>

    /** The heap holds the map's nonces; a cache, if any, is right unless the map is empty. */
    ghost predicate Valid() reads this {
      && Lists(view, items) && Indexes(index, items)
      && (cache.Some? && view != [] ==> cache.value == view)
    }

    /** A cache, if any, is right. */
    ghost predicate Fresh() reads this {
      cache.Some? ==> cache.value == view
    }

    /** What the cache holds, or would if it were made now. */
    ghost function Cached(): seq<Tx> reads this {
      if cache.Some? then cache.value else view
    }

    constructor ()
      ensures Valid() && Fresh() && view == [] && items == map[]
    {
      items, index, cache, view := map[], [], None, [];
      new;
      forall n: nat ensures Listed(view, items, n) && Counted(index, items, n) {}
      forall i: nat ensures Stored(view, items, i) && Under(index, i) {}
      forall i: nat, j: nat ensures Before(view, i, j) {}
    }

    method Put(t: Tx)
      requires Valid()
      modifies this
      ensures Valid() && Fresh()
      ensures items == old(items)[t.nonce := t] && view == Placed(old(view), t)
    {
      PlacedLists(view, items, t);
      if t.nonce !in items {
        var h := HeapPush(index, t.nonce);
        PushIndexes(index, h, t, items);
        index := h;
      } else {
        var items' := items[t.nonce := t];
        forall n: nat ensures Counted(index, items', n) { assert Counted(index, items, n); }
      }
      items, cache := items[t.nonce := t], None;
      view := Placed(view, t);
    }

    /** Removes, in order, every transaction below the threshold. */
    method Forward(threshold: nat) returns (removed: seq<Tx>)
      requires Valid()
      modifies this
      ensures Valid() && (old(Fresh()) ==> Fresh())
      ensures var k := Cut(old(view), threshold); removed == old(view)[..k] && view == old(view)[k..]
    {
      removed := [];
      ghost var all := view;
      ghost var k := Cut(all, threshold);
      while |index| > 0 && index[0] < threshold
        invariant |removed| <= k && removed == all[..|removed|] && view == all[|removed|..]
        invariant Lists(view, items) && Indexes(index, items) && cache == old(cache)
        decreases k - |removed|
      {
        RootIsFirst(view, items, index);
        CutAt(all, threshold, |removed|);
        var nonce, rest := HeapPop(index);
        PopFirst(view, items, index, rest);
        var item := items[nonce];
        index, items := rest, items - {nonce};
        removed := removed + [item];
        view := view[1..];
      }
      RootIsFirst(view, items, index);
      if view != [] { CutAt(all, threshold, |removed|); }
      if cache.Some? {
        cache := Some(cache.value[|removed|..]);
      }
    }

    /** Makes the cache unless there is one, even one that an emptied map left behind. */
    method EnsureCache()
      requires Valid()
      modifies this`cache
      ensures Valid() && cache == Some(old(Cached())) && (old(Fresh()) ==> Fresh())
    {
      if cache.None? {
        var s := SortedItems(items, view);
        cache := Some(s);
      }
    }

    method Flatten() returns (txs: seq<Tx>)
      requires Valid()
      modifies this`cache
      ensures Valid() && (old(Fresh()) ==> Fresh()) && txs == old(Cached())
      ensures old(Fresh()) || view != [] ==> txs == view
    {
      EnsureCache();
      txs := cache.value;
    }

    method Last() returns (t: Tx)
      requires Valid() && view != []
      modifies this`cache
      ensures Valid() && Fresh() && t == view[|view| - 1]
    {
      EnsureCache();
      t := cache.value[|cache.value| - 1];
    }

    /** The cached transactions from the i-th on go. */
    method TakeBack(i: nat)
      requires Valid() && cache.Some? && i <= |cache.value|
      modifies this
      ensures Valid() && cache == Some(old(cache).value[..i]) && (old(Fresh()) ==> Fresh())
      ensures view == if old(view) == [] then [] else old(view)[..i]
    {
      var rest := DeleteAll(items, cache.value[i..]);
      if view == [] {
        EmptyListing(items);
        assert rest == map[];
      } else {
        FrontStays(view, items, i, rest);
        view := view[..i];
      }
      items, cache := rest, Some(cache.value[..i]);
      index := Rebuild(items);
    }

    /** Removes the first match and everything above it. */
    method FilterStrict(f: Tx -> bool) returns (removed: set<Tx>, invalid: seq<Tx>)
      requires Valid()
      modifies this
      ensures Valid() && (old(Fresh()) ==> Fresh())
      ensures view == old(view)[..FirstMatch(old(view), f)]
      ensures SplitAt(old(Cached()), FirstMatch(old(Cached()), f), removed, invalid)
    {
      EnsureCache();
      var i := FirstMatch(cache.value, f);
      removed, invalid := {}, [];
      if i < |cache.value| {
        removed, invalid := {cache.value[i]}, cache.value[i + 1..];
        TakeBack(i);
      }
    }

    /** Removes every match, in no particular order. */
    method FilterLoose(f: Tx -> bool) returns (removed: set<Tx>)
      requires Valid()
      modifies this
      ensures Valid() && (old(Fresh()) ==> Fresh())
      ensures view == Unmatched(old(view), f) && removed == set t | t in old(view) && f(t)
    {
      removed := {};
      var keys, rest := items.Keys, items;
      while keys != {}
        invariant keys <= items.Keys && rest.Keys <= items.Keys
        invariant forall n: nat :: n in rest <==> n in items && (n in keys || !f(items[n]))
        invariant forall n :: n in rest ==> rest[n] == items[n]
        invariant removed == set n | n in items && n !in keys && f(items[n]) :: items[n]
        decreases keys
      {
        var n :| n in keys;
        keys := keys - {n};
        if f(items[n]) {
          rest, removed := rest - {n}, removed + {items[n]};
        }
      }
      UnmatchedLists(view, items, f, rest);
      MatchedItems(view, items, f);
      assert removed == set n | n in items && f(items[n]) :: items[n];
      if removed != {} {
        index := Rebuild(rest);
        cache := None;
      } else {
        forall t | t in view ensures !f(t) { assert t !in removed; }
        NoneMatched(view, f);
        forall n | n in items ensures !f(items[n]) { assert items[n] !in removed; }
        assert rest == items;
      }
      items := rest;
      view := Unmatched(view, f);
    }

    method Filter(f: Tx -> bool, strict: bool) returns (removed: set<Tx>, invalid: seq<Tx>)
      requires Valid()
      modifies this
      ensures Valid() && (old(Fresh()) ==> Fresh())
      ensures !strict ==> view == Unmatched(old(view), f) && invalid == []
      ensures !strict ==> removed == set t | t in old(view) && f(t)
      ensures strict ==> view == old(view)[..FirstMatch(old(view), f)]
      ensures strict ==> SplitAt(old(Cached()), FirstMatch(old(Cached()), f), removed, invalid)
    {
      if strict {
        removed, invalid := FilterStrict(f);
      } else {
        removed := FilterLoose(f);
        invalid := [];
      }
    }

    /** Keeps the lowest nonces; the others are removed from the highest down. */
    method Cap(threshold: nat) returns (removed: seq<Tx>)
      requires Valid()
      modifies this
      ensures Valid() && (old(Fresh()) ==> Fresh())
      ensures view == old(view)[..if |old(view)| <= threshold then |old(view)| else threshold]
      ensures |removed| == |old(view)| - |view|
      ensures forall j: nat :: j < |removed| ==> removed[j] == old(view)[|old(view)| - 1 - j]
    {
      removed := [];
      CountLists(view, items);
      if |items| <= threshold { return; }
      var h := SortIndex(index, view, items);
      ghost var all := view;
      var size := |items|;
      assert h[..size] == h && all[..size] == all;
      while size > threshold
        invariant threshold <= size <= |all| == |h| && |removed| == |all| - size
        invariant view == all[..size] && Shortened(h, all, size, items) && cache == old(cache)
        invariant forall j: nat :: j < |removed| ==> removed[j] == all[|all| - 1 - j]
      {
        ShortenedStep(h, all, size, items);
        removed := removed + [items[h[size - 1]]];
        items := items - {h[size - 1]};
        view := all[..size - 1];
        size := size - 1;
      }
      index := HeapAgain(h[..threshold], items);
      if cache.Some? {
        cache := Some(cache.value[..|cache.value| - |removed|]);
      }
    }

    method Remove(nonce: nat, strict: bool) returns (found: bool, invalid: seq<Tx>)
      requires Valid()
      modifies this
      ensures Valid() && (old(Fresh()) || found ==> Fresh())
      ensures found == (nonce in old(items))
      ensures !found ==> view == old(view) && invalid == []
      ensures found ==> Cut(old(view), nonce) < |old(view)| && old(view)[Cut(old(view), nonce)].nonce == nonce
      ensures found && strict ==>
        view == old(view)[..Cut(old(view), nonce)] && invalid == old(view)[Cut(old(view), nonce) + 1..]
      ensures found && !strict ==>
        view == old(view)[..Cut(old(view), nonce)] + old(view)[Cut(old(view), nonce) + 1..] && invalid == []
    {
      if nonce !in items { return false, []; }
      EnsureCache();
      FindIn(view, items, nonce);
      found, invalid := true, [];
      var i := Cut(cache.value, nonce);
      if !strict {
        OneGoes(view, items, i);
        RemoveIndex(nonce);
        cache := Some(cache.value[..i] + cache.value[i + 1..]);
        items := items - {nonce};
        view := view[..i] + view[i + 1..];
      } else {
        invalid := cache.value[i + 1..];
        TakeBack(i);
      }
    }

    /** Finds the nonce in the heap and takes it out. */
    method RemoveIndex(nonce: nat)
      requires Valid() && nonce in items
      modifies this`index
      ensures Indexes(index, items - {nonce})
    {
      InHeap(index, items, nonce);
      var i := 0;
      while i < |index| && index[i] != nonce
        invariant i <= |index| && nonce !in index[..i]
      {
        i := i + 1;
      }
      assert index == index[..i] + index[i..];
      var rest := HeapRemove(index, i);
      PopIndexes(index, rest, nonce, items);
      index := rest;
    }

    /**
     Hands over the maximal run of consecutive nonces, if the lowest is at most start.  A
     cache that is consumed entirely stays behind unchanged.
     */
    method Ready(start: nat) returns (ready: seq<Tx>)
      requires Valid()
      modifies this
      ensures Valid()
      ensures old(view) == [] || old(view)[0].nonce > start ==> ready == [] && view == old(view) && cache == old(cache)
      ensures old(view) != [] && old(view)[0].nonce <= start ==> MaximalRun(old(view), |ready|)
      ensures |ready| <= |old(view)| && ready == old(view)[..|ready|] && view == old(view)[|ready|..]
      ensures Fresh() <==> if ready == [] then old(Fresh()) else old(cache).None? || view != []
    {
      RootIsFirst(view, items, index);
      ready := [];
      if |index| == 0 || index[0] > start { return; }
      if cache.None? {
        ready := ReadyByHeap();
      } else {
        ready := ReadyByCache();
      }
    }

    method ReadyByHeap() returns (ready: seq<Tx>)
      requires Valid() && cache.None? && view != []
      modifies this
      ensures Valid() && cache.None? && MaximalRun(old(view), |ready|)
      ensures ready == old(view)[..|ready|] && view == old(view)[|ready|..]
    {
      RootIsFirst(view, items, index);
      ready := [];
      ghost var all := view;
      var next := index[0];
      while |index| > 0 && index[0] == next
        invariant |ready| <= |all| && ready == all[..|ready|] && view == all[|ready|..]
        invariant next == all[0].nonce + |ready| && forall i: nat :: i < |ready| ==> all[i].nonce == all[0].nonce + i
        invariant |ready| == 0 ==> |index| > 0 && index[0] == next
        invariant Lists(view, items) && Indexes(index, items) && cache.None?
        decreases |all| - |ready|
      {
        var nonce, rest := HeapPop(index);
        PopFirst(view, items, index, rest);
        ready := ready + [items[nonce]];
        index, items := rest, items - {nonce};
        view := view[1..];
        next := next + 1;
      }
      RootIsFirst(view, items, index);
    }

    method ReadyByCache() returns (ready: seq<Tx>)
      requires Valid() && cache.Some? && view != []
      modifies this
      ensures Valid() && MaximalRun(old(view), |ready|)
      ensures ready == old(view)[..|ready|] && view == old(view)[|ready|..]
      ensures cache == Some(if view == [] then old(view) else view)
    {
      var all := cache.value;
      var i, next := 0, all[0].nonce;
      while i < |all| && all[i].nonce == next
        invariant i <= |all| && next == all[0].nonce + i && forall j: nat :: j < i ==> all[j].nonce == all[0].nonce + j
      {
        i, next := i + 1, next + 1;
      }
      ready := all[..i];
      var rest := DeleteAll(items, ready);
      BackStays(view, items, i, rest);
      if i < |all| { cache := Some(all[i..]); }
      items := rest;
      view := view[i..];
      index := Rebuild(items);
    }

    /** Removes the last n. */
    method ForLast(n: nat) returns (last: seq<Tx>)
      requires Valid()
      modifies this
      ensures Valid() && (old(Fresh()) ==> Fresh())
      ensures last == old(Cached())[LastFrom(old(Cached()), n)..]
      ensures view == old(view)[..LastFrom(old(view), n)]
    {
      EnsureCache();
      var i := LastFrom(cache.value, n);
      last := cache.value[i..];
      TakeBack(i);
    }
  }
}
