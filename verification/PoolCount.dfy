/** How many transactions the pool holds, and its limits (core/tx_pool.go). */
module PoolCount {
  import opened SortedMap
  import opened TxList
  import opened PoolLists
  import opened PoolState

  ghost function Total(m: Accounts): nat {
    if m == map[] then 0 else
    var a :| a in m;
    |m[a]| + Total(m - {a})
  }

  lemma {:induction false} TotalAt(m: Accounts, a: nat)
    requires a in m
    ensures Total(m) == |m[a]| + Total(m - {a})
    decreases |m|
  {
    var b :| b in m && Total(m) == |m[b]| + Total(m - {b});
    if b != a {
      TotalAt(m - {b}, a);
      TotalAt(m - {a}, b);
      assert m - {b} - {a} == m - {a} - {b};
    }
  }

  /** All transactions in the lists. */
  function Pooled(m: Accounts): set<Tx> {
    set a, t | a in m && t in m[a] :: t
  }

  ghost predicate Listings(m: Accounts) {
    forall a: nat :: Listing(a, Of(m, a))
  }

  lemma {:induction false} MembersSize(s: seq<Tx>)
    requires Increasing(s)
    ensures |Members(s)| == |s|
  {
    if s == [] {
      assert Members(s) == {};
    } else {
      var k := |s| - 1;
      PartsIncrease(s, k);
      MembersSize(s[..k]);
      Sides(s, k, s[k]);
      assert s == s[..k] + [s[k]] && s[k] in s[k..];
      assert Members(s) == Members(s[..k]) + {s[k]};
    }
  }

  lemma {:induction false} PooledSplit(m: Accounts, a: nat)
    requires a in m
    ensures Pooled(m) == Pooled(m - {a}) + Members(m[a])
  {
    var rest := m - {a};
    forall t: Tx ensures t in Pooled(m) <==> t in Pooled(rest) + Members(m[a]) {
      if t in Pooled(m) {
        var b :| b in m && t in m[b];
        if b != a { assert b in rest && t in rest[b]; }
      }
      if t in Pooled(rest) {
        var b :| b in rest && t in rest[b];
        assert b in m && t in m[b];
      }
    }
  }

  lemma {:induction false} PooledSize(m: Accounts)
    requires Listings(m)
    ensures |Pooled(m)| == Total(m)
    decreases |m|
  {
    if m == map[] {
      assert Pooled(m) == {};
    } else {
      var a :| a in m && Total(m) == |m[a]| + Total(m - {a});
      var rest := m - {a};
      assert Listing(a, Of(m, a));
      forall b: nat ensures Listing(b, Of(rest, b)) { assert Listing(b, Of(m, b)); }
      PooledSize(rest);
      MembersSize(m[a]);
      assert Pooled(m) == Pooled(rest) + Members(m[a]) by { PooledSplit(m, a); }
      forall t | t in Pooled(rest) ensures t !in Members(m[a]) {
        var b :| b in rest && t in rest[b];
        assert Listing(b, Of(rest, b));
      }
    }
  }

  /** The lookup has as many transactions as both pools together. */
  lemma {:induction false} SizeIsTotal(pending: Accounts, queue: Accounts, all: set<Tx>)
    requires Sound(pending, queue, all)
    ensures |all| == Total(pending) + Total(queue)
  {
    forall a: nat ensures Listing(a, Of(pending, a)) && Listing(a, Of(queue, a)) {
      assert SoundAt(pending, queue, all, a);
    }
    PooledSize(pending);
    PooledSize(queue);
    forall t: Tx ensures t in all <==> t in Pooled(pending) + Pooled(queue) { PooledOnce(pending, queue, all, t); }
    forall t: Tx ensures !(t in Pooled(pending) && t in Pooled(queue)) { PooledOnce(pending, queue, all, t); }
    assert all == Pooled(pending) + Pooled(queue);
  }

  lemma {:induction false} PooledOnce(pending: Accounts, queue: Accounts, all: set<Tx>, t: Tx)
    requires Sound(pending, queue, all)
    ensures t in all <==> t in Pooled(pending) || t in Pooled(queue)
    ensures !(t in Pooled(pending) && t in Pooled(queue))
  {
    assert SoundAt(pending, queue, all, t.sender);
    assert Known(t.sender, Of(pending, t.sender), Of(queue, t.sender), all, t);
    ApartMember(Of(pending, t.sender), Of(queue, t.sender), t);
    PooledUnder(pending, queue, all, t);
    assert t.sender in pending && t in pending[t.sender] ==> t in Pooled(pending);
    assert t.sender in queue && t in queue[t.sender] ==> t in Pooled(queue);
  }

  /** A pooled transaction is listed under its sender. */
  lemma {:induction false} PooledUnder(pending: Accounts, queue: Accounts, all: set<Tx>, t: Tx)
    requires Sound(pending, queue, all)
    ensures t in Pooled(pending) ==> t in Of(pending, t.sender)
    ensures t in Pooled(queue) ==> t in Of(queue, t.sender)
  {
    if t in Pooled(pending) {
      var a :| a in pending && t in pending[a];
      assert SoundAt(pending, queue, all, a);
    }
    if t in Pooled(queue) {
      var a :| a in queue && t in queue[a];
      assert SoundAt(pending, queue, all, a);
    }
  }

  method Count(m: Accounts) returns (n: nat)
    ensures n == Total(m)
  {
    n := 0;
    var rest := m;
    while rest != map[]
      invariant n + Total(rest) == Total(m)
      decreases |rest|
    {
      var a :| a in rest;
      TotalAt(rest, a);
      n, rest := n + |rest[a]|, rest - {a};
    }
  }

  lemma {:induction false} TotalPut(m: Accounts, a: nat, s: seq<Tx>)
    requires a in m
    ensures Total(m[a := s]) == Total(m) - |m[a]| + |s|
  {
    TotalAt(m, a);
    TotalAt(m[a := s], a);
    assert m[a := s] - {a} == m - {a};
  }

  /** An account kept a front part of its list, a local one all of it. */
  ghost predicate ShrunkAt(m: Accounts, m': Accounts, locals: set<nat>, a: nat) {
    && (a in m' ==> a in m && m'[a] <= m[a])
    && (a in m && a in locals ==> a in m' && m'[a] == m[a])
  }

  ghost predicate Shrunk(m: Accounts, m': Accounts, locals: set<nat>) {
    forall a: nat :: ShrunkAt(m, m', locals, a)
  }

  lemma {:induction false} ShrunkSelf(m: Accounts, locals: set<nat>)
    ensures Shrunk(m, m, locals)
  {
    forall a: nat ensures ShrunkAt(m, m, locals, a) {}
  }

  lemma {:induction false} ShrunkTwice(m: Accounts, m': Accounts, m'': Accounts, locals: set<nat>)
    requires Shrunk(m, m', locals) && Shrunk(m', m'', locals)
    ensures Shrunk(m, m'', locals)
  {
    forall a: nat ensures ShrunkAt(m, m'', locals, a) {
      assert ShrunkAt(m, m', locals, a) && ShrunkAt(m', m'', locals, a);
    }
  }

  lemma {:induction false} ShrunkMore(m: Accounts, m': Accounts, locals: set<nat>, a: nat, k: nat)
    requires Shrunk(m, m', locals) && a in m' && a !in locals && k <= |m'[a]|
    ensures Shrunk(m, m' - {a}, locals) && Shrunk(m, m'[a := m'[a][..k]], locals)
  {
    var less, cut := m' - {a}, m'[a := m'[a][..k]];
    forall b: nat ensures ShrunkAt(m, less, locals, b) && ShrunkAt(m, cut, locals, b) {
      assert ShrunkAt(m, m', locals, b);
    }
  }
}
