/**
 The header chain (core/headerchain.go): headers and their total difficulties, the
 number-to-hash index of the canonical chain, and the ancestor queries served to
 peers (eth/handler.go).
 */
module HeaderChain {
  import opened Bytes
  import opened Headers
  import opened Wrappers

  type Index = map<nat, Hash>

  /** The canonical hash at a number, the zero hash when there is none. */
  function Canonical(canon: Index, n: nat): Hash {
    if n in canon then canon[n] else 0
  }

  // ---- The canonical index ------------------------------------------------------------

  /** At number n the index agrees with the ancestor path of head, and has nothing above it. */
  predicate EntryOk(canon: Index, hs: Store, g: Hash, head: Hash, n: nat)
    requires Linked(hs, g) && head in hs
  {
    && (n in canon <==> n <= hs[head].number)
    && (n in canon ==> canon[n] == AncestorAt(hs, g, head, n))
  }

  ghost predicate IsPath(canon: Index, hs: Store, g: Hash, head: Hash)
    requires Linked(hs, g) && head in hs
  {
    forall n: nat :: EntryOk(canon, hs, g, head, n)
  }

  /** The path of head, cut above number top. */
  predicate Kept(canon: Index, hs: Store, g: Hash, head: Hash, top: nat, n: nat)
    requires Linked(hs, g) && head in hs
  {
    && (n in canon <==> n <= hs[head].number && n <= top)
    && (n in canon ==> canon[n] == AncestorAt(hs, g, head, n))
  }

  /** Midway through a reorganisation: right for head above number m, still right for oldHead up to m. */
  predicate MixedOk(canon: Index, hs: Store, g: Hash, head: Hash, oldHead: Hash, m: int, n: nat)
    requires Linked(hs, g) && head in hs && oldHead in hs
  {
    if n <= m
    then (n in canon <==> n <= hs[oldHead].number) && (n in canon ==> canon[n] == AncestorAt(hs, g, oldHead, n))
    else (n in canon <==> n <= hs[head].number) && (n in canon ==> canon[n] == AncestorAt(hs, g, head, n))
  }

  ghost predicate Mixed(canon: Index, hs: Store, g: Hash, head: Hash, oldHead: Hash, m: int)
    requires Linked(hs, g) && head in hs && oldHead in hs
  {
    forall n: nat :: MixedOk(canon, hs, g, head, oldHead, m, n)
  }

  /** Where the two paths meet, all below is shared, so the index is the new path. */
  lemma Met(canon: Index, hs: Store, g: Hash, head: Hash, oldHead: Hash, m: nat)
    requires Linked(hs, g) && head in hs && oldHead in hs && m <= hs[head].number
    requires Mixed(canon, hs, g, head, oldHead, m) && m in canon && canon[m] == AncestorAt(hs, g, head, m)
    ensures IsPath(canon, hs, g, head)
  {
    assert MixedOk(canon, hs, g, head, oldHead, m, m);
    forall n: nat ensures EntryOk(canon, hs, g, head, n) {
      assert MixedOk(canon, hs, g, head, oldHead, m, n);
      if n <= m {
        AncestorOfAncestor(hs, g, head, m, n);
        AncestorOfAncestor(hs, g, oldHead, m, n);
      }
    }
  }

  /** One stale entry overwritten. */
  lemma MixedStep(canon: Index, hs: Store, g: Hash, head: Hash, oldHead: Hash, m: nat)
    requires Linked(hs, g) && head in hs && oldHead in hs && m <= hs[head].number
    requires Mixed(canon, hs, g, head, oldHead, m)
    requires Canonical(canon, m) != AncestorAt(hs, g, head, m)
    ensures m > 0
    ensures hs[AncestorAt(hs, g, head, m)].parent == AncestorAt(hs, g, head, m - 1)
    ensures Mixed(canon[m := AncestorAt(hs, g, head, m)], hs, g, head, oldHead, m - 1)
  {
    assert MixedOk(canon, hs, g, head, oldHead, m, m);
    GenesisBelow(hs, g, head);
    GenesisBelow(hs, g, oldHead);
    AncestorOfAncestor(hs, g, head, m, m - 1);
    assert HeaderOk(hs, g, AncestorAt(hs, g, head, m));
    var u, m' := canon[m := AncestorAt(hs, g, head, m)], m - 1;
    forall n: nat ensures MixedOk(u, hs, g, head, oldHead, m', n) {
      assert MixedOk(canon, hs, g, head, oldHead, m, n);
    }
  }

  /** A path and one more header on top. */
  lemma PathGrows(canon: Index, hs: Store, g: Hash, x: Hash)
    requires Linked(hs, g) && x in hs && hs[x].number > 0 && hs[x].parent in hs
    requires IsPath(canon, hs, g, hs[x].parent)
    ensures IsPath(canon[hs[x].number := x], hs, g, x)
  {
    assert HeaderOk(hs, g, x);
    var u := canon[hs[x].number := x];
    forall n: nat ensures EntryOk(u, hs, g, x, n) {
      assert EntryOk(canon, hs, g, hs[x].parent, n);
    }
  }

  // ---- Stored total difficulties ---------------------------------------------------------

  predicate TdOk(tds: map<Hash, nat>, hs: Store, g: Hash, h: Hash)
    requires Linked(hs, g)
  {
    (h in hs <==> h in tds) && (h in hs ==> tds[h] == TotalDifficulty(hs, g, h))
  }

  ghost predicate TdsOk(tds: map<Hash, nat>, hs: Store, g: Hash)
    requires Linked(hs, g)
  {
    forall h :: TdOk(tds, hs, g, h)
  }

  /** The td written for a new header is its total difficulty, and no other changes. */
  lemma TdsKept(tds: map<Hash, nat>, hs: Store, g: Hash, x: Header)
    requires Linked(hs, g) && TdsOk(tds, hs, g) && Linked(hs[x.hash := x], g) && Extends(hs, hs[x.hash := x])
    requires x.number > 0 && x.parent in hs && x.parent in tds
    ensures TdsOk(tds[x.hash := x.difficulty + tds[x.parent]], hs[x.hash := x], g)
  {
    var hs', tds' := hs[x.hash := x], tds[x.hash := x.difficulty + tds[x.parent]];
    assert HeaderOk(hs', g, x.hash) && TdOk(tds, hs, g, x.parent);
    ExtendsKeeps(hs, hs', g, x.parent, 0);
    forall h ensures TdOk(tds', hs', g, h) {
      assert TdOk(tds, hs, g, h);
      if h in hs { ExtendsKeeps(hs, hs', g, h, 0); }
    }
  }

  /** A header's claim to be the head. */
  function HeadOf(hs: Store, g: Hash, h: Hash): ChainHead
    requires Linked(hs, g) && h in hs
  {
    ChainHead(TotalDifficulty(hs, g, h), hs[h].number, hs[h].gasUsed)
  }

  datatype Status = ErrUnknownAncestor | Canon | Side

  class HeaderChain {
    const genesis: Hash
    var headers: Store
    var tds: map<Hash, nat>
    var canon: Index
    var current: Hash

    ghost predicate Stored() reads this {
      Linked(headers, genesis) && current in headers && TdsOk(tds, headers, genesis)
    }

    ghost predicate Valid() reads this {
      Stored() && IsPath(canon, headers, genesis, current)
    }

    constructor (x: Header)
      requires x.number == 0 && x.hash != 0
      ensures Valid() && genesis == x.hash && headers == map[x.hash := x] && current == x.hash
    {
      genesis, current := x.hash, x.hash;
      headers, tds, canon := map[x.hash := x], map[x.hash := x.difficulty], map[0 := x.hash];
      new;
      forall h ensures HeaderOk(headers, genesis, h) {}
      forall n: nat ensures EntryOk(canon, headers, genesis, current, n) {}
    }

    predicate HasHeader(h: Hash, n: nat) reads this {
      h in headers && headers[h].number == n
    }

    /** Delete any canonical entries above number n. */
    method DeleteAbove(n: nat)
      requires Valid()
      modifies this`canon
      ensures forall k: nat :: k in canon <==> k in old(canon) && k <= n
      ensures forall k: nat :: k in canon ==> canon[k] == old(canon)[k]
    {
      var i := n + 1;
      ghost var head := headers[current].number;
      while i in canon
        invariant n < i <= (if head >= n then head else n) + 1
        invariant forall k: nat :: k in canon <==> k in old(canon) && (k <= n || k >= i)
        invariant forall k: nat :: k in canon ==> canon[k] == old(canon)[k]
        decreases head + 1 - i
      {
        assert EntryOk(old(canon), headers, genesis, current, i);
        canon := canon - {i};
        i := i + 1;
      }
      forall k: nat ensures k > n ==> k !in canon {
        assert EntryOk(old(canon), headers, genesis, current, k) && EntryOk(old(canon), headers, genesis, current, i);
      }
    }

    /** Overwrite stale canonical entries from the parent of the new head down. */
    method Overwrite(x: Header)
      requires Stored() && x.hash in headers && headers[x.hash] == x && x.number > 0
      requires forall n: nat :: Kept(canon, headers, genesis, current, x.number, n)
      modifies this`canon
      ensures IsPath(canon, headers, genesis, x.hash)
    {
      var headHash, headNumber := x.parent, x.number - 1;
      assert HeaderOk(headers, genesis, x.hash);
      ghost var top := x.parent;
      assert Mixed(canon - {x.number}, headers, genesis, top, current, headNumber) by {
        forall n: nat ensures MixedOk(canon - {x.number}, headers, genesis, top, current, headNumber, n) {
          assert Kept(canon, headers, genesis, current, x.number, n);
        }
      }
      while Canonical(canon, headNumber) != headHash
        invariant 0 <= headNumber < x.number && headHash == AncestorAt(headers, genesis, top, headNumber)
        invariant Mixed(canon - {x.number}, headers, genesis, top, current, headNumber)
        decreases headNumber
      {
        MixedStep(canon - {x.number}, headers, genesis, top, current, headNumber);
        ghost var was := canon - {x.number};
        canon := canon[headNumber := headHash];
        assert canon - {x.number} == was[headNumber := headHash];
        headHash, headNumber := headers[headHash].parent, headers[headHash].number - 1;
      }
      Met(canon - {x.number}, headers, genesis, top, current, headNumber);
      PathGrows(canon - {x.number}, headers, genesis, x.hash);
      ghost var path := canon - {x.number};
      canon := canon[x.number := x.hash];
      assert canon == path[x.number := x.hash];
    }

    /** Stores a header whose parent is known, and moves the head when it wins. */
    method WriteHeader(x: Header, coin: bool) returns (st: Status)
      requires Valid() && x.hash != 0 && (x.hash in headers ==> headers[x.hash] == x)
      modifies this
      ensures Valid()
      ensures st == ErrUnknownAncestor <==> x.number == 0 || !old(HasHeader(x.parent, x.number - 1))
      ensures st == ErrUnknownAncestor ==>
                headers == old(headers) && tds == old(tds) && canon == old(canon) && current == old(current)
      ensures st != ErrUnknownAncestor ==> headers == old(headers)[x.hash := x]
      ensures st != ErrUnknownAncestor ==> current == if st == Canon then x.hash else old(current)
      ensures st == Side ==> canon == old(canon)
      ensures st != ErrUnknownAncestor ==>
                (st == Canon <==> Reorg(old(HeadOf(headers, genesis, current)), HeadOf(headers, genesis, x.hash), coin))
      ensures TotalDifficulty(headers, genesis, current) >= old(TotalDifficulty(headers, genesis, current))
    {
      if x.number == 0 || !(x.parent in headers && headers[x.parent].number == x.number - 1) {
        return ErrUnknownAncestor;
      }
      assert TdOk(tds, headers, genesis, x.parent) && TdOk(tds, headers, genesis, current);
      var localTd := tds[current];
      var externTd := x.difficulty + tds[x.parent];
      StoreLinked(headers, genesis, x);
      TdsKept(tds, headers, genesis, x);
      PathKept(headers, headers[x.hash := x], genesis, canon, current);
      ExtendsKeeps(headers, headers[x.hash := x], genesis, current, 0);
      var local := ChainHead(localTd, headers[current].number, headers[current].gasUsed);
      headers := headers[x.hash := x];
      tds := tds[x.hash := externTd];
      assert TdOk(tds, headers, genesis, x.hash);
      if Reorg(local, ChainHead(externTd, x.number, x.gasUsed), coin) {
        DeleteAbove(x.number);
        forall n: nat ensures Kept(canon, headers, genesis, current, x.number, n) {
          assert EntryOk(old(canon), headers, genesis, current, n);
        }
        Overwrite(x);
        current := x.hash;
        st := Canon;
      } else {
        st := Side;
      }
    }

    /** A whole run of header writes keeps the chain in order, and its head never loses difficulty. */
    method Import(xs: seq<Header>, coins: seq<bool>)
      requires Valid() && |coins| == |xs|
      requires forall i :: 0 <= i < |xs| ==> xs[i].hash != 0 && (xs[i].hash in headers ==> headers[xs[i].hash] == xs[i])
      requires forall i, j :: 0 <= i < j < |xs| && xs[i].hash == xs[j].hash ==> xs[i] == xs[j]
      modifies this
      ensures Valid() && Extends(old(headers), headers)
      ensures TotalDifficulty(headers, genesis, current) >= old(TotalDifficulty(headers, genesis, current))
    {
      for i := 0 to |xs|
        invariant Valid() && Extends(old(headers), headers)
        invariant forall j :: i <= j < |xs| ==> xs[j].hash in headers ==> headers[xs[j].hash] == xs[j]
        invariant TotalDifficulty(headers, genesis, current) >= old(TotalDifficulty(headers, genesis, current))
      {
        var _ := WriteHeader(xs[i], coins[i]);
      }
    }

    /** The ancestor-th ancestor of (hash, number): a jump through the index once on the canonical
        chain, and parent links, each paid from the budget, before that. */
    method GetAncestor(hash: Hash, number: nat, ancestor: nat, budget: nat)
      returns (h: Hash, n: nat, left: nat)
      requires Valid()
      ensures ancestor > number ==> h == 0 && n == 0
      ensures 0 < ancestor && !HasHeader(hash, number) ==> h == 0
      ensures ancestor <= number && HasHeader(hash, number) ==>
                && (h != 0 <==> ancestor == 1 || Detour(canon, headers, genesis, hash, ancestor) <= budget)
                && (h != 0 ==> h == Walk(headers, genesis, hash, ancestor) && n == number - ancestor)
                && (h != 0 && ancestor == 1 ==> left == budget)
                && (h != 0 && ancestor != 1 ==> left == budget - Detour(canon, headers, genesis, hash, ancestor))
      ensures left <= budget
    {
      left := budget;
      if ancestor > number {
        return 0, 0, left;
      }
      if ancestor == 1 {
        if hash in headers && headers[hash].number == number {
          assert HeaderOk(headers, genesis, hash);
          return headers[hash].parent, number - 1, left;
        } else {
          return 0, 0, left;
        }
      }
      var a: nat := ancestor;
      h, n := hash, number;
      while a != 0
        invariant a <= n && left <= budget && budget - left == ancestor - a && n == number - (ancestor - a)
        invariant HasHeader(hash, number) <==> HasHeader(h, n)
        invariant HasHeader(h, n) ==>
                    && Walk(headers, genesis, h, a) == Walk(headers, genesis, hash, ancestor)
                    && Detour(canon, headers, genesis, hash, ancestor)
                       == ancestor - a + Detour(canon, headers, genesis, h, a)
        invariant HasHeader(h, n) || a == ancestor
        decreases a
      {
        assert EntryOk(canon, headers, genesis, current, n) && EntryOk(canon, headers, genesis, current, n - a);
        if n in canon && canon[n] == h {
          WalkIsAncestor(headers, genesis, h, a);
          AncestorOfAncestor(headers, genesis, current, n, n - a);
          n := n - a;
          return Canonical(canon, n), n, left;
        }
        if left == 0 {
          return 0, 0, left;
        }
        left := left - 1;
        a := a - 1;
        if !(h in headers && headers[h].number == n) {
          return 0, 0, left;
        }
        assert HeaderOk(headers, genesis, h);
        h := headers[h].parent;
        n := n - 1;
      }
    }

    /** The next origin of a by-hash query, zero exactly when the query cannot advance. */
    method Advance(q: Query, oh: Hash, on: nat, budget: nat) returns (h: Hash, n: nat, left: nat)
      requires Valid() && q.skip < TWO_64 && HasHeader(oh, on) && on < TWO_64
      ensures h != 0 ==> HasHeader(h, n) && StepsTo(headers, genesis, q, headers[oh], headers[h])
      ensures h != 0 <==> Advances(canon, headers, genesis, q, headers[oh], budget)
      ensures q.skip == TWO_64 - 1 ==> h == 0
      ensures h != 0 ==> left + StepCost(canon, headers, genesis, q, headers[oh]) == budget
    {
      h, n, left := 0, 0, budget;
      assert HeaderOk(headers, genesis, oh);
      if q.reverse {
        var ancestor := Wrap64(q.skip + 1);
        if ancestor != 0 {
          h, n, left := GetAncestor(oh, on, ancestor, budget);
        }
      } else {
        var next := Wrap64(on + Wrap64(q.skip + 1));
        if next > on {
          assert EntryOk(canon, headers, genesis, current, next);
          var nextHash := Canonical(canon, next);
          if nextHash != 0 {
            h, n, left := Forward(oh, on, nextHash, next, budget);
          }
        }
      }
      if h != 0 { assert HeaderOk(headers, genesis, h); }
    }

    /** Towards the head: the canonical header at the next number, if the old one is its ancestor. */
    method Forward(oh: Hash, on: nat, nextHash: Hash, next: nat, budget: nat) returns (h: Hash, n: nat, left: nat)
      requires Valid() && HasHeader(oh, on) && on < next && next in canon && canon[next] == nextHash && nextHash != 0
      ensures h == if Canonical(canon, on) == oh then nextHash else 0
      ensures h != 0 ==> HasHeader(h, next) && n == next && Walk(headers, genesis, h, next - on) == oh && left == budget
    {
      assert EntryOk(canon, headers, genesis, current, next) && EntryOk(canon, headers, genesis, current, on);
      assert HeaderOk(headers, genesis, nextHash) && HeaderOk(headers, genesis, oh);
      WalkIsAncestor(headers, genesis, nextHash, next - on);
      AncestorOfAncestor(headers, genesis, current, next, on);
      h, n := 0, 0;
      var expOld, _, l := GetAncestor(nextHash, next, next - on, budget);
      left := l;
      if expOld == oh {
        h, n := nextHash, next;
      }
    }

    method AdvanceNumber(q: Query, on: nat) returns (unknown: bool, n: nat)
      ensures NumberAfter(q, on) == if unknown then None else Some(n)
    {
      unknown, n := false, on;
      if !q.reverse {
        n := Wrap64(on + Wrap64(q.skip + 1));
      } else if on >= Wrap64(q.skip + 1) {
        n := on - Wrap64(q.skip + 1);
      } else {
        unknown := true;
      }
    }

    /** A by-hash query so far: its next origin and what is left of the budget, or that it has ended. */
    ghost predicate Queried(q: Query, reply: seq<Header>, oh: Hash, on: nat, budget: nat, unknown: bool)
      requires Valid()
      reads this
    {
      && reply != [] && OneLine(headers, genesis, q, reply)
      && (q.skip == TWO_64 - 1 ==> unknown && |reply| == 1)
      && (unknown ==> Ends(canon, headers, genesis, q, reply))
      && (!unknown ==>
            && HasHeader(oh, on) && StepsTo(headers, genesis, q, reply[|reply| - 1], headers[oh])
            && budget + Spent(canon, headers, genesis, q, reply + [headers[oh]]) == BUDGET)
    }

    /** One turn of a by-hash query: its origin is added and it advances. */
    method HashTurn(q: Query, reply: seq<Header>, oh: Hash, on: nat, budget: nat)
      returns (reply': seq<Header>, oh': Hash, on': nat, budget': nat)
      requires Valid() && q.skip < TWO_64 && HasHeader(oh, on) && on < TWO_64
      requires if reply == [] then oh == q.hash && budget == BUDGET else Queried(q, reply, oh, on, budget, false)
      ensures reply' == reply + [headers[oh]] && Queried(q, reply', oh', on', budget', oh' == 0)
    {
      OneLineMore(headers, genesis, q, reply, oh);
      reply' := reply + [headers[oh]];
      oh', on', budget' := Advance(q, oh, on, budget);
      if oh' != 0 { SpentMore(canon, headers, genesis, q, reply', headers[oh']); }
    }

    /** One turn of a by-number query. */
    method NumberTurn(q: Query, reply: seq<Header>, on: nat) returns (reply': seq<Header>, unknown: bool, on': nat)
      requires Valid() && on in canon && Listed(canon, headers, q, reply) && Next(q, reply) == Some(on)
      ensures |reply'| == |reply| + 1 && Listed(canon, headers, q, reply')
      ensures Next(q, reply') == if unknown then None else Some(on')
    {
      assert EntryOk(canon, headers, genesis, current, on);
      ListedMore(canon, headers, q, reply, on);
      reply' := reply + [headers[canon[on]]];
      unknown, on' := AdvanceNumber(q, on);
    }

    /** Headers for a peer: from a hash or a number, every skip+1-th, at most amount. */
    method GetBlockHeaders(q: Query) returns (reply: seq<Header>)
      requires Valid() && q.amount < TWO_64 && q.skip < TWO_64 && q.number < TWO_64
      requires forall h :: h in headers ==> headers[h].number < TWO_64
      ensures |reply| <= Limit(q)
      ensures q.hash != 0 ==> OneLine(headers, genesis, q, reply)
      ensures q.hash != 0 && q.skip == TWO_64 - 1 ==> |reply| <= 1
      ensures q.hash != 0 && |reply| < Limit(q) ==> Ends(canon, headers, genesis, q, reply)
      ensures q.hash == 0 ==> ByNumber(canon, headers, q, reply)
    {
      var first, unknown := true, false;
      var oh, on: nat, budget: nat := q.hash, q.number, BUDGET;
      reply := [];
      while !unknown && |reply| < Limit(q)
        invariant |reply| <= Limit(q)
        invariant q.hash != 0 && first ==> reply == [] && oh == q.hash && budget == BUDGET && !unknown
        invariant q.hash != 0 && !first ==> Queried(q, reply, oh, on, budget, unknown)
        invariant q.hash == 0 ==> Listed(canon, headers, q, reply)
        invariant q.hash == 0 ==> Next(q, reply) == if unknown then None else Some(on)
        decreases Limit(q) - |reply|
      {
        var origin: Hash;
        if q.hash != 0 {
          origin := if oh in headers then oh else 0;
          if origin == 0 {
            break;
          }
          if first {
            first := false;
            on := headers[oh].number;
          }
          reply, oh, on, budget := HashTurn(q, reply, oh, on, budget);
          unknown := oh == 0;
        } else {
          assert EntryOk(canon, headers, genesis, current, on);
          origin := Canonical(canon, on);
          if origin == 0 {
            break;
          }
          reply, unknown, on := NumberTurn(q, reply, on);
        }
      }
    }
  }

  lemma OneLineMore(hs: Store, g: Hash, q: Query, reply: seq<Header>, h: Hash)
    requires Linked(hs, g) && OneLine(hs, g, q, reply) && h in hs
    requires if reply == [] then h == q.hash else StepsTo(hs, g, q, reply[|reply| - 1], hs[h])
    ensures OneLine(hs, g, q, reply + [hs[h]])
  {}

  lemma ListedMore(canon: Index, hs: Store, q: Query, reply: seq<Header>, n: nat)
    requires Listed(canon, hs, q, reply) && Next(q, reply) == Some(n)
    requires n in canon && canon[n] in hs && hs[canon[n]].number == n
    ensures Listed(canon, hs, q, reply + [hs[canon[n]]])
  {
    var r := reply + [hs[canon[n]]];
    assert r[..|reply|] == reply;
    assert forall i :: 0 <= i < |reply| ==> r[..i] == reply[..i];
  }

  // ---- What a header query asks for ---------------------------------------------------------

  datatype Query = Query(hash: Hash, number: nat, amount: nat, skip: nat, reverse: bool)

  const MAX_HEADER_FETCH: nat := 192

  /** Go's int(amount) is negative past 2^63; the 2 MB reply limit is never met first. */
  function Limit(q: Query): nat {
    if q.amount >= TWO_63 then 0 else if q.amount < MAX_HEADER_FETCH then q.amount else MAX_HEADER_FETCH
  }

  /** y is skip+1 links from x, towards the genesis or away from it. */
  ghost predicate StepsTo(hs: Store, g: Hash, q: Query, x: Header, y: Header)
    requires Linked(hs, g)
  {
    && x.hash in hs && hs[x.hash] == x && y.hash in hs && hs[y.hash] == y
    && if q.reverse then q.skip + 1 <= x.number && Walk(hs, g, x.hash, q.skip + 1) == y.hash
       else q.skip + 1 <= y.number && Walk(hs, g, y.hash, q.skip + 1) == x.hash
  }

  /** The reply starts at the queried hash and stays on one line of ancestors. */
  ghost predicate OneLine(hs: Store, g: Hash, q: Query, reply: seq<Header>)
    requires Linked(hs, g)
  {
    && (reply != [] ==> q.hash in hs && reply[0] == hs[q.hash])
    && forall i :: 0 < i < |reply| ==> StepsTo(hs, g, q, reply[i - 1], reply[i])
  }

  /** How many links off the canonical chain a query may follow in all. */
  const BUDGET: nat := 100

  /** What a step from x takes from the budget: a single link is free. */
  function StepCost(canon: Index, hs: Store, g: Hash, q: Query, x: Header): nat
    requires Linked(hs, g)
  {
    if q.reverse && 1 < q.skip + 1 <= x.number && x.hash in hs && hs[x.hash] == x
    then Detour(canon, hs, g, x.hash, q.skip + 1) else 0
  }

  /**
   Whether a by-hash query goes on from x: towards the genesis unless skip+1 overflows, passes
   the genesis or costs too much; towards the head unless the number overflows, nothing is
   canonical there, or x is not canonical itself.
   */
  predicate Advances(canon: Index, hs: Store, g: Hash, q: Query, x: Header, budget: nat)
    requires Linked(hs, g)
  {
    if q.reverse then q.skip + 1 < TWO_64 && q.skip + 1 <= x.number && StepCost(canon, hs, g, q, x) <= budget
    else x.number + q.skip + 1 < TWO_64 && x.number + q.skip + 1 in canon && Canonical(canon, x.number) == x.hash
  }

  /** What the steps between the headers of a reply took from the budget. */
  function Spent(canon: Index, hs: Store, g: Hash, q: Query, reply: seq<Header>): nat
    requires Linked(hs, g)
  {
    if |reply| < 2 then 0 else
    Spent(canon, hs, g, q, reply[..|reply| - 1]) + StepCost(canon, hs, g, q, reply[|reply| - 2])
  }

  lemma {:induction false} SpentMore(canon: Index, hs: Store, g: Hash, q: Query, reply: seq<Header>, x: Header)
    requires Linked(hs, g) && reply != []
    ensures Spent(canon, hs, g, q, reply + [x]) ==
      Spent(canon, hs, g, q, reply) + StepCost(canon, hs, g, q, reply[|reply| - 1])
  {
    assert (reply + [x])[..|reply|] == reply;
  }

  /** The reply cannot go on: its origin is unknown, or its last header has no next within the budget. */
  ghost predicate Ends(canon: Index, hs: Store, g: Hash, q: Query, reply: seq<Header>)
    requires Linked(hs, g)
  {
    if reply == [] then q.hash !in hs else
    var spent := Spent(canon, hs, g, q, reply);
    spent <= BUDGET && !Advances(canon, hs, g, q, reply[|reply| - 1], BUDGET - spent)
  }

  /** The number a by-number query asks for next. */
  function Next(q: Query, reply: seq<Header>): Option<nat> {
    if reply == [] then Some(q.number) else NumberAfter(q, reply[|reply| - 1].number)
  }

  function NumberAfter(q: Query, n: nat): Option<nat> {
    var step := Wrap64(q.skip + 1);
    if !q.reverse then Some(Wrap64(n + step)) else if n >= step then Some(n - step) else None
  }

  ghost predicate Listed(canon: Index, hs: Store, q: Query, reply: seq<Header>) {
    forall i :: 0 <= i < |reply| ==>
      && Next(q, reply[..i]) == Some(reply[i].number)
      && reply[i].number in canon && canon[reply[i].number] in hs && hs[canon[reply[i].number]] == reply[i]
  }

  /** Canonical headers at the asked-for numbers, as many as the limit or the chain has. */
  ghost predicate ByNumber(canon: Index, hs: Store, q: Query, reply: seq<Header>) {
    && Listed(canon, hs, q, reply) && |reply| <= Limit(q)
    && (|reply| < Limit(q) ==> Next(q, reply) == None || Next(q, reply).value !in canon)
  }

  /** By number, the reply moves by exactly skip+1 in the asked-for direction unless the sum overflows. */
  lemma NumberGap(canon: Index, hs: Store, q: Query, reply: seq<Header>, i: nat)
    requires Listed(canon, hs, q, reply) && 0 < i < |reply| && q.skip < TWO_64
    requires forall j :: 0 <= j < |reply| ==> reply[j].number < TWO_64
    ensures reply[i].number ==
            (if q.reverse then reply[i - 1].number - (q.skip + 1) else reply[i - 1].number + (q.skip + 1))
            <==> (if q.reverse then q.skip + 1 else reply[i - 1].number + q.skip + 1) < TWO_64
  {
    assert Next(q, reply[..i]) == Some(reply[i].number);
    assert reply[..i][|reply[..i]| - 1] == reply[i - 1];
  }

  /** By number, a skip of 2^64 - 1 does not stop the walk: the reply is one header, Limit times. */
  lemma {:induction false} SkipOverflowRepeats(canon: Index, hs: Store, q: Query, reply: seq<Header>, i: nat)
    requires ByNumber(canon, hs, q, reply) && q.skip == TWO_64 - 1 && i < |reply| && q.number < TWO_64
    ensures reply[i].number == q.number
  {
    assert Next(q, reply[..i]) == Some(reply[i].number);
    if i > 0 {
      assert reply[..i][|reply[..i]| - 1] == reply[i - 1];
      SkipOverflowRepeats(canon, hs, q, reply, i - 1);
    }
  }

  lemma {:induction false} SkipOverflowFills(canon: Index, hs: Store, q: Query, reply: seq<Header>)
    requires ByNumber(canon, hs, q, reply) && q.skip == TWO_64 - 1 && q.number in canon && q.number < TWO_64
    ensures |reply| == Limit(q)
  {
    if reply != [] { SkipOverflowRepeats(canon, hs, q, reply, |reply| - 1); }
  }

  /** How many of the next k parent links start off the canonical chain. */
  function Detour(canon: Index, hs: Store, g: Hash, h: Hash, k: nat): nat
    requires Linked(hs, g) && h in hs && k <= hs[h].number
    decreases k
  {
    assert HeaderOk(hs, g, h);
    if k == 0 || Canonical(canon, hs[h].number) == h then 0
    else 1 + Detour(canon, hs, g, hs[h].parent, k - 1)
  }

  lemma PathKept(hs: Store, hs': Store, g: Hash, canon: Index, head: Hash)
    requires Linked(hs, g) && Linked(hs', g) && Extends(hs, hs') && head in hs && IsPath(canon, hs, g, head)
    ensures IsPath(canon, hs', g, head)
  {
    forall n: nat ensures EntryOk(canon, hs', g, head, n) {
      assert EntryOk(canon, hs, g, head, n);
      ExtendsKeeps(hs, hs', g, head, n);
    }
  }
}
