/**
 Block reorganisation (core/blockchain.go): the canonical index and the transaction
 lookup index follow the head block; and the transactions the pool reinjects when the
 head moves (reset in core/tx_pool.go) are exactly those the reorganisation drops.
 */
module BlockChain {
  import opened Headers
  import opened HeaderChain
  import opened Wrappers

  /** A transaction hash. */
  type Tx = nat

  /** Headers and transaction lists of all stored blocks. */
  datatype Blocks = Blocks(hs: Store, txs: map<Hash, seq<Tx>>, g: Hash) {
    ghost predicate Ok() {
      Linked(hs, g) && txs.Keys == hs.Keys && txs[g] == [] && forall h :: Unrepeated(h)
    }

    function Body(h: Hash): seq<Tx> {
      if h in txs then txs[h] else []
    }

    /** The highest block on the path of h that holds t. */
    function Where(h: Hash, t: Tx): Option<nat>
      requires Linked(hs, g) && h in hs
      decreases hs[h].number
    {
      assert HeaderOk(hs, g, h);
      if t in Body(h) then Some(hs[h].number)
      else if h == g then None
      else Where(hs[h].parent, t)
    }

    /** A block holds no transaction of its ancestors. */
    ghost predicate Unrepeated(h: Hash)
      requires Linked(hs, g)
    {
      h in hs && h != g ==>
        HeaderOk(hs, g, h) && hs[h].parent in hs && forall t :: t in Body(h) ==> Where(hs[h].parent, t) == None
    }

    /** The transactions of the path of h above number m. */
    function Branch(h: Hash, m: nat): set<Tx>
      requires Linked(hs, g) && h in hs
      decreases hs[h].number
    {
      assert HeaderOk(hs, g, h);
      if hs[h].number <= m then {} else (set t | t in Body(h)) + Branch(hs[h].parent, m)
    }

    /** The number of the deepest common ancestor. */
    function Fork(a: Hash, b: Hash): nat
      requires Linked(hs, g) && a in hs && b in hs
      decreases hs[a].number + hs[b].number
    {
      assert HeaderOk(hs, g, a) && HeaderOk(hs, g, b);
      if hs[a].number > hs[b].number then Fork(hs[a].parent, b)
      else if hs[a].number < hs[b].number then Fork(a, hs[b].parent)
      else if a == b then hs[a].number
      else Fork(hs[a].parent, hs[b].parent)
    }
  }

  /** The paths of a and b agree up to the fork, and nowhere above it. */
  lemma {:induction false} ForkIsDeepest(c: Blocks, a: Hash, b: Hash, n: nat)
    requires Linked(c.hs, c.g) && a in c.hs && b in c.hs && n <= c.hs[a].number && n <= c.hs[b].number
    ensures AncestorAt(c.hs, c.g, a, n) == AncestorAt(c.hs, c.g, b, n) <==> n <= c.Fork(a, b)
    decreases c.hs[a].number + c.hs[b].number
  {
    assert HeaderOk(c.hs, c.g, a) && HeaderOk(c.hs, c.g, b);
    var pa, pb := c.hs[a].parent, c.hs[b].parent;
    if c.hs[a].number > c.hs[b].number {
      ForkIsDeepest(c, pa, b, n);
    } else if c.hs[a].number < c.hs[b].number {
      ForkIsDeepest(c, a, pb, n);
    } else if a != b {
      ForkBelow(c, pa, pb);
      if n < c.hs[a].number { ForkIsDeepest(c, pa, pb, n); }
    }
  }

  lemma {:induction false} ForkBelow(c: Blocks, a: Hash, b: Hash)
    requires Linked(c.hs, c.g) && a in c.hs && b in c.hs
    ensures c.Fork(a, b) <= c.hs[a].number && c.Fork(a, b) <= c.hs[b].number
    decreases c.hs[a].number + c.hs[b].number
  {
    assert HeaderOk(c.hs, c.g, a) && HeaderOk(c.hs, c.g, b);
    if c.hs[a].number > c.hs[b].number {
      ForkBelow(c, c.hs[a].parent, b);
    } else if c.hs[a].number < c.hs[b].number {
      ForkBelow(c, a, c.hs[b].parent);
    } else if a != b {
      ForkBelow(c, c.hs[a].parent, c.hs[b].parent);
    }
  }

  /** A transaction is above number m on a path exactly when its branch has it. */
  lemma {:induction false} WhereBranch(c: Blocks, h: Hash, m: nat, t: Tx)
    requires Linked(c.hs, c.g) && h in c.hs && m <= c.hs[h].number
    ensures t in c.Branch(h, m) ==> c.Where(h, t).Some? && c.Where(h, t).value > m
    ensures t !in c.Branch(h, m) ==> c.Where(h, t) == c.Where(AncestorAt(c.hs, c.g, h, m), t)
    decreases c.hs[h].number
  {
    assert HeaderOk(c.hs, c.g, h);
    if m < c.hs[h].number { WhereBranch(c, c.hs[h].parent, m, t); }
  }

  /** A transaction of a branch is not below it. */
  lemma {:induction false} BranchIsFresh(c: Blocks, h: Hash, m: nat, t: Tx)
    requires c.Ok() && h in c.hs && m <= c.hs[h].number && t in c.Branch(h, m)
    ensures c.Where(AncestorAt(c.hs, c.g, h, m), t) == None
    decreases c.hs[h].number
  {
    assert HeaderOk(c.hs, c.g, h) && c.Unrepeated(h);
    var p := c.hs[h].parent;
    if t in c.Body(h) {
      WhereBranch(c, p, m, t);
      if t in c.Branch(p, m) { assert c.Where(p, t).Some?; }
    } else {
      BranchIsFresh(c, p, m, t);
    }
  }

  // ---- What the indexes must say --------------------------------------------------------

  /** Entries at or below the head are its ancestors; above it anything may be left. */
  predicate UpTo(c: Blocks, canon: Index, head: Hash, n: nat)
    requires Linked(c.hs, c.g) && head in c.hs
  {
    n <= c.hs[head].number ==> n in canon && canon[n] == AncestorAt(c.hs, c.g, head, n)
  }

  ghost predicate CanonOk(c: Blocks, canon: Index, head: Hash)
    requires Linked(c.hs, c.g) && head in c.hs
  {
    forall n: nat :: UpTo(c, canon, head, n)
  }

  function Looked(lookup: map<Tx, nat>, t: Tx): Option<nat> {
    if t in lookup then Some(lookup[t]) else None
  }

  predicate Found(c: Blocks, lookup: map<Tx, nat>, head: Hash, t: Tx)
    requires Linked(c.hs, c.g) && head in c.hs
  {
    Looked(lookup, t) == c.Where(head, t)
  }

  /** The lookup index maps exactly the transactions of the head's path, each to its block. */
  ghost predicate LookupOk(c: Blocks, lookup: map<Tx, nat>, head: Hash)
    requires Linked(c.hs, c.g) && head in c.hs
  {
    forall t :: Found(c, lookup, head, t)
  }

  /** After the new branch is written over the old one and the dropped transactions deleted. */
  lemma ReindexOk(c: Blocks, lookup: map<Tx, nat>, lookup': map<Tx, nat>, oldHead: Hash, newHead: Hash)
    requires c.Ok() && oldHead in c.hs && newHead in c.hs && LookupOk(c, lookup, oldHead)
    requires forall t :: Looked(lookup', t) ==
               if t in c.Branch(newHead, c.Fork(oldHead, newHead)) then c.Where(newHead, t)
               else if t in c.Branch(oldHead, c.Fork(oldHead, newHead)) then None
               else Looked(lookup, t)
    ensures LookupOk(c, lookup', newHead)
  {
    var f := c.Fork(oldHead, newHead);
    ForkBelow(c, oldHead, newHead);
    ForkIsDeepest(c, oldHead, newHead, f);
    forall t ensures Found(c, lookup', newHead, t) {
      assert Found(c, lookup, oldHead, t);
      WhereBranch(c, newHead, f, t);
      WhereBranch(c, oldHead, f, t);
      if t in c.Branch(oldHead, f) { BranchIsFresh(c, oldHead, f, t); }
    }
  }

  // ---- Walking both branches down to the fork ----------------------------------------------

  /** Walking down from a to x, having gathered the transactions passed. */
  ghost predicate Passing(c: Blocks, a: Hash, x: Hash, f: nat, gathered: set<Tx>)
    requires Linked(c.hs, c.g) && a in c.hs && x in c.hs
  {
    && c.hs[x].number <= c.hs[a].number && x == AncestorAt(c.hs, c.g, a, c.hs[x].number)
    && gathered + c.Branch(x, f) == c.Branch(a, f)
  }

  lemma PassOne(c: Blocks, a: Hash, x: Hash, f: nat, gathered: set<Tx>)
    requires Linked(c.hs, c.g) && a in c.hs && x in c.hs && Passing(c, a, x, f, gathered)
    requires f < c.hs[x].number
    ensures c.hs[x].parent in c.hs && c.hs[c.hs[x].parent].number == c.hs[x].number - 1
    ensures Passing(c, a, c.hs[x].parent, f, gathered + set t | t in c.Body(x))
  {
    assert HeaderOk(c.hs, c.g, x) && HeaderOk(c.hs, c.g, c.g);
    AncestorOfAncestor(c.hs, c.g, a, c.hs[x].number, c.hs[x].number - 1);
  }

  /** hashes, from a down, of the blocks above number m. */
  ghost predicate Chain(c: Blocks, a: Hash, m: nat, chain: seq<Hash>)
    requires Linked(c.hs, c.g) && a in c.hs
  {
    && m <= c.hs[a].number && |chain| == c.hs[a].number - m
    && forall i :: 0 <= i < |chain| ==> chain[i] == AncestorAt(c.hs, c.g, a, c.hs[a].number - i)
  }

  /** Walking down from a to x, having listed the blocks passed. */
  ghost predicate Descending(c: Blocks, a: Hash, x: Hash, chain: seq<Hash>)
    requires Linked(c.hs, c.g) && a in c.hs && x in c.hs
  {
    Chain(c, a, c.hs[x].number, chain) && x == AncestorAt(c.hs, c.g, a, c.hs[x].number)
  }

  lemma DescendOne(c: Blocks, a: Hash, x: Hash, chain: seq<Hash>)
    requires Linked(c.hs, c.g) && a in c.hs && x in c.hs && Descending(c, a, x, chain) && c.hs[x].number > 0
    ensures c.hs[x].parent in c.hs && c.hs[c.hs[x].parent].number == c.hs[x].number - 1
    ensures Descending(c, a, c.hs[x].parent, chain + [x])
  {
    BranchUp(c, a, c.hs[x].number);
    assert HeaderOk(c.hs, c.g, x);
  }

  /** The transactions dropped when the head moves from oldHead to newHead. */
  function Dropped(c: Blocks, oldHead: Hash, newHead: Hash): set<Tx>
    requires Linked(c.hs, c.g) && oldHead in c.hs && newHead in c.hs
  {
    c.Branch(oldHead, c.Fork(oldHead, newHead)) - c.Branch(newHead, c.Fork(oldHead, newHead))
  }

  /** The batch of lookup entries for the new branch up to block b. */
  ghost predicate Batched(c: Blocks, b: Hash, f: nat, batch: map<Tx, nat>)
    requires Linked(c.hs, c.g) && b in c.hs
  {
    forall t :: Looked(batch, t) == if t in c.Branch(b, f) then c.Where(b, t) else None
  }

  lemma Reindexed(c: Blocks, lookup: map<Tx, nat>, batch: map<Tx, nat>, oldHead: Hash, newHead: Hash)
    requires c.Ok() && oldHead in c.hs && newHead in c.hs && LookupOk(c, lookup, oldHead)
    requires Batched(c, newHead, c.Fork(oldHead, newHead), batch)
    ensures LookupOk(c, (lookup + batch) - Dropped(c, oldHead, newHead), newHead)
  {
    var f := c.Fork(oldHead, newHead);
    var lookup' := (lookup + batch) - Dropped(c, oldHead, newHead);
    ForkBelow(c, oldHead, newHead);
    forall t ensures Looked(lookup', t) ==
               if t in c.Branch(newHead, f) then c.Where(newHead, t)
               else if t in c.Branch(oldHead, f) then None else Looked(lookup, t)
    {
      assert Looked(batch, t) == if t in c.Branch(newHead, f) then c.Where(newHead, t) else None;
      WhereBranch(c, newHead, f, t);
    }
    ReindexOk(c, lookup, lookup', oldHead, newHead);
  }

  /** Writing a block's entries over the indexes of its parent, or over its own, gives its own. */
  lemma Appended(c: Blocks, canon: Index, lookup: map<Tx, nat>, lookup': map<Tx, nat>, base: Hash, h: Hash)
    requires c.Ok() && h in c.hs && h != c.g && (base == h || base == c.hs[h].parent) && base in c.hs
    requires CanonOk(c, canon, base) && LookupOk(c, lookup, base)
    requires forall t :: Looked(lookup', t) == if t in c.Body(h) then Some(c.hs[h].number) else Looked(lookup, t)
    ensures CanonOk(c, canon[c.hs[h].number := h], h) && LookupOk(c, lookup', h)
  {
    assert HeaderOk(c.hs, c.g, h);
    var canon' := canon[c.hs[h].number := h];
    forall n: nat ensures UpTo(c, canon', h, n) { assert UpTo(c, canon, base, n); }
    forall t ensures Found(c, lookup', h, t) { assert Found(c, lookup, base, t); }
  }

  /** A child of the head drops nothing. */
  lemma ChildDropsNothing(c: Blocks, h: Hash)
    requires Linked(c.hs, c.g) && h in c.hs && h != c.g
    ensures c.hs[h].parent in c.hs && Dropped(c, c.hs[h].parent, h) == {}
  {
    assert HeaderOk(c.hs, c.g, h);
  }

  lemma {:induction false} WhereKept(c: Blocks, c': Blocks, h: Hash, t: Tx)
    requires Linked(c.hs, c.g) && Linked(c'.hs, c.g) && c'.g == c.g && Extends(c.hs, c'.hs) && h in c.hs
    requires forall k :: k in c.hs ==> c'.Body(k) == c.Body(k)
    ensures c'.Where(h, t) == c.Where(h, t)
    decreases c.hs[h].number
  {
    assert HeaderOk(c.hs, c.g, h) && HeaderOk(c'.hs, c.g, h);
    if h != c.g { WhereKept(c, c', c.hs[h].parent, t); }
  }

  /** Storing a block changes neither the blocks already there nor what the indexes mean. */
  lemma StoreBlock(c: Blocks, x: Header, txs: seq<Tx>, canon: Index, lookup: map<Tx, nat>, head: Hash)
    requires c.Ok() && head in c.hs && x.hash != 0 && x.number > 0
    requires x.parent in c.hs && c.hs[x.parent].number + 1 == x.number
    requires x.hash in c.hs ==> c.hs[x.hash] == x && c.txs[x.hash] == txs
    requires forall t :: t in txs ==> c.Where(x.parent, t) == None
    requires CanonOk(c, canon, head) && LookupOk(c, lookup, head)
    ensures var c' := Blocks(c.hs[x.hash := x], c.txs[x.hash := txs], c.g);
            c'.Ok() && CanonOk(c', canon, head) && LookupOk(c', lookup, head)
  {
    var c' := Blocks(c.hs[x.hash := x], c.txs[x.hash := txs], c.g);
    StoreLinked(c.hs, c.g, x);
    assert HeaderOk(c.hs, c.g, c.g);
    assert forall k :: k in c.hs ==> c'.Body(k) == c.Body(k);
    forall h ensures c'.Unrepeated(h) {
      assert c.Unrepeated(h) && HeaderOk(c.hs, c.g, h) && HeaderOk(c'.hs, c.g, h);
      if h in c'.hs && h != c.g {
        forall t | t in c'.Body(h) ensures c'.Where(c'.hs[h].parent, t) == None {
          WhereKept(c, c', c'.hs[h].parent, t);
        }
      }
    }
    forall n: nat ensures UpTo(c', canon, head, n) {
      assert UpTo(c, canon, head, n);
      ExtendsKeeps(c.hs, c'.hs, c.g, head, n);
    }
    forall t ensures Found(c', lookup, head, t) {
      assert Found(c, lookup, head, t);
      WhereKept(c, c', head, t);
    }
  }

  method WriteTxLookupEntries(batch: map<Tx, nat>, txs: seq<Tx>, number: nat) returns (r: map<Tx, nat>)
    ensures forall t :: Looked(r, t) == if t in txs then Some(number) else Looked(batch, t)
  {
    r := batch;
    for i := 0 to |txs|
      invariant forall t :: Looked(r, t) == if t in txs[..i] then Some(number) else Looked(batch, t)
    {
      assert txs[..i + 1] == txs[..i] + [txs[i]];
      r := r[txs[i] := number];
    }
  }

  class BlockChain {
    var blocks: Blocks
    var tds: map<Hash, nat>
    var canon: Index
    var lookup: map<Tx, nat>
    var current: Hash

    ghost predicate Stored() reads this {
      blocks.Ok() && current in blocks.hs && TdsOk(tds, blocks.hs, blocks.g)
    }

    ghost predicate Valid() reads this {
      Stored() && CanonOk(blocks, canon, current) && LookupOk(blocks, lookup, current)
    }

    constructor (x: Header)
      requires x.number == 0 && x.hash != 0
      ensures Valid() && current == x.hash && blocks == Blocks(map[x.hash := x], map[x.hash := []], x.hash)
    {
      blocks := Blocks(map[x.hash := x], map[x.hash := []], x.hash);
      tds, canon, lookup, current := map[x.hash := x.difficulty], map[0 := x.hash], map[], x.hash;
      new;
      forall h ensures HeaderOk(blocks.hs, blocks.g, h) {}
      forall n: nat ensures UpTo(blocks, canon, current, n) {}
      forall t ensures Found(blocks, lookup, current, t) {}
    }

    /** The new branch, from its head down to the fork, and the old one's transactions. */
    method FindFork(oldHead: Hash, newHead: Hash) returns (newChain: seq<Hash>, deleted: set<Tx>)
      requires blocks.Ok() && oldHead in blocks.hs && newHead in blocks.hs
      ensures Chain(blocks, newHead, blocks.Fork(oldHead, newHead), newChain)
      ensures deleted == blocks.Branch(oldHead, blocks.Fork(oldHead, newHead))
    {
      var o, n := oldHead, newHead;
      newChain, deleted := [], {};
      ForkBelow(blocks, oldHead, newHead);
      if blocks.hs[o].number > blocks.hs[n].number {
        o, deleted := LowerOld(oldHead, newHead);
      } else {
        n, newChain := LowerNew(oldHead, newHead);
      }
      ghost var f := blocks.Fork(oldHead, newHead);
      while o != n
        invariant o in blocks.hs && n in blocks.hs && blocks.hs[o].number == blocks.hs[n].number
        invariant Passing(blocks, oldHead, o, f, deleted) && Descending(blocks, newHead, n, newChain)
        invariant blocks.Fork(o, n) == f
        decreases blocks.hs[o].number
      {
        assert HeaderOk(blocks.hs, blocks.g, o) && HeaderOk(blocks.hs, blocks.g, n);
        ForkBelow(blocks, blocks.hs[o].parent, blocks.hs[n].parent);
        PassOne(blocks, oldHead, o, f, deleted);
        DescendOne(blocks, newHead, n, newChain);
        newChain := newChain + [n];
        deleted := deleted + set t | t in blocks.Body(o);
        o, n := blocks.hs[o].parent, blocks.hs[n].parent;
      }
    }

    method LowerOld(oldHead: Hash, newHead: Hash) returns (o: Hash, deleted: set<Tx>)
      requires blocks.Ok() && oldHead in blocks.hs && newHead in blocks.hs
      requires blocks.hs[oldHead].number > blocks.hs[newHead].number
      ensures o in blocks.hs && blocks.hs[o].number == blocks.hs[newHead].number
      ensures Passing(blocks, oldHead, o, blocks.Fork(oldHead, newHead), deleted)
      ensures blocks.Fork(o, newHead) == blocks.Fork(oldHead, newHead)
    {
      o, deleted := oldHead, {};
      ghost var f := blocks.Fork(oldHead, newHead);
      while blocks.hs[o].number != blocks.hs[newHead].number
        invariant o in blocks.hs && blocks.hs[o].number >= blocks.hs[newHead].number
        invariant Passing(blocks, oldHead, o, f, deleted) && blocks.Fork(o, newHead) == f
        decreases blocks.hs[o].number
      {
        ForkBelow(blocks, o, newHead);
        PassOne(blocks, oldHead, o, f, deleted);
        deleted := deleted + set t | t in blocks.Body(o);
        o := blocks.hs[o].parent;
      }
    }

    method LowerNew(oldHead: Hash, newHead: Hash) returns (n: Hash, newChain: seq<Hash>)
      requires blocks.Ok() && oldHead in blocks.hs && newHead in blocks.hs
      requires blocks.hs[oldHead].number <= blocks.hs[newHead].number
      ensures n in blocks.hs && blocks.hs[n].number == blocks.hs[oldHead].number
      ensures Descending(blocks, newHead, n, newChain)
      ensures blocks.Fork(oldHead, n) == blocks.Fork(oldHead, newHead)
    {
      n, newChain := newHead, [];
      while blocks.hs[n].number != blocks.hs[oldHead].number
        invariant n in blocks.hs && blocks.hs[n].number >= blocks.hs[oldHead].number
        invariant Descending(blocks, newHead, n, newChain) && blocks.Fork(oldHead, n) == blocks.Fork(oldHead, newHead)
        decreases blocks.hs[n].number
      {
        DescendOne(blocks, newHead, n, newChain);
        newChain := newChain + [n];
        n := blocks.hs[n].parent;
      }
    }

    method Insert(h: Hash)
      requires h in blocks.hs
      modifies this`canon, this`current
      ensures canon == old(canon)[blocks.hs[h].number := h] && current == h
    {
      canon := canon[blocks.hs[h].number := h];
      current := h;
    }

    /** Moves the indexes from the path of oldHead to the path of newHead; returns what was dropped. */
    method Reorganise(oldHead: Hash, newHead: Hash) returns (diff: set<Tx>)
      requires blocks.Ok() && oldHead in blocks.hs && newHead in blocks.hs
      requires CanonOk(blocks, canon, oldHead) && LookupOk(blocks, lookup, oldHead)
      modifies this`canon, this`lookup, this`current
      ensures CanonOk(blocks, canon, newHead) && LookupOk(blocks, lookup, newHead)
      ensures diff == Dropped(blocks, oldHead, newHead)
    {
      ghost var f := blocks.Fork(oldHead, newHead);
      var newChain, deleted := FindFork(oldHead, newHead);
      var batch: map<Tx, nat>, added: set<Tx> := map[], {};
      ForkBelow(blocks, oldHead, newHead);
      ghost var b := AncestorAt(blocks.hs, blocks.g, newHead, f);
      ghost var top := blocks.hs[newHead].number;
      forall n: nat | n <= f ensures n in canon && canon[n] == AncestorAt(blocks.hs, blocks.g, newHead, n) {
        assert UpTo(blocks, canon, oldHead, n);
        ForkIsDeepest(blocks, oldHead, newHead, n);
      }
      var i := |newChain|;
      while i > 0
        invariant 0 <= i <= |newChain| && b == AncestorAt(blocks.hs, blocks.g, newHead, top - i)
        invariant forall n: nat :: n <= top - i ==>
          n in canon && canon[n] == AncestorAt(blocks.hs, blocks.g, newHead, n)
        invariant Batched(blocks, b, f, batch) && added == blocks.Branch(b, f) && lookup == old(lookup)
      {
        i := i - 1;
        var h := newChain[i];
        BranchUp(blocks, newHead, top - i);
        Insert(h);
        batch := WriteTxLookupEntries(batch, blocks.Body(h), blocks.hs[h].number);
        added := added + set t | t in blocks.Body(h);
        b := h;
      }
      assert b == newHead;
      diff := deleted - added;
      assert diff == Dropped(blocks, oldHead, newHead);
      lookup := (lookup + batch) - diff;
      Reindexed(blocks, old(lookup), batch, oldHead, newHead);
    }

    /** Stores a block whose parent is known, and moves the head and both indexes when it wins. */
    method WriteBlock(x: Header, txs: seq<Tx>, coin: bool) returns (st: Status, ghost dropped: set<Tx>)
      requires Valid() && x.hash != 0
      requires x.hash in blocks.hs ==> blocks.hs[x.hash] == x && blocks.txs[x.hash] == txs
      requires x.parent in blocks.hs ==> forall t :: t in txs ==> blocks.Where(x.parent, t) == None
      modifies this
      ensures Valid() && blocks.g == old(blocks.g)
      ensures st == ErrUnknownAncestor <==>
                x.number == 0 || x.parent !in old(blocks.hs) || old(blocks.hs)[x.parent].number != x.number - 1
      ensures st == ErrUnknownAncestor ==> blocks == old(blocks) && current == old(current)
      ensures st != ErrUnknownAncestor ==>
                && blocks.hs == old(blocks.hs)[x.hash := x] && blocks.txs == old(blocks.txs)[x.hash := txs]
                && current == (if st == Canon then x.hash else old(current))
                && (st == Canon <==>
                    Reorg(HeadOf(blocks.hs, blocks.g, old(current)), HeadOf(blocks.hs, blocks.g, x.hash), coin))
      ensures st == Canon ==> dropped == Dropped(blocks, old(current), x.hash)
    {
      dropped := {};
      if x.number == 0 || x.parent !in blocks.hs || blocks.hs[x.parent].number != x.number - 1 {
        return ErrUnknownAncestor, {};
      }
      assert TdOk(tds, blocks.hs, blocks.g, x.parent) && TdOk(tds, blocks.hs, blocks.g, current);
      var localTd, externTd := tds[current], x.difficulty + tds[x.parent];
      var local := ChainHead(localTd, blocks.hs[current].number, blocks.hs[current].gasUsed);
      StoreLinked(blocks.hs, blocks.g, x);
      TdsKept(tds, blocks.hs, blocks.g, x);
      StoreBlock(blocks, x, txs, canon, lookup, current);
      ExtendsKeeps(blocks.hs, blocks.hs[x.hash := x], blocks.g, current, 0);
      blocks := Blocks(blocks.hs[x.hash := x], blocks.txs[x.hash := txs], blocks.g);
      tds := tds[x.hash := externTd];
      assert TdOk(tds, blocks.hs, blocks.g, x.hash) && HeaderOk(blocks.hs, blocks.g, x.hash);
      if Reorg(local, ChainHead(externTd, x.number, x.gasUsed), coin) {
        ghost var was := current;
        if x.parent != current {
          var diff := Reorganise(current, x.hash);
          dropped := diff;
        } else {
          ChildDropsNothing(blocks, x.hash);
        }
        ghost var base := if x.parent == was then was else x.hash;
        ghost var before, canon0 := lookup, canon;
        lookup := WriteTxLookupEntries(lookup, txs, x.number);
        Insert(x.hash);
        Appended(blocks, canon0, before, lookup, base, x.hash);
        st := Canon;
      } else {
        st := Side;
      }
    }
  }

  /** The next block up a path, and what it adds. */
  lemma BranchUp(c: Blocks, a: Hash, n: nat)
    requires Linked(c.hs, c.g) && a in c.hs && 0 < n <= c.hs[a].number
    ensures var h := AncestorAt(c.hs, c.g, a, n);
            && h != c.g && c.hs[h].parent == AncestorAt(c.hs, c.g, a, n - 1)
  {
    var h := AncestorAt(c.hs, c.g, a, n);
    assert HeaderOk(c.hs, c.g, h);
    AncestorOfAncestor(c.hs, c.g, a, n, n - 1);
  }
}
