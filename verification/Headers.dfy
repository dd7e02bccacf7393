/**
 Block headers as a tree of hashes: ancestry, total difficulty, and the choice
 between two chain heads (core/blockchain.go, core/headerchain.go).
 */
module Headers {
  /** A header hash; 0 is the zero hash, which no header has. */
  type Hash = nat

  datatype Header = Header(hash: Hash, parent: Hash, number: nat, difficulty: nat, gasUsed: nat)

  type Store = map<Hash, Header>

  /** Every stored header but the genesis has its parent stored, one number below. */
  ghost predicate Linked(hs: Store, genesis: Hash) {
    && genesis in hs && 0 !in hs
    && forall h :: HeaderOk(hs, genesis, h)
  }

  predicate HeaderOk(hs: Store, genesis: Hash, h: Hash) {
    h in hs ==>
    && hs[h].hash == h
    && (hs[h].number == 0 <==> h == genesis)
    && (h != genesis ==> hs[h].parent in hs && hs[hs[h].parent].number + 1 == hs[h].number)
  }

  // ---- Ancestry ---------------------------------------------------------------------

  /** The ancestor of h with number n. */
  function AncestorAt(hs: Store, genesis: Hash, h: Hash, n: nat): (a: Hash)
    requires Linked(hs, genesis) && h in hs && n <= hs[h].number
    ensures a in hs && hs[a].number == n
    decreases hs[h].number
  {
    assert HeaderOk(hs, genesis, h);
    if hs[h].number == n then h else AncestorAt(hs, genesis, hs[h].parent, n)
  }

  /** Following k parent links. */
  function Walk(hs: Store, genesis: Hash, h: Hash, k: nat): (a: Hash)
    requires Linked(hs, genesis) && h in hs && k <= hs[h].number
    ensures a in hs && hs[a].number == hs[h].number - k
    decreases k
  {
    assert HeaderOk(hs, genesis, h);
    if k == 0 then h else Walk(hs, genesis, hs[h].parent, k - 1)
  }

  lemma {:induction false} WalkIsAncestor(hs: Store, genesis: Hash, h: Hash, k: nat)
    requires Linked(hs, genesis) && h in hs && k <= hs[h].number
    ensures Walk(hs, genesis, h, k) == AncestorAt(hs, genesis, h, hs[h].number - k)
    decreases k
  {
    assert HeaderOk(hs, genesis, h);
    if k > 0 { WalkIsAncestor(hs, genesis, hs[h].parent, k - 1); }
  }

  /** An ancestor of an ancestor is an ancestor. */
  lemma {:induction false} AncestorOfAncestor(hs: Store, genesis: Hash, h: Hash, m: nat, n: nat)
    requires Linked(hs, genesis) && h in hs && n <= m <= hs[h].number
    ensures AncestorAt(hs, genesis, AncestorAt(hs, genesis, h, m), n) == AncestorAt(hs, genesis, h, n)
    decreases hs[h].number
  {
    assert HeaderOk(hs, genesis, h);
    if m < hs[h].number { AncestorOfAncestor(hs, genesis, hs[h].parent, m, n); }
  }

  lemma {:induction false} GenesisBelow(hs: Store, genesis: Hash, h: Hash)
    requires Linked(hs, genesis) && h in hs
    ensures AncestorAt(hs, genesis, h, 0) == genesis
    decreases hs[h].number
  {
    assert HeaderOk(hs, genesis, h);
    if hs[h].number > 0 { GenesisBelow(hs, genesis, hs[h].parent); }
  }

  // ---- Total difficulty ----------------------------------------------------------------

  /** Difficulties added up from the genesis to h. */
  function TotalDifficulty(hs: Store, genesis: Hash, h: Hash): nat
    requires Linked(hs, genesis) && h in hs
    decreases hs[h].number
  {
    assert HeaderOk(hs, genesis, h);
    hs[h].difficulty + if h == genesis then 0 else TotalDifficulty(hs, genesis, hs[h].parent)
  }

  /** Storing one more header changes nothing about those already there. */
  ghost predicate Extends(hs: Store, hs': Store) {
    forall h :: h in hs ==> h in hs' && hs'[h] == hs[h]
  }

  lemma {:induction false} ExtendsKeeps(hs: Store, hs': Store, genesis: Hash, h: Hash, n: nat)
    requires Linked(hs, genesis) && Linked(hs', genesis) && Extends(hs, hs') && h in hs
    ensures TotalDifficulty(hs', genesis, h) == TotalDifficulty(hs, genesis, h)
    ensures n <= hs[h].number ==> AncestorAt(hs', genesis, h, n) == AncestorAt(hs, genesis, h, n)
    decreases hs[h].number
  {
    assert HeaderOk(hs, genesis, h) && HeaderOk(hs', genesis, h);
    if h != genesis { ExtendsKeeps(hs, hs', genesis, hs[h].parent, n); }
  }

  lemma {:induction false} StoreLinked(hs: Store, genesis: Hash, x: Header)
    requires Linked(hs, genesis) && x.hash != 0 && x.number > 0
    requires x.parent in hs && hs[x.parent].number + 1 == x.number
    requires x.hash in hs ==> hs[x.hash] == x
    ensures Linked(hs[x.hash := x], genesis) && Extends(hs, hs[x.hash := x])
  {
    var hs' := hs[x.hash := x];
    assert HeaderOk(hs, genesis, x.parent) && HeaderOk(hs, genesis, genesis);
    forall h ensures HeaderOk(hs', genesis, h) {
      assert HeaderOk(hs, genesis, h);
    }
  }

  // ---- Choosing between heads -----------------------------------------------------------

  datatype ChainHead = ChainHead(td: nat, number: nat, gasUsed: nat)

  /** Whether external replaces local: more difficulty; on a tie a smaller number, then more
      gas used, then the coin. */
  predicate Reorg(local: ChainHead, external: ChainHead, coin: bool) {
    if external.td != local.td then external.td > local.td
    else
      || external.number < local.number
      || (external.number == local.number
          && (external.gasUsed > local.gasUsed || (external.gasUsed == local.gasUsed && coin)))
  }
}
