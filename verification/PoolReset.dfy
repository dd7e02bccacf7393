/** Which transactions the pool puts back when the head moves (reset in core/tx_pool.go). */
module PoolReset {
  import opened Headers
  import opened BlockChain

  const MAX_REORG_DEPTH: nat := 64

  function Depth(a: nat, b: nat): nat {
    if a > b then a - b else b - a
  }

  /** A longer new chain is rewound to the old one's number. */
  method RewindMain(c: Blocks, oldHead: Hash, newHead: Hash) returns (main: Hash, included: set<Tx>)
    requires c.Ok() && oldHead in c.hs && newHead in c.hs
    ensures main in c.hs && Passing(c, newHead, main, c.Fork(oldHead, newHead), included)
    ensures c.Fork(oldHead, main) == c.Fork(oldHead, newHead)
    ensures c.hs[main].number <= c.hs[oldHead].number
    ensures c.hs[main].number == c.hs[oldHead].number || main == newHead
  {
    included, main := {}, newHead;
    ghost var f := c.Fork(oldHead, newHead);
    while c.hs[main].number > c.hs[oldHead].number
      invariant main in c.hs && Passing(c, newHead, main, f, included) && c.Fork(oldHead, main) == f
      invariant c.hs[main].number >= c.hs[oldHead].number || main == newHead
      decreases c.hs[main].number
    {
      ForkBelow(c, oldHead, main);
      PassOne(c, newHead, main, f, included);
      included := included + set t | t in c.Body(main);
      main := c.hs[main].parent;
    }
  }

  /** A longer old chain is rewound to the new one's number. */
  method RewindBranch(c: Blocks, oldHead: Hash, newHead: Hash, main: Hash, included: set<Tx>)
    returns (branch: Hash, reinject: set<Tx>, ghost passed: set<Tx>)
    requires c.Ok() && oldHead in c.hs && newHead in c.hs && main in c.hs
    requires c.hs[main].number == c.hs[oldHead].number || main == newHead
    requires c.hs[main].number <= c.hs[oldHead].number && c.hs[main].number <= c.hs[newHead].number
    ensures branch in c.hs && Passing(c, oldHead, branch, c.Fork(oldHead, main), passed)
    ensures c.Fork(branch, main) == c.Fork(oldHead, main) && c.hs[branch].number == c.hs[main].number
    ensures reinject == passed - included
  {
    branch, reinject, passed := oldHead, {}, {};
    ghost var f := c.Fork(oldHead, main);
    while c.hs[branch].number > c.hs[newHead].number
      invariant branch in c.hs && Passing(c, oldHead, branch, f, passed) && c.Fork(branch, main) == f
      invariant reinject == passed - included
      invariant c.hs[branch].number >= c.hs[main].number
      decreases c.hs[branch].number
    {
      ForkBelow(c, branch, main);
      PassOne(c, oldHead, branch, f, passed);
      reinject := reinject + set t | t in c.Body(branch) && t !in included;
      passed := passed + set t | t in c.Body(branch);
      branch := c.hs[branch].parent;
    }
  }

  /** Rewinding both heads to a common ancestor: included gathers the new branch, the result what
      only the old branch has.  A head too far away reinjects nothing. */
  method Reinject(c: Blocks, oldHead: Hash, newHead: Hash) returns (reinject: set<Tx>)
    requires c.Ok() && oldHead in c.hs && newHead in c.hs
    ensures reinject == if Depth(c.hs[oldHead].number, c.hs[newHead].number) > MAX_REORG_DEPTH
                        then {} else Dropped(c, oldHead, newHead)
  {
    reinject := {};
    if newHead != c.g && c.hs[newHead].parent == oldHead {
      ChildDropsNothing(c, newHead);
      return;
    }
    if Depth(c.hs[oldHead].number, c.hs[newHead].number) > MAX_REORG_DEPTH {
      return;
    }
    ghost var f := c.Fork(oldHead, newHead);
    var main, included := RewindMain(c, oldHead, newHead);
    var branch;
    ghost var passed;
    branch, reinject, passed := RewindBranch(c, oldHead, newHead, main, included);
    while branch != main
      invariant branch in c.hs && main in c.hs && c.hs[branch].number == c.hs[main].number
      invariant Passing(c, oldHead, branch, f, passed) && Passing(c, newHead, main, f, included)
      invariant c.Fork(branch, main) == f && reinject == passed - included
      decreases c.hs[main].number
    {
      assert HeaderOk(c.hs, c.g, branch) && HeaderOk(c.hs, c.g, main);
      ForkBelow(c, c.hs[branch].parent, c.hs[main].parent);
      PassOne(c, newHead, main, f, included);
      PassOne(c, oldHead, branch, f, passed);
      reinject := reinject - set t | t in c.Body(main);
      included := included + set t | t in c.Body(main);
      main := c.hs[main].parent;
      reinject := reinject + set t | t in c.Body(branch) && t !in included;
      passed := passed + set t | t in c.Body(branch);
      branch := c.hs[branch].parent;
    }
  }
}
