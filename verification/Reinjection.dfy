/**
 One account's pending list when a reset reinjects transactions (core/tx_pool.go): a run is
 promoted from the new state nonce into the old list, and demotion follows.
 */
module Reinjection {
  import opened Wrappers
  import opened SortedMap
  import opened TxList
  import opened PoolLists

  lemma {:induction false} CutSplit(x: seq<Tx>, y: seq<Tx>, n: nat)
    requires forall t :: t in x ==> t.nonce < n
    requires y != [] ==> y[0].nonce >= n
    ensures Cut(x + y, n) == |x|
    decreases |x|
  {
    if x == [] {
      assert x + y == y;
    } else {
      assert (x + y)[1..] == x[1..] + y && x[0] in x;
      CutSplit(x[1..], y, n);
    }
  }

  /** Inside a list in nonce order, what is before a transaction is below it. */
  lemma {:induction false} Around(x: seq<Tx>, t: Tx, y: seq<Tx>)
    requires Increasing(x + [t] + y)
    ensures (forall u :: u in x ==> u.nonce < t.nonce) && (y != [] ==> t.nonce < y[0].nonce)
  {
    var s := x + [t] + y;
    assert s[|x|] == t;
    forall u | u in x ensures u.nonce < t.nonce {
      var i: nat :| i < |x| && x[i] == u;
      assert s[i] == u && Before(s, i, |x|);
    }
    if y != [] { assert s[|x| + 1] == y[0] && Before(s, |x|, |x| + 1); }
  }

  lemma {:induction false} PlacedBetween(x: seq<Tx>, y: seq<Tx>, t: Tx)
    requires Cut(x + y, t.nonce) == |x| && (y != [] ==> y[0].nonce != t.nonce)
    ensures Placed(x + y, t) == x + [t] + y
  {
    var s := x + y;
    assert s[..|x|] == x && s[|x|..] == y;
    if y != [] { assert s[|x|] == y[0]; }
  }

  lemma {:induction false} PutOne(x: seq<Tx>, t: Tx, y: seq<Tx>)
    requires Increasing(x + [t] + y)
    ensures Placed(x + y, t) == x + [t] + y
  {
    Around(x, t, y);
    CutSplit(x, y, t.nonce);
    PlacedBetween(x, y, t);
  }

  lemma {:induction false} WithoutMiddle(x: seq<Tx>, m: seq<Tx>, y: seq<Tx>)
    requires Increasing(x + m + y)
    ensures Increasing(x + y)
  {
    var s, r := x + m + y, x + y;
    forall i: nat, j: nat ensures Before(r, i, j) {
      assert Before(s, i, j) && Before(s, i, j + |m|) && Before(s, i + |m|, j + |m|);
    }
  }

  /** A run put into a gap of a list fills it. */
  lemma {:induction false} PutRun(x: seq<Tx>, y: seq<Tx>, run: seq<Tx>)
    requires Increasing(x + run + y)
    ensures PutAll(x + y, run) == x + run + y
    decreases |run|
  {
    if run == [] {
      assert x + run + y == x + y;
    } else {
      var k := |run| - 1;
      var front, t := run[..k], run[k];
      assert x + run + y == (x + front) + [t] + y;
      WithoutMiddle(x + front, [t], y);
      PutRun(x, y, front);
      PutOne(x + front, t, y);
    }
  }

  /** Consecutive numbers below consecutive numbers are in order. */
  lemma {:induction false} LinesIncrease(x: seq<Tx>, y: seq<Tx>, a: nat, b: nat)
    requires Contiguous(x, a, a + |x|) && Contiguous(y, b, b + |y|) && (x != [] && y != [] ==> a + |x| <= b)
    ensures Increasing(x + y)
  {
    var s := x + y;
    forall i: nat, j: nat ensures Before(s, i, j) {
      assert Follows(x, a, i) && Follows(x, a, j);
      if i >= |x| { assert Follows(y, b, i - |x|); }
      if j >= |x| { assert Follows(y, b, j - |x|); }
    }
  }

  lemma {:induction false} MatchOfParts(x: seq<Tx>, y: seq<Tx>, f: Tx -> bool)
    ensures FirstMatch(x + y, f) == if FirstMatch(x, f) < |x| then FirstMatch(x, f) else |x| + FirstMatch(y, f)
    decreases |x|
  {
    if x == [] {
      assert x + y == y;
    } else {
      assert (x + y)[1..] == x[1..] + y;
      MatchOfParts(x[1..], y, f);
    }
  }

  lemma {:induction false} MatchAtHead(p: seq<Tx>, f: Tx -> bool)
    requires p != []
    ensures FirstMatch(p, f) == 0 <==> f(p[0])
  {
  }

  /** Two lists with no nonce in common: a run below the old list ends at it at the latest. */
  lemma {:induction false} RunsApart(p: seq<Tx>, run: seq<Tx>, sn0: nat, vn0: nat, sn: nat)
    requires Contiguous(p, sn0, vn0) && Contiguous(run, sn, sn + |run|) && Apart(p, run) && run != [] && p != []
    ensures vn0 <= sn || sn + |run| <= sn0
  {
    if sn < vn0 && sn0 < sn + |run| {
      var n := if sn < sn0 then sn0 else sn;
      ContiguousHas(p, sn0, vn0, n);
      ContiguousHas(run, sn, sn + |run|, n);
    }
  }

  /** The run comes after a list that is wholly below the state nonce, which demotion drops. */
  lemma {:induction false} AfterOld(p: seq<Tx>, run: seq<Tx>, sn0: nat, vn0: nat, sn: nat, f: Tx -> bool)
    requires Contiguous(p, sn0, vn0) && Contiguous(run, sn, sn + |run|) && (p != [] ==> vn0 <= sn) && run != []
    ensures PutAll(p, run) == p + run && DemotedPending(p + run, sn, f) == DemotedPending(run, sn, f)
  {
    LinesIncrease(p, run, sn0, sn);
    assert p + run + [] == p + run && p + [] == p;
    PutRun(p, [], run);
    assert Follows(run, sn, 0);
    forall t | t in p ensures t.nonce < sn {
      var i: nat :| i < |p| && p[i] == t;
      assert Follows(p, sn0, i);
    }
    CutSplit(p, run, sn);
    CutSplit([], run, sn);
    assert [] + run == run && (p + run)[|p|..] == run && run[0..] == run;
  }

  /** A list whose first transaction has the state nonce is demoted to its payable front. */
  lemma {:induction false} DemotedFront(s: seq<Tx>, sn: nat, f: Tx -> bool)
    requires s != [] && s[0].nonce == sn
    ensures DemotedPending(s, sn, f) == s[..FirstMatch(s, f)]
  {
    CutSplit([], s, sn);
    assert [] + s == s && s[0..] == s;
    var fit := s[..FirstMatch(s, f)];
    if fit != [] {
      CutSplit([], fit, sn);
      assert [] + fit == fit;
    }
  }

  /** The run comes before the old list, and demotion keeps what can be paid without a break. */
  lemma {:induction false} BeforeOld(p: seq<Tx>, run: seq<Tx>, sn0: nat, vn0: nat, sn: nat, f: Tx -> bool)
    requires Contiguous(p, sn0, vn0) && Contiguous(run, sn, sn + |run|) && sn + |run| <= sn0 && run != []
    ensures PutAll(p, run) == run + p
    ensures DemotedPending(run + p, sn, f) == (run + p)[..FirstMatch(run + p, f)]
  {
    PutBefore(p, run, sn0, sn);
    assert Follows(run, sn, 0) && (run + p)[0] == run[0];
    DemotedFront(run + p, sn, f);
  }

  /** A front part of a run and a list above it is contiguous if the list follows, or is not reached. */
  lemma {:induction false} FrontContiguous(p: seq<Tx>, run: seq<Tx>, sn0: nat, vn0: nat, sn: nat, m: nat)
    requires Contiguous(p, sn0, vn0) && Contiguous(run, sn, sn + |run|) && m <= |run + p|
    ensures Contiguous((run + p)[..m], sn, sn + m) <==> m <= |run| || sn + |run| == sn0
  {
    var r := (run + p)[..m];
    if m <= |run| || sn + |run| == sn0 {
      forall i: nat ensures Follows(r, sn, i) {
        assert Follows(run, sn, i);
        if i >= |run| { assert Follows(p, sn0, i - |run|); }
      }
    } else {
      assert Follows(p, sn0, 0) && r[|run|] == p[0];
      assert !Follows(r, sn, |run|);
    }
  }

  /** Whether demotion leaves a contiguous list after a run from the state nonce was promoted. */
  predicate Mends(p: seq<Tx>, run: seq<Tx>, sn0: nat, sn: nat, f: Tx -> bool) {
    || run == [] || p == [] || sn0 <= sn
    || sn + |run| == sn0
    || FirstMatch(run, f) < |run| || f(p[0])
  }

  lemma {:induction false} MatchReaches(run: seq<Tx>, p: seq<Tx>, f: Tx -> bool)
    requires p != []
    ensures FirstMatch(run + p, f) <= |run| <==> FirstMatch(run, f) < |run| || f(p[0])
  {
    MatchOfParts(run, p, f);
    MatchAtHead(p, f);
  }

  lemma {:induction false} GapBelow(p: seq<Tx>, run: seq<Tx>, sn0: nat, vn0: nat, sn: nat, f: Tx -> bool)
    requires Contiguous(p, sn0, vn0) && Contiguous(run, sn, sn + |run|) && sn + |run| <= sn0
    requires run != [] && p != []
    ensures Mended(p, run, sn, f) <==> Mends(p, run, sn0, sn, f)
  {
    BeforeOld(p, run, sn0, vn0, sn, f);
    MatchReaches(run, p, f);
    FrontContiguous(p, run, sn0, vn0, sn, FirstMatch(run + p, f));
  }

  lemma {:induction false} NoGapAfter(p: seq<Tx>, run: seq<Tx>, sn0: nat, vn0: nat, sn: nat, f: Tx -> bool)
    requires Contiguous(p, sn0, vn0) && Contiguous(run, sn, sn + |run|) && (p != [] ==> vn0 <= sn) && run != []
    ensures Mended(p, run, sn, f)
  {
    AfterOld(p, run, sn0, vn0, sn, f);
    DemotedContiguous(run, sn, sn + |run|, sn, f);
  }

  /** After the run is promoted, demotion leaves a contiguous list. */
  ghost predicate Mended(p: seq<Tx>, run: seq<Tx>, sn: nat, f: Tx -> bool) {
    var r := DemotedPending(PutAll(p, run), sn, f);
    Contiguous(r, sn, sn + |r|)
  }

  /**
   A contiguous pending list, a new state nonce and a run of other transactions promoted from
   it: the demotion that follows leaves a list that is contiguous from the new state nonce if
   and only if there is no run, no old list, no step back, the run reaches the old list, or
   demotion cuts it off before or at its first transaction.
   */
  lemma {:induction false} ReinjectionGap(p: seq<Tx>, run: seq<Tx>, sn0: nat, vn0: nat, sn: nat, f: Tx -> bool)
    requires Contiguous(p, sn0, vn0) && Contiguous(run, sn, sn + |run|) && Apart(p, run)
    ensures Mended(p, run, sn, f) <==> Mends(p, run, sn0, sn, f)
  {
    if run == [] {
      DemotedContiguous(p, sn0, vn0, sn, f);
    } else if p == [] || vn0 <= sn {
      NoGapAfter(p, run, sn0, vn0, sn, f);
    } else {
      RunsApart(p, run, sn0, vn0, sn);
      GapBelow(p, run, sn0, vn0, sn, f);
    }
  }

  // ---- The run that is ready ------------------------------------------------------------------

  lemma {:induction false} MaximalMisses(e: seq<Tx>, k: nat)
    requires Increasing(e) && 0 < k <= |e| && MaximalRun(e, k)
    ensures Find(e, e[0].nonce + k).None?
  {
    var n := e[0].nonce + k;
    forall t | t in e ensures t.nonce != n {
      var j: nat :| j < |e| && e[j] == t;
      if j > k { assert Before(e, k, j) && Before(e, k - 1, k); }
    }
    FindNone(e, n);
  }

  lemma {:induction false} FirstIsLeast(e: seq<Tx>, n: nat)
    requires Increasing(e) && e != [] && n < e[0].nonce
    ensures Find(e, n).None?
  {
    forall t | t in e ensures t.nonce != n {
      var j: nat :| j < |e| && e[j] == t;
      assert Before(e, 0, j);
    }
    FindNone(e, n);
  }

  /** What is ready at the state nonce: the nonces from there up to the first that is missing. */
  lemma {:induction false} ReadyRun(e: seq<Tx>, sn: nat)
    requires Increasing(e) && forall t :: t in e ==> t.nonce >= sn
    ensures var run := e[..ReadyLength(e, sn)];
      && Contiguous(run, sn, sn + |run|) && (run != [] <==> Find(e, sn).Some?)
      && Find(e, sn + |run|).None?
  {
    var k := ReadyLength(e, sn);
    var run := e[..k];
    if e == [] {
      FindInEmpty(sn);
    } else if e[0].nonce > sn {
      FirstIsLeast(e, sn);
    } else {
      assert e[0] in e;
      RunLengthIsMaximal(e);
      MaximalMisses(e, k);
      FindNone(e, sn);
      forall i: nat ensures Follows(run, sn, i) {}
    }
  }

  lemma {:induction false} ReadyEnds(e: seq<Tx>, sn: nat)
    requires Increasing(e) && forall t :: t in e ==> t.nonce >= sn
    ensures Find(e, sn + ReadyLength(e, sn)).None?
  {
    ReadyRun(e, sn);
  }

  /** Every nonce from lo up to hi is there. */
  ghost predicate FoundFrom(e: seq<Tx>, lo: nat, hi: nat) {
    forall n: nat :: lo <= n < hi ==> Find(e, n).Some?
  }

  /** It has k transactions exactly if the k nonces from the state nonce are there. */
  lemma {:induction false} ReadyCovers(e: seq<Tx>, sn: nat, k: nat)
    requires Increasing(e) && forall t :: t in e ==> t.nonce >= sn
    ensures k <= ReadyLength(e, sn) <==> FoundFrom(e, sn, sn + k)
  {
    ReadyRun(e, sn);
    var run := e[..ReadyLength(e, sn)];
    forall n: nat | sn <= n < sn + |run| ensures Find(e, n).Some? {
      ContiguousHas(run, sn, sn + |run|, n);
      assert run[n - sn] in e;
      FindNone(e, n);
    }
  }

  lemma {:induction false} AllPayable(run: seq<Tx>, f: Tx -> bool)
    requires forall t :: t in run ==> !f(t)
    ensures FirstMatch(run, f) == |run|
  {
    NoneMatched(run, f);
  }

  /** A payable run from the state nonce is kept. */
  lemma {:induction false} RunStays(p: seq<Tx>, run: seq<Tx>, sn0: nat, vn0: nat, sn: nat, f: Tx -> bool)
    requires Contiguous(p, sn0, vn0) && Contiguous(run, sn, sn + |run|) && Apart(p, run)
    requires run != [] && FirstMatch(run, f) == |run|
    ensures DemotedPending(PutAll(p, run), sn, f) != []
  {
    assert Follows(run, sn, 0);
    if p == [] || vn0 <= sn {
      AfterOld(p, run, sn0, vn0, sn, f);
      DemotedFront(run, sn, f);
    } else {
      RunsApart(p, run, sn0, vn0, sn);
      BeforeOld(p, run, sn0, vn0, sn, f);
      MatchOfParts(run, p, f);
    }
  }

  lemma {:induction false} NoneBetween(p: seq<Tx>, run: seq<Tx>, sn0: nat, vn0: nat, sn: nat, t: Tx)
    requires Contiguous(p, sn0, vn0) && Contiguous(run, sn, sn + |run|) && sn + |run| < sn0 && t in run + p
    ensures t.nonce != sn + |run|
  {
    var s := run + p;
    var i: nat :| i < |s| && s[i] == t;
    if i < |run| { assert Follows(run, sn, i); } else { assert Follows(p, sn0, i - |run|); }
  }

  /** A payable run that ends below the first old transaction, which is payable too, leaves a hole. */
  lemma {:induction false} LeavesHole(p: seq<Tx>, run: seq<Tx>, sn0: nat, vn0: nat, sn: nat, f: Tx -> bool)
    requires Contiguous(p, sn0, vn0) && Contiguous(run, sn, sn + |run|) && sn + |run| < sn0
    requires run != [] && FirstMatch(run, f) == |run| && p != [] && !f(p[0])
    ensures var r := DemotedPending(PutAll(p, run), sn, f);
      p[0] in r && p[0].nonce == sn0 && forall t :: t in r ==> t.nonce != sn + |run|
  {
    BeforeOld(p, run, sn0, vn0, sn, f);
    MatchReaches(run, p, f);
    var s, m := run + p, FirstMatch(run + p, f);
    assert s[..m][|run|] == p[0] && Follows(p, sn0, 0);
    forall t | t in s[..m] ensures t.nonce != sn + |run| { NoneBetween(p, run, sn0, vn0, sn, t); }
  }

  // ---- With trims -----------------------------------------------------------------------------

  /** The lowest nonce that is left out, if it is below the virtual nonce, and else that. */
  function NonceAfter(p: seq<Tx>, m: nat, vn: nat): nat
    requires m <= |p|
  {
    if m < |p| && vn > p[m].nonce then p[m].nonce else vn
  }

  /** How many are left after k trims. */
  function Untrimmed(p: seq<Tx>, k: nat): (m: nat)
    ensures m <= |p|
  {
    if k < |p| then |p| - k else 0
  }

  /** An account's pending list after a run was promoted and the last k trimmed. */
  function Kept(p: seq<Tx>, run: seq<Tx>, k: nat): seq<Tx> {
    var l := PutAll(p, run);
    l[..Untrimmed(l, k)]
  }

  /** And after demotion. */
  function Left(p: seq<Tx>, run: seq<Tx>, sn: nat, k: nat, f: Tx -> bool): seq<Tx> {
    DemotedPending(Kept(p, run, k), sn, f)
  }

  /** Its virtual nonce then, unless pending transactions set it. */
  function LeftNonce(p: seq<Tx>, run: seq<Tx>, sn: nat, k: nat): nat {
    var l := PutAll(p, run);
    NonceAfter(l, Untrimmed(l, k), sn + |run|)
  }

  ghost predicate EndsInOrder(p: seq<Tx>, run: seq<Tx>, sn: nat, k: nat, f: Tx -> bool) {
    var r := Left(p, run, sn, k, f);
    if r == [] then LeftNonce(p, run, sn, k) == sn else Contiguous(r, sn, sn + |r|)
  }

  /**
   When an account ends in order.  If the state nonce steps back: there is no run, the old list
   is trimmed away, the run reaches it, or its first transaction cannot be paid.  Else: no
   transaction below the state nonce is trimmed.
   */
  predicate Orderly(p: seq<Tx>, run: seq<Tx>, sn0: nat, sn: nat, k: nat, f: Tx -> bool) {
    || p == []
    || (if sn < sn0 then run == [] || k >= |p| || sn + |run| == sn0 || f(p[0])
        else if sn < sn0 + |p| then k == 0 || sn0 == sn || sn + k <= sn0 + |p|
        else k <= |run|)
  }

  lemma {:induction false} FrontIncreases(run: seq<Tx>, sn: nat)
    requires Contiguous(run, sn, sn + |run|)
    ensures Increasing(run) && PutAll([], run) == run
  {
    ContiguousIncreasing(run, sn, sn + |run|);
    var none: seq<Tx> := [];
    assert none + run + none == run && none + none == none;
    PutRun(none, none, run);
  }

  /** A front part of a payable run stays. */
  lemma {:induction false} RunFront(run: seq<Tx>, sn: nat, m: nat, f: Tx -> bool)
    requires Contiguous(run, sn, sn + |run|) && m <= |run| && FirstMatch(run, f) == |run|
    ensures DemotedPending(run[..m], sn, f) == run[..m] && Contiguous(run[..m], sn, sn + m)
  {
    ContiguousFront(run, sn, sn + |run|, m);
    if m == 0 {
      FindInEmpty(sn);
      assert run[..0] == [];
    } else {
      assert Follows(run, sn, 0);
      AllPayable(run[..m], f);
      DemotedFront(run[..m], sn, f);
      assert run[..m][..m] == run[..m];
    }
  }

  /** A list wholly below the state nonce goes. */
  lemma {:induction false} AllBelowGo(p: seq<Tx>, sn0: nat, sn: nat, f: Tx -> bool)
    requires Contiguous(p, sn0, sn0 + |p|) && sn0 + |p| <= sn
    ensures DemotedPending(p, sn, f) == []
  {
    forall t | t in p ensures t.nonce < sn {
      var i: nat :| i < |p| && p[i] == t;
      assert Follows(p, sn0, i);
    }
    CutSplit(p, [], sn);
    assert p + [] == p && p[|p|..] == [];
    FindInEmpty(sn);
  }

  /** A list wholly above the state nonce goes. */
  lemma {:induction false} AllAboveGo(p: seq<Tx>, sn0: nat, sn: nat, f: Tx -> bool)
    requires Contiguous(p, sn0, sn0 + |p|) && sn < sn0
    ensures DemotedPending(p, sn, f) == []
  {
    var fit := Payable(p, sn, f);
    forall t | t in fit ensures t.nonce > sn {
      assert t in p;
      var i: nat :| i < |p| && p[i] == t;
      assert Follows(p, sn0, i);
    }
  }

  lemma {:induction false} TrimmedRun(run: seq<Tx>, sn: nat, k: nat, f: Tx -> bool)
    requires Contiguous(run, sn, sn + |run|) && FirstMatch(run, f) == |run|
    ensures EndsInOrder([], run, sn, k, f)
  {
    FrontIncreases(run, sn);
    RunFront(run, sn, Untrimmed(run, k), f);
    if run != [] { assert Follows(run, sn, 0); }
  }

  /** The state nonce is within the old list, which takes no run. */
  lemma {:induction false} TrimmedWithin(p: seq<Tx>, sn0: nat, sn: nat, k: nat, f: Tx -> bool)
    requires Contiguous(p, sn0, sn0 + |p|) && sn0 <= sn < sn0 + |p|
    ensures EndsInOrder(p, [], sn, k, f) <==> k == 0 || sn0 == sn || sn + k <= sn0 + |p|
    ensures !EndsInOrder(p, [], sn, k, f) ==> Left(p, [], sn, k, f) == [] && LeftNonce(p, [], sn, k) < sn
  {
    var m := Untrimmed(p, k);
    ContiguousFront(p, sn0, sn0 + |p|, m);
    if m < |p| { assert Follows(p, sn0, m); }
    if sn0 + m < sn {
      AllBelowGo(p[..m], sn0, sn, f);
    } else {
      DemotedContiguous(p[..m], sn0, sn0 + m, sn, f);
    }
  }

  lemma {:induction false} PutAfter(p: seq<Tx>, run: seq<Tx>, sn0: nat, sn: nat)
    requires Contiguous(p, sn0, sn0 + |p|) && Contiguous(run, sn, sn + |run|) && (p != [] ==> sn0 + |p| <= sn)
    ensures PutAll(p, run) == p + run
  {
    LinesIncrease(p, run, sn0, sn);
    assert p + run + [] == p + run && p + [] == p;
    PutRun(p, [], run);
  }

  lemma {:induction false} DemotedAfter(p: seq<Tx>, run: seq<Tx>, sn0: nat, sn: nat, f: Tx -> bool)
    requires Contiguous(p, sn0, sn0 + |p|) && Contiguous(run, sn, sn + |run|) && (p != [] ==> sn0 + |p| <= sn)
    requires FirstMatch(run, f) == |run|
    ensures DemotedPending(p + run, sn, f) == run
  {
    if run == [] {
      assert p + run == p;
      if p == [] { FindInEmpty(sn); } else { AllBelowGo(p, sn0, sn, f); }
    } else {
      AfterOld(p, run, sn0, sn0 + |p|, sn, f);
      RunFront(run, sn, |run|, f);
      assert run[..|run|] == run;
    }
  }

  /** The state nonce is above the old list: trims must not go past the run. */
  lemma {:induction false} TrimmedAfter(p: seq<Tx>, run: seq<Tx>, sn0: nat, sn: nat, k: nat, f: Tx -> bool)
    requires Contiguous(p, sn0, sn0 + |p|) && Contiguous(run, sn, sn + |run|) && p != [] && sn0 + |p| <= sn
    requires FirstMatch(run, f) == |run|
    ensures EndsInOrder(p, run, sn, k, f) <==> k <= |run|
    ensures !EndsInOrder(p, run, sn, k, f) ==> Left(p, run, sn, k, f) == [] && LeftNonce(p, run, sn, k) < sn
  {
    PutAfter(p, run, sn0, sn);
    var l := p + run;
    var m := Untrimmed(l, k);
    if k <= |run| {
      var j := |run| - k;
      assert l[..m] == p + run[..j];
      RunFront(run, sn, j, f);
      AllPayable(run[..j], f);
      DemotedAfter(p, run[..j], sn0, sn, f);
      if k > 0 { assert l[m] == run[j] && Follows(run, sn, j); }
    } else {
      assert l[..m] == p[..m] && l[m] == p[m];
      ContiguousFront(p, sn0, sn0 + |p|, m);
      AllBelowGo(p[..m], sn0, sn, f);
      assert Follows(p, sn0, m);
    }
  }

  lemma {:induction false} TrimmedAbove(p: seq<Tx>, sn0: nat, sn: nat, k: nat, f: Tx -> bool)
    requires Contiguous(p, sn0, sn0 + |p|) && sn < sn0
    ensures EndsInOrder(p, [], sn, k, f)
  {
    var m := Untrimmed(p, k);
    ContiguousFront(p, sn0, sn0 + |p|, m);
    AllAboveGo(p[..m], sn0, sn, f);
    if m < |p| { assert Follows(p, sn0, m); }
  }

  /** The state nonce steps back, and what is trimmed includes the whole old list. */
  lemma {:induction false} TrimmedToRun(p: seq<Tx>, run: seq<Tx>, sn0: nat, sn: nat, k: nat, f: Tx -> bool)
    requires Contiguous(p, sn0, sn0 + |p|) && Contiguous(run, sn, sn + |run|) && sn + |run| <= sn0
    requires run != [] && FirstMatch(run, f) == |run| && k >= |p|
    ensures EndsInOrder(p, run, sn, k, f)
  {
    BeforeOld(p, run, sn0, sn0 + |p|, sn, f);
    var l := run + p;
    var m := Untrimmed(l, k);
    assert l[..m] == run[..m];
    RunFront(run, sn, m, f);
    assert l[0] == run[0] && Follows(run, sn, 0);
  }

  /** Trims that leave part of the old list are trims of the old list. */
  lemma {:induction false} KeptOfFront(p: seq<Tx>, run: seq<Tx>, sn0: nat, sn: nat, k: nat)
    requires Contiguous(p, sn0, sn0 + |p|) && Contiguous(run, sn, sn + |run|) && sn + |run| <= sn0
    requires run != [] && k < |p|
    ensures Kept(p, run, k) == PutAll(p[..|p| - k], run)
  {
    var front := p[..|p| - k];
    ContiguousFront(p, sn0, sn0 + |p|, |p| - k);
    PutBefore(p, run, sn0, sn);
    PutBefore(front, run, sn0, sn);
    assert (run + p)[..|run| + |p| - k] == run + front;
  }

  lemma {:induction false} PutBefore(p: seq<Tx>, run: seq<Tx>, sn0: nat, sn: nat)
    requires Contiguous(p, sn0, sn0 + |p|) && Contiguous(run, sn, sn + |run|) && sn + |run| <= sn0
    ensures PutAll(p, run) == run + p
  {
    LinesIncrease(run, p, sn, sn0);
    assert [] + run + p == run + p && [] + p == p;
    PutRun([], p, run);
  }

  lemma {:induction false} BelowDecides(p: seq<Tx>, run: seq<Tx>, sn0: nat, sn: nat, f: Tx -> bool, r: seq<Tx>)
    requires Contiguous(p, sn0, sn0 + |p|) && Contiguous(run, sn, sn + |run|) && sn + |run| <= sn0 && Apart(p, run)
    requires run != [] && FirstMatch(run, f) == |run| && p != [] && r == DemotedPending(PutAll(p, run), sn, f)
    ensures r != [] && (Contiguous(r, sn, sn + |r|) <==> sn + |run| == sn0 || f(p[0]))
    ensures sn + |run| < sn0 && !f(p[0]) ==> Skips(r, sn + |run|)
  {
    RunStays(p, run, sn0, sn0 + |p|, sn, f);
    GapBelow(p, run, sn0, sn0 + |p|, sn, f);
    if sn + |run| < sn0 && !f(p[0]) { LeavesHole(p, run, sn0, sn0 + |p|, sn, f); }
  }

  lemma {:induction false} FrontApart(p: seq<Tx>, run: seq<Tx>, m: nat)
    requires Apart(p, run) && m <= |p|
    ensures Apart(p[..m], run)
  {
    forall t | t in p[..m] ensures t in p {}
  }

  /** The state nonce steps back, and part of the old list is left. */
  lemma {:induction false} TrimmedBelow(p: seq<Tx>, run: seq<Tx>, sn0: nat, sn: nat, k: nat, f: Tx -> bool)
    requires Contiguous(p, sn0, sn0 + |p|) && Contiguous(run, sn, sn + |run|) && sn + |run| <= sn0 && Apart(p, run)
    requires run != [] && FirstMatch(run, f) == |run| && k < |p|
    ensures EndsInOrder(p, run, sn, k, f) <==> sn + |run| == sn0 || f(p[0])
    ensures sn + |run| < sn0 && !f(p[0]) ==> Skips(Left(p, run, sn, k, f), sn + |run|)
  {
    ContiguousFront(p, sn0, sn0 + |p|, |p| - k);
    FrontApart(p, run, |p| - k);
    KeptOfFront(p, run, sn0, sn, k);
    BelowDecides(p[..|p| - k], run, sn0, sn, f, Left(p, run, sn, k, f));
  }

  /** A nonce is missing below another. */
  ghost predicate Skips(r: seq<Tx>, n: nat) {
    (exists t :: t in r && t.nonce > n) && forall t :: t in r ==> t.nonce != n
  }

  /** Where an account that ends out of order stands: behind the state nonce, or with a nonce missing. */
  ghost predicate EndsBroken(p: seq<Tx>, run: seq<Tx>, sn0: nat, sn: nat, k: nat, f: Tx -> bool) {
    || (Left(p, run, sn, k, f) == [] && LeftNonce(p, run, sn, k) < sn)
    || (run != [] && sn + |run| < sn0 && Skips(Left(p, run, sn, k, f), sn + |run|))
  }

  /**
   A contiguous pending list, a new state nonce, a payable run of other transactions promoted
   from it and any number of trims: the account ends in order after demotion if and only if
   Orderly, and otherwise behind the state nonce or with a nonce missing.
   */
  lemma {:induction false} TrimmedGap(p: seq<Tx>, run: seq<Tx>, sn0: nat, sn: nat, k: nat, f: Tx -> bool)
    requires Contiguous(p, sn0, sn0 + |p|) && Contiguous(run, sn, sn + |run|) && Apart(p, run)
    requires FirstMatch(run, f) == |run|
    ensures EndsInOrder(p, run, sn, k, f) <==> Orderly(p, run, sn0, sn, k, f)
    ensures !Orderly(p, run, sn0, sn, k, f) ==> EndsBroken(p, run, sn0, sn, k, f)
  {
    if p == [] {
      TrimmedRun(run, sn, k, f);
    } else if sn0 + |p| <= sn {
      TrimmedAfter(p, run, sn0, sn, k, f);
    } else if run == [] {
      if sn < sn0 { TrimmedAbove(p, sn0, sn, k, f); } else { TrimmedWithin(p, sn0, sn, k, f); }
    } else {
      RunsApart(p, run, sn0, sn0 + |p|, sn);
      if k >= |p| { TrimmedToRun(p, run, sn0, sn, k, f); } else { TrimmedBelow(p, run, sn0, sn, k, f); }
    }
  }

  // ---- An example -----------------------------------------------------------------------------

  /** A plain transfer of nothing at price 1. */
  function Sample(n: nat): Tx {
    Tx(n, 0, n, 1, 21000, 21000)
  }

  /** Nonces 5 to 7 pending, the state back at 3, and 3 reinjected without 4: 4 is missing. */
  lemma {:induction false} RejectedMiddle()
    ensures var p, run := [Sample(5), Sample(6), Sample(7)], [Sample(3)];
      Contiguous(p, 5, 8) && !Mended(p, run, 3, TooMuch(21000, 21000))
  {
    var p, run, f := [Sample(5), Sample(6), Sample(7)], [Sample(3)], TooMuch(21000, 21000);
    assert forall i: nat :: Follows(p, 5, i);
    assert forall i: nat :: Follows(run, 3, i);
    AllPayable(run, f);
    ReinjectionGap(p, run, 5, 8, 3, f);
  }
}
