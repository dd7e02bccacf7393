/**
 setValidSections (core/chain_indexer.go) write by write.  The update loop calls it without
 the lock when the backend refuses a section; a reorganisation notice calls it with the lock.
 Two calls that overlap interleave their reads and writes in any order.
 */
module SectionRace {
  type Hash = nat

  const MAX_UINT64: nat := 0xFFFF_FFFF_FFFF_FFFF

  /** What both calls read and write: the persisted count, the stored count and the section heads. */
  datatype Shared = Shared(count: nat, stored: nat, heads: map<nat, Hash>)

  /** Before the count is persisted, before the loop's test, its decrement or its removal, before the
      last write, returned. */
  datatype Pc = Count | Test | Dec | Remove | Final | Out

  datatype Call = Call(pc: Pc, sections: nat)

  /** The next read or write of a call; the decrement wraps. */
  function Advance(s: Shared, c: Call): (Shared, Call) {
    match c.pc
    case Count => (s.(count := c.sections), c.(pc := Test))
    case Test => (s, c.(pc := if s.stored > c.sections then Dec else Final))
    case Dec => (s.(stored := if s.stored == 0 then MAX_UINT64 else s.stored - 1), c.(pc := Remove))
    case Remove => (s.(heads := s.heads - {s.stored}), c.(pc := Test))
    case Final => (s.(stored := c.sections), c.(pc := Out))
    case Out => (s, c)
  }

  // ---- One call alone -------------------------------------------------------------------------

  function Alone(s: Shared, c: Call, n: nat): (Shared, Call)
    decreases n
  {
    if n == 0 then (s, c) else
    var (s', c') := Advance(s, c);
    Alone(s', c', n - 1)
  }

  predicate KeyOk(heads: map<nat, Hash>, top: nat, i: nat) {
    i in heads <==> i < top
  }

  ghost predicate KeysBelow(heads: map<nat, Hash>, top: nat) {
    forall i: nat :: KeyOk(heads, top, i)
  }

  /** The persisted count is the stored one, and heads are stored exactly below it. */
  ghost predicate Agree(s: Shared) {
    s.count == s.stored && KeysBelow(s.heads, s.stored)
  }

  /** How many heads there are while one call is under way. */
  function Top(s: Shared, c: Call): nat {
    if c.pc == Remove then s.stored + 1 else s.stored
  }

  /** Where the one call under way has got to. */
  ghost predicate Solo(s: Shared, c: Call) {
    && KeysBelow(s.heads, Top(s, c))
    && (c.pc == Out || c.pc == Count ==> s.count == s.stored)
    && (c.pc != Out && c.pc != Count ==> s.count == c.sections)
    && (c.pc != Out ==> c.sections <= s.stored)
    && (c.pc == Dec ==> c.sections < s.stored)
    && (c.pc == Final ==> c.sections == s.stored)
  }

  lemma {:induction false} SoloMoves(s: Shared, c: Call)
    requires Solo(s, c)
    ensures Solo(Advance(s, c).0, Advance(s, c).1)
  {
    var (s', c') := Advance(s, c);
    forall i: nat ensures KeyOk(s'.heads, Top(s', c'), i) { assert KeyOk(s.heads, Top(s, c), i); }
  }

  /** The steps a call has left when nothing interferes. */
  function Left(s: Shared, c: Call): nat {
    var d := if s.stored > c.sections then s.stored - c.sections else 0;
    match c.pc
    case Count => 3 * d + 3
    case Test => 3 * d + 2
    case Dec =>
      var next := if s.stored == 0 then MAX_UINT64 else s.stored - 1;
      3 * (if next > c.sections then next - c.sections else 0) + 4
    case Remove => 3 * d + 3
    case Final => 1
    case Out => 0
  }

  /** A head the call will not remove. */
  predicate Beyond(s: Shared, c: Call, i: nat) {
    match c.pc
    case Remove => i > s.stored
    case Dec => i >= s.stored > c.sections
    case _ => i >= s.stored
  }

  /** A call left alone returns, from any state whatsoever. */
  lemma {:induction false} Ends(s: Shared, c: Call, i: nat) returns (n: nat)
    requires c.pc != Out
    ensures Alone(s, c, n).1 == Call(Out, c.sections) && Alone(s, c, n).0.stored == c.sections
    ensures Alone(s, c, n).0.count == if c.pc == Count then c.sections else s.count
    ensures i in s.heads && Beyond(s, c, i) ==> i in Alone(s, c, n).0.heads
    decreases Left(s, c)
  {
    var (s', c') := Advance(s, c);
    if c'.pc == Out {
      n := 1;
      assert Alone(s, c, 1) == Alone(s', c', 0);
    } else {
      var m := Ends(s', c', i);
      n := m + 1;
      assert Alone(s, c, n) == Alone(s', c', m);
    }
  }

  // ---- Two calls ------------------------------------------------------------------------------

  datatype Thread = Reset | Notice

  /** The reset's call and the notice's call over what they share. */
  datatype Race = Race(s: Shared, reset: Call, notice: Call) {
    function Of(t: Thread): Call {
      if t == Reset then reset else notice
    }

    predicate Done() {
      reset.pc == Out && notice.pc == Out
    }
  }

  function Other(t: Thread): Thread {
    if t == Reset then Notice else Reset
  }

  function Step(r: Race, t: Thread): Race {
    var (s, c) := Advance(r.s, r.Of(t));
    if t == Reset then r.(s := s, reset := c) else r.(s := s, notice := c)
  }

  function Play(r: Race, schedule: seq<Thread>): Race
    decreases |schedule|
  {
    if schedule == [] then r else Play(Step(r, schedule[0]), schedule[1..])
  }

  lemma {:induction false} PlayFirst(r: Race, t: Thread, rest: seq<Thread>)
    ensures Play(r, [t] + rest) == Play(Step(r, t), rest)
  {
    assert ([t] + rest)[1..] == rest;
  }

  lemma {:induction false} PlayOn(r: Race, a: seq<Thread>, b: seq<Thread>)
    ensures Play(r, a + b) == Play(Play(r, a), b)
    decreases |a|
  {
    if a == [] {
      assert a + b == b;
    } else {
      assert (a + b)[1..] == a[1..] + b;
      PlayOn(Step(r, a[0]), a[1..], b);
    }
  }

  function Turns(t: Thread, n: nat): seq<Thread> {
    if n == 0 then [] else [t] + Turns(t, n - 1)
  }

  /** A thread that takes its turns in a row runs alone. */
  lemma {:induction false} PlayTurns(r: Race, t: Thread, n: nat)
    ensures var r' := Play(r, Turns(t, n)); var (s, c) := Alone(r.s, r.Of(t), n);
      r'.s == s && r'.Of(t) == c && r'.Of(Other(t)) == r.Of(Other(t))
    decreases n
  {
    if n > 0 {
      assert Turns(t, n)[1..] == Turns(t, n - 1);
      PlayTurns(Step(r, t), t, n - 1);
    }
  }

  /** One thread runs until it returns. */
  lemma {:induction false} RunOut(r: Race, t: Thread, i: nat) returns (schedule: seq<Thread>)
    requires r.Of(t).pc != Out
    ensures var r' := Play(r, schedule);
      && r'.Of(t) == Call(Out, r.Of(t).sections) && r'.Of(Other(t)) == r.Of(Other(t))
      && r'.s.stored == r.Of(t).sections
      && r'.s.count == (if r.Of(t).pc == Count then r.Of(t).sections else r.s.count)
      && (i in r.s.heads && Beyond(r.s, r.Of(t), i) ==> i in r'.s.heads)
  {
    var n := Ends(r.s, r.Of(t), i);
    PlayTurns(r, t, n);
    schedule := Turns(t, n);
  }

  // ---- When an overlap is harmless --------------------------------------------------------------

  /** The notice takes everything back, and no head but that of the first section is stored. */
  predicate Safe(s: Shared, sections: nat) {
    sections == 0 && s.heads.Keys <= {0}
  }

  /** Of two calls that drop everything, one that is past its loop leaves the head of section 0 to the other at most. */
  predicate Past(s: Shared, c: Call, other: Call) {
    c.pc == Final || c.pc == Out ==> 0 !in s.heads || (other.pc == Remove && s.stored == 0)
  }

  /** Where two calls that both drop everything have got to. */
  predicate Calm(r: Race) {
    && r.reset.sections == 0 && r.notice.sections == 0 && r.s.heads.Keys <= {0}
    && (r.reset.pc != Count || r.notice.pc != Count ==> r.s.count == 0)
    && (0 in r.s.heads && r.s.stored == 0 ==> r.reset.pc == Remove || r.notice.pc == Remove)
    && Past(r.s, r.reset, r.notice) && Past(r.s, r.notice, r.reset)
    && (r.Done() ==> r.s.stored == 0)
  }

  lemma {:induction false} CalmMoves(r: Race, t: Thread)
    requires Calm(r) && r.Of(t).pc != Out
    ensures Calm(Step(r, t))
  {
  }

  /** The one call under way has met no other so far, or only a harmless one that has returned. */
  ghost predicate Undisturbed(s: Shared, c: Call) {
    Solo(s, c) || Calm(Race(s, c, Call(Out, 0)))
  }

  /** A call begins while the other is under way. */
  ghost predicate Begins(r: Race, newer: Thread) {
    && r.reset.sections == 0 && r.Of(newer).pc == Count && r.Of(Other(newer)).pc != Out
    && Undisturbed(r.s, r.Of(Other(newer))) && (newer == Notice ==> r.notice.sections < r.s.stored)
  }

  lemma {:induction false} CalmBegins(r: Race, newer: Thread)
    requires Begins(r, newer) && Safe(r.s, r.notice.sections)
    ensures Calm(r)
  {
    var c := r.Of(Other(newer));
    if Solo(r.s, c) { assert KeyOk(r.s.heads, Top(r.s, c), 0) && KeyOk(r.s.heads, Top(r.s, c), 1); }
  }

  lemma {:induction false} CalmEnds(r: Race)
    requires Calm(r) && r.Done()
    ensures Agree(r.s) && r.s.stored == 0 && r.s.heads == map[]
  {
    assert r.s.heads.Keys == {};
    forall i: nat ensures KeyOk(r.s.heads, 0, i) {}
  }

  lemma {:induction false} CalmPlays(r: Race, schedule: seq<Thread>)
    requires Calm(r)
    ensures Calm(Play(r, schedule))
    decreases |schedule|
  {
    if schedule != [] {
      if r.Of(schedule[0]).pc != Out {
        CalmMoves(r, schedule[0]);
      } else {
        assert Step(r, schedule[0]) == r;
      }
      CalmPlays(Step(r, schedule[0]), schedule[1..]);
    }
  }

  /** The later call runs in between the earlier one's first and last write: each leaves its own number. */
  lemma {:induction false} CrossedWrites(r: Race, newer: Thread) returns (schedule: seq<Thread>)
    requires r.Of(newer).pc == Count && r.Of(Other(newer)).pc != Out
    ensures var r' := Play(r, schedule);
      r'.Done() && r'.s.count == r.Of(newer).sections && r'.s.stored == r.Of(Other(newer)).sections
  {
    var older := Other(newer);
    var first: seq<Thread> := if r.Of(older).pc == Count then [older] + [] else [];
    var r1 := Play(r, first);
    if r.Of(older).pc == Count { PlayFirst(r, older, []); }
    var second := RunOut(r1, newer, 0);
    var r2 := Play(r1, second);
    var third := RunOut(r2, older, 0);
    PlayOn(r, first, second);
    PlayOn(r, first + second, third);
    schedule := first + second + third;
  }

  /** Two decrements before the removals, or a decrement before the other's removal, leave a head behind. */
  lemma {:induction false} LeftBehind(r: Race, newer: Thread, i: nat, lead: seq<Thread>) returns (schedule: seq<Thread>)
    requires var r1 := Play(r, lead);
      && r1.Of(newer).pc == Remove && r1.Of(Other(newer)).pc == Test
      && r1.Of(newer).sections == r1.Of(Other(newer)).sections == 0
      && i in r1.s.heads && i > r1.s.stored
    ensures var r' := Play(r, schedule); r'.Done() && r'.s.stored == 0 && i in r'.s.heads
  {
    var r1 := Play(r, lead);
    var second := RunOut(r1, newer, i);
    var r2 := Play(r1, second);
    var third := RunOut(r2, Other(newer), i);
    PlayOn(r, lead, second);
    PlayOn(r, lead + second, third);
    schedule := lead + second + third;
  }

  /** The later call takes the decrement of a section whose head the earlier one is about to remove. */
  lemma {:induction false} StolenRemoval(r: Race, newer: Thread) returns (schedule: seq<Thread>)
    requires r.reset.sections == r.notice.sections == 0 && r.s.stored > 0 && KeysBelow(r.s.heads, r.s.stored + 1)
    requires r.Of(newer).pc == Count && r.Of(Other(newer)).pc == Remove
    ensures var r' := Play(r, schedule); r'.Done() && r'.s.stored == 0 && r.s.stored in r'.s.heads
  {
    var older, m := Other(newer), r.s.stored;
    assert KeyOk(r.s.heads, m + 1, m);
    PlayFirst(r, newer, [newer, newer, older]);
    var r1 := Step(r, newer);
    PlayFirst(r1, newer, [newer, older]);
    var r2 := Step(r1, newer);
    PlayFirst(r2, newer, [older]);
    PlayFirst(Step(r2, newer), older, []);
    assert [newer] + [newer, newer, older] == [newer, newer, newer, older];
    assert [newer] + [newer, older] == [newer, newer, older];
    assert [newer] + [older] == [newer, older] && [older] + [] == [older];
    schedule := LeftBehind(r, newer, m, [newer, newer, newer, older]);
  }

  /** Both calls decrement before either removes. */
  lemma {:induction false} SkippedRemoval(r: Race, newer: Thread) returns (schedule: seq<Thread>)
    requires r.reset.sections == r.notice.sections == 0 && r.s.stored >= 2 && r.s.stored - 1 in r.s.heads
    requires r.Of(newer).pc == Dec && r.Of(Other(newer)).pc == Dec
    ensures var r' := Play(r, schedule); r'.Done() && r'.s.stored == 0 && r.s.stored - 1 in r'.s.heads
  {
    var older, m := Other(newer), r.s.stored;
    PlayFirst(r, older, [newer, older]);
    PlayFirst(Step(r, older), newer, [older]);
    PlayFirst(Step(Step(r, older), newer), older, []);
    assert [older] + [newer, older] == [older, newer, older];
    assert [newer] + [older] == [newer, older] && [older] + [] == [older];
    schedule := LeftBehind(r, newer, m - 1, [older, newer, older]);
  }

  /** From its first write or its test, a call gets to its decrement while anything is stored. */
  lemma {:induction false} ToDecrement(r: Race, t: Thread) returns (lead: seq<Thread>)
    requires r.Of(t).sections < r.s.stored && (r.Of(t).pc == Count || r.Of(t).pc == Test || r.Of(t).pc == Dec)
    ensures var r' := Play(r, lead);
      && r'.Of(t) == Call(Dec, r.Of(t).sections) && r'.Of(Other(t)) == r.Of(Other(t))
      && r'.s.stored == r.s.stored && r'.s.heads == r.s.heads
    decreases match r.Of(t).pc case Count => 2 case Test => 1 case _ => 0
  {
    if r.Of(t).pc == Dec {
      lead := [];
    } else {
      var rest := ToDecrement(Step(r, t), t);
      PlayFirst(r, t, rest);
      lead := [t] + rest;
    }
  }

  /** An overlap that is not safe has a schedule after which count, stored sections and heads disagree. */
  lemma {:induction false} UnsafeBreaks(r: Race, newer: Thread) returns (schedule: seq<Thread>)
    requires Begins(r, newer) && !Safe(r.s, r.notice.sections)
    ensures Play(r, schedule).Done() && !Agree(Play(r, schedule).s)
  {
    if r.notice.sections != 0 {
      schedule := CrossedWrites(r, newer);
    } else {
      var older := Other(newer);
      var top := Top(r.s, r.Of(older));
      var i :| i in r.s.heads.Keys && i != 0;
      assert Solo(r.s, r.Of(older));
      assert KeyOk(r.s.heads, top, i) && KeyOk(r.s.heads, top, top - 1);
      if r.Of(older).pc == Remove {
        schedule := StolenRemoval(r, newer);
      } else {
        var a := ToDecrement(r, older);
        var r1 := Play(r, a);
        var b := ToDecrement(r1, newer);
        var c := SkippedRemoval(Play(r1, b), newer);
        PlayOn(r, a, b);
        PlayOn(r, a + b, c);
        schedule := a + b + c;
      }
      var s := Play(r, schedule).s;
      assert KeyOk(s.heads, s.stored, top - 1) ==> top - 1 < s.stored;
    }
  }

  /** Every schedule of the overlap leaves count, stored sections and heads in agreement. */
  ghost predicate AlwaysAgrees(r: Race) {
    forall schedule :: Play(r, schedule).Done() ==> Agree(Play(r, schedule).s)
  }

  /**
   A reset and a notice that overlap are harmless in every schedule if and only if, when the
   later one begins, the notice takes everything back and at most the head of the first
   section is stored.
   */
  lemma {:induction false} OverlapIsSafe(r: Race, newer: Thread)
    requires Begins(r, newer)
    ensures AlwaysAgrees(r) <==> Safe(r.s, r.notice.sections)
  {
    if Safe(r.s, r.notice.sections) {
      CalmBegins(r, newer);
      forall schedule | Play(r, schedule).Done() ensures Agree(Play(r, schedule).s) {
        CalmPlays(r, schedule);
        CalmEnds(Play(r, schedule));
      }
    } else {
      var schedule := UnsafeBreaks(r, newer);
      assert Play(r, schedule).Done() && !Agree(Play(r, schedule).s);
    }
  }

  /** Three sections stored, a notice back to section 1 and a failing reset: the count can end at 0 with
      one section stored. */
  lemma {:induction false} LostSection(h0: Hash, h1: Hash, h2: Hash) returns (schedule: seq<Thread>)
    ensures var r := Race(Shared(3, 3, map[0 := h0, 1 := h1, 2 := h2]), Call(Count, 0), Call(Count, 1));
      Play(r, schedule).Done() && Play(r, schedule).s.count == 0 && Play(r, schedule).s.stored == 1
  {
    var r := Race(Shared(3, 3, map[0 := h0, 1 := h1, 2 := h2]), Call(Count, 0), Call(Count, 1));
    schedule := CrossedWrites(r, Reset);
  }
}
