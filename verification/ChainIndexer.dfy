/**
 The section indexer (core/chain_indexer.go): sections of headers are processed without the
 lock while notices of new heads and reorganisations arrive.
 */
module ChainIndexer {
  import opened SectionRace

  datatype Header = Header(number: nat, parent: Hash)

  type Headers = map<Hash, Header>

  /** target is exactly n parent links below h. */
  ghost predicate Reaches(headers: Headers, h: Hash, n: nat, target: Hash)
    decreases n
  {
    if n == 0 then h == target else h in headers && Reaches(headers, headers[h].parent, n - 1, target)
  }

  lemma {:induction false} ReachesMore(headers: Headers, more: Headers, h: Hash, n: nat, target: Hash)
    requires Reaches(headers, h, n, target) && Grows(headers, more)
    ensures Reaches(more, h, n, target)
    decreases n
  {
    if n > 0 {
      assert h in headers && more[h] == headers[h];
      ReachesMore(headers, more, headers[h].parent, n - 1, target);
    }
  }

  /** Headers are only added; a hash always names the same header. */
  ghost predicate Grows(headers: Headers, more: Headers) {
    forall h :: h in headers ==> h in more && more[h] == headers[h]
  }

  /** The last header of the section before, or zero. */
  function Below(heads: map<nat, Hash>, i: nat): Hash {
    if i > 0 && i - 1 in heads then heads[i - 1] else 0
  }

  /** A stored section head is a header, the right one by number, and a section above the one below. */
  ghost predicate HeadOk(headers: Headers, heads: map<nat, Hash>, size: nat, stored: nat, i: nat) {
    && (i in heads <==> i < stored)
    && (i < stored ==>
        && heads[i] != 0 && heads[i] in headers && headers[heads[i]].number + 1 == (i + 1) * size
        && Reaches(headers, heads[i], size, Below(heads, i)))
  }

  ghost predicate HeadsOk(headers: Headers, heads: map<nat, Hash>, size: nat, stored: nat) {
    forall i: nat :: HeadOk(headers, heads, size, stored, i)
  }

  /** What the update loop is doing while it does not hold the lock. */
  datatype Worker =
    | Idle
    | Processing(section: nat, oldHead: Hash, done: nat, lastHead: Hash)
    | Resetting(call: Call)
    | Failed

  /** The headers processed so far lead back to the head the section started from. */
  ghost predicate WorkerOk(w: Worker, headers: Headers, heads: map<nat, Hash>, size: nat, stored: nat) {
    w.Processing? ==>
      && w.done <= size && stored <= w.section
      && Reaches(headers, w.lastHead, w.done, w.oldHead)
      && (w.section == 0 <==> w.oldHead == 0)
      && (stored == w.section ==> w.oldHead == Below(heads, w.section))
      && (w.done > 0 ==> w.lastHead != 0 && w.lastHead in headers)
      && (w.done > 0 ==> headers[w.lastHead].number + 1 == w.section * size + w.done)
  }

  lemma {:induction false} HeadsMore(headers: Headers, more: Headers, heads: map<nat, Hash>, size: nat, stored: nat)
    requires HeadsOk(headers, heads, size, stored) && Grows(headers, more)
    ensures HeadsOk(more, heads, size, stored)
  {
    forall i: nat ensures HeadOk(more, heads, size, stored, i) {
      assert HeadOk(headers, heads, size, stored, i);
      if i < stored { ReachesMore(headers, more, heads[i], size, Below(heads, i)); }
    }
  }

  lemma {:induction false} TopGoes(headers: Headers, heads: map<nat, Hash>, size: nat, stored: nat)
    requires HeadsOk(headers, heads, size, stored) && stored > 0
    ensures HeadsOk(headers, heads - {stored - 1}, size, stored - 1)
  {
    var less, rest := heads - {stored - 1}, stored - 1;
    forall i: nat ensures HeadOk(headers, less, size, rest, i) {
      assert HeadOk(headers, heads, size, stored, i);
      if i > 0 { assert HeadOk(headers, heads, size, stored, i - 1); }
    }
  }

  lemma {:induction false} NextHead(headers: Headers, heads: map<nat, Hash>, size: nat, stored: nat, h: Hash)
    requires HeadsOk(headers, heads, size, stored) && h != 0 && h in headers
    requires headers[h].number + 1 == (stored + 1) * size && Reaches(headers, h, size, Below(heads, stored))
    ensures HeadsOk(headers, heads[stored := h], size, stored + 1)
  {
    var more, next := heads[stored := h], stored + 1;
    forall i: nat ensures HeadOk(headers, more, size, next, i) {
      assert HeadOk(headers, heads, size, stored, i);
    }
  }

  /** The whole line: the newest stored head is stored * size links above the zero hash. */
  lemma {:induction false} DownToZero(headers: Headers, heads: map<nat, Hash>, size: nat, stored: nat, i: nat)
    requires HeadsOk(headers, heads, size, stored) && i <= stored
    ensures Reaches(headers, Below(heads, i), i * size, 0)
  {
    if i > 0 {
      assert HeadOk(headers, heads, size, stored, i - 1);
      DownToZero(headers, heads, size, stored, i - 1);
      ReachesOn(headers, Below(heads, i), size, Below(heads, i - 1), (i - 1) * size, 0);
      assert size + (i - 1) * size == i * size;
    }
  }

  lemma {:induction false} ReachesOn(headers: Headers, h: Hash, n: nat, mid: Hash, m: nat, target: Hash)
    requires Reaches(headers, h, n, mid) && Reaches(headers, mid, m, target)
    ensures Reaches(headers, h, n + m, target)
    decreases n
  {
    if n > 0 { ReachesOn(headers, headers[h].parent, n - 1, mid, m, target); }
  }

  lemma {:induction false} LineKeys(headers: Headers, heads: map<nat, Hash>, size: nat, stored: nat)
    requires HeadsOk(headers, heads, size, stored)
    ensures KeysBelow(heads, stored)
  {
    forall i: nat ensures KeyOk(heads, stored, i) { assert HeadOk(headers, heads, size, stored, i); }
  }

  // ---- Calls of setValidSections under way ---------------------------------------------------------

  /** The call under way, if there is only one. */
  function Active(r: Race): Call {
    if r.notice.pc != Out then r.notice else r.reset
  }

  /** Either one call at most is under way and the heads form a line, or two that drop everything. */
  ghost predicate StoreOk(headers: Headers, size: nat, r: Race, overlap: bool) {
    if overlap then Calm(r) && !r.Done() else
    && (r.reset.pc == Out || r.notice.pc == Out)
    && Solo(r.s, Active(r)) && HeadsOk(headers, r.s.heads, size, Top(r.s, Active(r)))
  }

  lemma {:induction false} StoreMoves(headers: Headers, size: nat, r: Race, overlap: bool, t: Thread)
    requires StoreOk(headers, size, r, overlap) && r.Of(t).pc != Out
    ensures StoreOk(headers, size, Step(r, t), overlap && !Step(r, t).Done())
  {
    var r' := Step(r, t);
    if overlap {
      CalmMoves(r, t);
      if r'.Done() {
        CalmEnds(r');
        forall i: nat ensures HeadOk(headers, r'.s.heads, size, 0, i) {}
      }
    } else {
      SoloMoves(r.s, Active(r));
      if r.Of(t).pc == Remove { TopGoes(headers, r.s.heads, size, r.s.stored + 1); }
    }
  }

  /** A section under way is no higher than before, and builds on the same head if none was taken back. */
  lemma {:induction false} WorkerMoves(headers: Headers, size: nat, r: Race, w: Worker)
    requires WorkerOk(w, headers, r.s.heads, size, r.s.stored) && (w.Processing? ==> Solo(r.s, r.notice))
    requires r.notice.pc != Out
    ensures WorkerOk(w, headers, Step(r, Notice).s.heads, size, Step(r, Notice).s.stored)
    ensures Solo(r.s, r.notice) ==> Step(r, Notice).s.stored >= r.notice.sections
  {
  }

  /** A call begins: alone, or beside another where that is safe. */
  lemma {:induction false} StoreBegins(headers: Headers, size: nat, r: Race, overlap: bool, t: Thread, sections: nat)
    requires StoreOk(headers, size, r, overlap) && r.Of(t).pc == Out
    requires t == Reset ==> sections == 0
    requires t == Notice ==> sections < r.s.stored
    requires t == Notice && !overlap ==> r.reset.sections == 0
    requires var other := r.Of(Other(t));
      other.pc != Out ==> Safe(r.s, if t == Notice then sections else other.sections)
    ensures var r' := if t == Reset then r.(reset := Call(Count, sections)) else r.(notice := Call(Count, sections));
      StoreOk(headers, size, r', r.Of(Other(t)).pc != Out)
  {
    var r' := if t == Reset then r.(reset := Call(Count, sections)) else r.(notice := Call(Count, sections));
    if r.Of(Other(t)).pc != Out && !overlap { CalmBegins(r', t); }
  }

  lemma {:induction false} StoreMore(headers: Headers, more: Headers, size: nat, r: Race, overlap: bool)
    requires StoreOk(headers, size, r, overlap) && Grows(headers, more)
    ensures StoreOk(more, size, r, overlap)
  {
    if !overlap { HeadsMore(headers, more, r.s.heads, size, Top(r.s, Active(r))); }
  }

  // ---- Events -----------------------------------------------------------------------------------------

  datatype Event =
    | Heard(head: nat, reorg: bool)
    | NoticeStep
    | Mined(hash: Hash, header: Header)
    | Wake
    | Timer
    | Read(hash: Hash)
    | Finished(committed: bool)
    | ResetFailed
    | ResetStep

  /** No backend reset fails. */
  predicate NoneFails(events: seq<Event>) {
    forall i :: 0 <= i < |events| ==> !events[i].ResetFailed?
  }

  /** No notice of a reorganisation. */
  predicate NoneReorganises(events: seq<Event>) {
    forall i :: 0 <= i < |events| ==> !(events[i].Heard? && events[i].reorg)
  }

  function Least(a: nat, b: nat): nat { if a < b then a else b }

  function Most(a: nat, b: nat): nat { if a < b then b else a }

  class ChainIndexer {
    const sectionSize: nat
    const confirmsReq: nat

    var stored: nat
    var known: nat
    var cascadedHead: nat
    var count: nat
    var heads: map<nat, Hash>
    var update: bool
    var timers: nat
    var worker: Worker
    var headers: Headers

    /** The locked call of setValidSections by a reorganisation notice, and the block it goes back to. */
    var notice: Call
    var back: nat

    /** Two calls are under way; two calls have overlapped where that is not safe. */
    ghost var overlap: bool
    ghost var raced: bool

    function Writes(): Race reads this {
      Race(Shared(count, stored, heads), if worker.Resetting? then worker.call else Call(Out, 0), notice)
    }

    /** Holds in every state as long as no unsafe overlap has begun. */
    ghost predicate Sound() reads this {
      && StoreOk(headers, sectionSize, Writes(), overlap)
      && WorkerOk(worker, headers, heads, sectionSize, stored)
      && (overlap ==> worker.Resetting? || worker.Failed?)
      && (notice.pc != Out ==> known <= notice.sections)
      && (worker.Idle? && known > stored ==> update || timers > 0)
    }

    ghost predicate Inv() reads this {
      && sectionSize > 0 && 0 !in headers
      && (worker.Resetting? ==> worker.call.sections == 0 && worker.call.pc != Out)
      && (raced || Sound())
    }

    /** No call of setValidSections is under way. */
    predicate Quiet() reads this {
      notice.pc == Out && !worker.Resetting?
    }

    /** The persisted count agrees, heads form a line below it, and waiting sections have a wake-up. */
    ghost predicate Consistent() reads this {
      && count == stored && HeadsOk(headers, heads, sectionSize, stored)
      && (worker.Idle? && known > stored ==> update || timers > 0)
    }

    /** Starts from what an earlier run stored. */
    constructor (size: nat, confirms: nat, persisted: nat, heads: map<nat, Hash>, headers: Headers)
      requires size > 0 && 0 !in headers && HeadsOk(headers, heads, size, persisted)
      ensures Inv() && !raced && stored == persisted && this.heads == heads && worker.Idle? && this.headers == headers
    {
      sectionSize, confirmsReq := size, confirms;
      stored, count, known, cascadedHead := persisted, persisted, 0, 0;
      this.heads, update, timers, worker, this.headers := heads, false, 0, Idle, headers;
      notice, back, overlap, raced := Call(Out, 0), 0, false, false;
      new;
      LineKeys(headers, heads, size, persisted);
    }

    function SectionHead(section: nat): Hash reads this {
      if section in heads then heads[section] else 0
    }

    /** A call that nothing interrupts: the count is persisted and the heads from it up to the stored
        count are removed. */
    method SetValidSections(sections: nat)
      modifies `count, `stored, `heads
      ensures count == stored == sections
      ensures forall i: nat :: i in heads <==> i in old(heads) && !(sections <= i < old(stored))
      ensures forall i :: i in heads ==> heads[i] == old(heads)[i]
    {
      count := sections;
      while stored > sections
        invariant count == sections && stored <= old(stored) && (stored < sections ==> stored == old(stored))
        invariant forall i: nat :: i in heads <==> i in old(heads) && !(stored <= i < old(stored))
        invariant forall i :: i in heads ==> heads[i] == old(heads)[i]
      {
        stored := stored - 1;
        heads := heads - {stored};
      }
      stored := sections;
    }

    /**
     A new head, or a reorganisation down to a head.  A notice that takes stored sections back
     goes on with the writes of setValidSections; the others are done.
     */
    method NewHead(head: nat, reorg: bool) returns (cascade: seq<nat>)
      requires Inv() && notice.pc == Out
      modifies `known, `cascadedHead, `update, `notice, `back, `overlap, `raced
      ensures Inv()
      ensures raced == (old(raced) || (reorg && head / sectionSize < stored && worker.Resetting? &&
        !Safe(Writes().s, head / sectionSize)))
      ensures reorg ==> known == Least(old(known), head / sectionSize)
      ensures reorg && head / sectionSize < stored ==>
        && notice == Call(Count, head / sectionSize) && back == head / sectionSize * sectionSize
        && cascadedHead == old(cascadedHead) && cascade == []
      ensures reorg && head / sectionSize >= stored ==>
        && notice.pc == Out && cascadedHead == Least(old(cascadedHead), head / sectionSize * sectionSize)
        && cascade == if cascadedHead < old(cascadedHead) then [cascadedHead] else []
      ensures !reorg ==> notice.pc == Out && cascadedHead == old(cascadedHead) && cascade == []
      ensures !reorg && head < confirmsReq ==> known == old(known)
      ensures !reorg && head >= confirmsReq ==> known == Most(old(known), (head + 1 - confirmsReq) / sectionSize)
    {
      cascade := [];
      if reorg {
        var changed := head / sectionSize;
        if changed < known { known := changed; }
        if changed < stored {
          BeginNotice(changed);
        } else {
          cascade := Cascade(changed * sectionSize);
        }
        return;
      }
      if head >= confirmsReq {
        var sections := (head + 1 - confirmsReq) / sectionSize;
        if sections > known {
          known, update := sections, true;
        }
      }
    }

    method BeginNotice(changed: nat)
      requires Inv() && notice.pc == Out && changed < stored && known <= changed
      modifies `notice, `back, `overlap, `raced
      ensures Inv() && notice == Call(Count, changed) && back == changed * sectionSize
      ensures raced == (old(raced) || (worker.Resetting? && !Safe(Writes().s, changed)))
    {
      ghost var r := Writes();
      raced := raced || (worker.Resetting? && !Safe(r.s, changed));
      if !raced { StoreBegins(headers, sectionSize, r, overlap, Notice, changed); }
      overlap := worker.Resetting?;
      notice, back := Call(Count, changed), changed * sectionSize;
    }

    /** Children hear of the block a reorganisation went back to. */
    method Cascade(end: nat) returns (cascade: seq<nat>)
      modifies `cascadedHead
      ensures cascadedHead == Least(old(cascadedHead), end)
      ensures cascade == if cascadedHead < old(cascadedHead) then [cascadedHead] else []
    {
      cascade := [];
      if end < cascadedHead {
        cascadedHead := end;
        cascade := [end];
      }
    }

    /** With the lock: the next write of a notice. */
    method WriteNotice()
      requires Inv() && notice.pc != Out
      modifies `count, `stored, `heads, `notice, `overlap
      ensures Inv() && Writes() == Step(old(Writes()), Notice)
    {
      ghost var r := Writes();
      if !raced {
        StoreMoves(headers, sectionSize, r, overlap, Notice);
        WorkerMoves(headers, sectionSize, r, worker);
      }
      overlap := overlap && !Step(r, Notice).Done();
      var (s, c) := Advance(Shared(count, stored, heads), notice);
      count, stored, heads, notice := s.count, s.stored, s.heads, c;
      assert Writes() == Step(r, Notice);
    }

    /** After the last write of a notice children hear of it. */
    method ContinueNotice() returns (cascade: seq<nat>)
      requires Inv() && notice.pc != Out
      modifies `count, `stored, `heads, `notice, `overlap, `cascadedHead
      ensures Inv() && Writes() == Step(old(Writes()), Notice)
      ensures notice.pc != Out ==> cascade == [] && cascadedHead == old(cascadedHead)
      ensures notice.pc == Out ==> cascadedHead == Least(old(cascadedHead), back)
      ensures notice.pc == Out ==> cascade == if cascadedHead < old(cascadedHead) then [cascadedHead] else []
    {
      WriteNotice();
      cascade := [];
      if notice.pc == Out { cascade := Cascade(back); }
    }

    /** A header enters the chain database. */
    method Mine(hash: Hash, header: Header)
      requires Inv() && hash != 0 && hash !in headers
      modifies `headers
      ensures Inv() && headers == old(headers)[hash := header]
    {
      headers := headers[hash := header];
      if !raced { StoreMore(old(headers), headers, sectionSize, Writes(), overlap); }
      if !raced && worker.Processing? {
        ReachesMore(old(headers), headers, worker.lastHead, worker.done, worker.oldHead);
      }
    }

    /** The update loop takes a notification and remembers where the next section starts. */
    method Begin()
      requires Inv() && worker.Idle? && update && notice.pc == Out
      modifies `update, `worker
      ensures Inv() && !update
      ensures worker ==
        if known > stored then Processing(stored, Below(heads, stored), 0, Below(heads, stored)) else Idle
    {
      update := false;
      if known > stored {
        var section, oldHead := stored, 0;
        if !raced && section > 0 { assert HeadOk(headers, heads, sectionSize, stored, section - 1); }
        if section > 0 { oldHead := SectionHead(section - 1); }
        worker := Processing(section, oldHead, 0, oldHead);
      }
    }

    /** Without the lock: the next canonical header, whatever the chain says it is now. */
    method ProcessHeader(hash: Hash, header: Header)
      requires Inv() && worker.Processing? && worker.done < sectionSize
      requires hash != 0 ==> hash in headers && headers[hash] == header
      modifies `worker
      ensures Inv() && (worker.Processing? || worker.Failed?)
      ensures worker.Processing? == (hash != 0 && header.parent == old(worker).lastHead &&
        header.number == old(worker).section * sectionSize + old(worker).done)
      ensures worker.Processing? ==> worker == old(worker).(done := old(worker).done + 1, lastHead := hash)
    {
      if hash == 0 || header.number != worker.section * sectionSize + worker.done || header.parent != worker.lastHead {
        worker := Failed;
        return;
      }
      worker := worker.(done := worker.done + 1, lastHead := hash);
    }

    /** Without the lock: the backend refuses the section, and all sections are to be forgotten. */
    method ResetFails()
      requires Inv() && worker.Processing? && worker.done == 0
      modifies `worker, `overlap, `raced
      ensures Inv() && worker == Resetting(Call(Count, 0))
      ensures raced == (old(raced) || (notice.pc != Out && !Safe(Writes().s, notice.sections)))
    {
      ghost var r := Writes();
      raced := raced || (notice.pc != Out && !Safe(r.s, notice.sections));
      if !raced { StoreBegins(headers, sectionSize, r, overlap, Reset, 0); }
      overlap := notice.pc != Out;
      worker := Resetting(Call(Count, 0));
    }

    /** Without the lock: the next write of the reset. */
    method ContinueReset()
      requires Inv() && worker.Resetting?
      modifies `count, `stored, `heads, `worker, `overlap
      ensures Inv() && Writes().s == Step(old(Writes()), Reset).s
      ensures var call := Step(old(Writes()), Reset).reset; worker == if call.pc == Out then Failed else Resetting(call)
    {
      ghost var r := Writes();
      if !raced { StoreMoves(headers, sectionSize, r, overlap, Reset); }
      overlap := overlap && !Step(r, Reset).Done();
      var (s, c) := Advance(Shared(count, stored, heads), worker.call);
      count, stored, heads := s.count, s.stored, s.heads;
      worker := if c.pc == Out then Failed else Resetting(c);
      assert Writes() == Step(r, Reset);
    }

    /** With the lock again: the section counts if the one below is still the one it was built on. */
    method Commit(committed: bool) returns (cascade: seq<nat>)
      requires Inv() && notice.pc == Out && (worker.Failed? || (worker.Processing? && worker.done == sectionSize))
      modifies `stored, `known, `cascadedHead, `count, `heads, `worker, `timers
      ensures Inv() && worker.Idle?
      ensures old(worker.Processing? && committed && OnTop()) ==>
        stored == count == old(worker.section) + 1 && cascade == [stored * sectionSize - 1] && known == old(known)
      ensures old(worker.Processing? && committed && OnTop()) && !raced ==>
        old(stored == worker.section) && heads == old(heads)[old(stored) := old(worker.lastHead)]
      ensures !old(worker.Processing? && committed && OnTop()) ==>
        stored == old(stored) && heads == old(heads) && cascade == [] && known == stored
    {
      cascade := [];
      if worker.Processing? && committed && OnTop() {
        cascade := Store();
      } else {
        known := stored;
      }
      worker := Idle;
      if known > stored { timers := timers + 1; }
    }

    /** The processed section is stored and children hear of it. */
    method Store() returns (cascade: seq<nat>)
      requires Inv() && notice.pc == Out && worker.Processing? && worker.done == sectionSize && OnTop()
      modifies `stored, `cascadedHead, `count, `heads
      ensures stored == count == worker.section + 1 && cascade == [stored * sectionSize - 1]
      ensures !raced ==> old(stored) == worker.section && heads == old(heads)[worker.section := worker.lastHead]
      ensures !raced ==> HeadsOk(headers, heads, sectionSize, stored) && KeysBelow(heads, stored)
    {
      var section, newHead := worker.section, worker.lastHead;
      if !raced {
        StillTop();
        assert (section + 1) * sectionSize == section * sectionSize + sectionSize;
        NextHead(headers, heads, sectionSize, stored, newHead);
      }
      heads := heads[section := newHead];
      ghost var all := heads;
      SetValidSections(section + 1);
      assert !raced ==> heads == all;
      if !raced { LineKeys(headers, heads, sectionSize, stored); }
      assert stored * sectionSize >= sectionSize;
      cascadedHead := stored * sectionSize - 1;
      cascade := [cascadedHead];
    }

    /** The comparison made before committing. */
    predicate OnTop()
      requires worker.Processing?
      reads this
    {
      worker.oldHead == if worker.section == 0 then 0 else SectionHead(worker.section - 1)
    }

    /** Comparing heads finds out exactly whether a reorganisation took sections away. */
    lemma StillTop()
      requires Inv() && !raced && notice.pc == Out && worker.Processing?
      ensures OnTop() <==> stored == worker.section
    {
      var s := worker.section;
      if s > 0 { assert HeadOk(headers, heads, sectionSize, stored, s - 1); }
    }

    method TimerFires()
      requires Inv() && timers > 0
      modifies `timers, `update
      ensures Inv() && update && timers == old(timers) - 1
    {
      timers, update := timers - 1, true;
    }

    /** One event, if it can happen now. */
    method Handle(e: Event)
      requires Inv()
      modifies this
      ensures Inv() && raced == (old(raced) || old(UnsafeOverlap(e)))
      ensures !e.ResetFailed? && !old(worker.Resetting?) ==> !worker.Resetting?
      ensures !(e.Heard? && e.reorg) && old(notice.pc) == Out ==> notice.pc == Out
    {
      match e {
        case Heard(head, reorg) =>
          if notice.pc == Out { var told := NewHead(head, reorg); }
        case NoticeStep =>
          if notice.pc != Out { var told := ContinueNotice(); }
        case Mined(hash, header) =>
          if hash != 0 && hash !in headers { Mine(hash, header); }
        case Wake =>
          if worker.Idle? && update && notice.pc == Out { Begin(); }
        case Timer =>
          if timers > 0 { TimerFires(); }
        case Read(hash) =>
          if worker.Processing? && worker.done < sectionSize {
            if hash in headers { ProcessHeader(hash, headers[hash]); } else { ProcessHeader(0, Header(0, 0)); }
          }
        case Finished(committed) =>
          if notice.pc == Out && (worker.Failed? || (worker.Processing? && worker.done == sectionSize)) {
            var told := Commit(committed);
          }
        case ResetFailed =>
          if worker.Processing? && worker.done == 0 { ResetFails(); }
        case ResetStep =>
          if worker.Resetting? { ContinueReset(); }
      }
    }

    /** The event lets a failing reset and a notice that takes sections back overlap. */
    predicate BeginsOverlap(e: Event)
      requires sectionSize > 0
      reads this
    {
      match e
      case Heard(head, reorg) => notice.pc == Out && reorg && head / sectionSize < stored && worker.Resetting?
      case ResetFailed => worker.Processing? && worker.done == 0 && notice.pc != Out
      case _ => false
    }

    /** The two calls right after the event. */
    function Begun(e: Event): Race
      requires sectionSize > 0 && BeginsOverlap(e)
      reads this
    {
      if e.Heard? then Writes().(notice := Call(Count, e.head / sectionSize)) else Writes().(reset := Call(Count, 0))
    }

    /** And the overlap is not safe. */
    predicate UnsafeOverlap(e: Event)
      requires sectionSize > 0
      reads this
    {
      BeginsOverlap(e) && !Safe(Writes().s, Begun(e).notice.sections)
    }

    /** An overlap that begins can break the agreement if and only if it is unsafe. */
    lemma OverlapDecides(e: Event)
      requires Inv() && !raced && BeginsOverlap(e)
      ensures UnsafeOverlap(e) <==> !AlwaysAgrees(Begun(e))
    {
      OverlapIsSafe(Begun(e), if e.Heard? then Notice else Reset);
    }

    /**
     Any interleaving of notices, write by write, with the unlocked processing and resetting of
     sections: unless an unsafe overlap began, all agrees whenever no call is under way.  None
     begins without both a failing reset and a reorganisation notice.
     */
    method Run(events: seq<Event>)
      requires Inv() && !raced
      modifies this
      ensures Inv()
      ensures !raced && Quiet() ==> Consistent() && Reaches(headers, Below(heads, stored), stored * sectionSize, 0)
      ensures old(!worker.Resetting?) && NoneFails(events) ==> !raced
      ensures old(notice.pc) == Out && NoneReorganises(events) ==> !raced
    {
      for i := 0 to |events|
        invariant Inv()
        invariant old(!worker.Resetting?) && NoneFails(events) ==> !raced && !worker.Resetting?
        invariant old(notice.pc) == Out && NoneReorganises(events) ==> !raced && notice.pc == Out
      {
        Handle(events[i]);
      }
      if !raced && Quiet() { DownToZero(headers, heads, sectionSize, stored, stored); }
    }
  }
}
