/** The whole durable inbox: one slot per event, workers and retries acting on any slot at any
    time, and intake, which creates records and evicts finished ones under the capacity lock. */
module BridgeInbox {
  import opened Common
  import opened BridgeRecord
  import opened BridgeWorker
  import opened Ordering

  /** An event ID is the digest of the event, so `catalog` gives the one event it stands for. */
  datatype Config = Config(maxRecords: nat, catalog: string -> Event)

  datatype Candidate = Candidate(updatedAt: int, id: string)

  predicate OlderFirst(a: Candidate, b: Candidate) {
    a.updatedAt < b.updatedAt || (a.updatedAt == b.updatedAt && AtMost(a.id, b.id))
  }

  datatype Verdict = Accepted | Refused | Broken

  /** How far the holder of the capacity lock has come; `removed` counts its evictions. */
  datatype Intake =
    | CapacityFree
    | Entered(ev: Event)
    | Scanning(ev: Event, cutoff: int, todo: seq<string>, count: int, done: seq<Candidate>)
    | Evicting(ev: Event, cutoff: int, queue: seq<Candidate>, count: int, removed: nat)
    | Creating(ev: Event, removed: nat)
    | Filling(ev: Event, removed: nat)
    | Leaving(verdict: Verdict, removed: nat)

  datatype Inbox = Inbox(slots: map<string, Slot>, intake: Intake)

  const EMPTY_INBOX := Inbox(map[], CapacityFree)

  /** Five minutes, the replay window of the channel cursor. */
  const REPLAY := 300 * SECOND

  /** `EvictFails` is a removal that fails, or the directory sync after one. */
  datatype Move =
    | SlotMove(id: string, st: Step)
    | Enter(ev: Event)
    | Inspect(now: int, listing: seq<string>)
    | ScanNext
    | ScanEnd(queue: seq<Candidate>)
    | EvictNext
    | EvictFails
    | EvictEnd
    | OpenNew
    | FillNew(now: int, rest: nat, synced: bool)
    | FailNew(unlinked: bool)
    | Leave
    | StopIntake

  function SlotAt(s: Inbox, id: string): Slot {
    if id in s.slots then s.slots[id] else EMPTY_SLOT
  }

  function Put(s: Inbox, id: string, slot: Slot): Inbox {
    s.(slots := s.slots[id := slot])
  }

  /** The events that have a record file, whole or torn. */
  function Present(s: Inbox): set<string> {
    set id | id in s.slots && !s.slots[id].file.Absent?
  }

  predicate Possible(c: Config, s: Inbox, m: Move) {
    match m
    case SlotMove(id, st) => ByWorker(st) && Enabled(SlotAt(s, id), st)
    case Enter(ev) => s.intake.CapacityFree? && ev == c.catalog(ev.id)
    case Inspect(_, listing) => s.intake.Entered? && Distinct(listing) && Elements(listing) == Present(s)
    case ScanNext => s.intake.Scanning? && s.intake.todo != []
    case ScanEnd(queue) => s.intake.Scanning? && s.intake.todo == [] && multiset(queue) == multiset(s.intake.done) && SortedBy(queue, OlderFirst)
    case EvictNext => s.intake.Evicting? && s.intake.queue != [] && s.intake.count >= c.maxRecords
    case EvictFails => s.intake.Evicting? && ((s.intake.queue != [] && s.intake.count >= c.maxRecords) || s.intake.removed > 0)
    case EvictEnd => s.intake.Evicting? && (s.intake.queue == [] || s.intake.count < c.maxRecords)
    case OpenNew => s.intake.Creating?
    case FillNew(_, _, _) => s.intake.Filling?
    case FailNew(_) => s.intake.Filling?
    case Leave => s.intake.Leaving?
    case StopIntake => !s.intake.CapacityFree?
  }

  /** `loadOrCreateRecord` up to the scan: an existing record must match the event. */
  function AfterInspect(s: Inbox, now: int, listing: seq<string>): Inbox
    requires s.intake.Entered?
  {
    var ev := s.intake.ev;
    var file := SlotAt(s, ev.id).file;
    match file
    case Absent => s.(intake := Scanning(ev, now - REPLAY, listing, 0, []))
    case Torn => s.(intake := Leaving(Broken, 0))
    case Stored(rec, rest) =>
      s.(intake := Leaving(if Fits(rec.event.content, rest) && rec.event == ev && rec.taskId == TaskId(ev.id) then Accepted else Broken, 0))
  }

  /** One entry of the directory scan of `ensureRecordCapacity`. */
  function AfterScanNext(s: Inbox): Inbox
    requires s.intake.Scanning? && s.intake.todo != []
  {
    var Scanning(ev, cutoff, todo, count, done) := s.intake;
    var id := todo[0];
    var file := SlotAt(s, id).file;
    if !ReadableFile(file) then s.(intake := Leaving(Broken, 0))
    else
      var more := if file.rec.phase == Replied && file.rec.updatedAt < cutoff then [Candidate(file.rec.updatedAt, id)] else [];
      s.(intake := Scanning(ev, cutoff, todo[1..], count + 1, done + more))
  }

  function AfterEvictNext(s: Inbox): Inbox
    requires s.intake.Evicting? && s.intake.queue != []
  {
    var Evicting(ev, cutoff, queue, count, removed) := s.intake;
    var slot := SlotAt(s, queue[0].id);
    if slot.file.Absent? then s.(intake := Leaving(Broken, removed))
    else Put(s, queue[0].id, slot.(file := Absent)).(intake := Evicting(ev, cutoff, queue[1..], count - 1, removed + 1))
  }

  /** Exclusive creation of the record file. */
  function AfterOpen(s: Inbox): Inbox
    requires s.intake.Creating?
  {
    var ev := s.intake.ev;
    var slot := SlotAt(s, ev.id);
    if !slot.file.Absent? then s.(intake := Leaving(Broken, s.intake.removed))
    else Put(s, ev.id, Apply(ev, slot, Create)).(intake := Filling(ev, s.intake.removed))
  }

  /** The write goes to the file that was opened, which a rename may have replaced meanwhile. */
  function AfterFill(s: Inbox, now: int, rest: nat, synced: bool): Inbox
    requires s.intake.Filling?
  {
    var ev := s.intake.ev;
    var slot := SlotAt(s, ev.id);
    Put(s, ev.id, if slot.file.Torn? then slot.(file := Stored(NewRecord(ev, now), rest)) else slot).(
      intake := Leaving(if synced then Accepted else Broken, s.intake.removed))
  }

  function AfterFail(s: Inbox, unlinked: bool): Inbox
    requires s.intake.Filling?
  {
    var ev := s.intake.ev;
    if unlinked then Put(s, ev.id, SlotAt(s, ev.id).(file := Absent)).(intake := Leaving(Broken, s.intake.removed))
    else s.(intake := Leaving(Broken, s.intake.removed))
  }

  function Next(c: Config, s: Inbox, m: Move): Inbox
    requires Possible(c, s, m)
  {
    match m
    case SlotMove(id, st) => Put(s, id, Apply(c.catalog(id), SlotAt(s, id), st))
    case Enter(ev) => s.(intake := Entered(ev))
    case Inspect(now, listing) => AfterInspect(s, now, listing)
    case ScanNext => AfterScanNext(s)
    case ScanEnd(queue) =>
      if s.intake.count < c.maxRecords then s.(intake := Creating(s.intake.ev, 0))
      else s.(intake := Evicting(s.intake.ev, s.intake.cutoff, queue, s.intake.count, 0))
    case EvictNext => AfterEvictNext(s)
    case EvictFails => s.(intake := Leaving(Broken, s.intake.removed))
    case EvictEnd =>
      s.(intake := if s.intake.count < c.maxRecords then Creating(s.intake.ev, s.intake.removed) else Leaving(Refused, s.intake.removed))
    case OpenNew => AfterOpen(s)
    case FillNew(now, rest, synced) => AfterFill(s, now, rest, synced)
    case FailNew(unlinked) => AfterFail(s, unlinked)
    case Leave | StopIntake => s.(intake := CapacityFree)
  }

  // ---------------------------------------------------------------- the invariant

  /** The slot's own invariant, and a worker that has taken a record up still finds its file. */
  predicate SlotOk(ev: Event, slot: Slot) {
    Inv(ev, slot) && (slot.holder.Working? ==> slot.file.Stored?)
  }

  ghost predicate SlotsInv(c: Config, s: Inbox) {
    forall id :: id in s.slots ==> SlotOk(c.catalog(id), s.slots[id])
  }

  /** A record listed as replied: its reply was found, and it is as it was listed unless a worker
      has since stored a failure of its final write over it. */
  predicate CandidateInv(s: Inbox, cutoff: int, x: Candidate) {
    && x.id in s.slots && s.slots[x.id].file.Stored? && x.updatedAt < cutoff
    && AnsweredSince(s.slots[x.id].file.rec, x.updatedAt)
  }

  predicate AnsweredSince(r: Record, updatedAt: int) {
    r.replyEventId.Some? && ((r.phase == Replied && r.updatedAt == updatedAt) || r.error.Some?)
  }

  predicate CandidatesInv(s: Inbox, cutoff: int, xs: seq<Candidate>) {
    && (forall i :: 0 <= i < |xs| ==> CandidateInv(s, cutoff, xs[i]))
    && (forall i, j :: 0 <= i < j < |xs| ==> xs[i].id != xs[j].id)
  }

  predicate IntakeInv(c: Config, s: Inbox) {
    match s.intake
    case CapacityFree => true
    case Entered(ev) => ev == c.catalog(ev.id)
    case Scanning(ev, cutoff, todo, count, done) =>
      && ev == c.catalog(ev.id) && ev.id !in Present(s)
      && Distinct(todo) && Elements(todo) <= Present(s) && count + |todo| == |Present(s)|
      && CandidatesInv(s, cutoff, done) && (forall i :: 0 <= i < |done| ==> done[i].id !in todo)
    case Evicting(ev, cutoff, queue, count, removed) =>
      && ev == c.catalog(ev.id) && ev.id !in Present(s)
      && count == |Present(s)| && count + removed <= c.maxRecords && removed <= 1
      && CandidatesInv(s, cutoff, queue) && SortedBy(queue, OlderFirst)
    case Creating(ev, removed) =>
      ev == c.catalog(ev.id) && ev.id !in Present(s) && |Present(s)| < c.maxRecords && removed <= 1
    case Filling(ev, removed) => ev == c.catalog(ev.id) && SlotAt(s, ev.id).file.Torn? && removed <= 1
    case Leaving(verdict, removed) => removed <= 1 && (verdict == Refused ==> removed == 0)
  }

  /** The part of the invariant that only looks at which files exist and which are replied. */
  predicate CapacityInv(c: Config, s: Inbox) {
    |Present(s)| <= c.maxRecords && IntakeInv(c, s)
  }

  ghost predicate InboxInv(c: Config, s: Inbox) {
    SlotsInv(c, s) && CapacityInv(c, s)
  }

  /** What every move whatever keeps: each slot is in order, intake lists only answered records, and
      the file it is filling is torn, or is a record whose reply was found, which a worker wrote
      after its eviction. */
  ghost predicate OpenInv(c: Config, s: Inbox) {
    (forall id :: id in s.slots ==> Inv(c.catalog(id), s.slots[id])) && ListsInv(c, s)
  }

  predicate ListsInv(c: Config, s: Inbox) {
    match s.intake
    case CapacityFree | Leaving(_, _) => true
    case Entered(ev) => ev == c.catalog(ev.id)
    case Creating(ev, _) => ev == c.catalog(ev.id)
    case Scanning(ev, cutoff, todo, _, done) =>
      && ev == c.catalog(ev.id) && Distinct(todo)
      && CandidatesInv(s, cutoff, done) && (forall i :: 0 <= i < |done| ==> done[i].id !in todo)
    case Evicting(ev, cutoff, queue, _, _) =>
      ev == c.catalog(ev.id) && CandidatesInv(s, cutoff, queue) && SortedBy(queue, OlderFirst)
    case Filling(ev, _) => ev == c.catalog(ev.id) && Unfilled(SlotAt(s, ev.id).file)
  }

  predicate Unfilled(f: File) {
    f.Torn? || (f.Stored? && f.rec.replyEventId.Some?)
  }

  lemma StrictIsOpen(c: Config, s: Inbox)
    requires InboxInv(c, s)
    ensures OpenInv(c, s)
  {
  }

  /** Intake removes a record whose worker has not let go of it yet: that worker's final write
      took effect, reported an error, and its failure is still to be stored. */
  predicate Overtakes(s: Inbox, m: Move) {
    m.EvictNext? && s.intake.Evicting? && s.intake.queue != [] && SlotAt(s, s.intake.queue[0].id).holder.Working?
  }

  lemma PutPresent(s: Inbox, id: string, slot: Slot, intake: Intake)
    ensures Present(Put(s, id, slot).(intake := intake)) == if slot.file.Absent? then Present(s) - {id} else Present(s) + {id}
  {
  }

  lemma SlotInv(c: Config, s: Inbox, id: string)
    requires SlotsInv(c, s)
    ensures SlotOk(c.catalog(id), SlotAt(s, id))
  {
  }

  lemma PutKeepsSlots(c: Config, s: Inbox, id: string, slot: Slot, intake: Intake)
    requires SlotsInv(c, s) && SlotOk(c.catalog(id), slot)
    ensures SlotsInv(c, Put(s, id, slot).(intake := intake))
  {
    var s' := Put(s, id, slot).(intake := intake);
    forall other | other in s'.slots ensures SlotOk(c.catalog(other), s'.slots[other]) {
      if other != id { SlotInv(c, s, other); }
    }
  }

  /** What a worker's or retry's step may do to the record file. */
  predicate FileKept(s: Slot, s': Slot) {
    && s'.birth == s.birth
    && (s'.file.Absent? <==> s.file.Absent?) && (s'.file.Torn? <==> s.file.Torn?)
    && (s'.holder.Working? ==> s'.file.Stored?)
    && (s.file.Stored? && s.file.rec.replyEventId.Some? ==>
          s'.file == s.file || (s'.file.rec.replyEventId.Some? && s'.file.rec.error.Some?))
  }

  lemma WriteKeepsFile(ev: Event, s: Slot, outcome: WriteOutcome, now: int, rest: nat)
    requires FileInv(ev, s) && HolderInv(ev, s) && (s.holder.Working? ==> s.file.Stored?) && AtWrite(s.holder)
    ensures FileKept(s, AfterWrite(s, outcome, now, rest))
  {
  }

  /** Workers and retries neither create nor remove a file, and change an answered one only to
      store a failure over it. */
  lemma WorkerKeepsFile(ev: Event, s: Slot, st: Step)
    requires FileInv(ev, s) && HolderInv(ev, s) && (s.holder.Working? ==> s.file.Stored?) && Enabled(s, st) && ByWorker(st)
    ensures FileKept(s, Apply(ev, s, st))
  {
    if st.Write? {
      WriteKeepsFile(ev, s, st.outcome, st.now, st.rest);
    }
  }

  lemma WorkerKeepsCapacity(c: Config, s: Inbox, id: string, slot: Slot)
    requires CapacityInv(c, s) && FileKept(SlotAt(s, id), slot)
    ensures CapacityInv(c, Put(s, id, slot))
    ensures Present(Put(s, id, slot)) == Present(s)
  {
    PutPresent(s, id, slot, s.intake);
    var s' := Put(s, id, slot);
    assert Present(s') == Present(s);
    assert forall cutoff, x :: CandidateInv(s, cutoff, x) ==> CandidateInv(s', cutoff, x);
  }

  lemma SlotMoveKeepsInv(c: Config, s: Inbox, id: string, st: Step)
    requires InboxInv(c, s) && Possible(c, s, SlotMove(id, st))
    ensures InboxInv(c, Next(c, s, SlotMove(id, st)))
    ensures Present(Next(c, s, SlotMove(id, st))) == Present(s)
  {
    var slot := SlotAt(s, id);
    var slot' := Apply(c.catalog(id), slot, st);
    SlotInv(c, s, id);
    StepKeepsInv(c.catalog(id), slot, st);
    WorkerKeepsFile(c.catalog(id), slot, st);
    WorkerKeepsCapacity(c, s, id, slot');
    PutKeepsSlots(c, s, id, slot', s.intake);
  }

  lemma InspectKeepsCapacity(c: Config, s: Inbox, now: int, listing: seq<string>)
    requires CapacityInv(c, s) && Possible(c, s, Inspect(now, listing))
    ensures CapacityInv(c, AfterInspect(s, now, listing))
  {
    DistinctCount(listing);
  }

  lemma ScanNextKeepsCapacity(c: Config, s: Inbox)
    requires CapacityInv(c, s) && Possible(c, s, ScanNext)
    ensures CapacityInv(c, AfterScanNext(s))
  {
    var Scanning(ev, cutoff, todo, count, done) := s.intake;
    assert todo[0] in Elements(todo);
    assert Elements(todo[1..]) <= Elements(todo);
    assert todo[0] !in todo[1..];
  }

  /** Sorting keeps the candidates and their distinct IDs. */
  lemma SortedCandidates(s: Inbox, cutoff: int, xs: seq<Candidate>, ys: seq<Candidate>)
    requires CandidatesInv(s, cutoff, xs) && multiset(ys) == multiset(xs)
    ensures CandidatesInv(s, cutoff, ys)
  {
    SameElements(ys, xs);
    forall i | 0 <= i < |ys| ensures CandidateInv(s, cutoff, ys[i]) {
      assert ys[i] in xs;
      var k :| 0 <= k < |xs| && xs[k] == ys[i];
    }
    forall i, j | 0 <= i < j < |ys| ensures ys[i].id != ys[j].id {
      if ys[i].id == ys[j].id {
        assert ys[i] in xs && ys[j] in xs;
        var k :| 0 <= k < |xs| && xs[k] == ys[i];
        var l :| 0 <= l < |xs| && xs[l] == ys[j];
        assert k == l;
        RepeatCounts(ys, i, j);
        OnceCounts(xs);
      }
    }
  }

  lemma ScanEndKeepsCapacity(c: Config, s: Inbox, queue: seq<Candidate>)
    requires CapacityInv(c, s) && Possible(c, s, ScanEnd(queue))
    ensures CapacityInv(c, Next(c, s, ScanEnd(queue)))
  {
    SortedCandidates(s, s.intake.cutoff, s.intake.done, queue);
  }

  lemma EvictNextKeepsCapacity(c: Config, s: Inbox)
    requires CapacityInv(c, s) && Possible(c, s, EvictNext)
    ensures CapacityInv(c, AfterEvictNext(s))
    ensures Present(AfterEvictNext(s)) == Present(s) - {s.intake.queue[0].id}
  {
    var x := s.intake.queue[0];
    assert CandidateInv(s, s.intake.cutoff, x) && x.id in Present(s);
    var s' := AfterEvictNext(s);
    PutPresent(s, x.id, SlotAt(s, x.id).(file := Absent), s'.intake);
    forall i | 1 <= i < |s.intake.queue| ensures CandidateInv(s', s.intake.cutoff, s.intake.queue[i]) {
      assert CandidateInv(s, s.intake.cutoff, s.intake.queue[i]);
    }
  }

  /** What intake evicts is a record whose reply was found and whose worker has let go. */
  lemma EvictNextKeepsInv(c: Config, s: Inbox)
    requires InboxInv(c, s) && Possible(c, s, EvictNext) && !Overtakes(s, EvictNext)
    ensures InboxInv(c, AfterEvictNext(s))
  {
    var x := s.intake.queue[0];
    EvictNextKeepsCapacity(c, s);
    assert CandidateInv(s, s.intake.cutoff, x);
    SlotInv(c, s, x.id);
    FileStepKeepsInv(c.catalog(x.id), SlotAt(s, x.id), Evict);
    PutKeepsSlots(c, s, x.id, SlotAt(s, x.id).(file := Absent), AfterEvictNext(s).intake);
  }

  lemma OpenKeepsCapacity(c: Config, s: Inbox)
    requires CapacityInv(c, s) && s.intake.Creating?
    ensures CapacityInv(c, AfterOpen(s))
  {
    var ev := s.intake.ev;
    PutPresent(s, ev.id, Apply(ev, SlotAt(s, ev.id), Create), Filling(ev, s.intake.removed));
  }

  lemma FillKeepsCapacity(c: Config, s: Inbox, now: int, rest: nat, synced: bool)
    requires CapacityInv(c, s) && s.intake.Filling?
    ensures CapacityInv(c, AfterFill(s, now, rest, synced))
  {
    var ev := s.intake.ev;
    PutPresent(s, ev.id, SlotAt(s, ev.id).(file := Stored(NewRecord(ev, now), rest)), AfterFill(s, now, rest, synced).intake);
    assert ev.id in Present(s);
    assert Present(s) + {ev.id} == Present(s);
  }

  lemma FailKeepsCapacity(c: Config, s: Inbox, unlinked: bool)
    requires CapacityInv(c, s) && s.intake.Filling?
    ensures CapacityInv(c, AfterFail(s, unlinked))
  {
    var ev := s.intake.ev;
    if unlinked {
      PutPresent(s, ev.id, SlotAt(s, ev.id).(file := Absent), AfterFail(s, unlinked).intake);
      SubsetCount(Present(s) - {ev.id}, Present(s));
    } else {
      assert Present(AfterFail(s, unlinked)) == Present(s);
    }
  }

  lemma OpenKeepsInv(c: Config, s: Inbox)
    requires InboxInv(c, s) && s.intake.Creating?
    ensures InboxInv(c, AfterOpen(s))
  {
    var ev := s.intake.ev;
    OpenKeepsCapacity(c, s);
    SlotInv(c, s, ev.id);
    FileStepKeepsInv(ev, SlotAt(s, ev.id), Create);
    PutKeepsSlots(c, s, ev.id, Apply(ev, SlotAt(s, ev.id), Create), AfterOpen(s).intake);
  }

  lemma FillKeepsInv(c: Config, s: Inbox, now: int, rest: nat, synced: bool)
    requires InboxInv(c, s) && s.intake.Filling?
    ensures InboxInv(c, AfterFill(s, now, rest, synced))
  {
    var ev := s.intake.ev;
    FillKeepsCapacity(c, s, now, rest, synced);
    SlotInv(c, s, ev.id);
    FileStepKeepsInv(ev, SlotAt(s, ev.id), Fill(now, rest));
    PutKeepsSlots(c, s, ev.id, SlotAt(s, ev.id).(file := Stored(NewRecord(ev, now), rest)), AfterFill(s, now, rest, synced).intake);
  }

  lemma FailKeepsInv(c: Config, s: Inbox, unlinked: bool)
    requires InboxInv(c, s) && s.intake.Filling?
    ensures InboxInv(c, AfterFail(s, unlinked))
  {
    var ev := s.intake.ev;
    FailKeepsCapacity(c, s, unlinked);
    SlotInv(c, s, ev.id);
    FileStepKeepsInv(ev, SlotAt(s, ev.id), Unfill);
    PutKeepsSlots(c, s, ev.id, SlotAt(s, ev.id).(file := Absent), AfterFail(s, unlinked).intake);
  }

  lemma MoveKeepsInv(c: Config, s: Inbox, m: Move)
    requires InboxInv(c, s) && Possible(c, s, m) && !Overtakes(s, m)
    ensures InboxInv(c, Next(c, s, m))
  {
    match m
    case SlotMove(id, st) => SlotMoveKeepsInv(c, s, id, st);
    case Inspect(now, listing) => InspectKeepsCapacity(c, s, now, listing);
    case ScanNext => ScanNextKeepsCapacity(c, s);
    case ScanEnd(queue) => ScanEndKeepsCapacity(c, s, queue);
    case EvictNext => EvictNextKeepsInv(c, s);
    case OpenNew => OpenKeepsInv(c, s);
    case FillNew(now, rest, synced) => FillKeepsInv(c, s, now, rest, synced);
    case FailNew(unlinked) => FailKeepsInv(c, s, unlinked);
    case _ =>
  }

  // ---------------------------------------------------------------- the invariant of any run

  /** What any step of a worker or retry may do to the record file. */
  predicate FileStays(s: Slot, s': Slot) {
    && s'.birth == s.birth && (s.file.Stored? ==> s'.file.Stored?) && (s.file.Torn? ==> !s'.file.Absent?)
  }

  lemma WorkerLeavesFile(ev: Event, s: Slot, st: Step)
    requires Enabled(s, st) && ByWorker(st)
    ensures FileStays(s, Apply(ev, s, st))
  {
  }

  /** A file without a reply changes only under its worker; an answered one only to a failure
      stored over it; and where there is no whole file only an answered one is written. */
  predicate AnswerKept(s: Slot, s': Slot) {
    && (s.file.Stored? && s.file.rec.replyEventId.Some? ==>
          s'.file == s.file || (s'.file.Stored? && s'.file.rec.replyEventId.Some? && s'.file.rec.error.Some?))
    && (!s.file.Stored? ==> s'.file == s.file || (s'.file.Stored? && s'.file.rec.replyEventId.Some?))
  }

  lemma WriteKeepsAnswer(ev: Event, s: Slot, outcome: WriteOutcome, now: int, rest: nat)
    requires FileInv(ev, s) && HolderInv(ev, s) && AtWrite(s.holder)
    ensures AnswerKept(s, AfterWrite(s, outcome, now, rest))
  {
  }

  lemma WorkerKeepsAnswer(ev: Event, s: Slot, st: Step)
    requires FileInv(ev, s) && HolderInv(ev, s) && Enabled(s, st) && ByWorker(st)
    ensures AnswerKept(s, Apply(ev, s, st))
  {
    if st.Write? {
      WriteKeepsAnswer(ev, s, st.outcome, st.now, st.rest);
    }
  }

  lemma SlotAtInv(c: Config, s: Inbox, id: string)
    requires OpenInv(c, s)
    ensures Inv(c.catalog(id), SlotAt(s, id))
  {
  }

  lemma SlotMoveKeepsOpen(c: Config, s: Inbox, id: string, st: Step)
    requires OpenInv(c, s) && Possible(c, s, SlotMove(id, st))
    ensures OpenInv(c, Next(c, s, SlotMove(id, st)))
  {
    hide Inv;
    SlotAtInv(c, s, id);
    StepKeepsInv(c.catalog(id), SlotAt(s, id), st);
    SlotKeepsLists(c, s, id, st);
  }

  lemma SlotKeepsLists(c: Config, s: Inbox, id: string, st: Step)
    requires ListsInv(c, s) && Possible(c, s, SlotMove(id, st)) && Inv(c.catalog(id), SlotAt(s, id))
    ensures ListsInv(c, Next(c, s, SlotMove(id, st)))
  {
    var slot' := Apply(c.catalog(id), SlotAt(s, id), st);
    WorkerKeepsAnswer(c.catalog(id), SlotAt(s, id), st);
    AnswerKeepsLists(c, s, id, slot');
  }

  lemma AnswerKeepsLists(c: Config, s: Inbox, id: string, slot: Slot)
    requires ListsInv(c, s) && AnswerKept(SlotAt(s, id), slot)
    ensures ListsInv(c, Put(s, id, slot))
  {
    var s' := Put(s, id, slot);
    assert forall cutoff, x :: CandidateInv(s, cutoff, x) ==> CandidateInv(s', cutoff, x);
  }

  /** Any file intake removes is answered, or torn and its own. */
  lemma RemovalKeepsOpen(c: Config, s: Inbox, id: string, intake: Intake)
    requires OpenInv(c, s) && Unfilled(SlotAt(s, id).file)
    requires ListsInv(c, Put(s, id, SlotAt(s, id).(file := Absent)).(intake := intake))
    ensures OpenInv(c, Put(s, id, SlotAt(s, id).(file := Absent)).(intake := intake))
  {
    hide Inv;
    SlotAtInv(c, s, id);
    FileStepKeepsInv(c.catalog(id), SlotAt(s, id), if SlotAt(s, id).file.Torn? then Unfill else Evict);
  }

  lemma EvictNextKeepsOpen(c: Config, s: Inbox)
    requires OpenInv(c, s) && Possible(c, s, EvictNext)
    ensures OpenInv(c, AfterEvictNext(s))
  {
    hide Inv;
    var x := s.intake.queue[0];
    assert CandidateInv(s, s.intake.cutoff, x);
    var s' := AfterEvictNext(s);
    forall i | 1 <= i < |s.intake.queue| ensures CandidateInv(s', s.intake.cutoff, s.intake.queue[i]) {
      assert CandidateInv(s, s.intake.cutoff, s.intake.queue[i]);
    }
    RemovalKeepsOpen(c, s, x.id, s'.intake);
  }

  lemma OpenKeepsOpen(c: Config, s: Inbox)
    requires OpenInv(c, s) && s.intake.Creating?
    ensures OpenInv(c, AfterOpen(s))
  {
    hide Inv;
    var ev := s.intake.ev;
    SlotAtInv(c, s, ev.id);
    if SlotAt(s, ev.id).file.Absent? {
      FileStepKeepsInv(ev, SlotAt(s, ev.id), Create);
    }
  }

  lemma FillKeepsOpen(c: Config, s: Inbox, now: int, rest: nat, synced: bool)
    requires OpenInv(c, s) && s.intake.Filling?
    ensures OpenInv(c, AfterFill(s, now, rest, synced))
  {
    hide Inv;
    var ev := s.intake.ev;
    SlotAtInv(c, s, ev.id);
    if SlotAt(s, ev.id).file.Torn? {
      FileStepKeepsInv(ev, SlotAt(s, ev.id), Fill(now, rest));
    }
  }

  lemma ScanNextKeepsOpen(c: Config, s: Inbox)
    requires OpenInv(c, s) && Possible(c, s, ScanNext)
    ensures OpenInv(c, AfterScanNext(s))
  {
    hide Inv;
    var id := s.intake.todo[0];
    assert id !in s.intake.todo[1..];
    SlotAtInv(c, s, id);
    if ReadableFile(SlotAt(s, id).file) && SlotAt(s, id).file.rec.phase == Replied {
      assert SlotAt(s, id).file.rec.replyEventId.Some?;
      assert CandidateInv(s, SlotAt(s, id).file.rec.updatedAt + 1, Candidate(SlotAt(s, id).file.rec.updatedAt, id));
    }
  }

  lemma MoveKeepsOpen(c: Config, s: Inbox, m: Move)
    requires OpenInv(c, s) && Possible(c, s, m)
    ensures OpenInv(c, Next(c, s, m))
  {
    match m
    case SlotMove(id, st) => SlotMoveKeepsOpen(c, s, id, st);
    case ScanNext => ScanNextKeepsOpen(c, s);
    case ScanEnd(queue) => SortedCandidates(s, s.intake.cutoff, s.intake.done, queue);
    case EvictNext => EvictNextKeepsOpen(c, s);
    case OpenNew => OpenKeepsOpen(c, s);
    case FillNew(now, rest, synced) => FillKeepsOpen(c, s, now, rest, synced);
    case FailNew(unlinked) =>
      if unlinked { RemovalKeepsOpen(c, s, s.intake.ev.id, Leaving(Broken, s.intake.removed)); }
    case _ =>
  }

  // ---------------------------------------------------------------- whole runs

  /** Any interleaving of intake, workers, retries and crashes in which no record is evicted while
      a worker still holds it. */
  predicate Behaviour(c: Config, s: Inbox, moves: seq<Move>)
    ensures Behaviour(c, s, moves) ==> CanRun(c, s, moves)
    decreases |moves|
  {
    moves == [] || (Possible(c, s, moves[0]) && !Overtakes(s, moves[0]) && Behaviour(c, Next(c, s, moves[0]), moves[1..]))
  }

  /** Any interleaving at all. */
  predicate CanRun(c: Config, s: Inbox, moves: seq<Move>)
    decreases |moves|
  {
    moves == [] || (Possible(c, s, moves[0]) && CanRun(c, Next(c, s, moves[0]), moves[1..]))
  }

  function After(c: Config, s: Inbox, moves: seq<Move>): Inbox
    requires CanRun(c, s, moves)
    decreases |moves|
  {
    if moves == [] then s else After(c, Next(c, s, moves[0]), moves[1..])
  }

  lemma {:induction false} RunExtends(c: Config, s: Inbox, moves: seq<Move>, more: seq<Move>)
    requires CanRun(c, s, moves) && CanRun(c, After(c, s, moves), more)
    ensures CanRun(c, s, moves + more) && After(c, s, moves + more) == After(c, After(c, s, moves), more)
    ensures Behaviour(c, s, moves) && Behaviour(c, After(c, s, moves), more) ==> Behaviour(c, s, moves + more)
    decreases |moves|
  {
    if moves == [] {
      assert moves + more == more;
    } else {
      RunExtends(c, Next(c, s, moves[0]), moves[1..], more);
      assert (moves + more)[1..] == moves[1..] + more;
    }
  }

  lemma OneMove(c: Config, s: Inbox, m: Move)
    requires Possible(c, s, m)
    ensures CanRun(c, s, [m]) && After(c, s, [m]) == Next(c, s, m)
    ensures !Overtakes(s, m) ==> Behaviour(c, s, [m])
  {
    assert [m][1..] == [];
  }

  lemma {:induction false} RunKeepsInv(c: Config, s: Inbox, moves: seq<Move>)
    requires InboxInv(c, s) && Behaviour(c, s, moves)
    ensures InboxInv(c, After(c, s, moves))
    decreases |moves|
  {
    if moves == [] {
    } else {
      MoveKeepsInv(c, s, moves[0]);
      RunKeepsInv(c, Next(c, s, moves[0]), moves[1..]);
    }
  }

  lemma {:induction false} RunKeepsOpen(c: Config, s: Inbox, moves: seq<Move>)
    requires OpenInv(c, s) && CanRun(c, s, moves)
    ensures OpenInv(c, After(c, s, moves))
    decreases |moves|
  {
    hide OpenInv;
    if moves == [] {
    } else {
      MoveKeepsOpen(c, s, moves[0]);
      RunKeepsOpen(c, Next(c, s, moves[0]), moves[1..]);
    }
  }

  /** Under any such interleaving the inbox never holds more than `max_records` files; an intake
      evicts at most one, and a refused one none. */
  lemma InboxIsBounded(c: Config, moves: seq<Move>)
    requires c.maxRecords >= 1 && Behaviour(c, EMPTY_INBOX, moves)
    ensures var s := After(c, EMPTY_INBOX, moves);
            && |Present(s)| <= c.maxRecords
            && (s.intake.Leaving? ==> s.intake.removed <= 1 && (s.intake.verdict == Refused ==> s.intake.removed == 0))
  {
    assert Present(EMPTY_INBOX) == {};
    RunKeepsInv(c, EMPTY_INBOX, moves);
  }

  predicate HasRecord(s: Inbox, id: string, birth: nat) {
    SlotAt(s, id).birth == birth && SlotAt(s, id).file.Stored?
  }

  predicate RepliedNow(s: Inbox, id: string) {
    SlotAt(s, id).file.Stored? && SlotAt(s, id).file.rec.phase == Replied
  }

  /** The event's record was seen replied somewhere along the run. */
  predicate EverReplied(c: Config, s: Inbox, moves: seq<Move>, id: string)
    requires CanRun(c, s, moves)
    decreases |moves|
  {
    RepliedNow(s, id) || (moves != [] && EverReplied(c, Next(c, s, moves[0]), moves[1..], id))
  }

  /** Intake has the event on its list of records it may remove. */
  predicate Listed(s: Inbox, id: string) {
    || (s.intake.Scanning? && exists i :: 0 <= i < |s.intake.done| && s.intake.done[i].id == id)
    || (s.intake.Evicting? && exists i :: 0 <= i < |s.intake.queue| && s.intake.queue[i].id == id)
  }

  lemma SortingListsNothingNew(xs: seq<Candidate>, ys: seq<Candidate>, id: string)
    requires multiset(ys) == multiset(xs) && forall i :: 0 <= i < |xs| ==> xs[i].id != id
    ensures forall i :: 0 <= i < |ys| ==> ys[i].id != id
  {
    SameElements(ys, xs);
    forall i | 0 <= i < |ys| ensures ys[i].id != id {
      assert ys[i] in xs;
    }
  }

  lemma MoveKeepsUnlisted(c: Config, s: Inbox, m: Move, id: string)
    requires Possible(c, s, m) && !Listed(s, id) && !RepliedNow(s, id)
    ensures !Listed(Next(c, s, m), id)
  {
    if m.ScanEnd? {
      SortingListsNothingNew(s.intake.done, m.queue, id);
    }
  }

  /** The record of creation `birth` is stored, and intake neither lists nor creates it. */
  predicate Safe(s: Inbox, id: string, birth: nat) {
    HasRecord(s, id, birth) && !Listed(s, id) && !(s.intake.Filling? && s.intake.ev.id == id)
  }

  lemma IntakeKeepsSafe(c: Config, s: Inbox, m: Move, id: string, birth: nat)
    requires Possible(c, s, m) && !m.SlotMove? && Safe(s, id, birth) && !RepliedNow(s, id)
    ensures Safe(Next(c, s, m), id, birth)
  {
    MoveKeepsUnlisted(c, s, m, id);
    if m.EvictNext? {
      assert s.intake.queue[0].id != id;
    }
    assert SlotAt(Next(c, s, m), id) == SlotAt(s, id);
  }

  lemma MoveKeepsSafe(c: Config, s: Inbox, m: Move, id: string, birth: nat)
    requires Possible(c, s, m) && Safe(s, id, birth) && !RepliedNow(s, id)
    ensures Safe(Next(c, s, m), id, birth)
  {
    if m.SlotMove? {
      if m.id == id {
        WorkerLeavesFile(c.catalog(id), SlotAt(s, id), m.st);
      }
    } else {
      IntakeKeepsSafe(c, s, m, id, birth);
    }
  }

  lemma {:induction false} SafeStays(c: Config, s: Inbox, moves: seq<Move>, id: string, birth: nat)
    requires CanRun(c, s, moves) && Safe(s, id, birth) && !EverReplied(c, s, moves, id)
    ensures Safe(After(c, s, moves), id, birth)
    decreases |moves|
  {
    if moves == [] {
    } else {
      MoveKeepsSafe(c, s, moves[0], id, birth);
      SafeStays(c, Next(c, s, moves[0]), moves[1..], id, birth);
    }
  }

  /** No work is dropped: from any state whatever, a stored record that intake neither lists nor
      creates, and that is never replied, is still there after any run at all. */
  lemma UnrepliedIsNeverRemoved(c: Config, s: Inbox, moves: seq<Move>, id: string, birth: nat)
    requires CanRun(c, s, moves)
    requires HasRecord(s, id, birth) && !Listed(s, id) && !(s.intake.Filling? && s.intake.ev.id == id)
    requires !EverReplied(c, s, moves, id)
    ensures HasRecord(After(c, s, moves), id, birth)
  {
    SafeStays(c, s, moves, id, birth);
  }

  /** And in a run from the empty inbox those conditions hold of every record whose reply was not
      found: only answered records are listed, and intake creates no record over one. */
  lemma UnansweredIsNeverRemoved(c: Config, before: seq<Move>, moves: seq<Move>, id: string, birth: nat)
    requires CanRun(c, EMPTY_INBOX, before) && CanRun(c, After(c, EMPTY_INBOX, before), moves)
    requires var s := After(c, EMPTY_INBOX, before);
             HasRecord(s, id, birth) && SlotAt(s, id).file.rec.replyEventId.None? && !EverReplied(c, s, moves, id)
    ensures HasRecord(After(c, After(c, EMPTY_INBOX, before), moves), id, birth)
  {
    var s := After(c, EMPTY_INBOX, before);
    RunKeepsOpen(c, EMPTY_INBOX, before);
    UnansweredIsUnlisted(c, s, id);
    UnrepliedIsNeverRemoved(c, s, moves, id, birth);
  }

  lemma UnansweredIsUnlisted(c: Config, s: Inbox, id: string)
    requires OpenInv(c, s) && SlotAt(s, id).file.Stored? && SlotAt(s, id).file.rec.replyEventId.None?
    ensures !Listed(s, id) && !(s.intake.Filling? && s.intake.ev.id == id)
  {
    assert forall cutoff, x :: CandidateInv(s, cutoff, x) ==> x.id != id;
  }

  /** A move that does not end this intake or begin another. */
  predicate WithinIntake(m: Move) {
    !m.Enter? && !m.Leave? && !m.StopIntake?
  }

  /** The intake under way is the one for this event; success means a stored record. */
  predicate ServesEvent(s: Inbox, id: string) {
    match s.intake
    case CapacityFree => false
    case Entered(ev) => ev.id == id
    case Scanning(ev, _, _, _, _) => ev.id == id
    case Evicting(ev, _, _, _, _) => ev.id == id
    case Creating(ev, _) => ev.id == id
    case Filling(ev, _) => ev.id == id && !SlotAt(s, id).file.Absent?
    case Leaving(verdict, _) => verdict == Accepted ==> SlotAt(s, id).file.Stored?
  }

  lemma MoveKeepsServing(c: Config, s: Inbox, m: Move, id: string)
    requires Possible(c, s, m) && WithinIntake(m) && ServesEvent(s, id)
    ensures ServesEvent(Next(c, s, m), id)
  {
    if m.SlotMove? {
      WorkerLeavesFile(c.catalog(m.id), SlotAt(s, m.id), m.st);
    }
  }

  /** Whatever workers do meanwhile, an eviction under a worker included, when an intake ends with
      success its event has a stored record. */
  lemma {:induction false} AcceptedHasRecord(c: Config, s: Inbox, moves: seq<Move>, id: string)
    requires CanRun(c, s, moves) && ServesEvent(s, id)
    requires forall i :: 0 <= i < |moves| ==> WithinIntake(moves[i])
    ensures ServesEvent(After(c, s, moves), id)
    decreases |moves|
  {
    if moves == [] {
    } else {
      MoveKeepsServing(c, s, moves[0], id);
      AcceptedHasRecord(c, Next(c, s, moves[0]), moves[1..], id);
    }
  }

  /** Evictions go oldest first and only when needed: the record removed was listed as replied
      before the cutoff and no later than any other on the list, its reply was found, and intake
      counted as many records as there may be; what is removed is the record as it was listed,
      unless its worker has stored a failed final write over it since.  As long as no eviction has
      overtaken a worker, the inbox is then exactly full. */
  lemma EvictsOldestWhenFull(c: Config, s: Inbox)
    requires OpenInv(c, s) && Possible(c, s, EvictNext)
    ensures var x := s.intake.queue[0];
            && x.id in Present(s) && x.updatedAt < s.intake.cutoff && s.intake.count >= c.maxRecords
            && (forall i :: 0 <= i < |s.intake.queue| ==> x.updatedAt <= s.intake.queue[i].updatedAt)
            && SlotAt(s, x.id).file.Stored? && AnsweredSince(SlotAt(s, x.id).file.rec, x.updatedAt)
    ensures InboxInv(c, s) ==> |Present(s)| == c.maxRecords
  {
    hide Inv;
    var q := s.intake.queue;
    forall i | 0 <= i < |q| ensures CandidateInv(s, s.intake.cutoff, q[i]) && (i == 0 || OlderFirst(q[0], q[i])) {}
  }

  // ---------------------------------------------------------------- files that stop intake

  /** A file the reader refuses, which no worker is about to replace and the scan has not passed. */
  predicate Blocked(s: Inbox, id: string) {
    && !SlotAt(s, id).file.Absent? && !ReadableFile(SlotAt(s, id).file)
    && !SlotAt(s, id).holder.Working? && !SlotAt(s, id).holder.Requeueing?
    && (s.intake.CapacityFree? || s.intake.Entered? || s.intake.Leaving? || (s.intake.Scanning? && id in s.intake.todo))
  }

  lemma WorkerKeepsBlocked(ev: Event, s: Slot, st: Step)
    requires !s.file.Absent? && !ReadableFile(s.file) && !s.holder.Working? && !s.holder.Requeueing?
    requires Enabled(s, st) && ByWorker(st)
    ensures var s' := Apply(ev, s, st); s'.file == s.file && !s'.holder.Working? && !s'.holder.Requeueing?
  {
  }

  lemma IntakeKeepsBlocked(c: Config, s: Inbox, m: Move, id: string)
    requires Possible(c, s, m) && !m.SlotMove? && Blocked(s, id)
    ensures Blocked(Next(c, s, m), id) && Next(c, s, m).slots == s.slots
  {
    assert id in Present(s);
    match m
    case Inspect(_, listing) => assert id in Elements(listing);
    case ScanNext => assert s.intake.todo == [s.intake.todo[0]] + s.intake.todo[1..];
    case _ =>
  }

  lemma MoveKeepsBlocked(c: Config, s: Inbox, m: Move, id: string)
    requires Possible(c, s, m) && Blocked(s, id)
    ensures Blocked(Next(c, s, m), id) && OnlyWritten(s, Next(c, s, m))
  {
    if m.SlotMove? {
      WorkerLeavesFile(c.catalog(m.id), SlotAt(s, m.id), m.st);
      if m.id == id {
        WorkerKeepsBlocked(c.catalog(id), SlotAt(s, id), m.st);
      }
    } else {
      IntakeKeepsBlocked(c, s, m, id);
    }
  }

  /** No record was created and none removed. */
  ghost predicate OnlyWritten(s: Inbox, t: Inbox) {
    Present(s) <= Present(t) && forall id :: SlotAt(t, id).birth == SlotAt(s, id).birth
  }

  lemma BlockedNeverOvertakes(s: Inbox, m: Move, id: string)
    requires Blocked(s, id)
    ensures !Overtakes(s, m)
  {
  }

  /** A file that the reader refuses stops the inbox for good: from any state, no run at all creates
      or evicts a record after it.  Events that are recorded already are still answered. */
  lemma {:induction false} UnreadableFileStopsInbox(c: Config, s: Inbox, moves: seq<Move>, id: string)
    requires CanRun(c, s, moves) && Blocked(s, id)
    ensures Blocked(After(c, s, moves), id) && OnlyWritten(s, After(c, s, moves))
    decreases |moves|
  {
    if moves == [] {
    } else {
      MoveKeepsBlocked(c, s, moves[0], id);
      UnreadableFileStopsInbox(c, Next(c, s, moves[0]), moves[1..], id);
    }
  }

  /** And as long as no eviction has overtaken a worker, the files stay the same ones. */
  lemma {:induction false} UnreadableFileFreezesInbox(c: Config, s: Inbox, moves: seq<Move>, id: string)
    requires InboxInv(c, s) && CanRun(c, s, moves) && Blocked(s, id)
    ensures Present(After(c, s, moves)) == Present(s)
    decreases |moves|
  {
    if moves == [] {
    } else {
      BlockedNeverOvertakes(s, moves[0], id);
      MoveKeepsInv(c, s, moves[0]);
      MoveKeepsBlocked(c, s, moves[0], id);
      if moves[0].SlotMove? {
        SlotMoveKeepsInv(c, s, moves[0].id, moves[0].st);
      } else {
        IntakeKeepsBlocked(c, s, moves[0], id);
      }
      UnreadableFileFreezesInbox(c, Next(c, s, moves[0]), moves[1..], id);
    }
  }
}
