/** Runs from the empty inbox that reach the states the conditions in BridgeInbox speak of, and the
    exact condition for the bound on the inbox.  The clock of each run only goes forward. */
module BridgeInboxWitness {
  import opened Common
  import opened Ordering
  import opened BridgeRecord
  import opened BridgeWorker
  import opened BridgeInbox
  import R = BridgeRuns
  import W = BridgeWitness

  /** A run of the inbox, written from its last move back. */
  datatype Trail = Start(inbox: Inbox) | Then(trail: Trail, move: Move)

  function First(t: Trail): Inbox {
    if t.Start? then t.inbox else First(t.trail)
  }

  function End(c: Config, t: Trail): Inbox
    requires Leads(c, t)
    decreases t, 1
  {
    if t.Start? then t.inbox else Next(c, End(c, t.trail), t.move)
  }

  predicate Leads(c: Config, t: Trail)
    decreases t, 0
  {
    t.Start? || (Leads(c, t.trail) && Possible(c, End(c, t.trail), t.move))
  }

  function Moves(t: Trail): seq<Move> {
    if t.Start? then [] else Moves(t.trail) + [t.move]
  }

  predicate NoEviction(t: Trail) {
    t.Start? || (NoEviction(t.trail) && !t.move.EvictNext?)
  }

  /** `u` goes on from where `t` starts, with evictions only if `t` has them. */
  predicate Follows(c: Config, t: Trail, u: Trail) {
    Leads(c, u) && First(u) == First(t) && (NoEviction(t) ==> NoEviction(u))
  }

  lemma {:induction false} TrailIsRun(c: Config, t: Trail)
    requires Leads(c, t)
    ensures CanRun(c, First(t), Moves(t)) && After(c, First(t), Moves(t)) == End(c, t)
    ensures NoEviction(t) ==> Behaviour(c, First(t), Moves(t))
  {
    if t.Start? {
    } else {
      TrailIsRun(c, t.trail);
      OneMove(c, End(c, t.trail), t.move);
      RunExtends(c, First(t), Moves(t.trail), [t.move]);
    }
  }

  lemma Go(c: Config, t: Trail, m: Move) returns (u: Trail)
    requires Leads(c, t) && Possible(c, End(c, t), m) && !m.EvictNext?
    ensures Follows(c, t, u) && End(c, u) == Next(c, End(c, t), m)
  {
    u := Then(t, m);
  }

  /** What workers do to one slot they do to the inbox. */
  lemma {:induction false} Lift(c: Config, t: Trail, id: string, p: W.Path) returns (u: Trail)
    requires Leads(c, t) && W.Leads(c.catalog(id), p) && W.ByWorkers(p) && W.First(p) == SlotAt(End(c, t), id)
    ensures Follows(c, t, u)
    ensures SlotAt(End(c, u), id) == W.End(c.catalog(id), p)
    ensures End(c, u) == End(c, t) || End(c, u) == Put(End(c, t), id, W.End(c.catalog(id), p))
  {
    if p.Start? {
      u := t;
    } else {
      u := Lift(c, t, id, p.path);
      u := Go(c, u, SlotMove(id, p.st));
    }
  }

  function CreatedSlot(slot: Slot): Slot {
    slot.(file := Torn, birth := slot.birth + 1, failures := 0)
  }

  lemma GoOpen(c: Config, t: Trail) returns (u: Trail)
    requires Leads(c, t) && End(c, t).intake.Creating? && SlotAt(End(c, t), End(c, t).intake.ev.id).file.Absent?
    ensures Follows(c, t, u)
    ensures var s := End(c, t);
            var id := s.intake.ev.id;
            End(c, u) == Put(s, id, CreatedSlot(SlotAt(s, id))).(intake := Filling(s.intake.ev, s.intake.removed))
  {
    u := Go(c, t, OpenNew);
  }

  lemma GoFill(c: Config, t: Trail, now: int, rest: nat) returns (u: Trail)
    requires Leads(c, t) && End(c, t).intake.Filling? && SlotAt(End(c, t), End(c, t).intake.ev.id).file.Torn?
    ensures Follows(c, t, u)
    ensures var s := End(c, t);
            var ev := s.intake.ev;
            End(c, u) == Put(s, ev.id, SlotAt(s, ev.id).(file := Stored(NewRecord(ev, now), rest))).(intake := Leaving(Accepted, s.intake.removed))
  {
    u := Go(c, t, FillNew(now, rest, true));
  }

  /** Intake opens the record of an event in an inbox without records. */
  lemma Opened(c: Config, t: Trail, ev: Event, now: int) returns (u: Trail)
    requires Leads(c, t) && End(c, t).intake.CapacityFree? && Present(End(c, t)) == {} && c.maxRecords > 0 && ev == c.catalog(ev.id)
    requires SlotAt(End(c, t), ev.id).file.Absent?
    ensures Follows(c, t, u)
    ensures End(c, u) == Put(End(c, t), ev.id, CreatedSlot(SlotAt(End(c, t), ev.id))).(intake := Filling(ev, 0))
  {
    u := StartedScan(c, t, ev, now);
    u := EndedScan(c, u, ev, now);
    u := GoOpen(c, u);
  }

  lemma EndedScan(c: Config, t: Trail, ev: Event, now: int) returns (u: Trail)
    requires Leads(c, t) && c.maxRecords > 0 && End(c, t).intake == Scanning(ev, now - REPLAY, [], 0, [])
    ensures Follows(c, t, u) && End(c, u) == End(c, t).(intake := Creating(ev, 0))
  {
    u := Go(c, t, ScanEnd([]));
  }

  lemma StartedScan(c: Config, t: Trail, ev: Event, now: int) returns (u: Trail)
    requires Leads(c, t) && End(c, t).intake.CapacityFree? && Present(End(c, t)) == {} && ev == c.catalog(ev.id)
    requires SlotAt(End(c, t), ev.id).file.Absent?
    ensures Follows(c, t, u)
    ensures End(c, u) == End(c, t).(intake := Scanning(ev, now - REPLAY, [], 0, []))
  {
    u := Go(c, t, Enter(ev));
    assert End(c, u) == End(c, t).(intake := Entered(ev));
    assert Present(End(c, u)) == {} && Elements<string>([]) == {};
    u := Go(c, u, Inspect(now, []));
  }

  lemma FreshInbox(c: Config)
    requires c.maxRecords > 0
    ensures InboxInv(c, EMPTY_INBOX) && Present(EMPTY_INBOX) == {}
  {
    assert Present(EMPTY_INBOX) == {};
  }

  /** A stop between creating a record file and filling it blocks the inbox: there is such a run
      from the empty inbox for every event, and after it no run adds a record. */
  lemma TornFileBlocks(c: Config, ev: Event, now: int) returns (moves: seq<Move>)
    requires c.maxRecords > 0 && ev == c.catalog(ev.id)
    ensures CanRun(c, EMPTY_INBOX, moves) && Blocked(After(c, EMPTY_INBOX, moves), ev.id)
    ensures SlotAt(After(c, EMPTY_INBOX, moves), ev.id).file.Torn?
  {
    FreshInbox(c);
    var t := Opened(c, Start(EMPTY_INBOX), ev, now);
    t := Go(c, t, StopIntake);
    TrailIsRun(c, t);
    moves := Moves(t);
  }

  /** So does accepting one event whose record does not fit the reader's limit. */
  lemma OversizeEventBlocks(c: Config, ev: Event, now: int, rest: nat) returns (moves: seq<Move>)
    requires c.maxRecords > 0 && ev == c.catalog(ev.id) && !Fits(ev.content, rest)
    ensures CanRun(c, EMPTY_INBOX, moves) && Blocked(After(c, EMPTY_INBOX, moves), ev.id)
    ensures After(c, EMPTY_INBOX, moves).intake == Leaving(Accepted, 0)
  {
    FreshInbox(c);
    var t := Opened(c, Start(EMPTY_INBOX), ev, now);
    t := GoFill(c, t, now, rest);
    TrailIsRun(c, t);
    moves := Moves(t);
  }

  // ---------------------------------------------------------------- an eviction under a worker

  /** No run without an overtaking eviction goes over the limit. */
  ghost predicate StaysBounded(c: Config, s: Inbox) {
    forall moves :: Behaviour(c, s, moves) ==> |Present(After(c, s, moves))| <= c.maxRecords
  }

  /** The bound survives an eviction exactly when the record's worker has let go of it: in every
      state that runs without such evictions reach, an eviction under a worker can be followed, with
      no other one, by a run to one record over the limit. */
  lemma BoundSurvivesIff(c: Config, s: Inbox)
    requires InboxInv(c, s) && Possible(c, s, EvictNext)
    ensures StaysBounded(c, Next(c, s, EvictNext)) <==> !Overtakes(s, EvictNext)
  {
    var t := Next(c, s, EvictNext);
    if !Overtakes(s, EvictNext) {
      MoveKeepsInv(c, s, EvictNext);
      forall moves | Behaviour(c, t, moves) ensures |Present(After(c, t, moves))| <= c.maxRecords {
        RunKeepsInv(c, t, moves);
      }
    } else {
      var moves := OvertakingOverfills(c, s, 0, 0);
      assert |Present(After(c, t, moves))| == c.maxRecords + 1;
    }
  }

  /** After an eviction under a worker: intake records its event, then the worker stores the failure
      of its final write, and the inbox holds one record more than it may. */
  lemma OvertakingOverfills(c: Config, s: Inbox, now: int, rest: nat) returns (moves: seq<Move>)
    requires InboxInv(c, s) && Possible(c, s, EvictNext) && Overtakes(s, EvictNext)
    ensures Behaviour(c, Next(c, s, EvictNext), moves)
    ensures |Present(After(c, Next(c, s, EvictNext), moves))| == c.maxRecords + 1
  {
    var id := s.intake.queue[0].id;
    OvertakenState(c, s);
    var s1 := Next(c, s, EvictNext);
    var t := Refilled(c, s1, now, rest);
    PresentRefilled(s, SlotAt(End(c, t), s.intake.ev.id), End(c, t).intake);
    t := FailureWritten(c, t, id, now, rest);
    TrailIsRun(c, t);
    moves := Moves(t);
  }

  /** The worker of an evicted record can only store a failure any more. */
  predicate StoresFailure(h: Holder) {
    h.Working? && (h.pc.Failing? || h.pc.WriteFailure?)
  }

  /** The inbox was full, and the worker is about to store the failure of its final write. */
  lemma OvertakenState(c: Config, s: Inbox)
    requires InboxInv(c, s) && Possible(c, s, EvictNext) && Overtakes(s, EvictNext)
    ensures var id := s.intake.queue[0].id;
            && id in Present(s) && |Present(s)| == c.maxRecords && s.intake.removed == 0 && s.intake.count == c.maxRecords
            && s.intake.ev.id !in Present(s) && StoresFailure(SlotAt(s, id).holder)
  {
    var x := s.intake.queue[0];
    assert CandidateInv(s, s.intake.cutoff, x);
    SlotInv(c, s, x.id);
    AnsweredIsDoomed(c.catalog(x.id), SlotAt(s, x.id));
  }

  lemma AnsweredIsDoomed(ev: Event, s: Slot)
    requires HolderInv(ev, s) && s.holder.Working? && s.file.Stored? && s.file.rec.replyEventId.Some?
    ensures StoresFailure(s.holder)
  {
  }

  /** Intake goes on with its own event. */
  lemma Refilled(c: Config, s: Inbox, now: int, rest: nat) returns (t: Trail)
    requires s.intake.Evicting? && s.intake.count < c.maxRecords && SlotAt(s, s.intake.ev.id).file.Absent?
    ensures Leads(c, t) && First(t) == s && NoEviction(t)
    ensures var ev := s.intake.ev;
            var slot := CreatedSlot(SlotAt(s, ev.id)).(file := Stored(NewRecord(ev, now), rest));
            End(c, t) == Put(s, ev.id, slot).(intake := Leaving(Accepted, s.intake.removed))
  {
    var t0 := Start(s);
    assert Leads(c, t0) && End(c, t0) == s && NoEviction(t0);
    t := Go(c, t0, EvictEnd);
    t := GoOpen(c, t);
    t := GoFill(c, t, now, rest);
  }

  lemma PresentRefilled(s: Inbox, slot: Slot, intake: Intake)
    requires s.intake.Evicting? && s.intake.queue != [] && !slot.file.Absent?
    requires s.intake.queue[0].id in Present(s) && s.intake.ev.id !in Present(s)
    ensures var id := s.intake.queue[0].id;
            var t := Put(AfterEvictNext(s), s.intake.ev.id, slot).(intake := intake);
            id !in Present(t) && |Present(t)| == |Present(s)| && SlotAt(t, id).holder == SlotAt(s, id).holder
  {
    var id, ev, s1 := s.intake.queue[0].id, s.intake.ev, AfterEvictNext(s);
    var t := Put(s1, ev.id, slot).(intake := intake);
    PutPresent(s, id, SlotAt(s, id).(file := Absent), s1.intake);
    PutPresent(s1, ev.id, slot, intake);
    assert Present(t) == Present(s) - {id} + {ev.id};
  }

  /** One move of a slot's worker, and which files exist after it. */
  lemma GoSlot(c: Config, t: Trail, id: string, st: Step) returns (u: Trail)
    requires Leads(c, t) && ByWorker(st) && Enabled(SlotAt(End(c, t), id), st)
    ensures Follows(c, t, u)
    ensures var slot := Apply(c.catalog(id), SlotAt(End(c, t), id), st);
            && SlotAt(End(c, u), id) == slot
            && Present(End(c, u)) == if slot.file.Absent? then Present(End(c, t)) - {id} else Present(End(c, t)) + {id}
  {
    u := Go(c, t, SlotMove(id, st));
    PutPresent(End(c, t), id, Apply(c.catalog(id), SlotAt(End(c, t), id), st), End(c, t).intake);
  }

  lemma FailStep(ev: Event, s: Slot, now: int)
    requires s.holder.Working? && s.holder.pc.Failing?
    ensures var s' := Apply(ev, s, Fail(now)); s'.holder.Working? && s'.holder.pc.WriteFailure? && s'.file == s.file
  {
  }

  lemma WriteStep(ev: Event, s: Slot, now: int, rest: nat)
    requires s.holder.Working? && s.holder.pc.WriteFailure?
    ensures Apply(ev, s, Write(Durable, now, rest)).file.Stored?
  {
  }

  lemma FailureWritten(c: Config, t: Trail, id: string, now: int, rest: nat) returns (u: Trail)
    requires Leads(c, t) && StoresFailure(SlotAt(End(c, t), id).holder) && id !in Present(End(c, t))
    ensures Follows(c, t, u) && Present(End(c, u)) == Present(End(c, t)) + {id}
  {
    hide Apply;
    u := t;
    if SlotAt(End(c, t), id).holder.pc.Failing? {
      u := GoSlot(c, t, id, Fail(now));
      FailStep(c.catalog(id), SlotAt(End(c, t), id), now);
    }
    WriteStep(c.catalog(id), SlotAt(End(c, u), id), now, rest);
    u := GoSlot(c, u, id, Write(Durable, now, rest));
  }

  // ---------------------------------------------------------------- from the empty inbox

  /** The first event is recorded in the empty inbox. */
  lemma Recorded(c: Config, ev: Event, now: int, rest: nat) returns (t: Trail)
    requires c.maxRecords > 0 && ev == c.catalog(ev.id)
    ensures Leads(c, t) && First(t) == EMPTY_INBOX && NoEviction(t)
    ensures End(c, t) == Inbox(map[ev.id := Slot(Stored(NewRecord(ev, now), rest), map[], Free, 1, 0, [], [])], CapacityFree)
  {
    FreshInbox(c);
    t := Opened(c, Start(EMPTY_INBOX), ev, now);
    t := GoFill(c, t, now, rest);
    t := Go(c, t, Leave);
  }

  /** The worker's final write has taken effect at `now` and reported an error; nothing else is
      recorded. */
  predicate HeldReplied(s: Inbox, ev: Event, now: int) {
    && s.intake.CapacityFree? && s.slots.Keys == {ev.id} && s.slots[ev.id].holder.Working?
    && s.slots[ev.id].holder.pc == Failing(GENERIC_FAILURE) && ReadableFile(s.slots[ev.id].file)
    && s.slots[ev.id].file.rec.phase == Replied && s.slots[ev.id].file.rec.updatedAt == now
  }

  lemma RepliedAndHeld(c: Config, ev: Event, now: int, rest: nat, reply: string, replyId: string) returns (t: Trail)
    requires c.maxRecords > 0 && ev == c.catalog(ev.id) && ValidEvent(ev) && Fits(ev.content, rest)
    requires now >= SECOND && IsReply(reply) && W.ReplyId(ev, replyId)
    ensures Leads(c, t) && First(t) == EMPTY_INBOX && NoEviction(t) && HeldReplied(End(c, t), ev, now)
  {
    t := Recorded(c, ev, now, rest);
    var start := SlotAt(End(c, t), ev.id);
    var p := W.Start(start);
    assert W.Idle(ev, start, 0, rest, now);
    p := W.FinalWriteAfter(ev, p, rest, 0, now, reply, replyId);
    assert Inv(ev, start);
    W.PathKeepsInv(ev, p);
    var q := LateFinalWrite(ev, p, now, rest);
    t := Lift(c, t, ev.id, q);
  }

  lemma LateFinalWrite(ev: Event, p: W.Path, now: int, rest: nat) returns (q: W.Path)
    requires ValidEvent(ev) && Fits(ev.content, rest) && W.Leads(ev, p) && W.AtFinalWrite(ev, W.End(ev, p), 0) && HolderInv(ev, W.End(ev, p))
    ensures W.Continues(ev, p, q)
    ensures var s := W.End(ev, q);
            && s.holder.Working? && s.holder.pc == Failing(GENERIC_FAILURE) && ReadableFile(s.file)
            && s.file.rec.phase == Replied && s.file.rec.updatedAt == now
  {
    R.GoodReadsIffItFits(ev, W.End(ev, p).holder.rec, now, rest);
    q := W.Go(ev, p, Write(ErrorButDurable, now, rest));
  }

  lemma Scanned(c: Config, t: Trail, ev: Event, other: Event, now: int, later: int) returns (u: Trail)
    requires c.maxRecords == 1 && other == c.catalog(other.id) && other.id != ev.id && now < later - REPLAY
    requires Leads(c, t) && HeldReplied(End(c, t), ev, now)
    ensures Follows(c, t, u)
    ensures End(c, u) == End(c, t).(intake := Evicting(other, later - REPLAY, [Candidate(now, ev.id)], 1, 0))
  {
    u := ScanBegun(c, t, ev, other, now, later);
    u := EntryScanned(c, u, ev, other, now, later);
    u := Go(c, u, ScanEnd([Candidate(now, ev.id)]));
  }

  lemma ScanBegun(c: Config, t: Trail, ev: Event, other: Event, now: int, later: int) returns (u: Trail)
    requires other == c.catalog(other.id) && other.id != ev.id && Leads(c, t) && HeldReplied(End(c, t), ev, now)
    ensures Follows(c, t, u) && End(c, u) == End(c, t).(intake := Scanning(other, later - REPLAY, [ev.id], 0, []))
  {
    assert Present(End(c, t)) == {ev.id};
    u := Go(c, t, Enter(other));
    assert Present(End(c, u)) == {ev.id} == Elements([ev.id]);
    u := Go(c, u, Inspect(later, [ev.id]));
  }

  lemma EntryScanned(c: Config, t: Trail, ev: Event, other: Event, now: int, later: int) returns (u: Trail)
    requires now < later - REPLAY && Leads(c, t) && End(c, t).intake == Scanning(other, later - REPLAY, [ev.id], 0, [])
    requires var f := SlotAt(End(c, t), ev.id).file; ReadableFile(f) && f.rec.phase == Replied && f.rec.updatedAt == now
    ensures Follows(c, t, u)
    ensures End(c, u) == End(c, t).(intake := Scanning(other, later - REPLAY, [], 1, [Candidate(now, ev.id)]))
  {
    assert [ev.id][1..] == [] && [] + [Candidate(now, ev.id)] == [Candidate(now, ev.id)];
    u := Go(c, t, ScanNext);
  }

  /** Such a state is reached: with room for one record, a run from the empty inbox leads to an
      eviction under a worker, and so past the limit. */
  lemma OvertakenEvictionOverfills(c: Config, ev: Event, other: Event, now: int, later: int, rest: nat, reply: string, replyId: string)
    returns (moves: seq<Move>)
    requires c.maxRecords == 1 && ev == c.catalog(ev.id) && other == c.catalog(other.id) && other.id != ev.id
    requires ValidEvent(ev) && Fits(ev.content, rest) && IsReply(reply) && W.ReplyId(ev, replyId)
    requires SECOND <= now < later - REPLAY
    ensures CanRun(c, EMPTY_INBOX, moves)
    ensures var s := After(c, EMPTY_INBOX, moves); Possible(c, s, EvictNext) && Overtakes(s, EvictNext)
    ensures !StaysBounded(c, Next(c, After(c, EMPTY_INBOX, moves), EvictNext))
  {
    FreshInbox(c);
    var t := RepliedAndHeld(c, ev, now, rest, reply, replyId);
    t := Scanned(c, t, ev, other, now, later);
    TrailIsRun(c, t);
    moves := Moves(t);
    RunKeepsInv(c, EMPTY_INBOX, moves);
    BoundSurvivesIff(c, End(c, t));
  }
}
