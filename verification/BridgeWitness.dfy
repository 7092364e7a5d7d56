/** Runs from the empty slot that reach the states the exact conditions in BridgeRuns speak of.
    The clock of each run only goes forward, its replies are ones that the reader accepts, and a
    reply found on the relay has an ID of its own. */
module BridgeWitness {
  import opened Common
  import opened BridgeRecord
  import opened BridgeWorker
  import opened BridgeRuns

  /** A run written from its last step back; `byWorkers` says that intake takes no part. */
  datatype Path = Start(slot: Slot) | Then(path: Path, st: Step)

  function First(p: Path): Slot {
    if p.Start? then p.slot else First(p.path)
  }

  function End(ev: Event, p: Path): Slot
    requires Leads(ev, p)
    decreases p, 1
  {
    if p.Start? then p.slot else Apply(ev, End(ev, p.path), p.st)
  }

  predicate Leads(ev: Event, p: Path)
    decreases p, 0
  {
    p.Start? || (Leads(ev, p.path) && Enabled(End(ev, p.path), p.st))
  }

  predicate ByWorkers(p: Path) {
    p.Start? || (ByWorkers(p.path) && ByWorker(p.st))
  }

  function Steps(p: Path): seq<Step> {
    if p.Start? then [] else Steps(p.path) + [p.st]
  }

  /** A path is a run. */
  lemma {:induction false} PathIsRun(ev: Event, p: Path)
    requires Leads(ev, p)
    ensures Possible(ev, First(p), Steps(p)) && After(ev, First(p), Steps(p)) == End(ev, p)
    ensures ByWorkers(p) ==> forall i :: 0 <= i < |Steps(p)| ==> ByWorker(Steps(p)[i])
  {
    if p.Start? {
    } else {
      PathIsRun(ev, p.path);
      RunExtends(ev, First(p), Steps(p.path), p.st);
    }
  }

  /** `q` goes on from where `p` ends, with the same kind of steps. */
  predicate Continues(ev: Event, p: Path, q: Path) {
    Leads(ev, q) && First(q) == First(p) && (ByWorkers(p) ==> ByWorkers(q))
  }

  lemma Go(ev: Event, p: Path, st: Step) returns (q: Path)
    requires Leads(ev, p) && Enabled(End(ev, p), st) && ByWorker(st)
    ensures Continues(ev, p, q) && End(ev, q) == Apply(ev, End(ev, p), st)
  {
    q := Then(p, st);
  }

  lemma {:induction false} GoAll(ev: Event, p: Path, steps: seq<Step>) returns (q: Path)
    requires Leads(ev, p) && Possible(ev, End(ev, p), steps) && forall i :: 0 <= i < |steps| ==> ByWorker(steps[i])
    ensures Continues(ev, p, q) && End(ev, q) == After(ev, End(ev, p), steps)
    decreases |steps|
  {
    if steps == [] {
      q := p;
    } else {
      var p1 := Go(ev, p, steps[0]);
      q := GoAll(ev, p1, steps[1..]);
    }
  }

  lemma PathKeepsInv(ev: Event, p: Path)
    requires Leads(ev, p) && Inv(ev, First(p))
    ensures Inv(ev, End(ev, p))
  {
    PathIsRun(ev, p);
    RunKeepsInv(ev, First(p), Steps(p));
  }

  /** A record with `k` failures that is due at `now` and has not been worked on otherwise; `rest`
      is the size its file has and fits with. */
  predicate Idle(ev: Event, s: Slot, k: nat, rest: nat, now: int) {
    && s.holder.Free? && s.file.Stored? && s.file.rest == rest && Fits(ev.content, rest)
    && GoodRecord(ev, s.file.rec) && (s.file.rec.phase == Pending || s.file.rec.phase == Dispatched)
    && s.file.rec.attempts == k && Ready(s.file.rec, now) && s.runs == map[] && s.birth == 1
    && s.file.rec.runDir == FirstRun(TaskId(ev.id)) && s.sends == []
  }

  lemma Created(ev: Event, rest: nat, now: int) returns (p: Path)
    ensures Leads(ev, p) && First(p) == EMPTY_SLOT
    ensures End(ev, p) == Slot(Stored(NewRecord(ev, now), rest), map[], Free, 1, 0, [], [])
  {
    var p0 := Start(EMPTY_SLOT);
    assert Leads(ev, p0) && End(ev, p0) == EMPTY_SLOT && First(p0) == EMPTY_SLOT;
    var p1 := Then(p0, Create);
    assert Leads(ev, p1) && End(ev, p1) == EMPTY_SLOT.(file := Torn, birth := 1) && First(p1) == EMPTY_SLOT;
    p := Then(p1, Fill(now, rest));
  }

  /** A worker takes the record up and is about to store it as dispatched. */
  predicate AtDispatch(ev: Event, s: Slot, k: nat, rest: nat) {
    && s.holder.Working? && s.holder.actor == 0 && s.holder.pc.WriteDispatched? && s.runs == map[] && s.birth == 1 && s.sends == []
    && GoodRecord(ev, s.holder.rec) && s.holder.rec.phase == Dispatched && s.holder.rec.attempts == k
    && s.holder.rec.runDir == FirstRun(TaskId(ev.id)) && Fits(ev.content, rest)
  }

  lemma TakenUp(ev: Event, p: Path, k: nat, rest: nat, now: int) returns (q: Path)
    requires ValidEvent(ev) && Leads(ev, p) && Idle(ev, End(ev, p), k, rest, now)
    ensures Continues(ev, p, q) && AtDispatch(ev, End(ev, q), k, rest)
  {
    q := Go(ev, p, Acquire(0));
    q := Go(ev, q, Read(now));
    q := Go(ev, q, Advance);
    q := Go(ev, q, Advance);
    q := Go(ev, q, Advance);
  }

  lemma DispatchFails(ev: Event, p: Path, k: nat, rest: nat, now: int) returns (q: Path)
    requires Leads(ev, p) && AtDispatch(ev, End(ev, p), k, rest) && k < MAX_ATTEMPTS - 1
    ensures Continues(ev, p, q) && End(ev, q).holder == Working(End(ev, p).holder.actor, Failing(GENERIC_FAILURE), End(ev, p).holder.rec)
    ensures End(ev, q) == End(ev, p).(holder := End(ev, q).holder)
  {
    q := Go(ev, p, Write(ErrorNotDurable, now, rest));
  }

  /** The longest delay between two attempts. */
  const RETRY := 300 * SECOND

  lemma FailureStored(ev: Event, p: Path, m: Record, k: nat, rest: nat, now: int) returns (q: Path)
    requires Leads(ev, p) && k < MAX_ATTEMPTS - 1 && Fits(ev.content, rest)
    requires var s := End(ev, p);
             && s.holder == Working(0, Failing(GENERIC_FAILURE), m) && s.runs == map[] && s.birth == 1 && s.sends == []
             && GoodRecord(ev, m) && m.phase == Dispatched && m.attempts == k && m.runDir == FirstRun(TaskId(ev.id))
    ensures Continues(ev, p, q) && Idle(ev, End(ev, q), k + 1, rest, now + RETRY)
  {
    q := Go(ev, p, Fail(now));
    q := Go(ev, q, Write(Durable, now, rest));
    q := Go(ev, q, Release);
  }

  lemma {:induction false} FailedTimes(ev: Event, p: Path, k: nat, rest: nat, now: int) returns (q: Path)
    requires ValidEvent(ev) && Leads(ev, p) && Idle(ev, End(ev, p), 0, rest, now) && k < MAX_ATTEMPTS
    ensures Continues(ev, p, q) && Idle(ev, End(ev, q), k, rest, now + k * RETRY)
  {
    if k == 0 {
      q := p;
    } else {
      var t := now + (k - 1) * RETRY;
      q := FailedTimes(ev, p, k - 1, rest, now);
      q := TakenUp(ev, q, k - 1, rest, t);
      q := DispatchFails(ev, q, k - 1, rest, t);
      q := FailureStored(ev, q, End(ev, q).holder.rec, k - 1, rest, t);
    }
  }

  /** The task has run and its reply was read. */
  predicate AtReply(ev: Event, s: Slot, k: nat, reply: string) {
    && s.holder.Working? && s.holder.pc == HaveReply(reply)
    && s.file.Stored? && GoodRecord(ev, s.file.rec) && SameButTime(s.holder.rec, s.file.rec)
    && (s.file.rec.phase == Dispatched || s.file.rec.phase == Pending) && s.file.rec.attempts == k
    && s.file.rec.runDir == FirstRun(TaskId(ev.id)) && s.file.rec.runDir in s.runs
  }

  lemma Issued(ev: Event, p: Path, k: nat, rest: nat, now: int) returns (q: Path)
    requires Leads(ev, p) && AtDispatch(ev, End(ev, p), k, rest)
    ensures Continues(ev, p, q)
    ensures var s := End(ev, q);
            && s.holder.Working? && s.holder.pc == Running(false) && s.runs == map[] && s.birth == 1 && s.sends == []
            && s.file.Stored? && GoodRecord(ev, s.file.rec) && SameButTime(s.holder.rec, s.file.rec)
            && s.file.rec.phase == Dispatched && s.file.rec.attempts == k && s.file.rec.runDir == FirstRun(TaskId(ev.id))
  {
    q := Go(ev, p, Write(Durable, now, rest));
    q := Go(ev, q, Advance);
  }

  lemma Replies(ev: Event, p: Path, k: nat, rest: nat, now: int, reply: string) returns (q: Path)
    requires ValidEvent(ev) && IsReply(reply) && Leads(ev, p) && Idle(ev, End(ev, p), k, rest, now)
    ensures Continues(ev, p, q) && AtReply(ev, End(ev, q), k, reply) && End(ev, q).birth == 1 && End(ev, q).sends == []
  {
    q := TakenUp(ev, p, k, rest, now);
    q := Issued(ev, q, k, rest, now);
    q := Go(ev, q, TaskMkdir);
    q := Go(ev, q, CommandResult(Completed(reply)));
    q := Go(ev, q, CommandDone(None));
    q := Go(ev, q, Advance);
  }

  /** The ID of a reply to the event. */
  predicate ReplyId(ev: Event, id: string) {
    IsHex64(id) && id != ev.id
  }

  /** The reply was found on the relay and the final write is next. */
  predicate AtFinalWrite(ev: Event, s: Slot, k: nat) {
    s.holder.Working? && s.holder.pc.WriteReplied? && s.file.Stored? && s.birth > 0 && s.holder.rec.attempts == k
  }

  lemma Published(ev: Event, p: Path, k: nat, reply: string, rest: nat, now: int, replyId: string) returns (q: Path)
    requires ReplyId(ev, replyId) && now >= SECOND && Leads(ev, p) && AtReply(ev, End(ev, p), k, reply) && End(ev, p).birth > 0
    ensures Continues(ev, p, q) && AtFinalWrite(ev, End(ev, q), k)
    ensures End(ev, q).birth == End(ev, p).birth && End(ev, q).file.rest == rest
  {
    q := Go(ev, p, Stamp(now));
    q := Go(ev, q, Write(Durable, now, rest));
    q := Go(ev, q, Query(Found(replyId)));
  }

  /** From a created record every worker run can reach its final write, after any number of
      failures up to nine. */
  lemma FinalWriteAfter(ev: Event, p: Path, rest: nat, k: nat, now: int, reply: string, replyId: string) returns (q: Path)
    requires ValidEvent(ev) && IsReply(reply) && ReplyId(ev, replyId) && now >= SECOND
    requires Leads(ev, p) && Idle(ev, End(ev, p), 0, rest, now) && k < MAX_ATTEMPTS
    ensures Continues(ev, p, q) && AtFinalWrite(ev, End(ev, q), k) && End(ev, q).birth == 1 && End(ev, q).file.rest == rest
  {
    var t := now + k * RETRY;
    q := FailedTimes(ev, p, k, rest, now);
    q := Replies(ev, q, k, rest, t, reply);
    q := Published(ev, q, k, reply, rest, t, replyId);
  }

  lemma CreatedIsIdle(ev: Event, rest: nat, now: int) returns (p: Path)
    requires Fits(ev.content, rest)
    ensures Leads(ev, p) && First(p) == EMPTY_SLOT && Idle(ev, End(ev, p), 0, rest, now)
  {
    p := Created(ev, rest, now);
  }

  /** The failure path after the final write failed. */
  lemma FinalWriteFails(ev: Event, p: Path, outcome: WriteOutcome, rest: nat, k: nat, now: int) returns (q: Path)
    requires ValidEvent(ev) && Leads(ev, p) && AtFinalWrite(ev, End(ev, p), k) && HolderInv(ev, End(ev, p)) && outcome != Durable
    ensures Continues(ev, p, q) && End(ev, q).holder.Free? && End(ev, q).birth == End(ev, p).birth
    ensures var f := End(ev, q).file;
            f.Stored? && f.rec.phase == (if k < MAX_ATTEMPTS - 1 then Replied else DeadLetter) &&
            (ReadableFile(f) <==> k < MAX_ATTEMPTS - 1 && Fits(ev.content, rest))
  {
    ReplyWriteErrorIff(ev, End(ev, p), outcome, now, rest, now, now, rest);
    q := GoAll(ev, p, [Write(outcome, now, rest), Fail(now), Write(Durable, now, rest)]);
    q := Go(ev, q, Release);
  }

  /** For every event whose record fits there is a run that stores a dead letter no reader accepts:
      nine failures, then a final write that fails and is survived. */
  lemma NineFailuresThenUnreadable(ev: Event, rest: nat, outcome: WriteOutcome, now: int, reply: string, replyId: string)
    returns (steps: seq<Step>)
    requires ValidEvent(ev) && Fits(ev.content, rest) && outcome != Durable
    requires now >= SECOND && IsReply(reply) && ReplyId(ev, replyId)
    ensures Possible(ev, EMPTY_SLOT, steps)
    ensures var s := After(ev, EMPTY_SLOT, steps);
            s.holder.Free? && s.file.Stored? && s.file.rec.phase == DeadLetter && !ReadableFile(s.file)
  {
    var p := CreatedIsIdle(ev, rest, now);
    p := FinalWriteAfter(ev, p, rest, 9, now, reply, replyId);
    PathKeepsInv(ev, p);
    p := FinalWriteFails(ev, p, outcome, rest, 9, now + 9 * RETRY);
    PathIsRun(ev, p);
    steps := Steps(p);
  }

  lemma EarlyStamp(ev: Event, p: Path, rest: nat, now: int) returns (q: Path)
    requires ValidEvent(ev) && now < 0 && Leads(ev, p) && HolderInv(ev, End(ev, p))
    requires End(ev, p).holder.Working? && End(ev, p).holder.pc.HaveReply?
    ensures Continues(ev, p, q) && End(ev, q).holder.Free?
    ensures End(ev, q).file.Stored? && !ReadableFile(End(ev, q).file)
  {
    StampTimeIff(ev, End(ev, p), now, now, now, rest);
    q := GoAll(ev, p, [Stamp(now), Fail(now), Write(Durable, now, rest)]);
    q := Go(ev, q, Release);
  }

  /** And one with any clock before the epoch. */
  lemma EarlyClockThenUnreadable(ev: Event, rest: nat, now: int, reply: string) returns (steps: seq<Step>)
    requires ValidEvent(ev) && Fits(ev.content, rest) && now < 0 && IsReply(reply)
    ensures Possible(ev, EMPTY_SLOT, steps)
    ensures var s := After(ev, EMPTY_SLOT, steps); s.holder.Free? && s.file.Stored? && !ReadableFile(s.file)
  {
    var p := CreatedIsIdle(ev, rest, now);
    p := Replies(ev, p, 0, rest, now, reply);
    PathKeepsInv(ev, p);
    p := EarlyStamp(ev, p, rest, now);
    PathIsRun(ev, p);
    steps := Steps(p);
  }

  /** And one, two steps long, for every event that does not fit. */
  lemma OversizeIsUnreadable(ev: Event, rest: nat, now: int) returns (steps: seq<Step>)
    requires !Fits(ev.content, rest)
    ensures Possible(ev, EMPTY_SLOT, steps)
    ensures var s := After(ev, EMPTY_SLOT, steps); s.holder.Free? && s.file.Stored? && !ReadableFile(s.file)
  {
    var p := Created(ev, rest, now);
    PathIsRun(ev, p);
    steps := Steps(p);
  }

  /** A replied file that a worker writes again as a dead letter: the final write took effect and
      yet reported an error. */
  lemma RepliedFileOverwritten(ev: Event, rest: nat, now: int, reply: string, replyId: string)
    returns (before: seq<Step>, more: seq<Step>)
    requires ValidEvent(ev) && Fits(ev.content, rest) && now >= SECOND && IsReply(reply) && ReplyId(ev, replyId)
    ensures Possible(ev, EMPTY_SLOT, before)
    ensures var s := After(ev, EMPTY_SLOT, before);
            && s.file.Stored? && s.file.rec.phase == Replied && Possible(ev, s, more)
            && var t := After(ev, s, more); t.birth == s.birth && t.file.Stored? && t.file.rec.phase == DeadLetter
  {
    var p := CreatedIsIdle(ev, rest, now);
    p := FinalWriteAfter(ev, p, rest, 9, now, reply, replyId);
    PathKeepsInv(ev, p);
    var t := now + 9 * RETRY;
    var q := FinalWriteLate(ev, p, rest, t);
    PathIsRun(ev, q);
    before, more := Steps(q), [Fail(t), Write(Durable, t, rest)];
  }

  lemma FinalWriteLate(ev: Event, p: Path, rest: nat, now: int) returns (q: Path)
    requires Leads(ev, p) && AtFinalWrite(ev, End(ev, p), 9) && HolderInv(ev, End(ev, p))
    ensures Continues(ev, p, q)
    ensures var s, more := End(ev, q), [Fail(now), Write(Durable, now, rest)];
            && s.file.Stored? && s.file.rec.phase == Replied && Possible(ev, s, more)
            && var t := After(ev, s, more); t.birth == s.birth && t.file.Stored? && t.file.rec.phase == DeadLetter
  {
    var s := End(ev, p);
    RepliedFileStaysIff(ev, s, ErrorButDurable, now, rest, now, now, rest);
    q := Go(ev, p, Write(ErrorButDurable, now, rest));
  }

  // ---------------------------------------------------------------- a second creation

  /** The reply is sent, found and the record stored as replied. */
  lemma Sent(ev: Event, p: Path, reply: string, rest: nat, now: int, replyId: string) returns (q: Path)
    requires ReplyId(ev, replyId) && now >= SECOND && Leads(ev, p)
    requires var s := End(ev, p); s.holder.Working? && s.holder.pc == HaveReply(reply) && s.holder.rec.event == ev
    ensures Continues(ev, p, q)
    ensures var s, t := End(ev, p), End(ev, q);
            && t.holder.Free? && t.file.Stored? && t.file.rec.replyEventId.Some? && t.runs == s.runs && t.birth == s.birth
            && t.sends == s.sends + [Send(s.birth, ev.channel, ev.id, now / SECOND, reply)]
  {
    q := SendOnly(ev, p, reply, rest, now);
    q := Go(ev, q, Query(Found(replyId)));
    q := Go(ev, q, Write(Durable, now, rest));
    q := Go(ev, q, Release);
  }

  lemma SendOnly(ev: Event, p: Path, reply: string, rest: nat, now: int) returns (q: Path)
    requires now >= SECOND && Leads(ev, p)
    requires var s := End(ev, p); s.holder.Working? && s.holder.pc == HaveReply(reply) && s.holder.rec.event == ev
    ensures Continues(ev, p, q)
    ensures var s, t := End(ev, p), End(ev, q);
            && t.holder.Working? && t.holder.pc == Confirm(reply) && t.holder.rec.event == ev && t.runs == s.runs && t.birth == s.birth
            && t.sends == s.sends + [Send(s.birth, ev.channel, ev.id, now / SECOND, reply)]
  {
    q := Stamped(ev, p, reply, rest, now);
    q := Go(ev, q, Query(NotFound));
    q := Go(ev, q, Advance);
  }

  lemma Stamped(ev: Event, p: Path, reply: string, rest: nat, now: int) returns (q: Path)
    requires now >= SECOND && Leads(ev, p)
    requires var s := End(ev, p); s.holder.Working? && s.holder.pc == HaveReply(reply) && s.holder.rec.event == ev
    ensures Continues(ev, p, q)
    ensures var s, t := End(ev, p), End(ev, q);
            && t.holder.Working? && t.holder.pc == Reconcile(reply) && t.holder.rec.event == ev && t.holder.rec.publishCreatedAt == now / SECOND
            && t.runs == s.runs && t.birth == s.birth && t.sends == s.sends
  {
    q := Go(ev, p, Stamp(now));
    q := Go(ev, q, Write(Durable, now, rest));
  }

  /** Intake evicts the replied record and records the event again. */
  lemma CreatedAgain(ev: Event, p: Path, rest: nat, now: int) returns (q: Path)
    requires Leads(ev, p) && End(ev, p).holder.Free? && End(ev, p).file.Stored? && End(ev, p).file.rec.replyEventId.Some?
    ensures Leads(ev, q) && First(q) == First(p)
    ensures var s := End(ev, p);
            End(ev, q) == s.(file := Stored(NewRecord(ev, now), rest), birth := s.birth + 1, failures := 0)
  {
    var p1 := Then(p, Evict);
    assert Leads(ev, p1) && First(p1) == First(p) && End(ev, p1) == End(ev, p).(file := Absent);
    var p2 := Then(p1, Create);
    assert Leads(ev, p2) && First(p2) == First(p) && End(ev, p2).file.Torn?;
    q := Then(p2, Fill(now, rest));
  }

  /** The worker finds a finished run in the first directory. */
  lemma FindsResult(ev: Event, p: Path, reply: string, rest: nat, now: int) returns (q: Path)
    requires ValidEvent(ev) && IsReply(reply) && Fits(ev.content, rest) && Leads(ev, p)
    requires var s := End(ev, p); s.holder.Free? && s.file == Stored(NewRecord(ev, now), rest) && FirstRun(TaskId(ev.id)) in s.runs
    ensures Continues(ev, p, q)
    ensures var s := End(ev, q); s.holder.Working? && s.holder.pc == HaveReply(reply) && s.holder.rec.event == ev
    ensures End(ev, q).birth == End(ev, p).birth && End(ev, q).sends == End(ev, p).sends
  {
    q := Go(ev, p, ResultChanged(FirstRun(TaskId(ev.id)), Completed(reply)));
    q := Go(ev, q, Acquire(0));
    q := Go(ev, q, Read(now));
    q := Go(ev, q, Advance);
    q := Go(ev, q, Advance);
  }

  /** One reply is a claim about one creation of the record: after an eviction, past the replay
      window, and a second intake of the event, another reply can be sent. */
  lemma SecondCreationCanReplyAgain(ev: Event, rest: nat, reply: string, other: string, now: int, later: int, replyId: string)
    returns (steps: seq<Step>)
    requires ValidEvent(ev) && Fits(ev.content, rest) && IsReply(reply) && IsReply(other) && ReplyId(ev, replyId)
    requires SECOND <= now && now + 300 * SECOND < later
    ensures Possible(ev, EMPTY_SLOT, steps)
    ensures var s := After(ev, EMPTY_SLOT, steps);
            && s.birth == 2
            && s.sends == [Send(1, ev.channel, ev.id, now / SECOND, reply), Send(2, ev.channel, ev.id, later / SECOND, other)]
  {
    var p := CreatedIsIdle(ev, rest, now);
    p := Replies(ev, p, 0, rest, now, reply);
    p := Sent(ev, p, reply, rest, now, replyId);
    p := CreatedAgain(ev, p, rest, later);
    p := FindsResult(ev, p, other, rest, later);
    p := Sent(ev, p, other, rest, later, replyId);
    PathIsRun(ev, p);
    steps := Steps(p);
  }
}
