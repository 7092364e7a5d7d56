/** Claims about whole runs of one inbox slot: any number of workers, operator retries, failed
    writes, evictions and crashes, in any order. */
module BridgeRuns {
  import opened Common
  import opened BridgeRecord
  import opened BridgeWorker

  /** `steps` can be taken from `s`, one after the other. */
  predicate Possible(ev: Event, s: Slot, steps: seq<Step>)
    decreases |steps|
  {
    steps == [] || (Enabled(s, steps[0]) && Possible(ev, Apply(ev, s, steps[0]), steps[1..]))
  }

  function After(ev: Event, s: Slot, steps: seq<Step>): Slot
    requires Possible(ev, s, steps)
    decreases |steps|
  {
    if steps == [] then s else After(ev, Apply(ev, s, steps[0]), steps[1..])
  }

  lemma {:induction false} RunExtends(ev: Event, s: Slot, steps: seq<Step>, st: Step)
    requires Possible(ev, s, steps) && Enabled(After(ev, s, steps), st)
    ensures Possible(ev, s, steps + [st])
    ensures After(ev, s, steps + [st]) == Apply(ev, After(ev, s, steps), st)
    decreases |steps|
  {
    if steps == [] {
      assert [st][1..] == [];
      assert [] + [st] == [st];
    } else {
      RunExtends(ev, Apply(ev, s, steps[0]), steps[1..], st);
      assert (steps + [st])[1..] == steps[1..] + [st];
    }
  }

  lemma {:induction false} RunKeepsInv(ev: Event, s: Slot, steps: seq<Step>)
    requires Inv(ev, s) && Possible(ev, s, steps)
    ensures Inv(ev, After(ev, s, steps))
    decreases |steps|
  {
    if steps == [] {
    } else {
      StepKeepsInv(ev, s, steps[0]);
      RunKeepsInv(ev, Apply(ev, s, steps[0]), steps[1..]);
    }
  }

  /** One reply identity: over any run at all, all sends for one record are the same message to
      the event's own channel and thread, with one creation time and one content.  A record that
      is evicted and created again is another record. */
  lemma AllSendsAreOneReply(ev: Event, steps: seq<Step>)
    requires Possible(ev, EMPTY_SLOT, steps)
    ensures var sends := After(ev, EMPTY_SLOT, steps).sends;
            forall i, j :: 0 <= i < |sends| && 0 <= j < |sends| ==>
              && sends[i].channel == ev.channel && sends[i].parent == ev.id && sends[i].createdAt > 0
              && (sends[i].birth == sends[j].birth ==>
                    sends[i].createdAt == sends[j].createdAt && sends[i].content == sends[j].content)
  {
    RunKeepsInv(ev, EMPTY_SLOT, steps);
    var s := After(ev, EMPTY_SLOT, steps);
    forall i | 0 <= i < |s.sends| ensures SendInv(ev, s, s.sends[i]) {}
  }

  /** As long as the record was created only once, that is all sends for the event, and all its
      run directories with a bundle are one. */
  lemma OneCreationOneReply(ev: Event, steps: seq<Step>)
    requires Possible(ev, EMPTY_SLOT, steps) && After(ev, EMPTY_SLOT, steps).birth <= 1
    ensures var s := After(ev, EMPTY_SLOT, steps);
            && (forall i, j :: 0 <= i < |s.sends| && 0 <= j < |s.sends| ==> s.sends[i] == s.sends[j])
            && (forall a, b :: HasBundle(s, a) && HasBundle(s, b) ==> a == b)
  {
    RunKeepsInv(ev, EMPTY_SLOT, steps);
    var s := After(ev, EMPTY_SLOT, steps);
    forall i | 0 <= i < |s.sends| ensures s.sends[i].birth == 1 {
      assert SendInv(ev, s, s.sends[i]);
    }
    forall dir | dir in s.runs ensures s.runs[dir].birth == 1 {
      assert RunInv(ev, s, dir, s.runs[dir]);
    }
  }

  /** Task authority is not duplicated: over any run at all, every `task run` names the event's
      one task and a directory that did not exist, and at most one directory of a record holds a
      bundle. */
  lemma TaskAuthorityIsUnique(ev: Event, steps: seq<Step>)
    requires Possible(ev, EMPTY_SLOT, steps)
    ensures var s := After(ev, EMPTY_SLOT, steps);
            && (forall i :: 0 <= i < |s.issues| ==> s.issues[i].newDir && s.issues[i].task == TaskId(ev.id))
            && (forall a, b :: HasBundle(s, a) && HasBundle(s, b) && s.runs[a].birth == s.runs[b].birth ==> a == b)
  {
    RunKeepsInv(ev, EMPTY_SLOT, steps);
  }

  /** The record of creation `birth`, or what a worker would still write for it, uses directory
      `dir`, which holds a bundle, and no further `task run` was issued; or that record is gone. */
  predicate Pinned(s: Slot, birth: nat, dir: RunDir, issues: seq<Issue>) {
    s.birth > birth ||
    (&& s.birth == birth && s.issues == issues && HasBundle(s, dir)
     && (s.file.Absent? || (s.file.Stored? && s.file.rec.runDir == dir))
     && (s.holder.Working? || s.holder.Requeueing? ==> s.holder.rec.runDir == dir))
  }

  lemma AdvanceKeepsPinned(ev: Event, s: Slot, birth: nat, dir: RunDir, issues: seq<Issue>)
    requires HolderInv(ev, s) && s.holder.Working? && CanAdvance(s.holder.pc) && Pinned(s, birth, dir, issues)
    ensures Pinned(AfterAdvance(s), birth, dir, issues)
  {
    assert LiveHolder(ev, s, s.holder.pc, s.holder.rec);
  }

  lemma WriteKeepsPinned(ev: Event, s: Slot, outcome: WriteOutcome, now: int, rest: nat, birth: nat, dir: RunDir, issues: seq<Issue>)
    requires HolderInv(ev, s) && AtWrite(s.holder) && Pinned(s, birth, dir, issues)
    ensures Pinned(AfterWrite(s, outcome, now, rest), birth, dir, issues)
  {
  }

  lemma StepKeepsPinned(ev: Event, s: Slot, st: Step, birth: nat, dir: RunDir, issues: seq<Issue>)
    requires HolderInv(ev, s) && Enabled(s, st) && Pinned(s, birth, dir, issues)
    ensures Pinned(Apply(ev, s, st), birth, dir, issues)
  {
    match st
    case Advance => AdvanceKeepsPinned(ev, s, birth, dir, issues);
    case Write(outcome, now, rest) => WriteKeepsPinned(ev, s, outcome, now, rest, birth, dir, issues);
    case _ =>
  }

  /** Once the record's directory holds a bundle, every later attempt resumes it: in any run the
      directory never changes again and no `task run` is issued for this record. */
  lemma {:induction false} BundlePinsTheRun(ev: Event, s: Slot, steps: seq<Step>, birth: nat, dir: RunDir, issues: seq<Issue>)
    requires Inv(ev, s) && Possible(ev, s, steps) && Pinned(s, birth, dir, issues)
    ensures Pinned(After(ev, s, steps), birth, dir, issues)
    decreases |steps|
  {
    if steps == [] {
    } else {
      StepKeepsInv(ev, s, steps[0]);
      StepKeepsPinned(ev, s, steps[0], birth, dir, issues);
      BundlePinsTheRun(ev, Apply(ev, s, steps[0]), steps[1..], birth, dir, issues);
    }
  }

  /** A record that is still to be answered is pinned as soon as its directory holds a bundle. */
  lemma BundleIsPinned(ev: Event, s: Slot)
    requires Inv(ev, s) && s.file.Stored? && !Inert(s.file.rec) && HasBundle(s, s.file.rec.runDir)
    requires s.holder.Working? ==> LiveHolder(ev, s, s.holder.pc, s.holder.rec)
    ensures Pinned(s, s.birth, s.file.rec.runDir, s.issues)
  {
  }

  /** Retries are bounded: over any run, the failures stored since creation or the last operator
      retry never exceed ten, and neither do the attempts; the tenth leaves the record
      dead-lettered; and as long as there is something to do the two counts agree. */
  lemma RetriesAreBounded(ev: Event, steps: seq<Step>)
    requires Possible(ev, EMPTY_SLOT, steps)
    ensures var s := After(ev, EMPTY_SLOT, steps);
            s.file.Stored? ==>
              && s.failures <= s.file.rec.attempts <= MAX_ATTEMPTS
              && (s.file.rec.attempts == MAX_ATTEMPTS ==> s.file.rec.phase == DeadLetter)
              && (!Inert(s.file.rec) ==> s.failures == s.file.rec.attempts)
  {
    RunKeepsInv(ev, EMPTY_SLOT, steps);
  }

  // ---------------------------------------------------------------- files that no one writes again

  /** No one is about to write the record of creation `birth`, and its file is `file` or was
      evicted; or the record is gone. */
  predicate Settled(s: Slot, birth: nat, file: File) {
    s.birth > birth || (s.birth == birth && (s.file == file || s.file.Absent?) && !s.holder.Working? && !s.holder.Requeueing?)
  }

  /** A file that neither a worker nor an operator retry takes up. */
  predicate NotTakenUp(file: File) {
    file.Stored? && (file.rec.phase == Replied || !ReadableFile(file))
  }

  lemma {:induction false} SettledStays(ev: Event, s: Slot, steps: seq<Step>, birth: nat, file: File)
    requires NotTakenUp(file) && Settled(s, birth, file) && Possible(ev, s, steps)
    ensures Settled(After(ev, s, steps), birth, file)
    ensures s.file == file && file.rec.replyEventId.None? && s.birth == birth ==>
              After(ev, s, steps).file == file && After(ev, s, steps).birth == birth
    decreases |steps|
  {
    if steps == [] {
    } else {
      SettledStays(ev, Apply(ev, s, steps[0]), steps[1..], birth, file);
    }
  }

  /** `replied` is final once the worker that stored it has let go: in any run whatever the file
      is never written again, only evicted. */
  lemma RepliedIsFinal(ev: Event, s: Slot, steps: seq<Step>)
    requires s.file.Stored? && s.file.rec.phase == Replied && !s.holder.Working? && !s.holder.Requeueing?
    requires Possible(ev, s, steps)
    ensures var s' := After(ev, s, steps); s'.birth > s.birth || s'.file == s.file || s'.file.Absent?
  {
    SettledStays(ev, s, steps, s.birth, s.file);
  }

  /** A record that the reader refuses is stuck for good: no worker and no operator retry, in any
      run whatever, changes its file again, and it is evicted only if its reply was found. */
  lemma UnreadableIsStuck(ev: Event, s: Slot, steps: seq<Step>)
    requires s.file.Stored? && !ReadableFile(s.file) && !s.holder.Working? && !s.holder.Requeueing?
    requires Possible(ev, s, steps)
    ensures var s' := After(ev, s, steps);
            && (s'.birth > s.birth || s'.file == s.file || s'.file.Absent?)
            && (s.file.rec.replyEventId.None? ==> s'.birth == s.birth && s'.file == s.file)
  {
    SettledStays(ev, s, steps, s.birth, s.file);
  }

  // ---------------------------------------------------------------- what can be read back

  /** The step does none of the three things that make the code store a record it cannot read
      back: stamp a reply before the epoch, survive a failed final write after nine failures, or
      store a record that is too large. */
  predicate Tolerated(ev: Event, s: Slot, st: Step) {
    match st
    case Stamp(now) => now >= 0
    case Write(outcome, _, rest) =>
      && (outcome != Durable && s.holder.Working? && s.holder.pc.WriteReplied? ==> s.holder.rec.attempts < MAX_ATTEMPTS - 1)
      && (outcome != ErrorNotDurable ==> Fits(ev.content, rest))
    case Fill(_, rest) => Fits(ev.content, rest)
    case _ => true
  }

  predicate Behaviour(ev: Event, s: Slot, steps: seq<Step>)
    ensures Behaviour(ev, s, steps) ==> Possible(ev, s, steps)
    decreases |steps|
  {
    steps == [] ||
    (Enabled(s, steps[0]) && Tolerated(ev, s, steps[0]) && Behaviour(ev, Apply(ev, s, steps[0]), steps[1..]))
  }

  /** Every record stored, or about to be, can be read back. */
  predicate Sound(ev: Event, s: Slot) {
    && (s.file.Stored? ==> GoodRecord(ev, s.file.rec) && Fits(ev.content, s.file.rest))
    && (s.holder.Working? && s.holder.pc.Failing? ==>
          GoodRecord(ev, s.holder.rec) && (s.holder.rec.phase == Replied ==> s.holder.rec.attempts < MAX_ATTEMPTS - 1))
    && (s.holder.Working? && s.holder.pc.WriteFailure? ==> GoodRecord(ev, s.holder.rec))
  }

  lemma WriteKeepsSound(ev: Event, s: Slot, outcome: WriteOutcome, now: int, rest: nat)
    requires HolderInv(ev, s) && Sound(ev, s) && AtWrite(s.holder) && Tolerated(ev, s, Write(outcome, now, rest))
    ensures Sound(ev, AfterWrite(s, outcome, now, rest))
  {
  }

  lemma AdvanceKeepsSound(ev: Event, s: Slot)
    requires HolderInv(ev, s) && Sound(ev, s) && s.holder.Working? && CanAdvance(s.holder.pc)
    ensures Sound(ev, AfterAdvance(s))
  {
    assert LiveHolder(ev, s, s.holder.pc, s.holder.rec);
  }

  lemma FailKeepsSound(ev: Event, s: Slot, now: int)
    requires HolderInv(ev, s) && Sound(ev, s) && s.holder.Working? && s.holder.pc.Failing?
    ensures Sound(ev, Apply(ev, s, Fail(now)))
  {
  }

  lemma ReplyStepKeepsSound(ev: Event, s: Slot, st: Step)
    requires HolderInv(ev, s) && Sound(ev, s) && Enabled(s, st) && Tolerated(ev, s, st)
    requires st.Stamp? || st.Query? || st.CommandDone?
    ensures Sound(ev, Apply(ev, s, st))
  {
    assert LiveHolder(ev, s, s.holder.pc, s.holder.rec);
  }

  lemma StepKeepsSound(ev: Event, s: Slot, st: Step)
    requires HolderInv(ev, s) && Sound(ev, s) && Enabled(s, st) && Tolerated(ev, s, st)
    ensures Sound(ev, Apply(ev, s, st))
  {
    match st
    case Write(outcome, now, rest) => WriteKeepsSound(ev, s, outcome, now, rest);
    case Advance => AdvanceKeepsSound(ev, s);
    case Fail(now) => FailKeepsSound(ev, s, now);
    case Stamp(_) | Query(_) | CommandDone(_) => ReplyStepKeepsSound(ev, s, st);
    case _ =>
  }

  lemma {:induction false} RunKeepsSound(ev: Event, s: Slot, steps: seq<Step>)
    requires Inv(ev, s) && Sound(ev, s) && Behaviour(ev, s, steps)
    ensures Sound(ev, After(ev, s, steps))
    decreases |steps|
  {
    if steps == [] {
    } else {
      StepKeepsInv(ev, s, steps[0]);
      StepKeepsSound(ev, s, steps[0]);
      RunKeepsSound(ev, Apply(ev, s, steps[0]), steps[1..]);
    }
  }

  /** Every record any worker or retry ever stores passes `readRecord`, and resuming a dead letter
      gives a record that passes its rules too, in every run without the three steps above.  The
      next lemmas show that each of the three does store a record that fails. */
  lemma StoredRecordsAreReadable(ev: Event, steps: seq<Step>)
    requires ValidEvent(ev) && Behaviour(ev, EMPTY_SLOT, steps)
    ensures var s := After(ev, EMPTY_SLOT, steps);
            s.file.Stored? ==> ReadableFile(s.file) && Readable(Requeued(s.file.rec))
  {
    RunKeepsSound(ev, EMPTY_SLOT, steps);
  }

  lemma WrittenIsGood(ev: Event, s: Slot)
    requires HolderInv(ev, s) && Sound(ev, s) && AtWrite(s.holder)
    ensures GoodRecord(ev, s.holder.rec)
  {
  }

  lemma GoodReadsIffItFits(ev: Event, r: Record, now: int, rest: nat)
    requires ValidEvent(ev) && GoodRecord(ev, r)
    ensures ReadableFile(Stored(r.(updatedAt := now), rest)) <==> Fits(ev.content, rest)
  {
  }

  /** Storing a record that passes the reader's rules gives a readable file exactly when it fits. */
  lemma StoredFitsIff(ev: Event, s: Slot, st: Step)
    requires ValidEvent(ev) && HolderInv(ev, s) && Sound(ev, s) && Enabled(s, st)
    requires st.Fill? || (st.Write? && st.outcome == Durable)
    ensures ReadableFile(Apply(ev, s, st).file) <==> Fits(ev.content, st.rest)
  {
    if st.Fill? {
      GoodReadsIffItFits(ev, NewRecord(ev, st.now), st.now, st.rest);
    } else {
      WrittenIsGood(ev, s);
      GoodReadsIffItFits(ev, s.holder.rec, st.now, st.rest);
    }
  }

  lemma ThreeSteps(ev: Event, s: Slot, a: Step, b: Step, c: Step)
    requires Enabled(s, a)
    requires Enabled(Apply(ev, s, a), b)
    requires Enabled(Apply(ev, Apply(ev, s, a), b), c)
    ensures Possible(ev, s, [a, b, c])
    ensures After(ev, s, [a, b, c]) == Apply(ev, Apply(ev, Apply(ev, s, a), b), c)
  {
    var s1 := Apply(ev, s, a);
    var s2 := Apply(ev, s1, b);
    assert [a, b, c][1..] == [b, c] && [b, c][1..] == [c] && [c][1..] == [];
    var s3 := Apply(ev, s2, c);
    assert Possible(ev, s3, []) && After(ev, s3, []) == s3;
    assert Possible(ev, s2, [c]) && After(ev, s2, [c]) == s3;
    assert Possible(ev, s1, [b, c]) && After(ev, s1, [b, c]) == s3;
  }

  /** What a failed attempt stores passes the reader's rules unless it would resume to `replied`,
      or carries a time before 1970. */
  lemma FailureReadableIff(ev: Event, m: Record, f: Failure, now: int, written: int)
    requires ValidEvent(ev) && RecordFor(m, ev) && m.phase != DeadLetter && m.resumePhase.None? && m.attempts < MAX_ATTEMPTS
    requires if m.publishCreatedAt < 0 then !InPublishPhase(m.phase) && PhaseRules(m.(publishCreatedAt := 0)) else PhaseRules(m)
    ensures Readable(AfterFailure(Normalized(m), f, now).(updatedAt := written)) <==>
            m.publishCreatedAt >= 0 && !(m.phase == Replied && (!f.retryable || m.attempts >= MAX_ATTEMPTS - 1))
  {
  }

  /** The failure path stores the record as `AfterFailure` leaves it. */
  lemma FailThenStore(ev: Event, s: Slot, t2: int, t3: int, r3: nat)
    requires s.holder.Working? && s.holder.pc.Failing?
    ensures Enabled(s, Fail(t2)) && Enabled(Apply(ev, s, Fail(t2)), Write(Durable, t3, r3))
    ensures var s' := Apply(ev, Apply(ev, s, Fail(t2)), Write(Durable, t3, r3));
            && s'.holder.Closing? && s'.birth == s.birth
            && s'.file == Stored(AfterFailure(Normalized(s.holder.rec), s.holder.pc.failure, t2).(updatedAt := t3), r3)
  {
  }

  /** A bridge that survives an error from the final `replied` write then stores, in phase
      `replied` and readable, exactly when fewer than nine failures precede it and it fits; from
      nine on it stores a dead letter that passes no reader. */
  lemma ReplyWriteErrorIff(ev: Event, s: Slot, outcome: WriteOutcome, t1: int, r1: nat, t2: int, t3: int, r3: nat)
    requires ValidEvent(ev) && HolderInv(ev, s) && s.holder.Working? && s.holder.pc.WriteReplied? && outcome != Durable
    ensures var steps := [Write(outcome, t1, r1), Fail(t2), Write(Durable, t3, r3)];
            && Possible(ev, s, steps)
            && var s' := After(ev, s, steps);
               && s'.holder.Closing? && s'.birth == s.birth
               && s'.file.Stored? && s'.file.rec.phase == (if s.holder.rec.attempts < MAX_ATTEMPTS - 1 then Replied else DeadLetter)
               && (ReadableFile(s'.file) <==> s.holder.rec.attempts < MAX_ATTEMPTS - 1 && Fits(ev.content, r3))
  {
    FailureReadableIff(ev, s.holder.rec, GENERIC_FAILURE, t2, t3);
    var s1 := Apply(ev, s, Write(outcome, t1, r1));
    assert s1.holder.Working? && s1.holder.pc == Failing(GENERIC_FAILURE) && s1.holder.rec == s.holder.rec && s1.birth == s.birth;
    FailThenStore(ev, s1, t2, t3, r3);
    ThreeSteps(ev, s, Write(outcome, t1, r1), Fail(t2), Write(Durable, t3, r3));
  }

  /** The replied file that the final write left stays as it is if and only if that write reported
      no error: after an error that came too late to undo it, the failure path overwrites it. */
  lemma RepliedFileStaysIff(ev: Event, s: Slot, outcome: WriteOutcome, t1: int, r1: nat, t2: int, t3: int, r3: nat)
    requires HolderInv(ev, s) && s.holder.Working? && s.holder.pc.WriteReplied? && outcome != ErrorNotDurable
    ensures var s1 := Apply(ev, s, Write(outcome, t1, r1));
            var steps := if outcome == Durable then [] else [Fail(t2), Write(Durable, t3, r3)];
            && s1.file.Stored? && s1.file.rec.phase == Replied
            && Possible(ev, s1, steps) && After(ev, s1, steps).holder.Closing? && After(ev, s1, steps).file.Stored?
            && After(ev, s1, steps).birth == s1.birth
            && (After(ev, s1, steps).file == s1.file <==> outcome == Durable)
            && After(ev, s1, steps).file.rec.phase == if outcome == Durable || s.holder.rec.attempts < MAX_ATTEMPTS - 1 then Replied else DeadLetter
  {
    var s1 := Apply(ev, s, Write(outcome, t1, r1));
    if outcome == ErrorButDurable {
      var s2 := Apply(ev, s1, Fail(t2));
      var s3 := Apply(ev, s2, Write(Durable, t3, r3));
      assert [Fail(t2), Write(Durable, t3, r3)][1..] == [Write(Durable, t3, r3)];
      assert [Write(Durable, t3, r3)][1..] == [];
      assert Possible(ev, s3, []) && After(ev, s3, []) == s3;
      assert Possible(ev, s2, [Write(Durable, t3, r3)]) && After(ev, s2, [Write(Durable, t3, r3)]) == s3;
      assert s3.file.rec.attempts == s1.file.rec.attempts + 1;
    }
  }

  /** A reply stamped at or before the epoch is stored readably exactly when it is not before it
      and fits. */
  lemma StampTimeIff(ev: Event, s: Slot, now: int, t2: int, t3: int, r3: nat)
    requires ValidEvent(ev) && HolderInv(ev, s) && s.holder.Working? && s.holder.pc.HaveReply? && now / SECOND <= 0
    ensures var steps := [Stamp(now), Fail(t2), Write(Durable, t3, r3)];
            && Possible(ev, s, steps)
            && After(ev, s, steps).file.Stored? && After(ev, s, steps).holder.Closing?
            && (ReadableFile(After(ev, s, steps).file) <==> now >= 0 && Fits(ev.content, r3))
  {
    assert LiveHolder(ev, s, s.holder.pc, s.holder.rec);
    FailureReadableIff(ev, AfterStamp(s, now).holder.rec, Failure(PublishTimeInvalid, false), t2, t3);
    ThreeSteps(ev, s, Stamp(now), Fail(t2), Write(Durable, t3, r3));
  }
}
