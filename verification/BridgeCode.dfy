/** The worker's code in the form the source gives it: statements that look at files, update
    the in-memory record and rewrite it, one after the other.  Each call is proved to be a
    run of the transition system in BridgeWorker, operation by operation, so the claims about
    runs cover this code stopped at any point. */
module BridgeCode {
  import opened Common
  import opened BridgeRecord
  import opened BridgeWorker
  import opened BridgeRuns

  class Worker {
    const ev: Event
    const birth: nat
    var file: File
    var runs: map<RunDir, Run>
    var sends: seq<Send>
    var issues: seq<Issue>

    ghost const start: Slot
    ghost var trace: seq<Step>
    ghost var model: Slot

    /** The trace is a run from the start, and the real state is where that run leads. */
    ghost predicate Valid()
      reads this
    {
      && Possible(ev, start, trace) && model == After(ev, start, trace)
      && model.file == file && model.runs == runs && model.sends == sends && model.issues == issues && model.birth == birth
    }

    ghost predicate At(pc: Pc, rec: Record)
      reads this
    {
      Valid() && model.holder.Working? && model.holder.pc == pc && model.holder.rec == rec
    }

    constructor (ev: Event, s: Slot)
      ensures Valid() && this.ev == ev && start == s && trace == [] && file == s.file && runs == s.runs
      ensures model == s
    {
      this.ev, birth, file, runs, sends, issues := ev, s.birth, s.file, s.runs, s.sends, s.issues;
      start, trace, model := s, [], s;
    }

    ghost method Take(st: Step)
      requires Possible(ev, start, trace) && model == After(ev, start, trace) && Enabled(model, st)
      modifies this`trace, this`model
      ensures Possible(ev, start, trace) && model == After(ev, start, trace)
      ensures model == Apply(ev, old(model), st)
    {
      RunExtends(ev, start, trace, st);
      trace := trace + [st];
      model := Apply(ev, model, st);
    }

    /** `writeRecord`: the rename may or may not have happened when it reports an error. */
    method WriteRecord(rec: Record) returns (failed: bool, ghost st: Step)
      requires Valid() && AtWrite(model.holder) && model.holder.rec == rec
      modifies this
      ensures Valid() && st.Write? && failed == (st.outcome != Durable)
      ensures model == AfterWrite(old(model), st.outcome, st.now, st.rest)
    {
      var outcome: WriteOutcome := *;
      var now: int := *;
      var rest: nat := *;
      if outcome != ErrorNotDurable {
        file := Stored(rec.(updatedAt := now), rest);
      }
      failed := outcome != Durable;
      st := Write(outcome, now, rest);
      Take(st);
    }

    /** `readTaskReply` on the current result file; any error takes the default classification. */
    method ReadTaskReply(rec: Record) returns (reply: string, err: Option<Failure>)
      requires At(ReadReply, rec)
      modifies this`trace, this`model
      ensures err.None? ==> At(HaveReply(reply), rec)
      ensures err.Some? ==> At(Failing(err.value), rec)
    {
      var result := if rec.runDir in runs then runs[rec.runDir].result else NoResult;
      Take(Advance);
      if result.Completed? {
        reply, err := result.reply, None;
      } else {
        reply, err := "", Some(GENERIC_FAILURE);
      }
    }

    /** Any result file, as the reader of it will see it. */
    method TaskResult() returns (result: ResultFile)
      ensures WellRead(result)
    {
      result := *;
      if !WellRead(result) {
        result := Unusable;
      }
    }

    /** `stewardctl task run` in a directory of its own, stopped at any point. */
    method RunTask(rec: Record) returns (err: Option<Failure>)
      requires At(Running(false), rec) && rec.runDir !in runs
      modifies this
      ensures Valid() && model.holder.Working? && model.holder.pc.Running? && model.holder.rec == rec
    {
      var makes: bool, signs: bool, finishes: bool := *, *, *;
      if makes {
        runs := runs[rec.runDir := Run(birth, false, NoResult)];
        Take(TaskMkdir);
        if signs {
          runs := runs[rec.runDir := runs[rec.runDir].(bundle := true)];
          Take(TaskBundle);
        }
        if finishes {
          var result := TaskResult();
          runs := runs[rec.runDir := runs[rec.runDir].(result := result)];
          Take(CommandResult(result));
        }
      }
      err := *;
    }

    /** `task submit` and `task wait` on the retained bundle. */
    method ResumeTask(rec: Record) returns (err: Option<Failure>)
      requires At(Resuming, rec) && rec.runDir in runs
      modifies this
      ensures At(Resuming, rec)
    {
      var finishes: bool := *;
      if finishes {
        var result := TaskResult();
        runs := runs[rec.runDir := runs[rec.runDir].(result := result)];
        Take(CommandResult(result));
      }
      err := *;
    }

    method FinishCommand(rec: Record, commandError: Option<Failure>) returns (reply: string, err: Option<Failure>)
      requires Valid() && model.holder.Working? && (model.holder.pc.Running? || model.holder.pc.Resuming?) && model.holder.rec == rec
      modifies this`trace, this`model
      ensures err.None? ==> At(HaveReply(reply), rec)
      ensures err.Some? ==> At(Failing(err.value), rec)
    {
      Take(CommandDone(commandError));
      if commandError.Some? && (rec.runDir !in runs || runs[rec.runDir].result == NoResult) {
        return "", commandError;
      }
      reply, err := ReadTaskReply(rec);
    }

    /** `nextRunDirectory`. */
    method NextRunDirectory(task: TaskId) returns (dir: Option<RunDir>)
      ensures dir == NextRunDir(task, runs, 1)
    {
      var attempt := 1;
      while attempt <= 100
        invariant 1 <= attempt <= 101
        invariant NextRunDir(task, runs, 1) == NextRunDir(task, runs, attempt)
      {
        if RecoveryRun(task, attempt) !in runs {
          return Some(RecoveryRun(task, attempt));
        }
        attempt := attempt + 1;
      }
      return None;
    }

    /** Chooses the directory a new task runs in. */
    method SelectRunDirectory(live: LiveRecord) returns (err: Option<Failure>)
      requires At(LookDir, live.rec)
      modifies this`trace, this`model, live
      ensures err.None? ==> At(WriteDispatched, live.rec) && live.rec.runDir !in runs
      ensures err.Some? ==> At(Failing(err.value), live.rec)
    {
      if live.rec.runDir in runs {
        var recovery := NextRunDirectory(live.rec.taskId);
        if recovery.None? {
          Take(Advance);
          return Some(GENERIC_FAILURE);
        }
        live.rec := live.rec.(runDir := recovery.value);
      }
      live.rec := live.rec.(phase := Dispatched);
      Take(Advance);
      err := None;
    }

    /** The part of `runOrRecoverTask` that starts a new task. */
    method StartTask(live: LiveRecord) returns (reply: string, err: Option<Failure>)
      requires At(LookDir, live.rec)
      modifies this, live
      ensures err.None? ==> At(HaveReply(reply), live.rec)
      ensures err.Some? ==> At(Failing(err.value), live.rec)
    {
      err := SelectRunDirectory(live);
      if err.Some? {
        return "", err;
      }
      var failed, _ := WriteRecord(live.rec);
      if failed {
        return "", Some(GENERIC_FAILURE);
      }
      issues := issues + [Issue(birth, live.rec.taskId, live.rec.runDir, live.rec.runDir !in runs)];
      Take(Advance);
      var commandError := RunTask(live.rec);
      reply, err := FinishCommand(live.rec, commandError);
    }

    /** `runOrRecoverTask`. */
    method RunOrRecoverTask(live: LiveRecord) returns (reply: string, err: Option<Failure>)
      requires At(LookResult, live.rec)
      modifies this, live
      ensures err.None? ==> At(HaveReply(reply), live.rec)
      ensures err.Some? ==> At(Failing(err.value), live.rec)
    {
      Take(Advance);
      if live.rec.runDir in runs && runs[live.rec.runDir].result != NoResult {
        reply, err := ReadTaskReply(live.rec);
        return;
      }
      Take(Advance);
      if live.rec.runDir in runs && runs[live.rec.runDir].bundle {
        var commandError := ResumeTask(live.rec);
        reply, err := FinishCommand(live.rec, commandError);
        return;
      }
      reply, err := StartTask(live);
    }

    /** `findExistingReply`, as the relay answers it. */
    method FindExistingReply(rec: Record) returns (answer: Lookup)
      requires Valid() && model.holder.Working? && (model.holder.pc.Reconcile? || model.holder.pc.Confirm?) && model.holder.rec == rec
      modifies this`trace, this`model
      ensures Valid() && model == AfterQuery(old(model), answer)
    {
      answer := *;
      if answer.Found? && (!IsHex64(answer.id) || answer.id == rec.event.id) {
        answer := NotFound;
      }
      Take(Query(answer));
    }

    /** The first half of `completeRecord`: a reply whose digest and time are durable. */
    method ObtainReply(live: LiveRecord) returns (reply: string, err: Option<Failure>)
      requires At(if InPublishPhase(live.rec.phase) then CheckReply else LookResult, live.rec)
      modifies this, live
      ensures err.None? ==> At(Reconcile(reply), live.rec)
      ensures err.Some? ==> At(Failing(err.value), live.rec)
    {
      if !InPublishPhase(live.rec.phase) {
        reply, err := RunOrRecoverTask(live);
        if err.Some? {
          return;
        }
        var now: int := *;
        Take(Stamp(now));
        live.rec := live.rec.(replyDigest := Some(Sha256(reply)));
        live.rec := live.rec.(publishCreatedAt := now / SECOND);
        if live.rec.publishCreatedAt <= 0 {
          return reply, Some(Failure(PublishTimeInvalid, false));
        }
        live.rec := live.rec.(phase := Publishing);
        live.ClearFailure();
        var failed, _ := WriteRecord(live.rec);
        if failed {
          return reply, Some(GENERIC_FAILURE);
        }
      } else {
        var result := if live.rec.runDir in runs then runs[live.rec.runDir].result else NoResult;
        Take(Advance);
        if !result.Completed? {
          return "", Some(Failure(TaskResultInvalid, false));
        }
        if Some(Sha256(result.reply)) != live.rec.replyDigest {
          return "", Some(Failure(ReplyDigestMismatch, false));
        }
        reply, err := result.reply, None;
      }
    }

    /** The last write of `completeRecord`. */
    method MarkReplied(live: LiveRecord, id: string) returns (err: Option<Failure>)
      requires At(WriteReplied, Cleared(live.rec.(phase := Replied, replyEventId := Some(id))))
      modifies this, live
      ensures err.None? ==> Valid() && model.holder.Closing? && file.Stored? && file.rec.phase == Replied
      ensures err.Some? ==> At(Failing(err.value), live.rec)
    {
      live.rec := live.rec.(phase := Replied);
      live.rec := live.rec.(replyEventId := Some(id));
      live.ClearFailure();
      var failed, _ := WriteRecord(live.rec);
      err := if failed then Some(GENERIC_FAILURE) else None;
    }

    /** The second half of `completeRecord`: reconcile, send if need be, confirm. */
    method PublishReply(live: LiveRecord, reply: string) returns (err: Option<Failure>)
      requires At(Reconcile(reply), live.rec)
      modifies this, live
      ensures err.None? ==> Valid() && model.holder.Closing? && file.Stored? && file.rec.phase == Replied
      ensures err.Some? ==> At(Failing(err.value), live.rec)
    {
      var answer := FindExistingReply(live.rec);
      if answer.LookupError? {
        return Some(Failure(ReplyReconciliationFailed, true));
      }
      if answer.NotFound? {
        sends := sends + [Send(birth, live.rec.event.channel, live.rec.event.id, live.rec.publishCreatedAt, reply)];
        Take(Advance);
        answer := FindExistingReply(live.rec);
        if !answer.Found? {
          return Some(Failure(PublishOutcomeUnknown, true));
        }
      }
      err := MarkReplied(live, answer.id);
    }

    /** `completeRecord`. */
    method CompleteRecord(live: LiveRecord) returns (err: Option<Failure>)
      requires At(if InPublishPhase(live.rec.phase) then CheckReply else LookResult, live.rec)
      modifies this, live
      ensures err.None? ==> Valid() && model.holder.Closing? && file.Stored? && file.rec.phase == Replied
      ensures err.Some? ==> At(Failing(err.value), live.rec)
    {
      var reply: string;
      reply, err := ObtainReply(live);
      if err.None? {
        err := PublishReply(live, reply);
      }
    }

    /** The failure path of `processNext`: classify, count, schedule or dead-letter, store. */
    method StoreFailure(live: LiveRecord, failure: Failure) returns (failed: bool)
      requires At(Failing(failure), live.rec)
      modifies this, live
      ensures Valid() && model.holder.Closing?
      ensures !failed ==> file.Stored? && file.rec.error == Some(failure) && file.rec.phase != Publishing
      ensures !failed && !failure.retryable ==> file.rec.phase == DeadLetter
    {
      if live.rec.phase == Publishing {
        live.rec := live.rec.(phase := OutcomeUnknown);
      }
      var failedAt: int := *;
      live.RecordFailure(failure, failedAt);
      Take(Fail(failedAt));
      ghost var st: Step;
      failed, st := WriteRecord(live.rec);
    }

    /** `processNext` on one record: everything between taking the event lock and releasing
        it.  The whole call is a run of the transition system that ends with the lock free;
        a record that is not due is left alone, and one that is ends replied or with its
        failure stored, unless storing the failure itself failed. */
    method ProcessRecord(actor: nat) returns (worked: bool, err: Option<Failure>, lost: bool)
      requires Valid() && model.holder.Free?
      modifies this
      ensures Valid() && model.holder.Free?
      ensures worked ==> ReadableFile(old(file)) && old(file).rec.phase != Replied && old(file).rec.phase != DeadLetter
      ensures !worked ==> file == old(file) && runs == old(runs) && sends == old(sends) && issues == old(issues)
      ensures worked && err.None? ==> file.Stored? && file.rec.phase == Replied
      ensures worked && err.Some? && !lost ==> file.Stored? && file.rec.error == err && file.rec.phase != Publishing
    {
      worked, err, lost := false, None, false;
      Take(Acquire(actor));
      var now: int := *;
      Take(Read(now));
      if ReadableFile(file) && file.rec.phase != Replied && file.rec.phase != DeadLetter && Ready(file.rec, now) {
        worked := true;
        var live := new LiveRecord(file.rec);
        err := CompleteRecord(live);
        if err.Some? {
          lost := StoreFailure(live, err.value);
        }
      }
      Take(Release);
    }

    /** The update of `retryDurableRecord`: back to the recorded phase with a fresh budget. */
    method Requeue(rec: Record) returns (failed: bool)
      requires rec.phase == DeadLetter ==> rec.resumePhase.Some?
      requires Valid() && model.holder.Requeueing? && model.holder.rec == Requeued(rec)
      modifies this
      ensures Valid() && model.holder.Closing?
      ensures !failed ==> file.Stored? && SameButTime(Requeued(rec), file.rec)
    {
      var live := new LiveRecord(rec);
      if live.rec.phase == DeadLetter {
        live.rec := live.rec.(phase := live.rec.resumePhase.value);
      }
      live.rec := live.rec.(resumePhase := None);
      live.rec := live.rec.(attempts := 0);
      live.ClearFailure();
      ghost var st: Step;
      failed, st := WriteRecord(live.rec);
    }

    /** `retryDurableRecord`. */
    method RetryRecord(actor: nat) returns (queued: bool)
      requires Valid() && model.holder.Free?
      modifies this
      ensures Valid() && model.holder.Free?
      ensures queued ==> ReadableFile(old(file)) && old(file).rec.phase != Replied
      ensures queued ==> file.Stored? && SameButTime(Requeued(old(file).rec), file.rec)
    {
      Take(AcquireForRetry(actor));
      Take(Read(0));
      queued := false;
      if ReadableFile(file) && file.rec.phase != Replied {
        var failed := Requeue(file.rec);
        queued := !failed;
      }
      Take(Release);
    }
  }
}
