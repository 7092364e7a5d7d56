/** One event's slot in the durable inbox, as a transition system: the record file, the run
    directories of its task, the holder of the event's kernel lock together with the point
    that holder has reached in the code, and the history that the claims are about.

    Every transition is one operation of the bridge on durable or external state, so a stop
    of the process (`Crash`) can fall between any two operations.  The relay, `stewardctl`
    and the clock answer through the step labels.
 */
module BridgeWorker {
  import opened Common
  import opened BridgeRecord

  /** A record is created by open, write and sync, so a stop in between leaves a torn file;
      later rewrites replace the file by rename.  `rest` is the size of everything in the file
      but the message text; it depends on paths and error texts, so each write chooses it. */
  datatype File = Absent | Torn | Stored(rec: Record, rest: nat)

  /** What `readRecord` accepts. */
  predicate ReadableFile(f: File) {
    f.Stored? && Fits(f.rec.event.content, f.rest) && Readable(f.rec)
  }

  /** The task's result file as `readTaskReply` finds it: none, one it refuses, or a completed
      result with this reply. */
  datatype ResultFile = NoResult | Unusable | Completed(reply: string)

  const MAX_REPLY_BYTES := 16384

  predicate IsSpace(c: char) {
    c == ' ' || 9 <= c as int <= 13
  }

  /** A trimmed reply of 1 to 16384 bytes; a completed result without one is refused. */
  predicate IsReply(reply: string) {
    1 <= |reply| <= MAX_REPLY_BYTES && !IsSpace(reply[0]) && !IsSpace(reply[|reply| - 1])
  }

  predicate WellRead(result: ResultFile) {
    result.Completed? ==> IsReply(result.reply)
  }

  /** A run directory; `birth` says which creation of the record it was made for. */
  datatype Run = Run(birth: nat, bundle: bool, result: ResultFile)

  datatype Send = Send(birth: nat, channel: string, parent: string, createdAt: int, content: string)

  /** A `task run` command handed to stewardctl; `newDir` says its directory did not exist then. */
  datatype Issue = Issue(birth: nat, task: TaskId, dir: RunDir, newDir: bool)

  datatype Pc =
    | LookResult | ReadReply | LookBundle | Resuming | LookDir
    | WriteDispatched | IssueRun | Running(made: bool)
    | HaveReply(reply: string) | WritePublishing(reply: string)
    | CheckReply | Reconcile(reply: string) | SendReply(reply: string) | Confirm(reply: string)
    | WriteReplied | Failing(failure: Failure) | WriteFailure

  datatype Holder =
    | Free
    | WorkerOpened(actor: nat)
    | Working(actor: nat, pc: Pc, rec: Record)
    | RetryOpened(actor: nat)
    | Requeueing(actor: nat, rec: Record)
    | Closing(actor: nat)

  /** `birth` counts creations of the record and `failures` the failures stored since the
      last creation or operator retry; both are history, as are `sends` and `issues`. */
  datatype Slot = Slot(file: File, runs: map<RunDir, Run>, holder: Holder,
                       birth: nat, failures: nat, sends: seq<Send>, issues: seq<Issue>)

  const EMPTY_SLOT := Slot(Absent, map[], Free, 0, 0, [], [])

  datatype WriteOutcome = Durable | ErrorButDurable | ErrorNotDurable

  datatype Lookup = LookupError | NotFound | Found(id: string)

  datatype Step =
    | Acquire(actor: nat)
    | AcquireForRetry(actor: nat)
    | Read(now: int)
    | Advance
    | TaskMkdir
    | TaskBundle
    | CommandResult(result: ResultFile)
    | CommandDone(error: Option<Failure>)
    | Stamp(now: int)
    | Write(outcome: WriteOutcome, now: int, rest: nat)
    | Query(answer: Lookup)
    | Fail(now: int)
    | Release
    | Crash
    | ResultChanged(dir: RunDir, result: ResultFile)
    | Create
    | Fill(now: int, rest: nat)
    | Unfill
    | Evict

  function ResultIn(s: Slot, dir: RunDir): ResultFile {
    if dir in s.runs then s.runs[dir].result else NoResult
  }

  predicate HasBundle(s: Slot, dir: RunDir) {
    dir in s.runs && s.runs[dir].bundle
  }

  /** `nextRunDirectory`: the first unused recovery directory, of at most one hundred. */
  function NextRunDir(task: TaskId, runs: map<RunDir, Run>, attempt: nat): (dir: Option<RunDir>)
    ensures dir.Some? ==> dir.value !in runs && dir.value.task == task
    ensures dir.None? ==> forall k :: attempt <= k <= 100 ==> RecoveryRun(task, k) in runs
    decreases 101 - attempt
  {
    if attempt > 100 then None
    else if RecoveryRun(task, attempt) !in runs then Some(RecoveryRun(task, attempt))
    else NextRunDir(task, runs, attempt + 1)
  }

  function Goto(s: Slot, pc: Pc, rec: Record): Slot
    requires s.holder.Working?
  {
    s.(holder := Working(s.holder.actor, pc, rec))
  }

  predicate AtWrite(h: Holder) {
    h.Requeueing? || (h.Working? && (h.pc.WriteDispatched? || h.pc.WritePublishing? || h.pc.WriteReplied? || h.pc.WriteFailure?))
  }

  predicate CanAdvance(pc: Pc) {
    pc.LookResult? || pc.ReadReply? || pc.LookBundle? || pc.LookDir? || pc.IssueRun? || pc.CheckReply? || pc.SendReply?
  }

  predicate Enabled(s: Slot, st: Step) {
    match st
    case Acquire(_) | AcquireForRetry(_) => s.holder.Free?
    case Read(_) => s.holder.WorkerOpened? || s.holder.RetryOpened?
    case Advance => s.holder.Working? && CanAdvance(s.holder.pc)
    case TaskMkdir => s.holder.Working? && s.holder.pc == Running(false) && s.holder.rec.runDir !in s.runs
    case TaskBundle => s.holder.Working? && s.holder.pc == Running(true) && s.holder.rec.runDir in s.runs
    case CommandResult(result) =>
      && s.holder.Working? && (s.holder.pc == Running(true) || s.holder.pc.Resuming?) && s.holder.rec.runDir in s.runs
      && WellRead(result)
    case CommandDone(_) => s.holder.Working? && (s.holder.pc.Running? || s.holder.pc.Resuming?)
    case Stamp(_) => s.holder.Working? && s.holder.pc.HaveReply?
    case Write(_, _, _) => AtWrite(s.holder)
    case Query(answer) =>
      && s.holder.Working? && (s.holder.pc.Reconcile? || s.holder.pc.Confirm?)
      && (answer.Found? ==> IsHex64(answer.id) && answer.id != s.holder.rec.event.id)
    case Fail(_) => s.holder.Working? && s.holder.pc.Failing?
    case Release => s.holder.Closing?
    case Crash => !s.holder.Free?
    case ResultChanged(dir, result) => dir in s.runs && WellRead(result)
    case Create => s.file.Absent?
    case Fill(_, _) | Unfill => s.file.Torn?
    case Evict => s.file.Stored? && s.file.rec.replyEventId.Some?
  }

  /** Steps taken by workers, retries and the environment rather than by intake. */
  predicate ByWorker(st: Step) {
    !st.Create? && !st.Fill? && !st.Unfill? && !st.Evict?
  }

  /** What a worker does with the record it has just read under the lock. */
  function AfterRead(s: Slot, now: int): Slot
    requires s.holder.WorkerOpened?
  {
    var actor := s.holder.actor;
    if ReadableFile(s.file) && s.file.rec.phase != Replied && s.file.rec.phase != DeadLetter
       && Ready(s.file.rec, now)
    then s.(holder := Working(actor, if InPublishPhase(s.file.rec.phase) then CheckReply else LookResult, s.file.rec))
    else s.(holder := Closing(actor))
  }

  function AfterRetryRead(s: Slot): Slot
    requires s.holder.RetryOpened?
  {
    var actor := s.holder.actor;
    if ReadableFile(s.file) && s.file.rec.phase != Replied
    then s.(holder := Requeueing(actor, Requeued(s.file.rec)))
    else s.(holder := Closing(actor))
  }

  /** The steps that only look at durable state, issue the task, or send the reply. */
  function AfterAdvance(s: Slot): Slot
    requires s.holder.Working? && CanAdvance(s.holder.pc)
  {
    var rec := s.holder.rec;
    match s.holder.pc
    case LookResult => Goto(s, if ResultIn(s, rec.runDir) == NoResult then LookBundle else ReadReply, rec)
    case ReadReply =>
      var result := ResultIn(s, rec.runDir);
      Goto(s, if result.Completed? then HaveReply(result.reply) else Failing(GENERIC_FAILURE), rec)
    case LookBundle => Goto(s, if HasBundle(s, rec.runDir) then Resuming else LookDir, rec)
    case LookDir =>
      if rec.runDir !in s.runs then Goto(s, WriteDispatched, rec.(phase := Dispatched))
      else
        var next := NextRunDir(rec.taskId, s.runs, 1);
        if next.None? then Goto(s, Failing(GENERIC_FAILURE), rec)
        else Goto(s, WriteDispatched, rec.(runDir := next.value, phase := Dispatched))
    case IssueRun =>
      Goto(s.(issues := s.issues + [Issue(s.birth, rec.taskId, rec.runDir, rec.runDir !in s.runs)]), Running(false), rec)
    case CheckReply =>
      var result := ResultIn(s, rec.runDir);
      if !result.Completed? then Goto(s, Failing(Failure(TaskResultInvalid, false)), rec)
      else if rec.replyDigest != Some(Sha256(result.reply)) then Goto(s, Failing(Failure(ReplyDigestMismatch, false)), rec)
      else Goto(s, Reconcile(result.reply), rec)
    case SendReply(reply) =>
      Goto(s.(sends := s.sends + [Send(s.birth, rec.event.channel, rec.event.id, rec.publishCreatedAt, reply)]), Confirm(reply), rec)
  }

  function AfterCommand(s: Slot, error: Option<Failure>): Slot
    requires s.holder.Working?
  {
    var rec := s.holder.rec;
    if error.Some? && ResultIn(s, rec.runDir) == NoResult then Goto(s, Failing(error.value), rec) else Goto(s, ReadReply, rec)
  }

  /** The reply digest and the publication time are fixed here, before the first send. */
  function AfterStamp(s: Slot, now: int): Slot
    requires s.holder.Working? && s.holder.pc.HaveReply?
  {
    var stamped := s.holder.rec.(replyDigest := Some(Sha256(s.holder.pc.reply)), publishCreatedAt := now / SECOND);
    if now / SECOND <= 0 then Goto(s, Failing(Failure(PublishTimeInvalid, false)), stamped)
    else Goto(s, WritePublishing(s.holder.pc.reply), Cleared(stamped.(phase := Publishing)))
  }

  function AfterQuery(s: Slot, answer: Lookup): Slot
    requires s.holder.Working? && (s.holder.pc.Reconcile? || s.holder.pc.Confirm?)
  {
    var rec := s.holder.rec;
    match answer
    case Found(id) => Goto(s, WriteReplied, Cleared(rec.(phase := Replied, replyEventId := Some(id))))
    case LookupError =>
      Goto(s, Failing(Failure(if s.holder.pc.Reconcile? then ReplyReconciliationFailed else PublishOutcomeUnknown, true)), rec)
    case NotFound =>
      if s.holder.pc.Reconcile? then Goto(s, SendReply(s.holder.pc.reply), rec)
      else Goto(s, Failing(Failure(PublishOutcomeUnknown, true)), rec)
  }

  /** `writeRecord`, and what its caller does with the outcome. */
  function AfterWrite(s: Slot, outcome: WriteOutcome, now: int, rest: nat): Slot
    requires AtWrite(s.holder)
  {
    var rec := s.holder.rec;
    var written := if outcome == ErrorNotDurable then s else s.(file := Stored(rec.(updatedAt := now), rest));
    if s.holder.Requeueing? then
      written.(holder := Closing(s.holder.actor), failures := if outcome == ErrorNotDurable then s.failures else 0)
    else
      match s.holder.pc
      case WriteFailure =>
        written.(holder := Closing(s.holder.actor), failures := if outcome == ErrorNotDurable then s.failures else s.failures + 1)
      case WriteDispatched => Goto(written, if outcome == Durable then IssueRun else Failing(GENERIC_FAILURE), rec)
      case WritePublishing(reply) => Goto(written, if outcome == Durable then Reconcile(reply) else Failing(GENERIC_FAILURE), rec)
      case _ => if outcome == Durable then written.(holder := Closing(s.holder.actor)) else Goto(written, Failing(GENERIC_FAILURE), rec)
  }

  /** The failure path of `processNext`. */
  function Normalized(r: Record): Record {
    if r.phase == Publishing then r.(phase := OutcomeUnknown) else r
  }

  function Apply(ev: Event, s: Slot, st: Step): Slot
    requires Enabled(s, st)
  {
    match st
    case Acquire(actor) => s.(holder := WorkerOpened(actor))
    case AcquireForRetry(actor) => s.(holder := RetryOpened(actor))
    case Read(now) => if s.holder.WorkerOpened? then AfterRead(s, now) else AfterRetryRead(s)
    case Advance => AfterAdvance(s)
    case TaskMkdir => Goto(s.(runs := s.runs[s.holder.rec.runDir := Run(s.birth, false, NoResult)]), Running(true), s.holder.rec)
    case TaskBundle => s.(runs := s.runs[s.holder.rec.runDir := s.runs[s.holder.rec.runDir].(bundle := true)])
    case CommandResult(result) => s.(runs := s.runs[s.holder.rec.runDir := s.runs[s.holder.rec.runDir].(result := result)])
    case CommandDone(error) => AfterCommand(s, error)
    case Stamp(now) => AfterStamp(s, now)
    case Write(outcome, now, rest) => AfterWrite(s, outcome, now, rest)
    case Query(answer) => AfterQuery(s, answer)
    case Fail(now) => Goto(s, WriteFailure, AfterFailure(Normalized(s.holder.rec), s.holder.pc.failure, now))
    case Release | Crash => s.(holder := Free)
    case ResultChanged(dir, result) => s.(runs := s.runs[dir := s.runs[dir].(result := result)])
    case Create => s.(file := Torn, birth := s.birth + 1, failures := 0)
    case Fill(now, rest) => s.(file := Stored(NewRecord(ev, now), rest))
    case Unfill | Evict => s.(file := Absent)
  }

  // ---------------------------------------------------------------- the invariant

  /** A record that the code can go on with: it passes the reader's rules, and a dead letter
      remembers enough to be resumed as such a record. */
  predicate GoodRecord(ev: Event, r: Record) {
    && RecordFor(r, ev) && PhaseRules(r)
    && (r.replyEventId.Some? <==> r.phase == Replied)
    && (r.phase != DeadLetter ==> r.resumePhase.None? && r.attempts < MAX_ATTEMPTS)
    && (r.phase == DeadLetter ==>
          var p := r.resumePhase.value;
          && (p == Pending || p == Dispatched || p == OutcomeUnknown)
          && (p == OutcomeUnknown ==> r.replyDigest.Some? && r.publishCreatedAt != 0)
          && (p != OutcomeUnknown ==> r.publishCreatedAt == 0))
  }

  /** A record that nothing is done with any more: its reply was found, or its reply time is
      before the epoch. */
  predicate Inert(r: Record) {
    r.replyEventId.Some? || r.publishCreatedAt < 0
  }

  /** What an inert record looks like in the file: replied, or a dead letter that the reader
      refuses. */
  predicate InertRecord(ev: Event, r: Record) {
    && RecordFor(r, ev) && r.attempts <= MAX_ATTEMPTS
    && if r.phase == Replied then GoodRecord(ev, r)
       else r.phase == DeadLetter && (r.publishCreatedAt < 0 || (r.replyEventId.Some? && r.resumePhase == Some(Replied)))
  }

  predicate FileRecord(ev: Event, r: Record) {
    if Inert(r) then InertRecord(ev, r) else GoodRecord(ev, r)
  }

  predicate KeepsReply(d: Record, m: Record) {
    d.publishCreatedAt != 0 ==> m.publishCreatedAt == d.publishCreatedAt && m.replyDigest == d.replyDigest
  }

  predicate KeepsRun(s: Slot, d: Record, m: Record) {
    m.runDir == d.runDir || (m.runDir !in s.runs && !HasBundle(s, d.runDir))
  }

  /** Equal but for the time stamp that `writeRecord` puts on the stored copy only. */
  predicate SameButTime(m: Record, d: Record) {
    m.(updatedAt := d.updatedAt) == d
  }

  predicate BeforeStamp(m: Record, d: Record) {
    SameButTime(m, d) && !InPublishPhase(d.phase)
  }

  /** The in-memory record at each point of `completeRecord`, against the stored one. */
  predicate PcInv(ev: Event, s: Slot, pc: Pc, m: Record, d: Record) {
    match pc
    case LookResult | ReadReply | LookBundle | Resuming | HaveReply(_) => BeforeStamp(m, d)
    case LookDir => BeforeStamp(m, d) && !HasBundle(s, d.runDir)
    case WriteDispatched =>
      && GoodRecord(ev, m) && m.phase == Dispatched && !InPublishPhase(d.phase) && m.attempts == d.attempts
      && m.runDir !in s.runs && !HasBundle(s, d.runDir)
    case IssueRun => BeforeStamp(m, d) && m.runDir !in s.runs
    case Running(made) =>
      BeforeStamp(m, d) && (made <==> m.runDir in s.runs) && (made ==> s.runs[m.runDir].birth == s.birth)
    case WritePublishing(reply) =>
      && GoodRecord(ev, m) && m.phase == Publishing && m.replyDigest == Some(Sha256(reply)) && m.attempts == d.attempts
      && !InPublishPhase(d.phase) && m.runDir == d.runDir
    case CheckReply => SameButTime(m, d) && InPublishPhase(d.phase)
    case Reconcile(reply) => SameButTime(m, d) && InPublishPhase(d.phase) && m.replyDigest == Some(Sha256(reply))
    case SendReply(reply) => SameButTime(m, d) && InPublishPhase(d.phase) && m.replyDigest == Some(Sha256(reply))
    case Confirm(reply) => SameButTime(m, d) && InPublishPhase(d.phase) && m.replyDigest == Some(Sha256(reply))
    case WriteReplied => GoodRecord(ev, m) && m.phase == Replied && m.attempts == d.attempts && m.runDir == d.runDir
    case Failing(_) => GoodRecord(ev, m) && m.phase != DeadLetter && m.phase != Replied && m.attempts == d.attempts
    case WriteFailure => GoodRecord(ev, m) && m.phase != Replied && m.attempts == d.attempts + 1
  }

  /** A worker whose record is still to be answered. */
  predicate LiveHolder(ev: Event, s: Slot, pc: Pc, m: Record) {
    && s.file.Stored? && GoodRecord(ev, s.file.rec) && s.file.rec.phase != Replied && s.file.rec.phase != DeadLetter
    && RecordFor(m, ev) && KeepsReply(s.file.rec, m) && KeepsRun(s, s.file.rec, m)
    && PcInv(ev, s, pc, m, s.file.rec)
  }

  /** A worker that can only store an inert record any more: the final write failed, or the
      clock was before the epoch.  Its file may even be evicted meanwhile. */
  predicate DoomedHolder(ev: Event, s: Slot, pc: Pc, m: Record) {
    match pc
    case Failing(f) =>
      && RecordFor(m, ev) && m.attempts < MAX_ATTEMPTS && s.failures <= m.attempts
      && (if m.phase == Replied then GoodRecord(ev, m) && f == GENERIC_FAILURE
          else m.publishCreatedAt < 0 && !f.retryable && (m.phase == Pending || m.phase == Dispatched))
      && (m.replyEventId.None? ==> s.file.Stored? && !Inert(s.file.rec))
    case WriteFailure =>
      && Inert(m) && InertRecord(ev, m) && s.failures < m.attempts && m.error.Some?
      && (m.replyEventId.None? ==> s.file.Stored? && !Inert(s.file.rec))
    case _ => false
  }

  predicate HolderInv(ev: Event, s: Slot) {
    match s.holder
    case Working(_, pc, m) => s.birth > 0 && (LiveHolder(ev, s, pc, m) || DoomedHolder(ev, s, pc, m))
    case Requeueing(_, m) =>
      && s.file.Stored? && GoodRecord(ev, s.file.rec) && s.file.rec.phase != Replied
      && GoodRecord(ev, m) && m.phase != Replied && m.attempts == 0
      && KeepsReply(s.file.rec, m) && m.runDir == s.file.rec.runDir
    case _ => true
  }

  predicate FileInv(ev: Event, s: Slot) {
    && (!s.file.Absent? ==> s.birth > 0)
    && (s.file.Torn? ==> s.failures == 0)
    && (s.file.Stored? ==>
          && FileRecord(ev, s.file.rec) && s.failures <= s.file.rec.attempts
          && (!Inert(s.file.rec) ==> s.failures == s.file.rec.attempts))
  }

  /** The reply a send of the current record carried is the one the record remembers, as long as
      there is still something to do with it. */
  predicate SendInv(ev: Event, s: Slot, x: Send) {
    && x.channel == ev.channel && x.parent == ev.id && x.createdAt > 0 && 0 < x.birth <= s.birth
    && (s.file.Torn? ==> x.birth < s.birth)
    && (s.file.Stored? && !Inert(s.file.rec) && x.birth == s.birth ==>
          s.file.rec.publishCreatedAt == x.createdAt && s.file.rec.replyDigest == Some(Sha256(x.content)))
  }

  /** Two sends made for the same record are the same message. */
  predicate OneReply(sends: seq<Send>) {
    forall i, j :: 0 <= i < |sends| && 0 <= j < |sends| && sends[i].birth == sends[j].birth ==> sends[i] == sends[j]
  }

  predicate SendsInv(ev: Event, s: Slot) {
    (forall i :: 0 <= i < |s.sends| ==> SendInv(ev, s, s.sends[i])) && OneReply(s.sends)
  }

  predicate RunInv(ev: Event, s: Slot, dir: RunDir, run: Run) {
    && dir.task == TaskId(ev.id) && 0 < run.birth <= s.birth && (s.file.Torn? ==> run.birth < s.birth)
    && (s.file.Stored? && !Inert(s.file.rec) && run.bundle && run.birth == s.birth ==> dir == s.file.rec.runDir)
  }

  /** At most one run directory made for one record holds a signed task bundle. */
  predicate OneBundle(runs: map<RunDir, Run>) {
    forall a, b :: a in runs && b in runs && runs[a].bundle && runs[b].bundle && runs[a].birth == runs[b].birth ==> a == b
  }

  predicate RunsInv(ev: Event, s: Slot) {
    (forall dir :: dir in s.runs ==> RunInv(ev, s, dir, s.runs[dir])) && OneBundle(s.runs)
  }

  /** Every `task run` went to a directory that did not exist, always for the event's one task. */
  predicate IssuesInv(ev: Event, issues: seq<Issue>) {
    forall i :: 0 <= i < |issues| ==> issues[i].newDir && issues[i].task == TaskId(ev.id) && issues[i].dir.task == TaskId(ev.id)
  }

  predicate Inv(ev: Event, s: Slot) {
    FileInv(ev, s) && HolderInv(ev, s) && SendsInv(ev, s) && RunsInv(ev, s) && IssuesInv(ev, s.issues)
  }

  // ---------------------------------------------------------------- one step

  /** Replacing the stored record by one that keeps its reply and its run keeps the history in order. */
  lemma StoreKeepsHistory(ev: Event, s: Slot, m: Record, s': Slot)
    requires s.file.Stored? && !Inert(s.file.rec) && SendsInv(ev, s) && RunsInv(ev, s)
    requires KeepsReply(s.file.rec, m) && KeepsRun(s, s.file.rec, m)
    requires s'.file.Stored? && SameButTime(m, s'.file.rec)
    requires s'.sends == s.sends && s'.runs == s.runs && s'.birth == s.birth
    ensures SendsInv(ev, s') && RunsInv(ev, s')
  {
    forall i | 0 <= i < |s'.sends| ensures SendInv(ev, s', s'.sends[i]) {
      assert SendInv(ev, s, s.sends[i]);
    }
    forall dir | dir in s'.runs ensures RunInv(ev, s', dir, s'.runs[dir]) {
      assert RunInv(ev, s, dir, s.runs[dir]);
    }
  }

  /** Storing an inert record, over any file or none, leaves the history as it is. */
  lemma InertStoreKeepsHistory(ev: Event, s: Slot, s': Slot)
    requires SendsInv(ev, s) && RunsInv(ev, s)
    requires s'.file.Stored? && Inert(s'.file.rec)
    requires s'.sends == s.sends && s'.runs == s.runs && s'.birth == s.birth
    ensures SendsInv(ev, s') && RunsInv(ev, s')
  {
    forall i | 0 <= i < |s'.sends| ensures SendInv(ev, s', s'.sends[i]) {
      assert SendInv(ev, s, s.sends[i]);
    }
    forall dir | dir in s'.runs ensures RunInv(ev, s', dir, s'.runs[dir]) {
      assert RunInv(ev, s, dir, s.runs[dir]);
    }
  }

  /** A new file, or none: no send and no run of the new record exists yet. */
  lemma FileChangeKeepsHistory(ev: Event, s: Slot, s': Slot)
    requires SendsInv(ev, s) && RunsInv(ev, s)
    requires s'.sends == s.sends && s'.runs == s.runs
    requires || (s'.file == s.file && s'.birth == s.birth)
             || (s'.file.Torn? && s'.birth == s.birth + 1)
             || (s'.file.Stored? && s.file.Torn? && s'.birth == s.birth)
             || (s'.file.Absent? && s'.birth == s.birth)
    ensures SendsInv(ev, s') && RunsInv(ev, s')
  {
    forall i | 0 <= i < |s'.sends| ensures SendInv(ev, s', s'.sends[i]) {
      assert SendInv(ev, s, s.sends[i]);
    }
    forall dir | dir in s'.runs ensures RunInv(ev, s', dir, s'.runs[dir]) {
      assert RunInv(ev, s, dir, s.runs[dir]);
    }
  }

  /** A send repeats what every earlier send of the record carried. */
  lemma SendKeepsHistory(ev: Event, s: Slot)
    requires FileInv(ev, s) && HolderInv(ev, s) && SendsInv(ev, s) && RunsInv(ev, s)
    requires s.holder.Working? && s.holder.pc.SendReply?
    ensures SendsInv(ev, AfterAdvance(s)) && RunsInv(ev, AfterAdvance(s))
  {
    var s' := AfterAdvance(s);
    FileChangeKeepsHistory(ev, s, s'.(sends := s.sends));
    assert LiveHolder(ev, s, s.holder.pc, s.holder.rec) && !Inert(s.file.rec);
    forall i | 0 <= i < |s'.sends| ensures SendInv(ev, s', s'.sends[i]) {
      if i < |s.sends| { assert SendInv(ev, s, s.sends[i]); }
    }
    forall i | 0 <= i < |s.sends| && s.sends[i].birth == s.birth ensures s.sends[i] == s'.sends[|s.sends|] {
      assert SendInv(ev, s, s.sends[i]);
    }
    forall dir | dir in s'.runs ensures RunInv(ev, s', dir, s'.runs[dir]) {
      assert RunInv(ev, s, dir, s.runs[dir]);
    }
  }

  /** A run directory changes: one made for the current record, or only its result file. */
  lemma RunChangeKeepsHistory(ev: Event, s: Slot, dir: RunDir, run: Run)
    requires FileInv(ev, s) && SendsInv(ev, s) && RunsInv(ev, s)
    requires dir in s.runs ==> run.birth == s.runs[dir].birth
    requires (dir in s.runs && run.bundle == s.runs[dir].bundle)
             || (s.file.Stored? && !Inert(s.file.rec) && run.birth == s.birth && dir == s.file.rec.runDir)
    ensures SendsInv(ev, s.(runs := s.runs[dir := run])) && RunsInv(ev, s.(runs := s.runs[dir := run]))
  {
    var s' := s.(runs := s.runs[dir := run]);
    forall i | 0 <= i < |s'.sends| ensures SendInv(ev, s', s'.sends[i]) {
      assert SendInv(ev, s, s.sends[i]);
    }
    forall d | d in s'.runs ensures RunInv(ev, s', d, s'.runs[d]) {
      assert d in s.runs ==> RunInv(ev, s, d, s.runs[d]);
    }
    forall d | d in s.runs ensures RunInv(ev, s, d, s.runs[d]) {}
  }

  /** The code that looks around before the reply is stamped. */
  lemma LookKeepsHolder(ev: Event, s: Slot)
    requires s.holder.Working? && CanAdvance(s.holder.pc) && LiveHolder(ev, s, s.holder.pc, s.holder.rec)
    requires s.holder.pc.LookResult? || s.holder.pc.ReadReply? || s.holder.pc.LookBundle? || s.holder.pc.LookDir?
    ensures LiveHolder(ev, AfterAdvance(s), AfterAdvance(s).holder.pc, AfterAdvance(s).holder.rec)
  {
  }

  lemma PublishKeepsHolder(ev: Event, s: Slot)
    requires s.holder.Working? && CanAdvance(s.holder.pc) && LiveHolder(ev, s, s.holder.pc, s.holder.rec)
    requires s.holder.pc.IssueRun? || s.holder.pc.CheckReply? || s.holder.pc.SendReply?
    ensures LiveHolder(ev, AfterAdvance(s), AfterAdvance(s).holder.pc, AfterAdvance(s).holder.rec)
  {
  }

  lemma AdvanceKeepsHolder(ev: Event, s: Slot)
    requires FileInv(ev, s) && HolderInv(ev, s) && s.holder.Working? && CanAdvance(s.holder.pc)
    ensures FileInv(ev, AfterAdvance(s)) && HolderInv(ev, AfterAdvance(s))
  {
    assert LiveHolder(ev, s, s.holder.pc, s.holder.rec);
    if s.holder.pc.SendReply? || s.holder.pc.IssueRun? || s.holder.pc.CheckReply? {
      PublishKeepsHolder(ev, s);
    } else {
      LookKeepsHolder(ev, s);
    }
  }

  lemma AdvanceKeepsInv(ev: Event, s: Slot)
    requires Inv(ev, s) && s.holder.Working? && CanAdvance(s.holder.pc)
    ensures Inv(ev, AfterAdvance(s))
  {
    AdvanceKeepsHolder(ev, s);
    if s.holder.pc.SendReply? {
      SendKeepsHistory(ev, s);
    } else {
      FileChangeKeepsHistory(ev, s, AfterAdvance(s));
      if s.holder.pc.IssueRun? {
        assert LiveHolder(ev, s, s.holder.pc, s.holder.rec);
      }
    }
  }

  /** A write by a worker whose record is still to be answered. */
  lemma LiveWriteKeepsHolder(ev: Event, s: Slot, outcome: WriteOutcome, now: int, rest: nat)
    requires FileInv(ev, s) && s.holder.Working? && AtWrite(s.holder) && s.birth > 0
    requires LiveHolder(ev, s, s.holder.pc, s.holder.rec)
    ensures FileInv(ev, AfterWrite(s, outcome, now, rest)) && HolderInv(ev, AfterWrite(s, outcome, now, rest))
  {
  }

  lemma DoomedWriteKeepsHolder(ev: Event, s: Slot, outcome: WriteOutcome, now: int, rest: nat)
    requires FileInv(ev, s) && s.holder.Working? && AtWrite(s.holder) && s.birth > 0
    requires DoomedHolder(ev, s, s.holder.pc, s.holder.rec)
    ensures FileInv(ev, AfterWrite(s, outcome, now, rest)) && HolderInv(ev, AfterWrite(s, outcome, now, rest))
  {
  }

  lemma RequeueWriteKeepsHolder(ev: Event, s: Slot, outcome: WriteOutcome, now: int, rest: nat)
    requires FileInv(ev, s) && HolderInv(ev, s) && s.holder.Requeueing?
    ensures FileInv(ev, AfterWrite(s, outcome, now, rest)) && HolderInv(ev, AfterWrite(s, outcome, now, rest))
  {
  }

  lemma WriteKeepsHistory(ev: Event, s: Slot, outcome: WriteOutcome, now: int, rest: nat)
    requires Inv(ev, s) && AtWrite(s.holder)
    ensures SendsInv(ev, AfterWrite(s, outcome, now, rest)) && RunsInv(ev, AfterWrite(s, outcome, now, rest))
  {
    var s' := AfterWrite(s, outcome, now, rest);
    if outcome == ErrorNotDurable {
      FileChangeKeepsHistory(ev, s, s');
    } else if Inert(s.holder.rec) {
      InertStoreKeepsHistory(ev, s, s');
    } else {
      StoreKeepsHistory(ev, s, s.holder.rec, s');
    }
  }

  lemma WriteKeepsInv(ev: Event, s: Slot, outcome: WriteOutcome, now: int, rest: nat)
    requires Inv(ev, s) && AtWrite(s.holder)
    ensures Inv(ev, AfterWrite(s, outcome, now, rest))
  {
    WriteKeepsHistory(ev, s, outcome, now, rest);
    if s.holder.Requeueing? {
      RequeueWriteKeepsHolder(ev, s, outcome, now, rest);
    } else if LiveHolder(ev, s, s.holder.pc, s.holder.rec) {
      LiveWriteKeepsHolder(ev, s, outcome, now, rest);
    } else {
      DoomedWriteKeepsHolder(ev, s, outcome, now, rest);
    }
  }

  lemma RunChangeKeepsHolder(ev: Event, s: Slot, st: Step)
    requires FileInv(ev, s) && HolderInv(ev, s) && Enabled(s, st)
    requires st.TaskMkdir? || st.TaskBundle? || st.CommandResult? || st.ResultChanged?
    ensures FileInv(ev, Apply(ev, s, st)) && HolderInv(ev, Apply(ev, s, st))
  {
  }

  lemma RunChangeKeepsInv(ev: Event, s: Slot, st: Step)
    requires Inv(ev, s) && Enabled(s, st)
    requires st.TaskMkdir? || st.TaskBundle? || st.CommandResult? || st.ResultChanged?
    ensures Inv(ev, Apply(ev, s, st))
  {
    var s' := Apply(ev, s, st);
    RunChangeKeepsHolder(ev, s, st);
    var dir := if st.ResultChanged? then st.dir else s.holder.rec.runDir;
    assert !st.ResultChanged? ==> LiveHolder(ev, s, s.holder.pc, s.holder.rec);
    RunChangeKeepsHistory(ev, s, dir, s'.runs[dir]);
    FileChangeKeepsHistory(ev, s.(runs := s.runs[dir := s'.runs[dir]]), s');
  }

  lemma LiveFailKeepsHolder(ev: Event, s: Slot, now: int)
    requires s.holder.Working? && s.holder.pc.Failing? && LiveHolder(ev, s, s.holder.pc, s.holder.rec)
    ensures var s' := Apply(ev, s, Fail(now)); LiveHolder(ev, s', s'.holder.pc, s'.holder.rec)
  {
    assert GoodRecord(ev, AfterFailure(Normalized(s.holder.rec), s.holder.pc.failure, now));
  }

  lemma DoomedFailKeepsHolder(ev: Event, s: Slot, now: int)
    requires s.holder.Working? && s.holder.pc.Failing? && DoomedHolder(ev, s, s.holder.pc, s.holder.rec)
    ensures var s' := Apply(ev, s, Fail(now)); DoomedHolder(ev, s', s'.holder.pc, s'.holder.rec)
  {
  }

  lemma FailKeepsInv(ev: Event, s: Slot, now: int)
    requires Inv(ev, s) && s.holder.Working? && s.holder.pc.Failing?
    ensures Inv(ev, Apply(ev, s, Fail(now)))
  {
    if LiveHolder(ev, s, s.holder.pc, s.holder.rec) {
      LiveFailKeepsHolder(ev, s, now);
    } else {
      DoomedFailKeepsHolder(ev, s, now);
    }
    FileChangeKeepsHistory(ev, s, Apply(ev, s, Fail(now)));
  }

  lemma StampKeepsHolder(ev: Event, s: Slot, now: int)
    requires FileInv(ev, s) && HolderInv(ev, s) && s.holder.Working? && s.holder.pc.HaveReply?
    ensures FileInv(ev, AfterStamp(s, now)) && HolderInv(ev, AfterStamp(s, now))
  {
    assert LiveHolder(ev, s, s.holder.pc, s.holder.rec);
  }

  lemma LiveQueryKeepsHolder(ev: Event, s: Slot, answer: Lookup)
    requires Enabled(s, Query(answer)) && LiveHolder(ev, s, s.holder.pc, s.holder.rec)
    ensures LiveHolder(ev, AfterQuery(s, answer), AfterQuery(s, answer).holder.pc, AfterQuery(s, answer).holder.rec)
  {
    match answer
    case Found(id) => assert GoodRecord(ev, AfterQuery(s, answer).holder.rec);
    case _ =>
  }

  lemma QueryKeepsHolder(ev: Event, s: Slot, answer: Lookup)
    requires FileInv(ev, s) && HolderInv(ev, s) && Enabled(s, Query(answer))
    ensures FileInv(ev, AfterQuery(s, answer)) && HolderInv(ev, AfterQuery(s, answer))
  {
    LiveQueryKeepsHolder(ev, s, answer);
  }

  lemma CommandKeepsHolder(ev: Event, s: Slot, error: Option<Failure>)
    requires FileInv(ev, s) && HolderInv(ev, s) && Enabled(s, CommandDone(error))
    ensures FileInv(ev, AfterCommand(s, error)) && HolderInv(ev, AfterCommand(s, error))
  {
    assert LiveHolder(ev, s, s.holder.pc, s.holder.rec);
  }

  lemma ReplyStepKeepsHolder(ev: Event, s: Slot, st: Step)
    requires FileInv(ev, s) && HolderInv(ev, s) && Enabled(s, st)
    requires st.Stamp? || st.Query? || st.CommandDone?
    ensures FileInv(ev, Apply(ev, s, st)) && HolderInv(ev, Apply(ev, s, st))
  {
    match st
    case Stamp(now) => StampKeepsHolder(ev, s, now);
    case Query(answer) => QueryKeepsHolder(ev, s, answer);
    case CommandDone(error) => CommandKeepsHolder(ev, s, error);
  }

  lemma ReplyStepFrame(ev: Event, s: Slot, st: Step)
    requires Enabled(s, st) && (st.Stamp? || st.Query? || st.CommandDone?)
    ensures Apply(ev, s, st) == s.(holder := Apply(ev, s, st).holder)
  {
  }

  lemma ReplyStepKeepsInv(ev: Event, s: Slot, st: Step)
    requires Inv(ev, s) && Enabled(s, st)
    requires st.Stamp? || st.Query? || st.CommandDone?
    ensures Inv(ev, Apply(ev, s, st))
  {
    ReplyStepKeepsHolder(ev, s, st);
    ReplyStepFrame(ev, s, st);
    FileChangeKeepsHistory(ev, s, Apply(ev, s, st));
  }

  lemma LockStepKeepsHolder(ev: Event, s: Slot, st: Step)
    requires FileInv(ev, s) && HolderInv(ev, s) && Enabled(s, st)
    requires st.Acquire? || st.AcquireForRetry? || st.Read? || st.Release? || st.Crash?
    ensures FileInv(ev, Apply(ev, s, st)) && HolderInv(ev, Apply(ev, s, st))
  {
  }

  lemma FileStepKeepsHolder(ev: Event, s: Slot, st: Step)
    requires FileInv(ev, s) && HolderInv(ev, s) && Enabled(s, st)
    requires st.Create? || st.Fill? || st.Unfill? || st.Evict?
    ensures FileInv(ev, Apply(ev, s, st)) && HolderInv(ev, Apply(ev, s, st))
  {
  }

  lemma FileStepKeepsInv(ev: Event, s: Slot, st: Step)
    requires Inv(ev, s) && Enabled(s, st)
    requires st.Create? || st.Fill? || st.Unfill? || st.Evict?
    ensures Inv(ev, Apply(ev, s, st))
  {
    FileStepKeepsHolder(ev, s, st);
    FileChangeKeepsHistory(ev, s, Apply(ev, s, st));
  }

  lemma LockStepKeepsInv(ev: Event, s: Slot, st: Step)
    requires Inv(ev, s) && Enabled(s, st)
    requires st.Acquire? || st.AcquireForRetry? || st.Read? || st.Release? || st.Crash?
    ensures Inv(ev, Apply(ev, s, st))
  {
    LockStepKeepsHolder(ev, s, st);
    FileChangeKeepsHistory(ev, s, Apply(ev, s, st));
  }

  /** Every step of any actor keeps the invariant: failed writes, crashes, evictions and a wrong
      clock included. */
  lemma StepKeepsInv(ev: Event, s: Slot, st: Step)
    requires Inv(ev, s) && Enabled(s, st)
    ensures Inv(ev, Apply(ev, s, st))
  {
    match st
    case Write(outcome, now, rest) => WriteKeepsInv(ev, s, outcome, now, rest);
    case Advance => AdvanceKeepsInv(ev, s);
    case TaskMkdir | TaskBundle | CommandResult(_) | ResultChanged(_, _) => RunChangeKeepsInv(ev, s, st);
    case Fail(now) => FailKeepsInv(ev, s, now);
    case Stamp(_) | Query(_) | CommandDone(_) => ReplyStepKeepsInv(ev, s, st);
    case Create | Fill(_, _) | Unfill | Evict => FileStepKeepsInv(ev, s, st);
    case _ => LockStepKeepsInv(ev, s, st);
  }
}
