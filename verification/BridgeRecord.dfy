/** The durable record of one Buzz event: its fields, what `readRecord` accepts, and how a
    failed attempt changes it (cmd/steward-buzz-bridge/main.go).

    SHA-256 digests and task identifiers are symbolic: a digest is the value it was taken
    of, so two equal digests have equal preimages.  Strings stand for byte strings.  Times
    are nanoseconds since the Unix epoch.
 */
module BridgeRecord {
  import opened Common

  datatype Phase = Pending | Dispatched | Publishing | OutcomeUnknown | Replied | DeadLetter

  datatype Digest = Sha256(of: string)

  datatype TaskId = TaskId(eventId: string)

  datatype RunDir = FirstRun(task: TaskId) | RecoveryRun(task: TaskId, attempt: nat)

  datatype FailureCode =
    | BridgeOperationFailed | TaskResultInvalid | ReplyDigestMismatch
    | PublishTimeInvalid | ReplyReconciliationFailed | PublishOutcomeUnknown
    | CommandCode(text: string)

  /** A `bridgeFailure` or `commandFailure`, or the default classification of any other error. */
  datatype Failure = Failure(code: FailureCode, retryable: bool)

  /** The verified event a record is created for. */
  datatype Event = Event(id: string, channel: string, author: string, createdAt: int, content: string)

  /** The event's own fields are kept together as `event`. */
  datatype Record = Record(
    event: Event, contentDigest: Digest, taskId: TaskId, phase: Phase, runDir: RunDir,
    replyDigest: Option<Digest>, replyEventId: Option<string>, publishCreatedAt: int,
    error: Option<Failure>, attempts: nat, nextAttemptAt: Option<int>, resumePhase: Option<Phase>, updatedAt: int)

  const MAX_MESSAGE_BYTES := 32768
  const MAX_RECORD_BYTES := 65536
  const MAX_ATTEMPTS := 10
  const SECOND := 1_000_000_000

  const GENERIC_FAILURE := Failure(BridgeOperationFailed, true)

  predicate IsHexDigit(c: char) {
    'a' <= c <= 'f' || '0' <= c <= '9'
  }

  predicate IsHex64(s: string) {
    |s| == 64 && forall i :: 0 <= i < |s| ==> IsHexDigit(s[i])
  }

  predicate IsUuid(s: string) {
    && |s| == 36
    && (forall i :: 0 <= i < |s| ==> if i == 8 || i == 13 || i == 18 || i == 23 then s[i] == '-' else IsHexDigit(s[i]))
    && '1' <= s[14] <= '8'
    && (s[19] == '8' || s[19] == '9' || s[19] == 'a' || s[19] == 'b')
  }

  /** What `fetchEventPage` and the configuration guarantee of an event that reaches `ingest`. */
  predicate ValidEvent(ev: Event) {
    IsHex64(ev.id) && IsHex64(ev.author) && IsUuid(ev.channel) && ev.createdAt > 0 && |ev.content| <= MAX_MESSAGE_BYTES
  }

  predicate InPublishPhase(p: Phase) {
    p == Publishing || p == OutcomeUnknown
  }

  /** The identity half of `readRecord`. */
  predicate Envelope(r: Record) {
    ValidEvent(r.event) && r.contentDigest == Sha256(r.event.content)
  }

  /** The progress half of `readRecord`: bounds, and which fields each phase needs. */
  predicate PhaseRules(r: Record) {
    && (r.replyEventId.Some? ==> IsHex64(r.replyEventId.value))
    && r.publishCreatedAt >= 0 && r.attempts <= MAX_ATTEMPTS
    && (r.resumePhase.Some? ==> r.resumePhase.value != Replied && r.resumePhase.value != DeadLetter)
    && (r.phase == Replied ==> r.replyDigest.Some? && r.replyEventId.Some? && r.publishCreatedAt != 0)
    && (InPublishPhase(r.phase) ==> r.replyDigest.Some? && r.publishCreatedAt != 0)
    && (r.phase == Pending || r.phase == Dispatched ==> r.publishCreatedAt == 0)
    && (r.phase == DeadLetter ==> r.resumePhase.Some?)
  }

  /** `readRecord`, past the size limit and the JSON decoding. */
  predicate Readable(r: Record) {
    Envelope(r) && PhaseRules(r)
  }

  /** What one byte of a string takes in JSON, as the encoder escapes it. */
  function EscapedSize(c: char): nat {
    if c == '<' || c == '>' || c == '&' then 6
    else if c == '"' || c == '\\' || c == '\n' || c == '\r' || c == '\t' || c as int == 8 || c as int == 12 then 2
    else if c as int < 32 then 6
    else 1
  }

  /** The bytes of U+2028 or U+2029, which the encoder escapes too. */
  predicate StartsSeparator(s: string) {
    |s| >= 3 && s[0] as int == 0xE2 && s[1] as int == 0x80 && (s[2] as int == 0xA8 || s[2] as int == 0xA9)
  }

  /** The encoded size of a UTF-8 string, without its quotes. */
  function JsonSize(s: string): nat {
    if s == "" then 0
    else if StartsSeparator(s) then 6 + JsonSize(s[3..])
    else EscapedSize(s[0]) + JsonSize(s[1..])
  }

  /** A record file that the reader's limit admits; `rest` is the size of everything in it but
      the message text. */
  predicate Fits(content: string, rest: nat) {
    JsonSize(content) + rest <= MAX_RECORD_BYTES
  }

  function Angles(n: nat): (r: string)
    ensures |r| == n && forall i :: 0 <= i < n ==> r[i] == '<'
  {
    if n == 0 then "" else "<" + Angles(n - 1)
  }

  lemma {:induction false} AnglesSize(n: nat)
    ensures JsonSize(Angles(n)) == 6 * n
  {
    if n == 0 {
    } else {
      assert Angles(n)[1..] == Angles(n - 1);
      AnglesSize(n - 1);
    }
  }

  /** A message within the bridge's own limit can make a record that never fits: 10,923 of `<`
      already do, whatever the other fields take. */
  lemma OversizeEvent(n: nat, id: string, author: string, channel: string, createdAt: int) returns (ev: Event)
    requires 10923 <= n <= MAX_MESSAGE_BYTES && IsHex64(id) && IsHex64(author) && IsUuid(channel) && createdAt > 0
    ensures ValidEvent(ev) && ev.author == author && ev.createdAt == createdAt
    ensures |ev.content| == n && forall rest :: !Fits(ev.content, rest)
  {
    ev := Event(id, channel, author, createdAt, Angles(n));
    AnglesSize(n);
  }

  predicate Ready(r: Record, now: int) {
    r.nextAttemptAt.None? || r.nextAttemptAt.value <= now
  }

  /** The record `loadOrCreateRecord` builds for a new event. */
  function NewRecord(ev: Event, now: int): Record {
    Record(ev, Sha256(ev.content), TaskId(ev.id), Pending, FirstRun(TaskId(ev.id)), None, None, 0, None, 0, None, None, now)
  }

  /** The identity fields of `r` are those of the event. */
  predicate RecordFor(r: Record, ev: Event) {
    && r.event == ev && r.contentDigest == Sha256(ev.content)
    && r.taskId == TaskId(ev.id) && r.runDir.task == TaskId(ev.id)
  }

  function Cleared(r: Record): Record {
    r.(error := None, nextAttemptAt := None)
  }

  function Pow2(n: nat): (p: nat)
    ensures p > n
  {
    if n == 0 then 1 else 2 * Pow2(n - 1)
  }

  function Min(a: int, b: int): int {
    if a < b then a else b
  }

  /** Seconds before attempt number `n + 1`: exponential from five seconds, capped at five minutes. */
  function RetryDelay(n: nat): int
    requires n >= 1
  {
    Min(5 * Pow2(n - 1), 300)
  }

  /** The record after one failed attempt: dead-lettered when the failure is final or the
      attempt budget is spent, otherwise scheduled again. */
  function AfterFailure(r: Record, f: Failure, now: int): Record {
    var counted := r.(attempts := r.attempts + 1, error := Some(f));
    if !f.retryable || counted.attempts >= MAX_ATTEMPTS then
      counted.(resumePhase := if r.phase == DeadLetter then r.resumePhase else Some(r.phase),
               phase := DeadLetter, nextAttemptAt := None)
    else
      counted.(nextAttemptAt := Some(now + RetryDelay(counted.attempts) * SECOND))
  }

  /** The record an operator's retry writes. */
  function Requeued(r: Record): Record
    requires r.phase == DeadLetter ==> r.resumePhase.Some?
  {
    Cleared(r.(phase := if r.phase == DeadLetter then r.resumePhase.value else r.phase,
               resumePhase := None, attempts := 0))
  }

  /** The reply fields are those the phase needs that a retry would resume. */
  predicate FitsResumePhase(r: Record)
    requires r.resumePhase.Some?
  {
    if InPublishPhase(r.resumePhase.value) then r.replyDigest.Some? && r.publishCreatedAt != 0 else r.publishCreatedAt == 0
  }

  /** What an operator's retry gives: the record is due at once and has its whole budget again, so
      it takes ten more failures to dead-letter it; and what it writes can be read back unless it
      resumes a dead letter in a phase that its reply fields do not fit. */
  lemma RequeuedStartsOver(r: Record, now: int)
    requires Readable(r) && r.phase != Replied
    ensures Readable(Requeued(r)) <==> (r.phase == DeadLetter ==> FitsResumePhase(r))
    ensures Ready(Requeued(r), now) && Requeued(r).attempts == 0 && Requeued(r).error.None?
    ensures Requeued(r).phase != DeadLetter && Requeued(r).runDir == r.runDir
    ensures Requeued(r).replyDigest == r.replyDigest && Requeued(r).publishCreatedAt == r.publishCreatedAt
  {
  }

  /** The in-memory record that `completeRecord` and `recordFailure` update in place. */
  class LiveRecord {
    var rec: Record

    constructor (r: Record)
      ensures rec == r
    {
      rec := r;
    }

    method ClearFailure()
      modifies this
      ensures rec == Cleared(old(rec))
    {
      rec := rec.(error := None);
      rec := rec.(nextAttemptAt := None);
    }

    /** `recordFailure`: the doubling loop computes exactly the capped exponential delay. */
    method RecordFailure(f: Failure, now: int)
      modifies this
      ensures rec == AfterFailure(old(rec), f, now)
    {
      rec := rec.(attempts := rec.attempts + 1, error := Some(f));
      if !f.retryable || rec.attempts >= MAX_ATTEMPTS {
        if rec.phase != DeadLetter {
          rec := rec.(resumePhase := Some(rec.phase));
        }
        rec := rec.(phase := DeadLetter, nextAttemptAt := None);
        return;
      }
      var delay := DoublingDelay(rec.attempts);
      rec := rec.(nextAttemptAt := Some(now + delay * SECOND));
    }
  }

  /** The backoff loop of `recordFailure`, for every attempt count. */
  method DoublingDelay(attempts: nat) returns (delay: nat)
    requires attempts >= 1
    ensures delay == RetryDelay(attempts)
  {
    delay := 5;
    var attempt := 1;
    while attempt < attempts && delay < 300
      invariant 1 <= attempt <= attempts
      invariant delay == 5 * Pow2(attempt - 1)
    {
      delay := delay * 2;
      attempt := attempt + 1;
    }
    Pow2Monotone(attempt - 1, attempts - 1);
    if delay > 300 {
      delay := 300;
    }
  }

  lemma {:induction false} Pow2Monotone(m: nat, n: nat)
    requires m <= n
    ensures Pow2(m) <= Pow2(n)
    decreases n - m
  {
    if m == n {
    } else {
      Pow2Monotone(m + 1, n);
    }
  }
}
