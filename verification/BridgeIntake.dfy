/** Polling one Buzz channel: paging backwards through the relay with a composite cursor,
    recording every eligible event, and moving the durable cursor only after a complete poll. */
module BridgeIntake {
  import opened Common
  import opened BridgeRecord
  import opened BridgeWorker
  import opened BridgeInbox
  import opened Ordering

  datatype Message = Message(id: string, author: string, kind: nat, content: string, createdAt: int, tags: seq<seq<string>>)

  datatype Policy = Policy(agentKey: string, allowedAuthors: set<string>)

  datatype PageAnswer = PageError | Page(events: seq<Message>)

  /** The relay's answers: by page number, for a `since`, a `before` and a `before-id`. */
  type Relay = (nat, int, int, string) -> PageAnswer

  datatype Outcome = Advanced | LoadFailed | FetchFailed | IngestFailed | StoreFailed | Stalled | Saturated

  const PAGE := 200
  const MAX_PAGES := 50
  const REPLAY_SECONDS := 300

  // ---------------------------------------------------------------- eligibility

  function CountTags(tags: seq<seq<string>>, name: string, value: string): nat {
    if tags == [] then 0
    else
      var last := tags[|tags| - 1];
      CountTags(tags[..|tags| - 1], name, value) + (if |last| >= 2 && last[0] == name && last[1] == value then 1 else 0)
  }

  /** A well-formed mention by an allowed author, in this channel only. */
  predicate Eligible(policy: Policy, channel: string, m: Message) {
    && IsHex64(m.id) && IsHex64(m.author) && m.kind == 9 && |m.content| <= MAX_MESSAGE_BYTES
    && m.author != policy.agentKey && m.author in policy.allowedAuthors
    && (forall i :: 0 <= i < |m.tags| ==> 2 <= |m.tags[i]| <= 8 && (m.tags[i][0] == "h" ==> m.tags[i][1] == channel))
    && CountTags(m.tags, "h", channel) == 1 && CountTags(m.tags, "p", policy.agentKey) == 1
  }

  /** `eligible`: the tag loop, with its early exits. */
  method IsEligible(policy: Policy, channel: string, m: Message, now: int) returns (ok: bool)
    ensures ok <==> Eligible(policy, channel, m) && m.createdAt <= now + 300
  {
    if !IsHex64(m.id) || !IsHex64(m.author) || m.kind != 9 || |m.content| > MAX_MESSAGE_BYTES {
      return false;
    }
    if m.author == policy.agentKey || m.author !in policy.allowedAuthors {
      return false;
    }
    if m.createdAt > now + 300 {
      return false;
    }
    var hCount, mentionCount := 0, 0;
    for n := 0 to |m.tags|
      invariant forall i :: 0 <= i < n ==> 2 <= |m.tags[i]| <= 8 && (m.tags[i][0] == "h" ==> m.tags[i][1] == channel)
      invariant hCount == CountTags(m.tags[..n], "h", channel)
      invariant mentionCount == CountTags(m.tags[..n], "p", policy.agentKey)
    {
      var tag := m.tags[n];
      assert m.tags[..n + 1][..n] == m.tags[..n];
      if |tag| < 2 || |tag| > 8 {
        return false;
      }
      if tag[0] == "h" {
        hCount := hCount + 1;
        if tag[1] != channel {
          return false;
        }
      } else if tag[0] == "p" {
        if tag[1] == policy.agentKey {
          mentionCount := mentionCount + 1;
        }
      }
    }
    assert m.tags[..|m.tags|] == m.tags;
    return hCount == 1 && mentionCount == 1;
  }

  // ---------------------------------------------------------------- what the relay promises

  /** The composite order of events: time first, then ID. */
  predicate NoNewer(a: Message, b: Message) {
    a.createdAt < b.createdAt || (a.createdAt == b.createdAt && AtMost(a.id, b.id))
  }

  lemma NoNewerIsTotalPreorder()
    ensures TotalPreorder(NoNewer)
  {
    forall a: Message, b: Message ensures NoNewer(a, b) || NoNewer(b, a) {
      LessTrichotomy(a.id, b.id);
    }
    forall a: Message, b: Message, c: Message | NoNewer(a, b) && NoNewer(b, c) ensures NoNewer(a, c) {
      if a.createdAt == b.createdAt == c.createdAt {
        LessTransitive(a.id, b.id, c.id);
      }
    }
  }

  /** Inside the query window: not before `since`, and below the composite cursor. */
  predicate InWindow(m: Message, since: int, before: int, beforeId: string) {
    since <= m.createdAt && (m.createdAt < before || (m.createdAt == before && (beforeId == "" || Less(m.id, beforeId))))
  }

  /** The page holds the newest events of `view` in the window, up to the page limit. */
  predicate NewestBelow(view: set<Message>, since: int, before: int, beforeId: string, page: seq<Message>) {
    && (forall m :: m in page ==> m in view && InWindow(m, since, before, beforeId))
    && (forall m :: m in view && InWindow(m, since, before, beforeId) && m !in page ==>
          |page| == PAGE && forall p :: p in page ==> !NoNewer(p, m))
  }

  /** A relay that answers page `k` from what it holds then, `views(k)`, or fails. */
  ghost predicate Keyset(relay: Relay, views: nat -> set<Message>) {
    forall k: nat, since, before, beforeId ::
      relay(k, since, before, beforeId).Page? ==> NewestBelow(views(k), since, before, beforeId, relay(k, since, before, beforeId).events)
  }

  /** `fetchEventPage` accepts a page of at most 200 events inside the bridge envelope. */
  predicate PageAccepted(events: seq<Message>, now: int) {
    |events| <= PAGE &&
    forall m :: m in events ==>
      IsHex64(m.id) && IsHex64(m.author) && m.kind == 9 && 0 < m.createdAt <= now + 300 && |m.content| <= MAX_MESSAGE_BYTES
  }

  class Poller {
    const policy: Policy
    const channel: string
    const lookback: int
    const config: BridgeInbox.Config
    /** The durable cursor of the channel. */
    var cursor: Option<int>
    /** The durable inbox, which workers change meanwhile. */
    var inbox: Inbox
    /** The events whose record has been seen replied since the poller started. */
    ghost var replied: iset<string>
    /** The events that intake has accepted. */
    ghost var kept: iset<string>

    /** No intake is under way, and every accepted event has its own stored record or was replied. */
    ghost predicate Valid()
      reads this
    {
      OpenInv(config, inbox) && inbox.intake.CapacityFree? && forall id :: id in kept ==> StoredOrSeen(config, inbox, replied, id)
    }

    constructor (policy: Policy, channel: string, lookback: int, config: BridgeInbox.Config)
      ensures this.policy == policy && this.channel == channel && this.lookback == lookback && this.config == config
      ensures Valid() && cursor == None && inbox == EMPTY_INBOX
    {
      this.policy, this.channel, this.lookback, this.config := policy, channel, lookback, config;
      cursor, inbox, replied, kept := None, EMPTY_INBOX, iset{}, iset{};
    }

    function Since(startedAt: int): int
      reads this
    {
      if cursor.Some? then cursor.value - REPLAY_SECONDS else startedAt - lookback
    }

    /** Every eligible event of `base` in the poll's window and above the page cursor is kept. */
    ghost predicate Covered(base: set<Message>, since: int, startedAt: int, before: int, beforeId: string)
      reads this
    {
      forall m :: m in base && Eligible(policy, channel, m) && InWindow(m, since, startedAt, "") ==>
        InWindow(m, since, before, beforeId) || m.id in kept
    }

    /** Whatever happens to the inbox between two intakes of this poller: workers, retries, stops,
        and whole or broken-off intakes of other events, in any order. */
    method Elsewhere()
      requires Valid()
      modifies this`inbox, this`replied
      ensures Valid()
    {
      hide OpenInv;
      var moves: seq<Move> := *;
      if BridgeInbox.CanRun(config, inbox, moves) && BridgeInbox.After(config, inbox, moves).intake.CapacityFree? {
        RunKeepsStored(config, inbox, moves, replied);
        replied := replied + SeenReplied(config, inbox, moves);
        inbox := BridgeInbox.After(config, inbox, moves);
      }
    }

    /** `ingest` for one event.  Between its operations workers and retries make any moves at all;
        it ends with its verdict, or with a stop of the process at any point.  An event that is not
        the one its ID stands for does not get past the verifying relay client. */
    method Ingest(m: Message) returns (ok: bool)
      requires Valid()
      modifies this`inbox, this`replied, this`kept
      ensures Valid() && kept == if ok then old(kept) + iset{m.id} else old(kept)
    {
      hide OpenInv;
      Elsewhere();
      var ev := Event(m.id, channel, m.author, m.createdAt, m.content);
      if ev != config.catalog(m.id) {
        return false;
      }
      var moves: seq<Move> := *;
      var s1 := Next(config, inbox, Enter(ev));
      if !DuringIntake(config, s1, moves) {
        moves := [];
      }
      var s2 := BridgeInbox.After(config, s1, moves);
      IntakeKeeps(config, inbox, ev, moves, replied);
      ok := s2.intake.Leaving? && s2.intake.verdict == Accepted;
      if ok {
        kept := kept + iset{m.id};
      }
      replied := replied + SeenReplied(config, s1, moves);
      inbox := s2.(intake := CapacityFree);
    }

    /** Ingests the eligible events of one page in order, until intake fails.  If it gets through,
        it has kept exactly those that were eligible when their turn came. */
    method IngestPage(events: seq<Message>, now: nat -> int) returns (ok: bool)
      requires Valid()
      modifies this`inbox, this`replied, this`kept
      ensures Valid() && old(kept) <= kept
      ensures ok ==> forall i :: 0 <= i < |events| && Taken(events[i], now(i)) ==> events[i].id in kept
      ensures forall id :: id in kept && id !in old(kept) ==> exists i :: 0 <= i < |events| && events[i].id == id && Taken(events[i], now(i))
    {
      hide OpenInv;
      for n := 0 to |events|
        invariant Valid() && old(kept) <= kept
        invariant forall i :: 0 <= i < n && Taken(events[i], now(i)) ==> events[i].id in kept
        invariant forall id :: id in kept && id !in old(kept) ==> exists i :: 0 <= i < n && events[i].id == id && Taken(events[i], now(i))
      {
        var eligible := IsEligible(policy, channel, events[n], now(n));
        if eligible {
          var ingested := Ingest(events[n]);
          if !ingested {
            return false;
          }
        }
      }
      ok := true;
    }

    predicate Taken(m: Message, now: int) {
      Eligible(policy, channel, m) && m.createdAt <= now + 300
    }

    /** One page of the loop: fetch, sort and ingest. */
    method PollPage(page: nat, since: int, startedAt: int, before: int, beforeId: string, clock: nat -> int, relay: Relay)
      returns (r: PageResult, ghost events: seq<Message>)
      requires Valid()
      modifies this`inbox, this`replied, this`kept
      ensures Valid() && old(kept) <= kept
      ensures !r.NoPage? ==>
                && relay(page, since, before, beforeId).Page? && multiset(events) == multiset(relay(page, since, before, beforeId).events)
                && SortedBy(events, NoNewer) && (forall m :: m in events ==> IsHex64(m.id))
                && (Steady(clock, startedAt) ==> PageKept(events, startedAt))
      ensures r.NoPage? ==> r.failure == FetchFailed || r.failure == IngestFailed
      ensures r.LastPage? ==> |events| < PAGE
      ensures r.MorePages? ==> |events| > 0 && r.oldest == events[0]
    {
      var answer := relay(page, since, before, beforeId);
      events := [];
      if answer.PageError? || !PageAccepted(answer.events, clock(0)) {
        return NoPage(FetchFailed), [];
      }
      NoNewerIsTotalPreorder();
      var sorted := Sort(answer.events, NoNewer);
      events := sorted;
      SameElements(sorted, answer.events);
      var ingested := IngestPage(sorted, (n: nat) => clock(n + 1));
      if !ingested {
        return NoPage(IngestFailed), events;
      }
      r := if |sorted| < PAGE then LastPage else MorePages(sorted[0]);
    }

    /** `pollChannel`.  Whatever the relay and the clock do, the cursor moves only to the start of a poll that
        ingested every page, and nothing kept is lost.  If the relay pages correctly over views that
        keep `base`, and the clock does not fall back during a page, a poll that got that far has
        kept every eligible event of `base` in the window: each has a stored record or was replied;
        and the stalled-pagination error never occurs. */
    method PollChannel(startedAt: int, clock: nat -> nat -> int, relay: Relay, ghost base: set<Message>, ghost views: nat -> set<Message>)
      returns (outcome: Outcome, moved: bool)
      requires Valid()
      modifies this
      ensures Valid() && old(kept) <= kept
      ensures cursor == if moved then Some(startedAt) else old(cursor)
      ensures outcome == Advanced ==> moved
      ensures moved ==> outcome == Advanced || outcome == StoreFailed
      ensures Keyset(relay, views) ==> outcome != Stalled
      ensures (outcome == Advanced || outcome == StoreFailed) && Keyset(relay, views) && (forall k: nat :: base <= views(k)) && SteadyPoll(clock, startedAt) ==>
                AllKept(base, old(Since(startedAt)), startedAt)
    {
      hide OpenInv;
      moved := false;
      var loads: bool := *;
      if !loads || (cursor.Some? && cursor.value <= 0) {
        return LoadFailed, false;
      }
      var since := Since(startedAt);
      var before, beforeId := startedAt, "";
      for page := 0 to MAX_PAGES
        invariant Valid() && cursor == old(cursor) && old(kept) <= kept
        invariant beforeId != "" ==> IsHex64(beforeId)
        invariant before <= startedAt
        invariant Keyset(relay, views) && (forall k: nat :: base <= views(k)) && SteadyPoll(clock, startedAt) ==>
                    Covered(base, since, startedAt, before, beforeId)
      {
        ghost var events: seq<Message>;
        var r;
        r, events := PollPage(page, since, startedAt, before, beforeId, clock(page), relay);
        if r.NoPage? {
          return r.failure, false;
        }
        ghost var answer := relay(page, since, before, beforeId).events;
        SameElements(events, answer);
        if r.LastPage? {
          if Keyset(relay, views) && (forall k: nat :: base <= views(k)) && SteadyPoll(clock, startedAt) {
            LastPageCovers(base, views(page), since, startedAt, before, beforeId, answer, events);
          }
          outcome, moved := WriteCursor(startedAt);
          return;
        }
        if r.oldest.createdAt > before || (r.oldest.createdAt == before && AtMost(beforeId, r.oldest.id) && beforeId != "") {
          if Keyset(relay, views) {
            NeverStalls(views(page), since, before, beforeId, answer, r.oldest);
          }
          return Stalled, false;
        }
        if Keyset(relay, views) && (forall k: nat :: base <= views(k)) && SteadyPoll(clock, startedAt) {
          FullPageCovers(base, views(page), since, startedAt, before, beforeId, answer, events);
        }
        before, beforeId := r.oldest.createdAt, r.oldest.id;
      }
      return Saturated, false;
    }

    ghost predicate AllKept(base: set<Message>, since: int, startedAt: int)
      reads this
    {
      forall m :: m in base && Eligible(policy, channel, m) && since <= m.createdAt <= startedAt ==> m.id in kept
    }

    /** `writeCursor`: an error may come before or after the rename. */
    method WriteCursor(startedAt: int) returns (outcome: Outcome, moved: bool)
      modifies this`cursor
      ensures outcome == Advanced || outcome == StoreFailed
      ensures outcome == Advanced ==> moved
      ensures cursor == if moved then Some(startedAt) else old(cursor)
    {
      var written: WriteOutcome := *;
      moved := written != ErrorNotDurable;
      if moved {
        cursor := Some(startedAt);
      }
      outcome := if written == Durable then Advanced else StoreFailed;
    }

    /** The page was ingested as a whole. */
    ghost predicate PageKept(events: seq<Message>, startedAt: int)
      reads this
    {
      forall i :: 0 <= i < |events| && Eligible(policy, channel, events[i]) && events[i].createdAt <= startedAt ==> events[i].id in kept
    }

    lemma FullPageCovers(base: set<Message>, view: set<Message>, since: int, startedAt: int, before: int, beforeId: string,
                         page: seq<Message>, events: seq<Message>)
      requires base <= view && NewestBelow(view, since, before, beforeId, page)
      requires multiset(events) == multiset(page) && SortedBy(events, NoNewer) && |events| > 0 && events[0].id != ""
      requires PageKept(events, startedAt) && Covered(base, since, startedAt, before, beforeId)
      ensures Covered(base, since, startedAt, events[0].createdAt, events[0].id)
    {
      forall m | m in base && Eligible(policy, channel, m) && InWindow(m, since, startedAt, "") && !InWindow(m, since, events[0].createdAt, events[0].id)
        ensures m.id in kept
      {
        if InWindow(m, since, before, beforeId) {
          PageCovers(view, since, before, beforeId, page, events, m);
        }
      }
    }

    lemma LastPageCovers(base: set<Message>, view: set<Message>, since: int, startedAt: int, before: int, beforeId: string,
                         page: seq<Message>, events: seq<Message>)
      requires base <= view && NewestBelow(view, since, before, beforeId, page) && |page| < PAGE
      requires multiset(events) == multiset(page)
      requires PageKept(events, startedAt) && Covered(base, since, startedAt, before, beforeId)
      ensures AllKept(base, since, startedAt)
    {
      SameElements(events, page);
      forall m | m in base && Eligible(policy, channel, m) && since <= m.createdAt <= startedAt ensures m.id in kept {
        if InWindow(m, since, before, beforeId) {
          assert m in events;
        }
      }
    }

    /** Repeated polls, successful or not, with any clock.  If the clock does not
        fall back during a page, every eligible event that appears at the
        relay no later than 300 s after its own timestamp, and lies within the lookback of the first
        poll that moved the cursor, has a stored record or was replied once a poll that starts at or
        after both has moved it. */
    method RunPolls(starts: seq<int>, clock: nat -> nat -> nat -> int, relay: nat -> Relay,
                    ghost all: set<Message>, ghost appears: Message -> int, ghost views: nat -> nat -> set<Message>)
      returns (done: seq<bool>)
      requires Valid() && cursor == None
      requires forall i: nat :: Keyset(relay(i), views(i))
      requires forall i, m, k: nat :: 0 <= i < |starts| && m in all && appears(m) <= starts[i] ==> m in views(i)(k)
      modifies this
      ensures Valid() && |done| == |starts|
      ensures cursor == LastDone(starts, done)
      ensures (forall n :: 0 <= n < |starts| ==> SteadyPoll(clock(n), starts[n])) ==>
              forall f, i, m ::
                && 0 <= f <= i < |starts| && done[f] && done[i] && (forall e :: 0 <= e < f ==> !done[e])
                && m in all && Eligible(policy, channel, m)
                && appears(m) <= m.createdAt + REPLAY_SECONDS && m.createdAt >= starts[f] - lookback
                && m.createdAt <= starts[i] && appears(m) <= starts[i]
                ==> m.id in kept
    {
      hide OpenInv;
      done := [];
      ghost var first: int := -1;
      for n := 0 to |starts|
        invariant Valid() && |done| == n
        invariant cursor == LastDone(starts[..n], done)
        invariant -1 <= first < n && (first == -1 <==> cursor.None?)
        invariant first >= 0 ==> done[first]
        invariant forall e :: 0 <= e < n && done[e] ==> 0 <= first <= e
        invariant (forall k :: 0 <= k < |starts| ==> SteadyPoll(clock(k), starts[k])) && first >= 0 ==>
                    Caught(all, appears, starts[first] - lookback, cursor.value)
        invariant (forall k :: 0 <= k < |starts| ==> SteadyPoll(clock(k), starts[k])) ==>
                    forall i :: 0 <= i < n && done[i] ==> Caught(all, appears, starts[first] - lookback, starts[i])
      {
        ghost var horizon := (if first == -1 then starts[n] else starts[first]) - lookback;
        var moved := PollAndCatch(starts[n], clock(n), relay(n), all, appears, views(n), horizon);
        done := done + [moved];
        assert starts[..n + 1][..n] == starts[..n];
        if moved && first == -1 {
          first := n;
        }
      }
      assert starts[..|starts|] == starts;
    }

    /** One poll of a sequence: what is caught up to any time stays caught, and a poll that moves
        the cursor catches everything up to its own start. */
    method PollAndCatch(startedAt: int, clock: nat -> nat -> int, relay: Relay,
                        ghost all: set<Message>, ghost appears: Message -> int, ghost views: nat -> set<Message>, ghost horizon: int)
      returns (moved: bool)
      requires Valid()
      requires Keyset(relay, views)
      requires forall m, k: nat :: m in all && appears(m) <= startedAt ==> m in views(k)
      requires cursor.None? ==> horizon == startedAt - lookback
      modifies this
      ensures Valid()
      ensures cursor == if moved then Some(startedAt) else old(cursor)
      ensures moved && SteadyPoll(clock, startedAt) && (old(cursor).Some? ==> old(Caught(all, appears, horizon, cursor.value))) ==>
                Caught(all, appears, horizon, startedAt)
      ensures old(kept) <= kept
    {
      hide OpenInv;
      ghost var base := set m | m in all && appears(m) <= startedAt;
      var outcome;
      outcome, moved := PollChannel(startedAt, clock, relay, base, views);
    }

    ghost predicate Caught(all: set<Message>, appears: Message -> int, horizon: int, upTo: int)
      reads this
    {
      forall m :: m in all && Eligible(policy, channel, m) && appears(m) <= m.createdAt + REPLAY_SECONDS ==>
        horizon <= m.createdAt <= upTo && appears(m) <= upTo ==> m.id in kept
    }
  }

  datatype PageResult = NoPage(failure: Outcome) | LastPage | MorePages(oldest: Message)

  /** The clock of one page, read once when the page arrives and then for each event, is never both
      behind its first reading and more than 300 s behind the start of the poll. */
  ghost predicate Steady(clock: nat -> int, startedAt: int) {
    forall n: nat :: clock(n) >= startedAt - 300 || clock(n) >= clock(0)
  }

  ghost predicate SteadyPoll(clock: nat -> nat -> int, startedAt: int) {
    forall page: nat :: Steady(clock(page), startedAt)
  }

  ghost predicate StoredOrSeen(c: BridgeInbox.Config, s: Inbox, replied: iset<string>, id: string) {
    (SlotAt(s, id).file.Stored? && SlotAt(s, id).file.rec.event == c.catalog(id)) || id in replied
  }

  lemma OpenIsStored(c: BridgeInbox.Config, s: Inbox, replied: iset<string>, id: string)
    requires OpenInv(c, s) && SlotAt(s, id).file.Stored?
    ensures StoredOrSeen(c, s, replied, id)
  {
    SlotAtInv(c, s, id);
  }

  /** The events whose record was seen replied along the run. */
  ghost function SeenReplied(c: BridgeInbox.Config, s: Inbox, moves: seq<Move>): iset<string>
    requires BridgeInbox.CanRun(c, s, moves)
  {
    iset id | EverReplied(c, s, moves, id)
  }

  lemma StoredStays(c: BridgeInbox.Config, s: Inbox, moves: seq<Move>, replied: iset<string>, id: string)
    requires BridgeInbox.CanRun(c, s, moves) && OpenInv(c, BridgeInbox.After(c, s, moves))
    requires (s.intake.CapacityFree? || s.intake.Entered?) && StoredOrSeen(c, s, replied, id)
    ensures StoredOrSeen(c, BridgeInbox.After(c, s, moves), replied + SeenReplied(c, s, moves), id)
  {
    hide OpenInv;
    if id !in replied && !EverReplied(c, s, moves, id) {
      UnrepliedIsNeverRemoved(c, s, moves, id, SlotAt(s, id).birth);
      OpenIsStored(c, BridgeInbox.After(c, s, moves), replied + SeenReplied(c, s, moves), id);
    }
  }

  /** Along any run that begins outside an intake's list, what was stored is stored or was seen
      replied. */
  lemma RunKeepsStored(c: BridgeInbox.Config, s: Inbox, moves: seq<Move>, replied: iset<string>)
    requires OpenInv(c, s) && (s.intake.CapacityFree? || s.intake.Entered?) && BridgeInbox.CanRun(c, s, moves)
    ensures OpenInv(c, BridgeInbox.After(c, s, moves))
    ensures forall id :: StoredOrSeen(c, s, replied, id) ==>
                           StoredOrSeen(c, BridgeInbox.After(c, s, moves), replied + SeenReplied(c, s, moves), id)
  {
    hide OpenInv;
    RunKeepsOpen(c, s, moves);
    forall id | StoredOrSeen(c, s, replied, id)
      ensures StoredOrSeen(c, BridgeInbox.After(c, s, moves), replied + SeenReplied(c, s, moves), id)
    {
      StoredStays(c, s, moves, replied, id);
    }
  }

  /** An intake that has begun, has gone on for any moves, and has then ended or been stopped. */
  lemma IntakeKeeps(c: BridgeInbox.Config, s: Inbox, ev: Event, moves: seq<Move>, replied: iset<string>)
    requires OpenInv(c, s) && BridgeInbox.Possible(c, s, Enter(ev)) && DuringIntake(c, Next(c, s, Enter(ev)), moves)
    ensures var s1 := Next(c, s, Enter(ev));
            var s2 := BridgeInbox.After(c, s1, moves);
            var t, seen := s2.(intake := CapacityFree), replied + SeenReplied(c, s1, moves);
            && OpenInv(c, t)
            && (forall id :: StoredOrSeen(c, s, replied, id) ==> StoredOrSeen(c, t, seen, id))
            && (s2.intake.Leaving? && s2.intake.verdict == Accepted ==> StoredOrSeen(c, t, seen, ev.id))
  {
    hide OpenInv;
    MoveKeepsOpen(c, s, Enter(ev));
    var s1 := Next(c, s, Enter(ev));
    RunKeepsStored(c, s1, moves, replied);
    AcceptedHasRecord(c, s1, moves, ev.id);
    var s2 := BridgeInbox.After(c, s1, moves);
    MoveKeepsOpen(c, s2, StopIntake);
    var t, seen := s2.(intake := CapacityFree), replied + SeenReplied(c, s1, moves);
    forall id | StoredOrSeen(c, s, replied, id) ensures StoredOrSeen(c, t, seen, id) {
      assert StoredOrSeen(c, s1, replied, id);
      assert StoredOrSeen(c, s2, seen, id);
    }
    if s2.intake.Leaving? && s2.intake.verdict == Accepted {
      OpenIsStored(c, t, seen, ev.id);
    }
  }

  /** A full page of a relay that pages correctly ends below the cursor. */
  lemma NeverStalls(view: set<Message>, since: int, before: int, beforeId: string, page: seq<Message>, oldest: Message)
    requires NewestBelow(view, since, before, beforeId, page) && oldest in page
    ensures !(oldest.createdAt > before || (oldest.createdAt == before && AtMost(beforeId, oldest.id) && beforeId != ""))
  {
  }

  /** A run of one intake that has begun, as far as it goes. */
  predicate DuringIntake(c: BridgeInbox.Config, s: Inbox, moves: seq<Move>) {
    BridgeInbox.CanRun(c, s, moves) && forall i :: 0 <= i < |moves| ==> WithinIntake(moves[i])
  }

  /** The start of the last successful poll. */
  function LastDone(starts: seq<int>, done: seq<bool>): Option<int>
    requires |starts| == |done|
  {
    if done == [] then None
    else if done[|done| - 1] then Some(starts[|done| - 1])
    else LastDone(starts[..|done| - 1], done[..|done| - 1])
  }

  /** An event between the old cursor and the page's oldest event is on the page. */
  lemma PageCovers(view: set<Message>, since: int, before: int, beforeId: string, page: seq<Message>, sorted: seq<Message>, m: Message)
    requires NewestBelow(view, since, before, beforeId, page)
    requires multiset(sorted) == multiset(page) && SortedBy(sorted, NoNewer) && |sorted| > 0
    requires m in view && InWindow(m, since, before, beforeId)
    requires !InWindow(m, since, sorted[0].createdAt, sorted[0].id)
    requires sorted[0].id != ""
    ensures m in sorted
  {
    SameElements(sorted, page);
    assert sorted[0] in page;
    LessTrichotomy(m.id, sorted[0].id);
  }
}
