/** `ensureRecordCapacity` as the source runs it: scan the record directory, sort what may go,
    remove from the front until there is room. */
module BridgeCapacity {
  import opened BridgeRecord
  import opened BridgeWorker
  import opened BridgeInbox
  import opened Ordering

  lemma OlderFirstIsTotalPreorder()
    ensures TotalPreorder(OlderFirst)
  {
    forall a: Candidate, b: Candidate ensures OlderFirst(a, b) || OlderFirst(b, a) {
      LessTrichotomy(a.id, b.id);
    }
    forall a: Candidate, b: Candidate, c: Candidate | OlderFirst(a, b) && OlderFirst(b, c) ensures OlderFirst(a, c) {
      if a.updatedAt == b.updatedAt == c.updatedAt {
        LessTransitive(a.id, b.id, c.id);
      }
    }
  }

  /** A finished record older than the replay window. */
  predicate Evictable(f: File, cutoff: int) {
    f.Stored? && f.rec.phase == Replied && f.rec.updatedAt < cutoff
  }

  predicate IsCandidate(files: map<string, File>, cutoff: int, x: Candidate) {
    x.id in files && Evictable(files[x.id], cutoff) && x.updatedAt == files[x.id].rec.updatedAt
  }

  /** The record files of the inbox. */
  function Files(s: Inbox): map<string, File> {
    map id | id in Present(s) :: s.slots[id].file
  }

  lemma FilesAfterEviction(s: Inbox)
    requires s.intake.Evicting? && s.intake.queue != [] && s.intake.queue[0].id in Present(s)
    ensures Files(AfterEvictNext(s)) == Files(s) - {s.intake.queue[0].id}
  {
    var id := s.intake.queue[0].id;
    PutPresent(s, id, SlotAt(s, id).(file := Absent), AfterEvictNext(s).intake);
    var t := AfterEvictNext(s);
    assert Present(t) == Present(s) - {id};
    assert Files(t).Keys == (Files(s) - {id}).Keys;
  }

  class RecordDirectory {
    const config: Config
    var files: map<string, File>

    ghost const start: Inbox
    ghost var trace: seq<Move>
    ghost var model: Inbox

    /** The trace is a run of the inbox from the start, and the directory is where it leads. */
    ghost predicate Valid()
      reads this
    {
      IsRun(config, start, trace, model) && files == Files(model)
    }

    constructor (config: Config, s: Inbox)
      ensures Valid() && this.config == config && start == s && trace == [] && model == s
    {
      this.config, files := config, Files(s);
      start, trace, model := s, [], s;
    }

    ghost method Take(m: Move)
      requires IsRun(config, start, trace, model) && Possible(config, model, m)
      modifies this`trace, this`model
      ensures IsRun(config, start, trace, model) && model == Next(config, old(model), m)
    {
      OneMove(config, model, m);
      RunExtends(config, start, trace, [m]);
      trace := trace + [m];
      model := Next(config, model, m);
    }

    ghost method TakeScanNext(ev: Event, cutoff: int, listing: seq<string>, n: nat, completed: seq<Candidate>)
      requires Valid() && n < |listing| && listing[n] in files
      requires model.intake == Scanning(ev, cutoff, listing[n..], n, completed)
      modifies this`trace, this`model
      ensures Valid()
      ensures model.intake ==
              if !ReadableFile(files[listing[n]]) then Leaving(Broken, 0)
              else Scanning(ev, cutoff, listing[n + 1..], n + 1, completed + Collected(files[listing[n]], cutoff, listing[n]))
    {
      hide IsRun;
      ScanStep(config, model, ev, cutoff, listing, n, completed);
      Take(ScanNext);
    }

    ghost method TakeEvictNext(ev: Event, cutoff: int, queue: seq<Candidate>, n: nat)
      requires Valid() && n < |queue| && queue[n].id in files && |files| >= config.maxRecords
      requires model.intake == Evicting(ev, cutoff, queue[n..], |files|, n)
      modifies this`trace, this`model
      ensures IsRun(config, start, trace, model) && Files(model) == files - {queue[n].id}
      ensures model.intake == Evicting(ev, cutoff, queue[n + 1..], |files| - 1, n + 1)
    {
      hide IsRun;
      FilesAfterEviction(model);
      assert queue[n..][1..] == queue[n + 1..] && queue[n..][0] == queue[n];
      Take(EvictNext);
    }

    ghost method TakeEvictFails(ev: Event, cutoff: int, queue: seq<Candidate>, n: nat)
      requires Valid() && n <= |queue| && (n > 0 || (queue != [] && |files| >= config.maxRecords))
      requires model.intake == Evicting(ev, cutoff, queue[n..], |files|, n)
      modifies this`trace, this`model
      ensures Valid() && model.intake == Leaving(Broken, n)
    {
      hide IsRun;
      Take(EvictFails);
      SameFiles(old(model), model);
    }

    ghost method TakeScanEnd(ev: Event, cutoff: int, completed: seq<Candidate>, queue: seq<Candidate>)
      requires Valid() && model.intake == Scanning(ev, cutoff, [], |files|, completed)
      requires multiset(queue) == multiset(completed) && SortedBy(queue, OlderFirst)
      modifies this`trace, this`model
      ensures Valid()
      ensures model.intake == if |files| < config.maxRecords then Creating(ev, 0) else Evicting(ev, cutoff, queue, |files|, 0)
    {
      hide IsRun;
      Take(ScanEnd(queue));
      SameFiles(old(model), model);
    }

    ghost method TakeEvictEnd(ev: Event, cutoff: int, queue: seq<Candidate>, n: nat)
      requires Valid() && model.intake == Evicting(ev, cutoff, queue, |files|, n)
      requires queue == [] || |files| < config.maxRecords
      modifies this`trace, this`model
      ensures Valid()
      ensures model.intake == if |files| < config.maxRecords then Creating(ev, n) else Leaving(Refused, n)
    {
      hide IsRun;
      Take(EvictEnd);
      SameFiles(old(model), model);
    }

    /** The scan: refuse an unreadable entry, otherwise collect every record that may go. */
    method Scan(ghost ev: Event, listing: seq<string>, cutoff: int) returns (ok: bool, completed: seq<Candidate>)
      requires Valid() && Distinct(listing) && Elements(listing) == files.Keys
      requires model.intake == Scanning(ev, cutoff, listing, 0, [])
      modifies this`trace, this`model
      ensures Valid()
      ensures model.intake == if ok then Scanning(ev, cutoff, [], |listing|, completed) else Leaving(Broken, 0)
      ensures ok <==> forall id :: id in files ==> ReadableFile(files[id])
      ensures ok ==> AllCollected(files, cutoff, completed)
    {
      hide IsRun, Files, Gathered, Elements;
      completed := [];
      NothingGathered(files, cutoff, listing);
      for n := 0 to |listing|
        invariant Valid() && files == old(files)
        invariant model.intake == Scanning(ev, cutoff, listing[n..], n, completed)
        invariant Gathered(files, cutoff, listing, n, completed)
      {
        var id := listing[n];
        InListing(listing, n);
        TakeScanNext(ev, cutoff, listing, n, completed);
        if !ReadableFile(files[id]) {
          return false, [];
        }
        GatherNext(files, cutoff, listing, n, completed);
        if Evictable(files[id], cutoff) {
          completed := completed + [Candidate(files[id].rec.updatedAt, id)];
        }
      }
      ok := true;
      GatheredAll(files, cutoff, listing, completed);
    }

    method RemoveFile(ghost ev: Event, ghost cutoff: int, queue: seq<Candidate>, n: nat, ghost before: map<string, File>)
      requires Valid() && n < |queue| && InDirectory(before, queue) && FrontGone(before, files, queue, n)
      requires |files| >= config.maxRecords && model.intake == Evicting(ev, cutoff, queue[n..], |files|, n)
      modifies this
      ensures Valid() && FrontGone(before, files, queue, n + 1) && |files| == |old(files)| - 1
      ensures model.intake == Evicting(ev, cutoff, queue[n + 1..], |files|, n + 1)
    {
      hide IsRun, Files, FrontGone, InDirectory;
      RemoveOne(before, files, queue, n);
      TakeEvictNext(ev, cutoff, queue, n);
      files := files - {queue[n].id};
    }

    /** The removal loop: the front of the queue goes, until there is room, it is empty, or a
        removal or the sync after it fails. */
    method RemoveFront(ghost ev: Event, ghost cutoff: int, queue: seq<Candidate>) returns (n: nat, failed: bool)
      requires Valid() && model.intake == Evicting(ev, cutoff, queue, |files|, 0)
      requires InDirectory(files, queue)
      modifies this
      ensures Valid() && n <= |queue| && FrontGone(old(files), files, queue, n)
      ensures model.intake == if failed then Leaving(Broken, n) else Evicting(ev, cutoff, queue[n..], |files|, n)
      ensures failed || n == |queue| || |files| < config.maxRecords
      ensures n > 0 ==> |files| >= config.maxRecords - 1
    {
      hide IsRun, Files, FrontGone, InDirectory;
      n := 0;
      NothingGone(files, queue);
      var count := |files|;
      while n < |queue| && count >= config.maxRecords
        invariant 0 <= n <= |queue| && count == |files|
        invariant Valid() && model.intake == Evicting(ev, cutoff, queue[n..], count, n)
        invariant FrontGone(old(files), files, queue, n)
        invariant n > 0 ==> count >= config.maxRecords - 1
      {
        failed := *;
        if failed {
          TakeEvictFails(ev, cutoff, queue, n);
          return;
        }
        RemoveFile(ev, cutoff, queue, n, old(files));
        count := count - 1;
        n := n + 1;
      }
      failed := *;
      if n == 0 {
        failed := false;
      }
      if failed {
        TakeEvictFails(ev, cutoff, queue, n);
      }
    }

    /** The part of `ensureRecordCapacity` after the scan. */
    method MakeRoom(ghost ev: Event, cutoff: int, completed: seq<Candidate>) returns (ok: bool, failed: bool)
      requires Valid() && AllCollected(files, cutoff, completed) && model.intake == Scanning(ev, cutoff, [], |files|, completed)
      modifies this
      ensures Valid() && Outcome(ev, |old(files)|, model.intake, ok)
      ensures RoomMade(old(files), files, config.maxRecords, cutoff, ok, failed)
    {
      hide IsRun, Files, AllCollected, FrontGone, InDirectory, RoomMade;
      var queue := SortedQueue(completed);
      TakeScanEnd(ev, cutoff, completed, queue);
      if |files| < config.maxRecords {
        EnoughRoom(files, config.maxRecords, cutoff);
        return true, false;
      }
      QueueIsCollected(files, cutoff, completed, queue);
      var n;
      n, failed := RemoveFront(ev, cutoff, queue);
      FrontMakesRoom(old(files), files, config.maxRecords, cutoff, queue, n, failed);
      ok := !failed && |files| < config.maxRecords;
      if !failed {
        TakeEvictEnd(ev, cutoff, queue[n..], n);
      }
    }

    /** How the run ends, with its evictions counted. */
    ghost predicate Outcome(ev: Event, before: nat, intake: Intake, ok: bool)
      reads this
    {
      if ok then intake.Creating? && intake.ev == ev && intake.removed + |files| == before
      else intake.Leaving? && intake.verdict != Accepted && intake.removed + |files| == before
    }

    /** Makes room for one more record, as a run of the inbox that ends ready to create it, or leaves
        with an error; an unreadable entry changes nothing.  What it does otherwise `RoomMade` says. */
    method EnsureCapacity(ghost ev: Event, listing: seq<string>, now: int) returns (ok: bool, failed: bool)
      requires Valid() && Distinct(listing) && Elements(listing) == files.Keys
      requires model.intake == Scanning(ev, now - REPLAY, listing, 0, [])
      modifies this
      ensures Valid() && Outcome(ev, |old(files)|, model.intake, ok)
      ensures if forall id :: id in old(files) ==> ReadableFile(old(files)[id])
              then RoomMade(old(files), files, config.maxRecords, now - REPLAY, ok, failed)
              else !ok && files == old(files)
    {
      hide IsRun, Files, AllCollected, RoomMade;
      var readable, completed := Scan(ev, listing, now - REPLAY);
      if !readable {
        return false, false;
      }
      DistinctCount(listing);
      ok, failed := MakeRoom(ev, now - REPLAY, completed);
    }
  }

  /** It removes only finished records older than the replay window, the oldest first, and never
      more than are needed; unless a removal or the sync after it fails it removes as many as are
      needed and available, and succeeds exactly when there is room afterwards. */
  ghost predicate RoomMade(before: map<string, File>, after: map<string, File>, maximum: nat, cutoff: int, ok: bool, failed: bool) {
    && (forall id :: id in after ==> id in before && after[id] == before[id])
    && OldestGone(before, after, cutoff)
    && (after == before || |after| >= maximum - 1)
    && (failed ==> !ok)
    && (!failed ==> (ok <==> |after| < maximum) && (!ok ==> forall id :: id in after ==> !Evictable(after[id], cutoff)))
  }

  method SortedQueue(completed: seq<Candidate>) returns (queue: seq<Candidate>)
    ensures multiset(queue) == multiset(completed) && SortedBy(queue, OlderFirst)
  {
    OlderFirstIsTotalPreorder();
    queue := Sort(completed, OlderFirst);
  }

  lemma EnoughRoom(files: map<string, File>, maximum: nat, cutoff: int)
    requires |files| < maximum
    ensures RoomMade(files, files, maximum, cutoff, true, false)
  {
  }

  lemma FrontMakesRoom(before: map<string, File>, after: map<string, File>, maximum: nat, cutoff: int, queue: seq<Candidate>, n: nat, failed: bool)
    requires AllCollected(before, cutoff, queue) && SortedBy(queue, OlderFirst) && FrontGone(before, after, queue, n)
    requires failed || n == |queue| || |after| < maximum
    requires n > 0 ==> |after| >= maximum - 1
    ensures RoomMade(before, after, maximum, cutoff, !failed && |after| < maximum, failed)
    ensures |after| + n == |before|
  {
    hide OldestGone, AllCollected;
    FrontIsOldest(before, after, cutoff, queue, n);
    RestIsKept(before, after, cutoff, queue, n);
  }

  // ---------------------------------------------------------------- what the loops have done

  /** The candidates are the evictable records of the directory, each once. */
  predicate AllCollected(files: map<string, File>, cutoff: int, xs: seq<Candidate>) {
    && (forall i :: 0 <= i < |xs| ==> IsCandidate(files, cutoff, xs[i]))
    && (forall i, j :: 0 <= i < j < |xs| ==> xs[i].id != xs[j].id)
    && (forall id :: id in files && Evictable(files[id], cutoff) ==> Candidate(files[id].rec.updatedAt, id) in xs)
  }

  /** The first `n` entries are readable, and their evictable ones are collected. */
  predicate Gathered(files: map<string, File>, cutoff: int, listing: seq<string>, n: nat, xs: seq<Candidate>) {
    && n <= |listing| && (forall k :: 0 <= k < n ==> listing[k] in files && ReadableFile(files[listing[k]]))
    && (forall i :: 0 <= i < |xs| ==> IsCandidate(files, cutoff, xs[i]) && xs[i].id in listing[..n])
    && (forall i, j :: 0 <= i < j < |xs| ==> xs[i].id != xs[j].id)
    && (forall k :: 0 <= k < n && Evictable(files[listing[k]], cutoff) ==> Candidate(files[listing[k]].rec.updatedAt, listing[k]) in xs)
  }

  lemma NothingGathered(files: map<string, File>, cutoff: int, listing: seq<string>)
    ensures Gathered(files, cutoff, listing, 0, []) && listing[0..] == listing
  {
  }

  lemma InListing(listing: seq<string>, n: nat)
    requires n < |listing|
    ensures listing[n] in Elements(listing)
  {
  }

  lemma GatherNext(files: map<string, File>, cutoff: int, listing: seq<string>, n: nat, xs: seq<Candidate>)
    requires Gathered(files, cutoff, listing, n, xs) && n < |listing| && Distinct(listing)
    requires listing[n] in files && ReadableFile(files[listing[n]])
    ensures Gathered(files, cutoff, listing, n + 1, xs + Collected(files[listing[n]], cutoff, listing[n]))
  {
    var id := listing[n];
    assert id !in listing[..n];
    assert listing[..n + 1] == listing[..n] + [id];
    var more := Collected(files[id], cutoff, id);
    forall k | 0 <= k < n + 1 && Evictable(files[listing[k]], cutoff)
      ensures Candidate(files[listing[k]].rec.updatedAt, listing[k]) in xs + more
    {
      assert k == n ==> more == [Candidate(files[id].rec.updatedAt, id)];
    }
  }

  lemma GatheredAll(files: map<string, File>, cutoff: int, listing: seq<string>, xs: seq<Candidate>)
    requires Gathered(files, cutoff, listing, |listing|, xs) && Elements(listing) == files.Keys
    ensures AllCollected(files, cutoff, xs) && forall id :: id in files ==> ReadableFile(files[id])
  {
    forall id | id in files ensures exists k :: 0 <= k < |listing| && listing[k] == id {
      assert id in Elements(listing);
    }
  }

  predicate InDirectory(files: map<string, File>, queue: seq<Candidate>) {
    && (forall i :: 0 <= i < |queue| ==> queue[i].id in files)
    && (forall i, j :: 0 <= i < j < |queue| ==> queue[i].id != queue[j].id)
  }

  /** The first `n` of the queue are gone from the directory, and nothing else is. */
  predicate FrontGone(before: map<string, File>, after: map<string, File>, queue: seq<Candidate>, n: nat) {
    n <= |queue| && after == before - Ids(queue[..n]) && |after| + n == |before|
  }

  lemma NothingGone(files: map<string, File>, queue: seq<Candidate>)
    ensures FrontGone(files, files, queue, 0) && queue[0..] == queue
  {
    assert Ids(queue[..0]) == {};
  }

  /** The trace is a run of the inbox that leads to `s`. */
  ghost predicate IsRun(c: Config, start: Inbox, trace: seq<Move>, s: Inbox) {
    CanRun(c, start, trace) && s == After(c, start, trace)
  }

  lemma SameFiles(s: Inbox, t: Inbox)
    requires s.slots == t.slots
    ensures Files(s) == Files(t)
  {
    assert Present(s) == Present(t);
  }

  /** What one entry adds to the list. */
  function Collected(file: File, cutoff: int, id: string): seq<Candidate> {
    if Evictable(file, cutoff) then [Candidate(file.rec.updatedAt, id)] else []
  }

  lemma ScanStep(c: Config, s: Inbox, ev: Event, cutoff: int, listing: seq<string>, n: nat, completed: seq<Candidate>)
    requires n < |listing| && s.intake == Scanning(ev, cutoff, listing[n..], n, completed) && listing[n] in Present(s)
    ensures var t := AfterScanNext(s);
            var file := Files(s)[listing[n]];
            && t.slots == s.slots && Files(t) == Files(s)
            && t.intake == if !ReadableFile(file) then Leaving(Broken, 0)
                           else Scanning(ev, cutoff, listing[n + 1..], n + 1,
                                         completed + Collected(file, cutoff, listing[n]))
  {
    assert listing[n..][1..] == listing[n + 1..] && listing[n..][0] == listing[n];
    assert Present(AfterScanNext(s)) == Present(s);
  }

  function Ids(xs: seq<Candidate>): set<string> {
    set x | x in xs :: x.id
  }

  lemma RemoveKey<V>(m: map<string, V>, ids: set<string>, id: string)
    requires id in m && id !in ids
    ensures id in m - ids && (m - ids) - {id} == m - (ids + {id}) && |(m - ids) - {id}| == |m - ids| - 1
  {
    var rest := m - ids;
    assert (rest - {id}).Keys == rest.Keys - {id};
    assert |rest.Keys - {id}| == |rest.Keys| - 1;
  }

  lemma IdsGrow(queue: seq<Candidate>, n: nat)
    requires n < |queue| && forall i, j :: 0 <= i < j < |queue| ==> queue[i].id != queue[j].id
    ensures Ids(queue[..n + 1]) == Ids(queue[..n]) + {queue[n].id} && queue[n].id !in Ids(queue[..n])
  {
    assert queue[..n + 1] == queue[..n] + [queue[n]];
  }

  lemma RemoveOne(before: map<string, File>, files: map<string, File>, queue: seq<Candidate>, n: nat)
    requires n < |queue| && InDirectory(before, queue) && FrontGone(before, files, queue, n)
    ensures queue[n].id in files && FrontGone(before, files - {queue[n].id}, queue, n + 1)
    ensures |files - {queue[n].id}| == |files| - 1
  {
    hide Ids;
    IdsGrow(queue, n);
    RemoveKey(before, Ids(queue[..n]), queue[n].id);
  }

  /** Everything that went was evictable, and at least as old as everything evictable that stayed. */
  predicate OldestGone(before: map<string, File>, after: map<string, File>, cutoff: int) {
    forall gone :: gone in before && gone !in after ==>
      && Evictable(before[gone], cutoff)
      && forall kept :: kept in after && Evictable(after[kept], cutoff) ==>
           OlderFirst(Candidate(before[gone].rec.updatedAt, gone), Candidate(after[kept].rec.updatedAt, kept))
  }

  lemma RestIsKept(before: map<string, File>, after: map<string, File>, cutoff: int, queue: seq<Candidate>, n: nat)
    requires AllCollected(before, cutoff, queue) && FrontGone(before, after, queue, n)
    ensures n == 0 ==> after == before
    ensures forall id :: id in after ==> id in before && after[id] == before[id]
    ensures n == |queue| ==> forall id :: id in after ==> !Evictable(after[id], cutoff)
  {
    assert n == 0 ==> Ids(queue[..n]) == {};
    forall id | n == |queue| && id in after ensures !Evictable(after[id], cutoff) {
      if Evictable(after[id], cutoff) {
        var _ := KeptIsBehind(before, after, cutoff, queue, n, id);
      }
    }
  }

  lemma GoneIsInFront(before: map<string, File>, after: map<string, File>, queue: seq<Candidate>, n: nat, gone: string) returns (i: nat)
    requires FrontGone(before, after, queue, n) && gone in before && gone !in after
    ensures i < n && queue[i].id == gone
  {
    var x :| x in queue[..n] && x.id == gone;
    i :| 0 <= i < n && queue[i] == x;
  }

  lemma KeptIsBehind(before: map<string, File>, after: map<string, File>, cutoff: int, queue: seq<Candidate>, n: nat, kept: string) returns (j: nat)
    requires AllCollected(before, cutoff, queue) && FrontGone(before, after, queue, n) && kept in after && Evictable(after[kept], cutoff)
    ensures n <= j < |queue| && queue[j] == Candidate(after[kept].rec.updatedAt, kept)
  {
    j :| 0 <= j < |queue| && queue[j] == Candidate(before[kept].rec.updatedAt, kept);
    assert forall k :: 0 <= k < n ==> queue[k] in queue[..n] && queue[k].id !in after;
  }

  /** Taking the front of the sorted queue removes the oldest. */
  lemma FrontIsOldest(before: map<string, File>, after: map<string, File>, cutoff: int, queue: seq<Candidate>, n: nat)
    requires AllCollected(before, cutoff, queue) && SortedBy(queue, OlderFirst) && FrontGone(before, after, queue, n)
    ensures OldestGone(before, after, cutoff)
  {
    forall gone | gone in before && gone !in after ensures Evictable(before[gone], cutoff) {
      var i := GoneIsInFront(before, after, queue, n, gone);
      assert IsCandidate(before, cutoff, queue[i]);
    }
    forall gone, kept | gone in before && gone !in after && kept in after && Evictable(after[kept], cutoff)
      ensures OlderFirst(Candidate(before[gone].rec.updatedAt, gone), Candidate(after[kept].rec.updatedAt, kept))
    {
      var i := GoneIsInFront(before, after, queue, n, gone);
      var j := KeptIsBehind(before, after, cutoff, queue, n, kept);
      assert IsCandidate(before, cutoff, queue[i]) && OlderFirst(queue[i], queue[j]);
    }
  }

  /** Sorting keeps the candidates, each once. */
  lemma QueueIsCollected(files: map<string, File>, cutoff: int, completed: seq<Candidate>, queue: seq<Candidate>)
    requires multiset(queue) == multiset(completed) && AllCollected(files, cutoff, completed)
    ensures AllCollected(files, cutoff, queue) && InDirectory(files, queue)
  {
    SameElements(queue, completed);
    forall i | 0 <= i < |queue| ensures IsCandidate(files, cutoff, queue[i]) {
      assert queue[i] in completed;
      var k :| 0 <= k < |completed| && completed[k] == queue[i];
    }
    forall i, j | 0 <= i < j < |queue| ensures queue[i].id != queue[j].id {
      if queue[i].id == queue[j].id {
        assert queue[i] == queue[j];
        RepeatCounts(queue, i, j);
        OnceCounts(completed);
      }
    }
  }
}
