/** The loop of `processNext` over the record directory: which record a worker takes up, while
    intake, other workers and retries go on. */
module BridgeDirectory {
  import opened BridgeRecord
  import opened BridgeWorker
  import opened BridgeInbox

  /** Which entry the pass works on, at which unreadable entry it returns, or neither. */
  datatype Choice = Works(entry: nat) | Stops(entry: nat) | Idle

  /** The inbox as it was when the pass came to an entry: it found the lock held, or held the lock
      itself and read the file. */
  datatype Look = Held(at: Inbox) | Opened(at: Inbox)

  predicate Due(f: File, now: int) {
    ReadableFile(f) && f.rec.phase != Replied && f.rec.phase != DeadLetter && Ready(f.rec, now)
  }

  predicate LockFree(s: Inbox, id: string) {
    SlotAt(s, id).holder.Free?
  }

  /** What a look can be: someone else's lock, or one's own. */
  predicate LookedAt(x: Look, id: string, actor: nat) {
    if x.Held? then !LockFree(x.at, id) else SlotAt(x.at, id).holder == WorkerOpened(actor)
  }

  /** The pass goes on after this entry: another holds it, or it is readable and not due. */
  predicate Passed(x: Look, id: string, now: int) {
    x.Held? || (ReadableFile(SlotAt(x.at, id).file) && !Due(SlotAt(x.at, id).file, now))
  }

  /** The inbox can get from one state to the other. */
  ghost predicate Reached(c: Config, s: Inbox, t: Inbox) {
    exists moves :: CanRun(c, s, moves) && After(c, s, moves) == t
  }

  lemma RunReaches(c: Config, s: Inbox, moves: seq<Move>)
    requires CanRun(c, s, moves)
    ensures Reached(c, s, After(c, s, moves))
  {
  }

  lemma ReachedTwice(c: Config, s: Inbox, t: Inbox, u: Inbox)
    requires Reached(c, s, t) && Reached(c, t, u)
    ensures Reached(c, s, u)
  {
    var a :| CanRun(c, s, a) && After(c, s, a) == t;
    var b :| CanRun(c, t, b) && After(c, t, b) == u;
    RunExtends(c, s, a, b);
  }

  /** A move of someone who does not hold the event's lock. */
  predicate ByOthers(m: Move, mine: string) {
    m.SlotMove? ==> m.id != mine || m.st.ResultChanged?
  }

  lemma {:induction false} OthersKeepHolder(c: Config, s: Inbox, moves: seq<Move>, mine: string)
    requires CanRun(c, s, moves) && forall i :: 0 <= i < |moves| ==> ByOthers(moves[i], mine)
    ensures SlotAt(After(c, s, moves), mine).holder == SlotAt(s, mine).holder
    decreases |moves|
  {
    if moves == [] {
    } else {
      assert ByOthers(moves[0], mine);
      assert SlotAt(Next(c, s, moves[0]), mine).holder == SlotAt(s, mine).holder;
      OthersKeepHolder(c, Next(c, s, moves[0]), moves[1..], mine);
    }
  }

  class Process {
    const config: Config
    const actor: nat
    /** The inbox that this process shares with all others. */
    var inbox: Inbox

    constructor (config: Config, actor: nat, inbox: Inbox)
      ensures this.config == config && this.actor == actor && this.inbox == inbox
    {
      this.config, this.actor, this.inbox := config, actor, inbox;
    }

    /** Anything at all happens to the inbox while this process holds no lock. */
    method Meanwhile()
      modifies this
      ensures Reached(config, old(inbox), inbox)
    {
      var moves: seq<Move> := *;
      if !CanRun(config, inbox, moves) {
        moves := [];
      }
      RunReaches(config, inbox, moves);
      inbox := After(config, inbox, moves);
    }

    /** Anything happens that leaves this process its event lock. */
    method MeanwhileHolding(id: string)
      modifies this
      ensures Reached(config, old(inbox), inbox) && SlotAt(inbox, id).holder == SlotAt(old(inbox), id).holder
    {
      var moves: seq<Move> := *;
      if !CanRun(config, inbox, moves) || exists i :: 0 <= i < |moves| && !ByOthers(moves[i], id) {
        moves := [];
      }
      OthersKeepHolder(config, inbox, moves, id);
      RunReaches(config, inbox, moves);
      inbox := After(config, inbox, moves);
    }

    method Take(id: string, st: Step)
      requires ByWorker(st) && Enabled(SlotAt(inbox, id), st)
      modifies this
      ensures Reached(config, old(inbox), inbox)
      ensures SlotAt(inbox, id) == Apply(config.catalog(id), SlotAt(old(inbox), id), st)
    {
      OneMove(config, inbox, SlotMove(id, st));
      RunReaches(config, inbox, [SlotMove(id, st)]);
      inbox := Next(config, inbox, SlotMove(id, st));
    }

    /** One entry of the loop: try its lock, read its record, and let go of it unless it is due. */
    method Visit(id: string, now: int) returns (x: Look)
      modifies this
      ensures Reached(config, old(inbox), x.at) && Reached(config, x.at, inbox) && LookedAt(x, id, actor)
      ensures x.Opened? && Due(SlotAt(x.at, id).file, now) ==>
                SlotAt(inbox, id).holder == Working(actor, FirstPc(SlotAt(x.at, id).file.rec), SlotAt(x.at, id).file.rec)
      ensures x.Opened? && !Due(SlotAt(x.at, id).file, now) ==> LockFree(inbox, id)
    {
      hide Apply, Reached;
      ghost var before := inbox;
      Meanwhile();
      if !LockFree(inbox, id) {
        ReachesItself(config, inbox);
        return Held(inbox);
      }
      ghost var free := inbox;
      Take(id, Acquire(actor));
      ghost var acquired := inbox;
      AcquireStep(config.catalog(id), SlotAt(free, id), actor);
      MeanwhileHolding(id);
      x := Opened(inbox);
      ReachedTwice(config, before, free, acquired);
      ReachedTwice(config, before, acquired, inbox);
      Take(id, Read(now));
      ReadStep(config.catalog(id), SlotAt(x.at, id), now);
      if SlotAt(inbox, id).holder.Closing? {
        ghost var read := inbox;
        Take(id, Release);
        ReleaseStep(config.catalog(id), SlotAt(read, id));
        ReachedTwice(config, x.at, read, inbox);
      }
    }

    /** `processNext` up to the record it works on, with its clock read anew at each entry.  All that
        happens is a run of the inbox, and the choice is the first entry that the pass does not
        pass, as it finds it. */
    method ProcessNext(listing: seq<string>, now: nat -> int) returns (choice: Choice, ghost looks: seq<Look>)
      modifies this
      ensures Reached(config, old(inbox), inbox) && Chosen(looks, listing, now, actor, choice)
      ensures forall j :: 0 <= j < |looks| ==> Reached(config, old(inbox), looks[j].at)
      ensures choice.Works? ==>
                var rec := SlotAt(looks[choice.entry].at, listing[choice.entry]).file.rec;
                SlotAt(inbox, listing[choice.entry]).holder == Working(actor, FirstPc(rec), rec)
    {
      hide Reached;
      looks := [];
      ReachesItself(config, inbox);
      for n := 0 to |listing|
        invariant Reached(config, old(inbox), inbox) && |looks| == n
        invariant forall j :: 0 <= j < n ==>
                    && LookedAt(looks[j], listing[j], actor) && Passed(looks[j], listing[j], now(j))
                    && Reached(config, old(inbox), looks[j].at)
      {
        ghost var before := inbox;
        var x := Visit(listing[n], now(n));
        looks := looks + [x];
        ReachedTwice(config, old(inbox), before, x.at);
        ReachedTwice(config, old(inbox), x.at, inbox);
        if x.Held? {
          continue;
        }
        var file := SlotAt(x.at, listing[n]).file;
        if !ReadableFile(file) {
          return Stops(n), looks;
        }
        if file.rec.phase == Replied || file.rec.phase == DeadLetter || !Ready(file.rec, now(n)) {
          continue;
        }
        return Works(n), looks;
      }
      return Idle, looks;
    }
  }

  function FirstPc(r: Record): Pc {
    if InPublishPhase(r.phase) then CheckReply else LookResult
  }

  lemma ReachesItself(c: Config, s: Inbox)
    ensures Reached(c, s, s)
  {
    assert CanRun(c, s, []) && After(c, s, []) == s;
  }

  lemma AcquireStep(ev: Event, s: Slot, actor: nat)
    requires s.holder.Free?
    ensures Apply(ev, s, Acquire(actor)).holder == WorkerOpened(actor)
  {
  }

  lemma ReadStep(ev: Event, s: Slot, now: int)
    requires s.holder.WorkerOpened?
    ensures Apply(ev, s, Read(now)).holder ==
            if Due(s.file, now) then Working(s.holder.actor, FirstPc(s.file.rec), s.file.rec) else Closing(s.holder.actor)
  {
  }

  lemma ReleaseStep(ev: Event, s: Slot)
    requires s.holder.Closing?
    ensures Apply(ev, s, Release).holder.Free?
  {
  }

  /** What the pass must choose: the first entry it does not pass. */
  predicate Chosen(looks: seq<Look>, listing: seq<string>, now: nat -> int, actor: nat, choice: Choice) {
    var n := if choice.Idle? then |listing| else choice.entry;
    && n <= |listing| && |looks| == (if choice.Idle? then n else n + 1) <= |listing|
    && (forall j :: 0 <= j < |looks| ==> LookedAt(looks[j], listing[j], actor))
    && (forall j :: 0 <= j < n ==> Passed(looks[j], listing[j], now(j)))
    && (!choice.Idle? ==>
          && looks[n].Opened? && !Passed(looks[n], listing[n], now(n))
          && (choice.Works? <==> Due(SlotAt(looks[n].at, listing[n]).file, now(n))))
  }

  /** A pass works on a record if and only if it gets its lock and then finds it due, and every
      entry before it was held by another or found readable and not due when the pass came to it. */
  lemma WorksIff(looks: seq<Look>, listing: seq<string>, now: nat -> int, actor: nat, choice: Choice, n: nat)
    requires Chosen(looks, listing, now, actor, choice) && n < |listing|
    ensures choice == Works(n) <==>
              && n < |looks| && looks[n].Opened? && Due(SlotAt(looks[n].at, listing[n]).file, now(n))
              && forall j :: 0 <= j < n ==> Passed(looks[j], listing[j], now(j))
  {
    if n < |looks| && looks[n].Opened? && Due(SlotAt(looks[n].at, listing[n]).file, now(n)) {
      assert !Passed(looks[n], listing[n], now(n));
    }
  }

  /** One file that the reader refuses starves every record listed after it: in any pass from then
      on, whatever happens during it, a later entry is worked on, or the end reached, only if
      someone else held that file's lock when the pass came to it. */
  lemma UnreadableFileStarves(c: Config, s: Inbox, id: string, looks: seq<Look>, listing: seq<string>, now: nat -> int, actor: nat,
                              choice: Choice, k: nat)
    requires Blocked(s, id) && forall j :: 0 <= j < |looks| ==> Reached(c, s, looks[j].at)
    requires Chosen(looks, listing, now, actor, choice) && k < |listing| && listing[k] == id
    ensures choice.Idle? || choice.entry > k ==> looks[k].Held? && !LockFree(looks[k].at, id)
    ensures !choice.Idle? && choice.entry == k ==> choice.Stops?
  {
    if k < |looks| {
      StaysBlocked(c, s, looks[k].at, id);
    }
  }

  lemma StaysBlocked(c: Config, s: Inbox, t: Inbox, id: string)
    requires Blocked(s, id) && Reached(c, s, t)
    ensures Blocked(t, id)
  {
    var moves :| CanRun(c, s, moves) && After(c, s, moves) == t;
    UnreadableFileStopsInbox(c, s, moves, id);
  }
}
