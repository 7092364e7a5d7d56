/** No-overwrite publication of one file through a temporary name and a hard link
    (`publish_exact`, adapters/hermes-agent/entrypoint.py), as a transition system over
    directory entries, inodes and link counts.

    One operation of the process is one step.  The process may stop between any two, and the
    machine may lose power: then the directory falls back to any state it has had since the
    last directory sync, and a file that was not synced holds arbitrary bytes.
 */
module Publication {
  import opened Common

  type Bytes = seq<bv8>

  /** `outside` counts hard links from other directories. */
  datatype Inode = Inode(data: Bytes, mode: bv16, ours: bool, regular: bool, outside: nat, synced: bool)

  /** The two names the protocol uses, each naming an inode or absent. */
  datatype Dir = Dir(target: Option<nat>, temp: Option<nat>)

  /** `may` holds the directory states that a power loss can leave. */
  datatype Fs = Fs(dir: Dir, may: set<Dir>, inodes: map<nat, Inode>)

  /** What is published: the bytes and the mode, under the process's umask. */
  datatype Request = Request(data: Bytes, mode: bv16, umask: bv16)

  datatype Reason = UnsafeFile | Drifted | UnexplainedLink | Ambiguous | UnsafeTemp | ChangedDuring | ChangedAfter

  datatype Pc =
    | ReadTarget | ReadTemp(links: nat)
    | UnlinkRecovered | SyncRecovered
    | CheckStale | UnlinkStale | SyncStale
    | OpenTemp | WriteTemp(ino: nat, written: nat) | Chmod(ino: nat) | SyncTemp(ino: nat)
    | LinkTarget | SyncLink | UnlinkTemp | SyncUnlink
    | VerifyFinal | Done | Failed(reason: Reason)

  datatype Sys = Sys(fs: Fs, pc: Pc)

  datatype Step =
    | Op(count: nat, ino: nat)
    | Stop
    | PowerLoss(dir: Dir, garbage: map<nat, Bytes>)

  function Links(fs: Fs, i: nat): nat {
    (if fs.dir.target == Some(i) then 1 else 0) + (if fs.dir.temp == Some(i) then 1 else 0) +
    (if i in fs.inodes then fs.inodes[i].outside else 0)
  }

  /** The mode a file is created with. */
  function CreatedMode(r: Request): bv16 {
    r.mode & !r.umask
  }

  /** `exact_publication_file`. */
  predicate ExactFile(r: Request, n: Inode) {
    n.data == r.data && n.ours && n.mode == r.mode
  }

  /** What `read_regular_at` lets through. */
  predicate Admitted(r: Request, fs: Fs, i: nat, most: nat) {
    i in fs.inodes && fs.inodes[i].regular && 1 <= Links(fs, i) <= most && |fs.inodes[i].data| <= |r.data|
  }

  function SetDir(fs: Fs, d: Dir): Fs {
    fs.(dir := d, may := fs.may + {d})
  }

  function SyncDir(fs: Fs): Fs {
    fs.(may := {fs.dir})
  }

  function SetInode(fs: Fs, i: nat, n: Inode): Fs {
    fs.(inodes := fs.inodes[i := n])
  }

  function AfterReadTarget(r: Request, s: Sys): Sys {
    match s.fs.dir.target
    case None => s.(pc := CheckStale)
    case Some(i) =>
      if !Admitted(r, s.fs, i, 2) then s.(pc := Failed(UnsafeFile))
      else if !ExactFile(r, s.fs.inodes[i]) then s.(pc := Failed(Drifted))
      else s.(pc := ReadTemp(Links(s.fs, i)))
  }

  function AfterReadTemp(r: Request, s: Sys, links: nat): Sys {
    match s.fs.dir.temp
    case None => s.(pc := if links != 1 then Failed(UnexplainedLink) else Done)
    case Some(j) =>
      if !Admitted(r, s.fs, j, 2) then s.(pc := Failed(UnsafeFile))
      else if !ExactFile(r, s.fs.inodes[j]) || links != 2 || Links(s.fs, j) != 2 || s.fs.dir.target != Some(j)
      then s.(pc := Failed(Ambiguous))
      else s.(pc := UnlinkRecovered)
  }

  /** `remove_stale_publication_temp`, its check. */
  function AfterCheckStale(r: Request, s: Sys): Sys {
    match s.fs.dir.temp
    case None => s.(pc := OpenTemp)
    case Some(j) =>
      if j in s.fs.inodes && s.fs.inodes[j].regular && Links(s.fs, j) == 1 && s.fs.inodes[j].ours && s.fs.inodes[j].mode == r.mode
      then s.(pc := UnlinkStale)
      else s.(pc := Failed(UnsafeTemp))
  }

  /** One write of the loop takes `count` of the remaining bytes. */
  function AfterWrite(r: Request, s: Sys, i: nat, written: nat, count: nat): Sys {
    if i !in s.fs.inodes || written >= |r.data| then s.(pc := Chmod(i))
    else
      var n := if count < 1 then 1 else if count > |r.data| - written then |r.data| - written else count;
      Sys(SetInode(s.fs, i, s.fs.inodes[i].(data := r.data[..written + n], synced := false)), WriteTemp(i, written + n))
  }

  function AfterVerify(r: Request, s: Sys): Sys {
    match s.fs.dir.target
    case None => s.(pc := Failed(ChangedAfter))
    case Some(i) =>
      if !Admitted(r, s.fs, i, 1) then s.(pc := Failed(UnsafeFile))
      else s.(pc := if ExactFile(r, s.fs.inodes[i]) then Done else Failed(ChangedAfter))
  }

  predicate Enabled(s: Sys, st: Step) {
    match st
    case Op(_, ino) => !s.pc.Done? && !s.pc.Failed? && (s.pc.OpenTemp? ==> ino !in s.fs.inodes)
    case Stop => true
    case PowerLoss(d, _) => d in s.fs.may
  }

  function AfterOp(r: Request, s: Sys, count: nat, ino: nat): Sys
    requires !s.pc.Done? && !s.pc.Failed?
  {
    var fs := s.fs;
    match s.pc
    case ReadTarget => AfterReadTarget(r, s)
    case ReadTemp(links) => AfterReadTemp(r, s, links)
    case UnlinkRecovered => Sys(SetDir(fs, fs.dir.(temp := None)), SyncRecovered)
    case SyncRecovered => Sys(SyncDir(fs), VerifyFinal)
    case CheckStale => AfterCheckStale(r, s)
    case UnlinkStale => Sys(SetDir(fs, fs.dir.(temp := None)), SyncStale)
    case SyncStale => Sys(SyncDir(fs), OpenTemp)
    case OpenTemp =>
      if fs.dir.temp.Some? then s.(pc := Failed(UnsafeTemp))
      else Sys(SetInode(SetDir(fs, fs.dir.(temp := Some(ino))), ino, Inode([], CreatedMode(r), true, true, 0, false)), WriteTemp(ino, 0))
    case WriteTemp(i, written) => AfterWrite(r, s, i, written, count)
    case Chmod(i) => Sys(if i in fs.inodes then SetInode(fs, i, fs.inodes[i].(mode := r.mode)) else fs, SyncTemp(i))
    case SyncTemp(i) => Sys(if i in fs.inodes then SetInode(fs, i, fs.inodes[i].(synced := true)) else fs, LinkTarget)
    case LinkTarget =>
      if fs.dir.target.Some? then s.(pc := Failed(ChangedDuring)) else Sys(SetDir(fs, fs.dir.(target := fs.dir.temp)), SyncLink)
    case SyncLink => Sys(SyncDir(fs), UnlinkTemp)
    case UnlinkTemp => Sys(SetDir(fs, fs.dir.(temp := None)), SyncUnlink)
    case SyncUnlink => Sys(SyncDir(fs), VerifyFinal)
    case VerifyFinal => AfterVerify(r, s)
  }

  function Recovered(n: Inode, garbage: map<nat, Bytes>, i: nat): Inode {
    if n.synced || i !in garbage then n else n.(data := garbage[i])
  }

  function Apply(r: Request, s: Sys, st: Step): Sys
    requires Enabled(s, st)
  {
    match st
    case Op(count, ino) => AfterOp(r, s, count, ino)
    case Stop => s.(pc := ReadTarget)
    case PowerLoss(d, garbage) =>
      Sys(Fs(d, {d}, map i | i in s.fs.inodes :: Recovered(s.fs.inodes[i], garbage, i)), ReadTarget)
  }

  // ---------------------------------------------------------------- the invariant

  /** A completely written, synced file of the requested bytes and mode, linked nowhere else. */
  predicate Exact(r: Request, fs: Fs, i: nat) {
    i in fs.inodes && ExactFile(r, fs.inodes[i]) && fs.inodes[i].regular && fs.inodes[i].outside == 0 && fs.inodes[i].synced
  }

  predicate OwnTemp(r: Request, fs: Fs, j: nat) {
    j in fs.inodes && fs.inodes[j].ours && fs.inodes[j].mode == r.mode && fs.inodes[j].regular && fs.inodes[j].outside == 0
  }

  /** A directory state the protocol can leave: the target is exact, a temporary file is the
      process's own, and if both exist they are one file. */
  predicate DirOk(r: Request, fs: Fs, d: Dir) {
    && (d.target.Some? ==> Exact(r, fs, d.target.value))
    && (d.temp.Some? ==> OwnTemp(r, fs, d.temp.value))
    && (d.target.Some? && d.temp.Some? ==> d.target == d.temp)
  }

  predicate PcInv(r: Request, s: Sys) {
    var d := s.fs.dir;
    match s.pc
    case ReadTarget => true
    case ReadTemp(links) => d.target.Some? && links == Links(s.fs, d.target.value)
    case UnlinkRecovered => d.target.Some? && d.target == d.temp
    case SyncRecovered => d.target.Some? && d.temp.None?
    case CheckStale => d.target.None?
    case UnlinkStale => d.target.None? && d.temp.Some?
    case SyncStale => d.target.None? && d.temp.None?
    case OpenTemp => d.target.None? && d.temp.None?
    case WriteTemp(i, written) =>
      && d.target.None? && d.temp == Some(i) && i in s.fs.inodes && written <= |r.data| && s.fs.inodes[i].data == r.data[..written]
      && (forall x :: x in s.fs.may ==> x.target != Some(i))
    case Chmod(i) =>
      && d.target.None? && d.temp == Some(i) && i in s.fs.inodes && s.fs.inodes[i].data == r.data
      && (forall x :: x in s.fs.may ==> x.target != Some(i))
    case SyncTemp(i) => d.target.None? && d.temp == Some(i) && i in s.fs.inodes && s.fs.inodes[i].data == r.data
    case LinkTarget => d.target.None? && d.temp.Some? && Exact(r, s.fs, d.temp.value)
    case SyncLink => d.target.Some? && d.target == d.temp
    case UnlinkTemp => d.target.Some? && d.target == d.temp && s.fs.may == {d}
    case SyncUnlink => d.target.Some? && d.temp.None?
    case VerifyFinal => d.target.Some? && d.temp.None? && s.fs.may == {d}
    case Done => d.target.Some? && d.temp.None?
    case Failed(_) => false
  }

  predicate Inv(r: Request, s: Sys) {
    && s.fs.dir in s.fs.may
    && (forall d :: d in s.fs.may ==> DirOk(r, s.fs, d))
    && PcInv(r, s)
  }

  /** The umask takes nothing from the requested mode. */
  predicate ModeKept(r: Request) {
    CreatedMode(r) == r.mode
  }

  /** The operations that only look, or that change directory entries. */
  predicate IsDirOp(pc: Pc) {
    !pc.OpenTemp? && !pc.WriteTemp? && !pc.Chmod? && !pc.SyncTemp?
  }

  lemma DirOpKeepsInv(r: Request, s: Sys, count: nat, ino: nat)
    requires Inv(r, s) && Enabled(s, Op(count, ino)) && IsDirOp(s.pc)
    ensures Inv(r, AfterOp(r, s, count, ino))
  {
    var s' := AfterOp(r, s, count, ino);
    assert DirOk(r, s.fs, s.fs.dir);
    forall d | d in s'.fs.may ensures DirOk(r, s'.fs, d) {
      assert d in s.fs.may ==> DirOk(r, s.fs, d);
    }
  }

  lemma FileOpKeepsInv(r: Request, s: Sys, count: nat, ino: nat)
    requires ModeKept(r) && Inv(r, s) && Enabled(s, Op(count, ino)) && !IsDirOp(s.pc)
    ensures Inv(r, AfterOp(r, s, count, ino))
  {
    var s' := AfterOp(r, s, count, ino);
    assert DirOk(r, s.fs, s.fs.dir);
    forall d | d in s'.fs.may ensures DirOk(r, s'.fs, d) {
      assert d in s.fs.may ==> DirOk(r, s.fs, d);
    }
  }

  lemma PowerLossKeepsInv(r: Request, s: Sys, d: Dir, garbage: map<nat, Bytes>)
    requires Inv(r, s) && d in s.fs.may
    ensures Inv(r, Apply(r, s, PowerLoss(d, garbage)))
  {
    assert DirOk(r, s.fs, d);
  }

  lemma StepKeepsInv(r: Request, s: Sys, st: Step)
    requires ModeKept(r) && Inv(r, s) && Enabled(s, st)
    ensures Inv(r, Apply(r, s, st))
  {
    match st
    case Op(count, ino) =>
      if IsDirOp(s.pc) { DirOpKeepsInv(r, s, count, ino); } else { FileOpKeepsInv(r, s, count, ino); }
    case Stop =>
    case PowerLoss(d, garbage) => PowerLossKeepsInv(r, s, d, garbage);
  }

  // ---------------------------------------------------------------- whole runs

  predicate Possible(r: Request, s: Sys, steps: seq<Step>)
    decreases |steps|
  {
    steps == [] || (Enabled(s, steps[0]) && Possible(r, Apply(r, s, steps[0]), steps[1..]))
  }

  function After(r: Request, s: Sys, steps: seq<Step>): Sys
    requires Possible(r, s, steps)
    decreases |steps|
  {
    if steps == [] then s else After(r, Apply(r, s, steps[0]), steps[1..])
  }

  lemma {:induction false} RunExtends(r: Request, s: Sys, steps: seq<Step>, st: Step)
    requires Possible(r, s, steps) && Enabled(After(r, s, steps), st)
    ensures Possible(r, s, steps + [st]) && After(r, s, steps + [st]) == Apply(r, After(r, s, steps), st)
    decreases |steps|
  {
    if steps == [] {
      assert [] + [st] == [st] && [st][1..] == [];
      assert Possible(r, Apply(r, s, st), []);
    } else {
      RunExtends(r, Apply(r, s, steps[0]), steps[1..], st);
      assert (steps + [st])[1..] == steps[1..] + [st];
    }
  }

  /** Some run leads from `s` to `t`. */
  ghost predicate Reaches(r: Request, s: Sys, t: Sys) {
    exists steps :: Possible(r, s, steps) && After(r, s, steps) == t
  }

  lemma ReachesSelf(r: Request, s: Sys)
    ensures Reaches(r, s, s)
  {
    assert Possible(r, s, []) && After(r, s, []) == s;
  }

  lemma ReachesNext(r: Request, s: Sys, t: Sys, st: Step)
    requires Reaches(r, s, t) && Enabled(t, st)
    ensures Reaches(r, s, Apply(r, t, st))
  {
    var steps :| Possible(r, s, steps) && After(r, s, steps) == t;
    RunExtends(r, s, steps, st);
  }

  lemma {:induction false} RunKeepsInv(r: Request, s: Sys, steps: seq<Step>)
    requires ModeKept(r) && Inv(r, s) && Possible(r, s, steps)
    ensures Inv(r, After(r, s, steps))
    decreases |steps|
  {
    if steps == [] {
    } else {
      StepKeepsInv(r, s, steps[0]);
      RunKeepsInv(r, Apply(r, s, steps[0]), steps[1..]);
    }
  }

  /** Nothing published yet, nothing pending. */
  predicate Clean(s: Sys) {
    s.fs.dir == Dir(None, None) && s.fs.may == {s.fs.dir} && s.pc == ReadTarget
  }

  predicate Published(r: Request, fs: Fs) {
    && fs.dir.target.Some? && fs.dir.temp.None?
    && fs.dir.target.value in fs.inodes && ExactFile(r, fs.inodes[fs.dir.target.value]) && Links(fs, fs.dir.target.value) == 1
  }

  /** Crash-consistent publication: over any number of stops and power losses the target name
      never shows other bytes, now or after one more loss of power; no failure branch is ever
      reached; a finished run leaves exactly the target and no temporary file; and what is
      verified at the end has survived its directory sync. */
  lemma PublicationIsCrashConsistent(r: Request, s: Sys, steps: seq<Step>)
    requires ModeKept(r) && Clean(s) && Possible(r, s, steps)
    ensures var s' := After(r, s, steps);
            && !s'.pc.Failed?
            && (s'.pc.Done? ==> Published(r, s'.fs))
            && (forall d :: d in s'.fs.may && d.target.Some? ==>
                  d.target.value in s'.fs.inodes && s'.fs.inodes[d.target.value].synced && ExactFile(r, s'.fs.inodes[d.target.value]))
            && s'.fs.dir in s'.fs.may
            && (s'.pc.VerifyFinal? ==> s'.fs.may == {s'.fs.dir})
  {
    RunKeepsInv(r, s, steps);
    var s' := After(r, s, steps);
    assert DirOk(r, s'.fs, s'.fs.dir);
    forall d | d in s'.fs.may ensures DirOk(r, s'.fs, d) {}
  }

  /** Operations left before an uninterrupted run is done, at most. */
  function Rank(r: Request, pc: Pc): nat {
    var n := |r.data|;
    match pc
    case ReadTarget => 13 + n
    case CheckStale => 12 + n
    case UnlinkStale => 11 + n
    case SyncStale => 10 + n
    case OpenTemp => 9 + n
    case WriteTemp(_, written) => if written <= n then 8 + n - written else 8
    case Chmod(_) => 7
    case SyncTemp(_) => 6
    case LinkTarget | ReadTemp(_) => 5
    case SyncLink => 4
    case UnlinkTemp | UnlinkRecovered => 3
    case SyncUnlink | SyncRecovered => 2
    case VerifyFinal => 1
    case Done | Failed(_) => 0
  }

  /** From every state that stops and power losses leave, a run that is left alone cannot fail
      and cannot go on for more than `Rank` operations. */
  lemma {:induction false} UninterruptedRunFinishes(r: Request, s: Sys, steps: seq<Step>)
    requires ModeKept(r) && Inv(r, s) && Possible(r, s, steps)
    requires forall i :: 0 <= i < |steps| ==> steps[i].Op?
    ensures var s' := After(r, s, steps);
            && |steps| + Rank(r, s'.pc) <= Rank(r, s.pc)
            && (Rank(r, s'.pc) == 0 ==> s'.pc.Done? && Published(r, s'.fs))
            && (Rank(r, s'.pc) > 0 ==> forall count, ino :: ino !in s'.fs.inodes ==> Enabled(s', Op(count, ino)))
    decreases |steps|
  {
    assert DirOk(r, s.fs, s.fs.dir);
    if steps == [] {
    } else {
      StepKeepsInv(r, s, steps[0]);
      var s1 := Apply(r, s, steps[0]);
      assert Rank(r, s1.pc) < Rank(r, s.pc);
      UninterruptedRunFinishes(r, s1, steps[1..]);
    }
  }

  // ---------------------------------------------------------------- durability of a finished run

  /** Whatever a loss of power leaves now has the target. */
  predicate LinkDurable(fs: Fs) {
    forall d :: d in fs.may ==> d.target.Some?
  }

  /** Past its first look, a run finishes only through its own directory sync. */
  predicate Committed(s: Sys) {
    !s.pc.ReadTarget? && (s.pc.ReadTemp? ==> s.fs.dir.temp.Some?) && (s.pc.Done? ==> s.fs.may == {s.fs.dir})
  }

  lemma {:induction false} CommittedFinishesDurably(r: Request, s: Sys, steps: seq<Step>)
    requires ModeKept(r) && Inv(r, s) && Committed(s) && Possible(r, s, steps)
    requires forall i :: 0 <= i < |steps| ==> steps[i].Op?
    requires After(r, s, steps).pc.Done?
    ensures LinkDurable(After(r, s, steps).fs)
    decreases |steps|
  {
    if steps == [] {
    } else {
      StepKeepsInv(r, s, steps[0]);
      assert DirOk(r, s.fs, s.fs.dir);
      CommittedFinishesDurably(r, Apply(r, s, steps[0]), steps[1..]);
    }
  }

  /** The branch that returns without a directory sync: the target is there, and no temporary
      file. */
  predicate FoundFinished(s: Sys) {
    s.fs.dir.target.Some? && s.fs.dir.temp.None?
  }

  lemma FoundFinishedChangesNothing(r: Request, s: Sys, steps: seq<Step>)
    requires Inv(r, s) && s.pc == ReadTarget && FoundFinished(s) && Possible(r, s, steps)
    requires forall i :: 0 <= i < |steps| ==> steps[i].Op?
    requires After(r, s, steps).pc.Done?
    ensures After(r, s, steps).fs == s.fs
  {
    assert DirOk(r, s.fs, s.fs.dir);
    var s1 := Apply(r, s, steps[0]);
    assert s1 == s.(pc := ReadTemp(1));
    var rest := steps[1..];
    assert rest[0] == steps[1];
    var s2 := Apply(r, s1, rest[0]);
    assert s2 == s.(pc := Done);
    DoneStays(r, s2, rest[1..]);
    assert After(r, s, steps) == After(r, s1, rest) == After(r, s2, rest[1..]) == s2;
  }

  lemma DoneStays(r: Request, s: Sys, steps: seq<Step>)
    requires s.pc.Done? && Possible(r, s, steps)
    requires forall i :: 0 <= i < |steps| ==> steps[i].Op?
    ensures steps == []
  {
  }

  /** A call that is left alone and finishes leaves a publication that the next loss of power
      cannot undo, if and only if it did not find the target there without a temporary file and
      with its link not yet durable. */
  lemma FinishedIsDurableIff(r: Request, s: Sys, steps: seq<Step>)
    requires ModeKept(r) && Inv(r, s) && s.pc == ReadTarget && Possible(r, s, steps)
    requires forall i :: 0 <= i < |steps| ==> steps[i].Op?
    requires After(r, s, steps).pc.Done?
    ensures LinkDurable(After(r, s, steps).fs) <==> !FoundFinished(s) || LinkDurable(s.fs)
  {
    if FoundFinished(s) {
      FoundFinishedChangesNothing(r, s, steps);
    } else {
      var s1 := Apply(r, s, steps[0]);
      StepKeepsInv(r, s, steps[0]);
      assert DirOk(r, s.fs, s.fs.dir);
      CommittedFinishesDurably(r, s1, steps[1..]);
    }
  }

  /** That happens: stopped right after the link, and again right after the recovery's unlink,
      the protocol reports success with nothing durable, and a loss of power leaves no file. */
  lemma FinishedCanBeLost(r: Request, s: Sys, ino: nat) returns (t: Sys)
    requires ModeKept(r) && Clean(s) && ino !in s.fs.inodes
    ensures Reaches(r, s, t) && t.pc.Done? && Published(r, t.fs)
    ensures Dir(None, None) in t.fs.may
  {
    var linked := LinkThenStop(r, s, ino);
    t := UnlinkThenStop(r, s, linked, ino);
    ReachesNext(r, s, t, Op(0, ino));
    t := Apply(r, t, Op(0, ino));
    ReachesNext(r, s, t, Op(0, ino));
    t := Apply(r, t, Op(0, ino));
  }

  /** The new file is linked under both names, and the process stops before the sync. */
  predicate LinkedUnsynced(r: Request, t: Sys, ino: nat) {
    && t.pc == ReadTarget && t.fs.dir == Dir(Some(ino), Some(ino)) && Dir(None, None) in t.fs.may
    && ino in t.fs.inodes && t.fs.inodes[ino] == Inode(r.data, r.mode, true, true, 0, true)
  }

  lemma WrittenTemp(r: Request, s: Sys, ino: nat) returns (t: Sys)
    requires Clean(s) && ino !in s.fs.inodes
    ensures Reaches(r, s, t) && t.pc == Chmod(ino) && t.fs.dir == Dir(None, Some(ino)) && Dir(None, None) in t.fs.may
    ensures ino in t.fs.inodes && t.fs.inodes[ino].(mode := 0) == Inode(r.data, 0, true, true, 0, false)
  {
    ReachesSelf(r, s);
    var op := Op(|r.data|, ino);
    ReachesNext(r, s, s, op);
    var s1 := Apply(r, s, op);
    ReachesNext(r, s, s1, op);
    var s2 := Apply(r, s1, op);
    ReachesNext(r, s, s2, op);
    t := Apply(r, s2, op);
    assert t.pc == WriteTemp(ino, 0);
    if r.data != [] {
      ReachesNext(r, s, t, op);
      t := Apply(r, t, op);
      assert r.data[..|r.data|] == r.data;
    }
    ReachesNext(r, s, t, op);
    t := Apply(r, t, op);
  }

  lemma LinkThenStop(r: Request, s: Sys, ino: nat) returns (t: Sys)
    requires Clean(s) && ino !in s.fs.inodes
    ensures Reaches(r, s, t) && LinkedUnsynced(r, t, ino)
  {
    var t0 := WrittenTemp(r, s, ino);
    var op := Op(0, ino);
    ReachesNext(r, s, t0, op);
    var t1 := Apply(r, t0, op);
    ReachesNext(r, s, t1, op);
    var t2 := Apply(r, t1, op);
    ReachesNext(r, s, t2, op);
    var t3 := Apply(r, t2, op);
    ReachesNext(r, s, t3, Stop);
    t := Apply(r, t3, Stop);
  }

  lemma UnlinkThenStop(r: Request, s: Sys, linked: Sys, ino: nat) returns (t: Sys)
    requires Reaches(r, s, linked) && LinkedUnsynced(r, linked, ino)
    ensures Reaches(r, s, t) && t.pc == ReadTarget && t.fs.dir == Dir(Some(ino), None) && Dir(None, None) in t.fs.may
    ensures ino in t.fs.inodes && t.fs.inodes[ino] == Inode(r.data, r.mode, true, true, 0, true)
  {
    var op := Op(0, ino);
    ReachesNext(r, s, linked, op);
    var t1 := Apply(r, linked, op);
    ReachesNext(r, s, t1, op);
    var t2 := Apply(r, t1, op);
    ReachesNext(r, s, t2, op);
    var t3 := Apply(r, t2, op);
    ReachesNext(r, s, t3, Stop);
    t := Apply(r, t3, Stop);
  }

  // ---------------------------------------------------------------- no overwrite

  /** The inode a pending operation of the process would change. */
  function OpenIno(pc: Pc): Option<nat> {
    match pc
    case WriteTemp(i, _) => Some(i)
    case Chmod(i) => Some(i)
    case SyncTemp(i) => Some(i)
    case _ => None
  }

  /** The target names inode `k`, whose contents are `n`, and the process has another file open. */
  predicate Occupied(s: Sys, k: nat, n: Inode) {
    s.fs.dir.target == Some(k) && k in s.fs.inodes && s.fs.inodes[k] == n && OpenIno(s.pc) != Some(k)
  }

  /** No loss of power can take the target away or change its bytes. */
  predicate Durable(s: Sys, k: nat, n: Inode) {
    n.synced && forall d :: d in s.fs.may ==> d.target == Some(k)
  }

  /** Whatever the request and however the target name came to be taken, no run replaces the
      target or changes a byte of it: any run at all when the target is durable, and any run
      without a loss of power when it is not. */
  lemma {:induction false} TargetIsNeverReplaced(r: Request, s: Sys, steps: seq<Step>, k: nat, n: Inode)
    requires Occupied(s, k, n) && Possible(r, s, steps)
    requires Durable(s, k, n) || forall i :: 0 <= i < |steps| ==> !steps[i].PowerLoss?
    ensures Occupied(After(r, s, steps), k, n)
    ensures Durable(s, k, n) ==> Durable(After(r, s, steps), k, n)
    decreases |steps|
  {
    if steps == [] {
    } else {
      var s1 := Apply(r, s, steps[0]);
      assert Durable(s, k, n) ==> Durable(s1, k, n);
      TargetIsNeverReplaced(r, s1, steps[1..], k, n);
    }
  }

  ghost predicate AlwaysOccupied(r: Request, s: Sys, k: nat, n: Inode) {
    forall steps | Possible(r, s, steps) :: Occupied(After(r, s, steps), k, n)
  }

  lemma NotAlwaysOccupied(r: Request, s: Sys, steps: seq<Step>, k: nat, n: Inode)
    requires Possible(r, s, steps) && !Occupied(After(r, s, steps), k, n)
    ensures !AlwaysOccupied(r, s, k, n)
  {
  }

  /** Durability is the exact condition: every run keeps the target if and only if no loss of
      power can take it away or change its bytes. */
  lemma TargetSurvivesEveryRunIff(r: Request, s: Sys, k: nat, n: Inode)
    requires Occupied(s, k, n) && s.fs.dir in s.fs.may
    ensures AlwaysOccupied(r, s, k, n) <==> Durable(s, k, n)
  {
    if Durable(s, k, n) {
      forall steps | Possible(r, s, steps) ensures Occupied(After(r, s, steps), k, n) {
        TargetIsNeverReplaced(r, s, steps, k, n);
      }
    } else {
      var loss := LossThatHurts(s, k, n);
      assert Possible(r, Apply(r, s, loss), []) && [loss][1..] == [];
      var steps := [loss];
      assert steps[0] == loss && Possible(r, s, steps) && After(r, s, steps) == Apply(r, s, loss);
      NotAlwaysOccupied(r, s, steps, k, n);
    }
  }

  lemma LossThatHurts(s: Sys, k: nat, n: Inode) returns (loss: Step)
    requires Occupied(s, k, n) && s.fs.dir in s.fs.may && !Durable(s, k, n)
    ensures Enabled(s, loss) && forall r :: !Occupied(Apply(r, s, loss), k, n)
  {
    if d :| d in s.fs.may && d.target != Some(k) {
      loss := PowerLoss(d, map[]);
    } else {
      var other: Bytes := if n.data == [] then [0] else [];
      loss := PowerLoss(s.fs.dir, map[k := other]);
    }
  }

  /** A target that differs from the request makes every run fail, on the same condition. */
  lemma {:induction false} DifferingTargetFails(r: Request, s: Sys, steps: seq<Step>, k: nat, n: Inode)
    requires Occupied(s, k, n) && !ExactFile(r, n) && Possible(r, s, steps)
    requires s.pc.ReadTarget? || s.pc.Failed?
    requires Durable(s, k, n) || forall i :: 0 <= i < |steps| ==> !steps[i].PowerLoss?
    ensures var pc := After(r, s, steps).pc; pc.ReadTarget? || pc.Failed?
    decreases |steps|
  {
    if steps == [] {
    } else {
      var s1 := Apply(r, s, steps[0]);
      assert Durable(s, k, n) ==> Durable(s1, k, n);
      DifferingTargetFails(r, s1, steps[1..], k, n);
    }
  }

  // ---------------------------------------------------------------- the umask

  /** A stop right after the temporary file is created leaves a file that the next run accepts
      as its own exactly when the umask keeps every bit of the requested mode. */
  lemma StaleTempAcceptedIff(r: Request, s: Sys, ino: nat)
    requires Clean(s) && ino !in s.fs.inodes
    ensures var steps := [Op(0, ino), Op(0, ino), Op(0, ino), Stop, Op(0, ino), Op(0, ino)];
            && Possible(r, s, steps)
            && After(r, s, steps).pc == (if ModeKept(r) then UnlinkStale else Failed(UnsafeTemp))
            && (!ModeKept(r) ==> Rejected(r, After(r, s, steps)))
  {
    var op := Op(0, ino);
    var s3 := Apply(r, Apply(r, Apply(r, s, op), op), op);
    assert s3.pc == WriteTemp(ino, 0);
    var s6 := Apply(r, Apply(r, Apply(r, s3, Stop), op), op);
    ThreeSteps(r, s3, Stop, op, op, []);
    assert [Stop, op, op] + [] == [Stop, op, op];
    ThreeSteps(r, s, op, op, op, [Stop, op, op]);
    assert [op, op, op] + [Stop, op, op] == [op, op, op, Stop, op, op];
  }

  lemma ThreeSteps(r: Request, s: Sys, a: Step, b: Step, c: Step, rest: seq<Step>)
    requires Enabled(s, a)
    requires Enabled(Apply(r, s, a), b)
    requires Enabled(Apply(r, Apply(r, s, a), b), c)
    requires Possible(r, Apply(r, Apply(r, Apply(r, s, a), b), c), rest)
    ensures Possible(r, s, [a, b, c] + rest)
    ensures After(r, s, [a, b, c] + rest) == After(r, Apply(r, Apply(r, Apply(r, s, a), b), c), rest)
  {
    var s1 := Apply(r, s, a);
    var s2 := Apply(r, s1, b);
    OneStep(r, s2, c, rest);
    OneStep(r, s1, b, [c] + rest);
    OneStep(r, s, a, [b] + ([c] + rest));
    assert [a, b, c] + rest == [a] + ([b] + ([c] + rest));
  }

  lemma OneStep(r: Request, s: Sys, a: Step, rest: seq<Step>)
    requires Enabled(s, a) && Possible(r, Apply(r, s, a), rest)
    ensures Possible(r, s, [a] + rest) && After(r, s, [a] + rest) == After(r, Apply(r, s, a), rest)
  {
    assert ([a] + rest)[1..] == rest;
  }

  /** A temporary file whose mode is not the requested one. */
  predicate Rejected(r: Request, s: Sys) {
    && s.fs.dir.target.None? && s.fs.dir.temp.Some? && s.fs.dir.temp.value in s.fs.inodes
    && s.fs.inodes[s.fs.dir.temp.value].mode != r.mode
    && (s.pc.ReadTarget? || s.pc.CheckStale? || s.pc.Failed?)
  }

  /** Once rejected, the temporary file blocks every later run, losses of power included when its
      name is durable. */
  lemma {:induction false} RejectedTempBlocksForever(r: Request, s: Sys, steps: seq<Step>)
    requires Rejected(r, s) && Possible(r, s, steps)
    requires s.fs.may == {s.fs.dir} || forall i :: 0 <= i < |steps| ==> !steps[i].PowerLoss?
    ensures Rejected(r, After(r, s, steps))
    decreases |steps|
  {
    if steps == [] {
    } else {
      RejectedTempBlocksForever(r, Apply(r, s, steps[0]), steps[1..]);
    }
  }
}
