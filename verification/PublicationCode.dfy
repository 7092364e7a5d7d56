/** `publish_exact` in the form the source gives it, with the directory entries and inodes it
    changes as fields.  A call is proved to be an uninterrupted run of the transition system in
    Publication, so a process stopped at any point leaves a state covered there. */
module PublicationCode {
  import opened Common
  import opened Publication

  class Directory {
    const r: Request
    var dir: Dir
    var inodes: map<nat, Inode>
    ghost const start: Sys
    ghost var trace: seq<Step>
    ghost var model: Sys

    ghost predicate Valid()
      reads this
    {
      && Possible(r, start, trace) && model == After(r, start, trace)
      && (forall i :: 0 <= i < |trace| ==> trace[i].Op?)
      && model.fs.dir == dir && model.fs.inodes == inodes
    }

    ghost predicate At(pc: Pc)
      reads this
    {
      Valid() && model.pc == pc
    }

    constructor (r: Request, fs: Fs)
      ensures this.r == r && dir == fs.dir && inodes == fs.inodes && start == Sys(fs, ReadTarget) && trace == [] && At(ReadTarget)
    {
      this.r, dir, inodes := r, fs.dir, fs.inodes;
      start, trace, model := Sys(fs, ReadTarget), [], Sys(fs, ReadTarget);
    }

    ghost method Take(count: nat, ino: nat)
      requires Possible(r, start, trace) && model == After(r, start, trace) && Enabled(model, Op(count, ino))
      requires forall i :: 0 <= i < |trace| ==> trace[i].Op?
      modifies this`trace, this`model
      ensures Possible(r, start, trace) && model == After(r, start, trace)
      ensures forall i :: 0 <= i < |trace| ==> trace[i].Op?
      ensures model == AfterOp(r, old(model), count, ino)
    {
      RunExtends(r, start, trace, Op(count, ino));
      trace := trace + [Op(count, ino)];
      model := AfterOp(r, model, count, ino);
    }

    function LinkCount(i: nat): nat
      reads this
    {
      (if dir.target == Some(i) then 1 else 0) + (if dir.temp == Some(i) then 1 else 0) +
      (if i in inodes then inodes[i].outside else 0)
    }

    /** `read_regular_at`. */
    method ReadRegularAt(entry: Option<nat>, most: nat) returns (found: Option<Inode>, links: nat, safe: bool)
      ensures entry.None? ==> found.None? && safe
      ensures entry.Some? && safe ==>
                && entry.value in inodes && found == Some(inodes[entry.value]) && links == LinkCount(entry.value)
                && found.value.regular && 1 <= links <= most && |found.value.data| <= |r.data|
      ensures entry.Some? && !safe ==>
                !(entry.value in inodes && inodes[entry.value].regular && 1 <= LinkCount(entry.value) <= most &&
                  |inodes[entry.value].data| <= |r.data|)
    {
      if entry.None? {
        return None, 0, true;
      }
      var i := entry.value;
      if i !in inodes {
        return None, 0, false;
      }
      links := LinkCount(i);
      found := Some(inodes[i]);
      safe := inodes[i].regular && 1 <= links <= most && |inodes[i].data| <= |r.data|;
    }

    /** The branch of `publish_exact` for a target that exists. */
    method Recover(current: Inode, currentLinks: nat) returns (result: Pc)
      requires Valid() && dir.target.Some? && dir.target.value in inodes && current == inodes[dir.target.value]
      requires ExactFile(r, current) && model.pc == ReadTemp(currentLinks)
      modifies this
      ensures At(result) && (result.Done? || result.Failed?)
      ensures dir.target == old(dir.target) && inodes == old(inodes)
    {
      var pending, pendingLinks, safe := ReadRegularAt(dir.temp, 2);
      Take(0, 0);
      if !safe {
        return Failed(UnsafeFile);
      }
      if pending.None? {
        return if currentLinks != 1 then Failed(UnexplainedLink) else Done;
      }
      if !ExactFile(r, pending.value) || currentLinks != 2 || pendingLinks != 2 || dir.target != dir.temp {
        return Failed(Ambiguous);
      }
      dir := dir.(temp := None);
      Take(0, 0);
      Take(0, 0);
      result := VerifyTarget();
    }

    /** The final read back of the published file. */
    method VerifyTarget() returns (result: Pc)
      requires At(VerifyFinal)
      modifies this`trace, this`model
      ensures At(result) && (result.Done? || result.Failed?)
      ensures result.Done? ==> dir.target.Some? && dir.target.value in inodes && ExactFile(r, inodes[dir.target.value])
    {
      var final_, _, safe := ReadRegularAt(dir.target, 1);
      Take(0, 0);
      if !safe {
        return Failed(UnsafeFile);
      }
      result := if final_.Some? && ExactFile(r, final_.value) then Done else Failed(ChangedAfter);
    }

    /** `remove_stale_publication_temp`. */
    method RemoveStaleTemp() returns (ok: bool)
      requires At(CheckStale)
      modifies this
      ensures ok ==> At(OpenTemp) && dir.temp.None?
      ensures !ok ==> At(Failed(UnsafeTemp)) && dir == old(dir)
      ensures inodes == old(inodes) && dir.target == old(dir.target)
    {
      Take(0, 0);
      if dir.temp.None? {
        return true;
      }
      var j := dir.temp.value;
      if j !in inodes || !inodes[j].regular || LinkCount(j) != 1 || !inodes[j].ours || inodes[j].mode != r.mode {
        return false;
      }
      dir := dir.(temp := None);
      Take(0, 0);
      Take(0, 0);
      ok := true;
    }

    /** Writes the bytes in as many pieces as the kernel takes. */
    method WriteAll(ino: nat)
      requires At(WriteTemp(ino, 0)) && ino in inodes && inodes[ino].data == [] && !inodes[ino].synced
      modifies this
      ensures At(Chmod(ino)) && dir == old(dir)
      ensures inodes == old(inodes)[ino := old(inodes)[ino].(data := r.data)]
    {
      var written := 0;
      while written < |r.data|
        invariant 0 <= written <= |r.data|
        invariant At(WriteTemp(ino, written)) && dir == old(dir)
        invariant inodes == old(inodes)[ino := old(inodes)[ino].(data := r.data[..written])]
      {
        var n: nat :| 1 <= n <= |r.data| - written;
        WriteSome(ino, written, n);
        written := written + n;
      }
      assert r.data[..|r.data|] == r.data;
      Take(0, 0);
    }

    method WriteSome(ino: nat, written: nat, n: nat)
      requires At(WriteTemp(ino, written)) && ino in inodes && !inodes[ino].synced && 1 <= n <= |r.data| - written
      modifies this
      ensures At(WriteTemp(ino, written + n)) && dir == old(dir)
      ensures inodes == old(inodes)[ino := old(inodes)[ino].(data := r.data[..written + n])]
    {
      inodes := inodes[ino := inodes[ino].(data := r.data[..written + n])];
      Take(n, 0);
    }

    /** Exclusive creation of the temporary file. */
    method CreateTempFile(ino: nat)
      requires At(OpenTemp) && dir.temp.None? && ino !in inodes
      modifies this
      ensures At(WriteTemp(ino, 0)) && dir == old(dir).(temp := Some(ino))
      ensures inodes == old(inodes)[ino := Inode([], CreatedMode(r), true, true, 0, false)]
    {
      dir := dir.(temp := Some(ino));
      inodes := inodes[ino := Inode([], CreatedMode(r), true, true, 0, false)];
      Take(0, ino);
    }

    /** `fchmod`, then `fsync`. */
    method SealTempFile(ino: nat)
      requires At(Chmod(ino)) && ino in inodes
      modifies this
      ensures At(LinkTarget) && dir == old(dir)
      ensures inodes == old(inodes)[ino := old(inodes)[ino].(mode := r.mode, synced := true)]
    {
      inodes := inodes[ino := inodes[ino].(mode := r.mode)];
      Take(0, 0);
      inodes := inodes[ino := inodes[ino].(synced := true)];
      Take(0, 0);
    }

    method WriteTempFile(ino: nat)
      requires At(OpenTemp) && dir.temp.None? && ino !in inodes
      modifies this
      ensures At(LinkTarget) && dir == old(dir).(temp := Some(ino))
      ensures inodes == old(inodes)[ino := Inode(r.data, r.mode, true, true, 0, true)]
    {
      CreateTempFile(ino);
      WriteAll(ino);
      SealTempFile(ino);
    }

    /** Syncs the new link, drops the temporary name and syncs that. */
    method DropTempName()
      requires At(SyncLink)
      modifies this
      ensures At(VerifyFinal) && inodes == old(inodes) && dir == old(dir).(temp := None)
    {
      Take(0, 0);
      dir := dir.(temp := None);
      Take(0, 0);
      Take(0, 0);
    }

    /** Links the target, syncs the directory, drops the temporary name and verifies. */
    method LinkTempFile() returns (result: Pc)
      requires At(LinkTarget)
      modifies this
      ensures At(result) && (result.Done? || result.Failed?) && inodes == old(inodes)
      ensures dir == if old(dir.target).Some? then old(dir) else Dir(old(dir.temp), None)
      ensures old(dir.target).Some? ==> result == Failed(ChangedDuring)
      ensures result.Done? ==> dir.target.Some? && dir.target.value in inodes && ExactFile(r, inodes[dir.target.value])
    {
      Take(0, 0);
      if dir.target.Some? {
        return Failed(ChangedDuring);
      }
      dir := dir.(target := dir.temp);
      DropTempName();
      result := VerifyTarget();
    }

    /** `publish_exact`: an uninterrupted run that ends published or with a named refusal, and
        that never removes or replaces an existing target. */
    method PublishExact(ino: nat) returns (result: Pc)
      requires At(ReadTarget) && ino !in inodes
      modifies this
      ensures At(result) && (result.Done? || result.Failed?)
      ensures old(dir.target).Some? ==> dir.target == old(dir.target) && inodes == old(inodes)
      ensures old(dir.target).Some? && result.Done? ==> old(dir.target.value) in old(inodes) && ExactFile(r, old(inodes)[old(dir.target.value)])
      ensures old(dir.target).None? && result.Done? ==> dir == Dir(Some(ino), None) && ino in inodes && ExactFile(r, inodes[ino])
    {
      var current, currentLinks, safe := ReadRegularAt(dir.target, 2);
      Take(0, 0);
      if !safe {
        return Failed(UnsafeFile);
      }
      if current.Some? {
        if !ExactFile(r, current.value) {
          return Failed(Drifted);
        }
        result := Recover(current.value, currentLinks);
        return;
      }
      var ok := RemoveStaleTemp();
      if !ok {
        return Failed(UnsafeTemp);
      }
      WriteTempFile(ino);
      result := LinkTempFile();
    }
  }
}
