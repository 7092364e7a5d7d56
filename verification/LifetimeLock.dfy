/** Gateway lifetime locking (cmd/steward-gateway/lifetime_lock.go): which lock files a Gateway
    takes, how one start takes them, and what any interleaving of starts, failures and exits
    guarantees. */
module LifetimeLock {
  import opened Common
  import opened Ordering

  datatype Config = Config(
    controlSocket: string, serviceTokenFile: string, stateFile: string, grantRoot: string,
    egressAuditFile: string, receiptFile: string, receiptKeyFile: string,
    routeCredentials: seq<string>, connectorCredentials: seq<string>)

  datatype PathError = NotClean | Collision

  const SUFFIX := ".steward-gateway.lock"

  // ---------------------------------------------------------------- lock paths

  /** A path component that starts at `i` and is neither empty nor `.` nor `..`. */
  predicate GoodComponent(p: string, i: nat) {
    && i < |p| && p[i] != '/'
    && !(p[i] == '.' && (i + 1 == |p| || p[i + 1] == '/'))
    && !(p[i] == '.' && i + 1 < |p| && p[i + 1] == '.' && (i + 2 == |p| || p[i + 2] == '/'))
  }

  /** `filepath.IsAbs(p) && filepath.Clean(p) == p`. */
  predicate CleanAbsolute(p: string) {
    p == "/" || (|p| > 0 && p[0] == '/' && forall i :: 0 <= i < |p| && p[i] == '/' ==> GoodComponent(p, i + 1))
  }

  predicate Inside(path: string, directory: string) {
    |directory| + 1 <= |path| && path[..|directory| + 1] == directory + "/"
  }

  predicate Clashes(path: string, lockPath: string) {
    path == lockPath || (path != "" && (Inside(lockPath, path) || Inside(path, lockPath)))
  }

  function DataPaths(c: Config): seq<string> {
    [c.controlSocket, c.serviceTokenFile, c.stateFile, c.grantRoot, c.egressAuditFile, c.receiptFile, c.receiptKeyFile]
    + c.routeCredentials + c.connectorCredentials
  }

  predicate Collides(c: Config, lockPath: string) {
    exists path :: path in DataPaths(c) && Clashes(path, lockPath)
  }

  /** The mutable resources two Gateways must not share. */
  function Resources(c: Config): seq<string> {
    [c.controlSocket, c.stateFile, c.grantRoot]
    + (if c.egressAuditFile != "" then [c.egressAuditFile] else [])
    + (if c.receiptFile != "" then [c.receiptFile] else [])
  }

  function Suffixed(resources: seq<string>): set<string> {
    set r | r in resources :: r + SUFFIX
  }

  function LockPaths(c: Config): set<string> {
    Suffixed(Resources(c))
  }

  predicate PathOk(c: Config, r: string) {
    CleanAbsolute(r + SUFFIX) && !Collides(c, r + SUFFIX)
  }

  /** Resource `n` is the first that fails, and the error says how. */
  predicate FirstFailure(c: Config, n: nat, error: PathError)
    requires n < |Resources(c)|
  {
    && (forall i :: 0 <= i < n ==> PathOk(c, Resources(c)[i]))
    && !PathOk(c, Resources(c)[n])
    && (error == NotClean <==> !CleanAbsolute(Resources(c)[n] + SUFFIX))
  }

  /** `lockPathCollides`. */
  method LockPathCollides(c: Config, lockPath: string) returns (collides: bool)
    ensures collides <==> Collides(c, lockPath)
  {
    var paths := DataPaths(c);
    for n := 0 to |paths|
      invariant forall i :: 0 <= i < n ==> !Clashes(paths[i], lockPath)
    {
      if Clashes(paths[n], lockPath) {
        return true;
      }
    }
    return false;
  }

  /** `gatewayMutableLockPaths`: one lock file per distinct mutable resource, in strictly
      ascending order, exactly when every one is clean and clear of configured data. */
  method MutableLockPaths(c: Config) returns (r: Result<seq<string>, PathError>)
    ensures r.Ok? <==> forall resource :: resource in Resources(c) ==> PathOk(c, resource)
    ensures r.Ok? ==> StrictlyAscending(r.value) && Elements(r.value) == LockPaths(c)
    ensures r.Err? ==> exists n :: 0 <= n < |Resources(c)| && FirstFailure(c, n, r.error)
  {
    var resources := Resources(c);
    var paths: seq<string>, seen: set<string> := [], {};
    for n := 0 to |resources|
      invariant forall i :: 0 <= i < n ==> PathOk(c, resources[i])
      invariant seen == Elements(paths) == Suffixed(resources[..n])
      invariant Distinct(paths)
    {
      var lockPath := resources[n] + SUFFIX;
      assert resources[n] in resources;
      if !CleanAbsolute(lockPath) {
        assert FirstFailure(c, n, NotClean);
        return Err(NotClean);
      }
      var collides := LockPathCollides(c, lockPath);
      if collides {
        assert FirstFailure(c, n, Collision);
        return Err(Collision);
      }
      SuffixedExtends(resources, n);
      if lockPath !in seen {
        ElementsExtend(paths, lockPath);
        seen := seen + {lockPath};
        paths := paths + [lockPath];
      }
    }
    assert resources[..|resources|] == resources;
    var sorted := SortPaths(paths);
    return Ok(sorted);
  }

  method SortPaths(paths: seq<string>) returns (sorted: seq<string>)
    requires Distinct(paths)
    ensures StrictlyAscending(sorted) && Elements(sorted) == Elements(paths)
  {
    AtMostIsTotalPreorder();
    sorted := Sort(paths, AtMost);
    DistinctSorted(paths, sorted);
  }

  lemma SuffixedExtends(resources: seq<string>, n: nat)
    requires n < |resources|
    ensures Suffixed(resources[..n + 1]) == Suffixed(resources[..n]) + {resources[n] + SUFFIX}
  {
    assert resources[..n + 1] == resources[..n] + [resources[n]];
  }

  lemma ElementsExtend<T>(s: seq<T>, x: T)
    ensures Elements(s + [x]) == Elements(s) + {x}
  {
  }

  /** Different resources have different lock files. */
  lemma SharedLockIsSharedResource(a: string, b: string)
    requires a + SUFFIX == b + SUFFIX
    ensures a == b
  {
    assert a == (a + SUFFIX)[..|a + SUFFIX| - |SUFFIX|];
    assert b == (b + SUFFIX)[..|b + SUFFIX| - |SUFFIX|];
  }

  // ---------------------------------------------------------------- one start

  /** The kernel's exclusive advisory locks: the holder of each locked file. */
  class Kernel {
    var locked: map<string, nat>

    constructor ()
      ensures locked == map[]
    {
      locked := map[];
    }

    /** A non-blocking exclusive `flock` on a newly opened file. */
    method TryLock(path: string, owner: nat) returns (ok: bool)
      modifies this
      ensures ok <==> path !in old(locked)
      ensures locked == if ok then old(locked)[path := owner] else old(locked)
    {
      ok := path !in locked;
      if ok {
        locked := locked[path := owner];
      }
    }
  }

  /** The lock table with `paths` held by `owner` as well. */
  function WithOwner(locked: map<string, nat>, paths: seq<string>, owner: nat): map<string, nat> {
    locked + map p | p in paths :: owner
  }

  lemma OwnerExtends(locked: map<string, nat>, taken: seq<string>, path: string, owner: nat)
    requires path !in taken && forall p :: p in taken ==> p !in locked
    ensures WithOwner(locked, taken, owner)[path := owner] == WithOwner(locked, taken + [path], owner)
    ensures path in WithOwner(locked, taken, owner) <==> path in locked
    ensures WithOwner(locked, taken, owner) - Elements(taken) == locked
  {
    assert forall p :: p in taken + [path] <==> p in taken || p == path;
  }

  class LifetimeLockFiles {
    const kernel: Kernel
    const owner: nat
    var files: seq<string>

    constructor (kernel: Kernel, owner: nat)
      ensures this.kernel == kernel && this.owner == owner && files == []
    {
      this.kernel, this.owner, files := kernel, owner, [];
    }

    /** `Close`: the files go in reverse order, and their locks with them. */
    method Close()
      modifies this, kernel
      ensures files == [] && kernel.locked == old(kernel.locked) - Elements(old(files))
    {
      var index := |files|;
      while index > 0
        invariant 0 <= index <= |files| && files == old(files)
        invariant kernel.locked == old(kernel.locked) - Elements(files[index..])
      {
        index := index - 1;
        assert files[index..] == [files[index]] + files[index + 1..];
        kernel.locked := kernel.locked - {files[index]};
      }
      assert files[0..] == files;
      files := [];
    }

    /** The loop of `acquireGatewayLifetimeLock`: all paths, or nothing held at all. */
    method Acquire(paths: seq<string>) returns (ok: bool)
      requires files == [] && Distinct(paths)
      modifies this, kernel
      ensures ok <==> forall p :: p in paths ==> p !in old(kernel.locked)
      ensures ok ==> files == paths
      ensures ok ==> kernel.locked == WithOwner(old(kernel.locked), paths, owner)
      ensures !ok ==> files == [] && kernel.locked == old(kernel.locked)
    {
      for n := 0 to |paths|
        invariant files == paths[..n]
        invariant forall i :: 0 <= i < n ==> paths[i] !in old(kernel.locked)
        invariant kernel.locked == WithOwner(old(kernel.locked), paths[..n], owner)
      {
        var got := kernel.TryLock(paths[n], owner);
        assert paths[..n + 1] == paths[..n] + [paths[n]];
        OwnerExtends(old(kernel.locked), paths[..n], paths[n], owner);
        if !got {
          Close();
          return false;
        }
        files := files + [paths[n]];
      }
      assert paths[..|paths|] == paths;
      return true;
    }
  }

  // ---------------------------------------------------------------- interleaved starts

  /** `Closing` and `Gone` remember whether the start failed. */
  datatype Status = Starting | Live | Closing(failed: bool) | Gone(failed: bool) | Killed

  /** A Gateway process: `got` counts the locks it ever took, `held` those it holds now, always
      the first ones of its path list. */
  datatype Process = Process(paths: seq<string>, got: nat, held: nat, status: Status)

  type State = seq<Process>

  datatype Step = Try(p: nat) | Started(p: nat) | Exit(p: nat) | Release(p: nat) | Kill(p: nat)

  predicate Holds(x: Process, path: string) {
    x.held <= |x.paths| && path in x.paths[..x.held]
  }

  predicate Locked(s: State, path: string) {
    exists q :: 0 <= q < |s| && Holds(s[q], path)
  }

  predicate Enabled(s: State, st: Step) {
    && st.p < |s|
    && match st
       case Try(p) => s[p].status.Starting? && s[p].got < |s[p].paths|
       case Started(p) => s[p].status.Starting? && s[p].got >= |s[p].paths|
       case Exit(p) => s[p].status.Live?
       case Release(p) => s[p].status.Closing?
       case Kill(p) => !s[p].status.Gone? && !s[p].status.Killed?
  }

  function Apply(s: State, st: Step): (s': State)
    requires Enabled(s, st)
    ensures |s'| == |s|
  {
    var x := s[st.p];
    var x' := match st
      case Try(_) =>
        if Locked(s, x.paths[x.got]) then x.(status := Closing(true)) else x.(got := x.got + 1, held := x.got + 1)
      case Started(_) => x.(status := Live)
      case Exit(_) => x.(status := Closing(false))
      case Release(_) => if x.held > 0 then x.(held := x.held - 1) else x.(status := Gone(x.status.failed))
      case Kill(_) => x.(held := 0, status := Killed);
    s[st.p := x']
  }

  predicate ProcessInv(x: Process) {
    && StrictlyAscending(x.paths) && x.held <= x.got <= |x.paths|
    && (x.status.Starting? ==> x.held == x.got)
    && (x.status.Live? ==> x.held == x.got == |x.paths|)
    && (x.status.Gone? || x.status.Killed? ==> x.held == 0)
    && (x.status == Closing(true) || x.status == Gone(true) ==> x.got < |x.paths|)
  }

  ghost predicate Exclusive(s: State) {
    forall p, q, path :: 0 <= p < |s| && 0 <= q < |s| && Holds(s[p], path) && Holds(s[q], path) ==> p == q
  }

  ghost predicate Inv(s: State) {
    (forall p :: 0 <= p < |s| ==> ProcessInv(s[p])) && Exclusive(s)
  }

  lemma StepKeepsInv(s: State, st: Step)
    requires Inv(s) && Enabled(s, st)
    ensures Inv(Apply(s, st))
  {
    var s' := Apply(s, st);
    var x, x' := s[st.p], s'[st.p];
    forall path | Holds(x', path) ensures Holds(x, path) || (st.Try? && path == x.paths[x.got] && !Locked(s, path)) {
      if x'.held == x.held + 1 {
        assert x'.paths[..x'.held] == x.paths[..x.held] + [x.paths[x.got]];
      } else {
        assert forall k :: 0 <= k < x'.held ==> x'.paths[..x'.held][k] == x.paths[..x.held][k];
      }
    }
    forall p, q, path | 0 <= p < |s'| && 0 <= q < |s'| && Holds(s'[p], path) && Holds(s'[q], path) ensures p == q {
      if p != st.p { assert s'[p] == s[p]; }
      if q != st.p { assert s'[q] == s[q]; }
    }
  }

  predicate Possible(s: State, steps: seq<Step>)
    decreases |steps|
  {
    steps == [] || (Enabled(s, steps[0]) && Possible(Apply(s, steps[0]), steps[1..]))
  }

  function After(s: State, steps: seq<Step>): (s': State)
    requires Possible(s, steps)
    ensures |s'| == |s|
    decreases |steps|
  {
    if steps == [] then s else After(Apply(s, steps[0]), steps[1..])
  }

  /** Processes about to start, holding nothing. */
  predicate Fresh(s: State) {
    forall p :: 0 <= p < |s| ==> StrictlyAscending(s[p].paths) && s[p].got == s[p].held == 0 && s[p].status == Starting
  }

  lemma {:induction false} RunKeepsInv(s: State, steps: seq<Step>)
    requires Inv(s) && Possible(s, steps)
    ensures Inv(After(s, steps))
    ensures forall p :: 0 <= p < |s| ==> After(s, steps)[p].paths == s[p].paths
    decreases |steps|
  {
    if steps == [] {
    } else {
      StepKeepsInv(s, steps[0]);
      RunKeepsInv(Apply(s, steps[0]), steps[1..]);
    }
  }

  /** One starting process per configuration, with the lock paths `MutableLockPaths` gives it. */
  predicate StartsOf(configs: seq<Config>, s: State) {
    && |s| == |configs| && Fresh(s)
    && forall p :: 0 <= p < |s| ==> Elements(s[p].paths) == LockPaths(configs[p])
  }

  /** No two live Gateways ever share a mutable resource, and a start that failed or a Gateway
      that ended holds nothing, in any interleaving with any crashes. */
  lemma LiveGatewaysShareNothing(configs: seq<Config>, s: State, steps: seq<Step>)
    requires StartsOf(configs, s) && Possible(s, steps)
    ensures var s' := After(s, steps);
            && (forall p, q :: 0 <= p < q < |s| && s'[p].status.Live? && s'[q].status.Live? ==>
                  Elements(Resources(configs[p])) !! Elements(Resources(configs[q])))
            && (forall p, path :: 0 <= p < |s| && (s'[p].status.Gone? || s'[p].status.Killed?) ==> !Holds(s'[p], path))
  {
    RunKeepsInv(s, steps);
    var s' := After(s, steps);
    forall p, q | 0 <= p < q < |s| && s'[p].status.Live? && s'[q].status.Live?
      ensures Elements(Resources(configs[p])) !! Elements(Resources(configs[q]))
    {
      forall r | r in Elements(Resources(configs[p])) && r in Elements(Resources(configs[q])) ensures false {
        LiveHoldsItsLocks(configs[p], s'[p], r);
        LiveHoldsItsLocks(configs[q], s'[q], r);
      }
    }
  }

  lemma LiveHoldsItsLocks(c: Config, x: Process, r: string)
    requires ProcessInv(x) && x.status.Live? && Elements(x.paths) == LockPaths(c) && r in Resources(c)
    ensures Holds(x, r + SUFFIX)
  {
    assert r + SUFFIX in LockPaths(c);
    assert x.paths[..x.held] == x.paths;
  }

  /** A Gateway never conflicts with itself: the lock it fails on is held by another. */
  lemma ConflictIsWithAnother(s: State, p: nat)
    requires Inv(s) && Enabled(s, Try(p))
    ensures !Holds(s[p], s[p].paths[s[p].got])
    ensures Apply(s, Try(p))[p].status == Closing(true) <==> exists q :: 0 <= q < |s| && q != p && Holds(s[q], s[p].paths[s[p].got])
  {
    var path := s[p].paths[s[p].got];
    if Holds(s[p], path) {
      var k :| 0 <= k < s[p].held && s[p].paths[k] == path;
      LessTrichotomy(path, path);
    }
  }

  predicate Failed(x: Process) {
    x.status == Closing(true) || x.status == Gone(true)
  }

  predicate Succeeded(x: Process) {
    x.status == Live || x.status == Closing(false) || x.status == Gone(false)
  }

  /** The process took the lock on `path` at some time. */
  predicate Took(x: Process, path: string) {
    x.got <= |x.paths| && path in x.paths[..x.got]
  }

  /** Every failed start failed on a lock that another process had taken. */
  predicate Explained(s: State, p: nat)
    requires p < |s|
  {
    Failed(s[p]) && s[p].got < |s[p].paths| ==> exists q :: 0 <= q < |s| && q != p && Took(s[q], s[p].paths[s[p].got])
  }

  lemma TookPersists(s: State, st: Step, q: nat, path: string)
    requires Inv(s) && Enabled(s, st) && q < |s| && Took(s[q], path)
    ensures Took(Apply(s, st)[q], path)
  {
    var x := Apply(s, st)[q];
    var k :| 0 <= k < s[q].got && s[q].paths[k] == path;
    assert x.paths[..x.got][k] == path;
  }

  lemma HolderTook(x: Process, path: string)
    requires ProcessInv(x) && Holds(x, path)
    ensures Took(x, path)
  {
    var k :| 0 <= k < x.held && x.paths[k] == path;
    assert x.paths[..x.got][k] == path;
  }

  lemma StepKeepsExplained(s: State, st: Step)
    requires Inv(s) && Enabled(s, st) && !st.Kill? && forall p :: 0 <= p < |s| ==> Explained(s, p)
    ensures forall p :: 0 <= p < |s| ==> Explained(Apply(s, st), p)
  {
    var s' := Apply(s, st);
    forall p | 0 <= p < |s| && Failed(s'[p]) && s'[p].got < |s'[p].paths| ensures Explained(s', p) {
      var path := s'[p].paths[s'[p].got];
      if Failed(s[p]) {
        assert Explained(s, p);
        var q :| 0 <= q < |s| && q != p && Took(s[q], path);
        TookPersists(s, st, q, path);
      } else {
        ConflictIsWithAnother(s, p);
        var q :| 0 <= q < |s| && q != p && Holds(s[q], path);
        HolderTook(s[q], path);
        TookPersists(s, st, q, path);
      }
    }
  }

  lemma {:induction false} RunKeepsExplained(s: State, steps: seq<Step>)
    requires Inv(s) && Possible(s, steps) && (forall p :: 0 <= p < |s| ==> Explained(s, p))
    requires forall i :: 0 <= i < |steps| ==> !steps[i].Kill?
    ensures Inv(After(s, steps)) && forall p :: 0 <= p < |s| ==> Explained(After(s, steps), p)
    ensures (forall p :: 0 <= p < |s| ==> !s[p].status.Killed?) ==> forall p :: 0 <= p < |s| ==> !After(s, steps)[p].status.Killed?
    decreases |steps|
  {
    if steps == [] {
    } else {
      StepKeepsInv(s, steps[0]);
      StepKeepsExplained(s, steps[0]);
      RunKeepsExplained(Apply(s, steps[0]), steps[1..]);
    }
  }

  /** Among failed starts, one failed on the greatest path. */
  lemma {:induction false} GreatestFailure(s: State, n: nat) returns (p: nat)
    requires 0 < n <= |s| && Inv(s) && forall i :: 0 <= i < n ==> Failed(s[i])
    ensures p < n && forall i :: 0 <= i < n ==> s[i].got < |s[i].paths|
    ensures forall i :: 0 <= i < n ==> AtMost(s[i].paths[s[i].got], s[p].paths[s[p].got])
  {
    if n == 1 {
      p := 0;
      LessTrichotomy(s[0].paths[s[0].got], s[0].paths[s[0].got]);
    } else {
      p := GreatestFailure(s, n - 1);
      var last, best := s[n - 1].paths[s[n - 1].got], s[p].paths[s[p].got];
      LessTrichotomy(last, best);
      LessTrichotomy(last, last);
      if Less(best, last) {
        forall i | 0 <= i < n ensures AtMost(s[i].paths[s[i].got], last) {
          if i < n - 1 { LessTransitive(s[i].paths[s[i].got], best, last); }
        }
        p := n - 1;
      }
    }
  }

  /** Contention has a winner: when every start has run to its end and contention is the only
      way to fail, at least one succeeded, because all take their locks in the same order. */
  lemma ContentionHasAWinner(s: State, steps: seq<Step>)
    requires Fresh(s) && |s| > 0 && Possible(s, steps)
    requires forall i :: 0 <= i < |steps| ==> !steps[i].Kill?
    requires forall p :: 0 <= p < |s| ==> !After(s, steps)[p].status.Starting?
    ensures exists p :: 0 <= p < |s| && Succeeded(After(s, steps)[p])
  {
    RunKeepsExplained(s, steps);
    var s' := After(s, steps);
    if forall p :: 0 <= p < |s'| ==> Failed(s'[p]) {
      var p := GreatestFailure(s', |s'|);
      var _ := FailedOnGreater(s', p);
      assert false;
    }
  }

  /** If all failed, the process that explains a failure itself failed further along. */
  lemma FailedOnGreater(s: State, p: nat) returns (q: nat)
    requires Inv(s) && p < |s| && Explained(s, p) && forall i :: 0 <= i < |s| ==> Failed(s[i])
    ensures q < |s| && s[q].got < |s[q].paths| && s[p].got < |s[p].paths|
    ensures Less(s[p].paths[s[p].got], s[q].paths[s[q].got])
  {
    var path := s[p].paths[s[p].got];
    q :| 0 <= q < |s| && q != p && Took(s[q], path);
    var k :| 0 <= k < s[q].got && s[q].paths[k] == path;
  }

  /** The order matters: two processes that take two locks in opposite orders can both fail. */
  lemma OppositeOrdersCanAllFail(a: string, b: string)
    requires a != b
    ensures var s := [Process([a, b], 0, 0, Starting), Process([b, a], 0, 0, Starting)];
            var steps := [Try(0), Try(1), Try(0), Try(1)];
            Possible(s, steps) && forall p :: 0 <= p < 2 ==> Failed(After(s, steps)[p])
  {
    var s := [Process([a, b], 0, 0, Starting), Process([b, a], 0, 0, Starting)];
    var s1 := Apply(s, Try(0));
    assert !Locked(s, a);
    assert s1 == [Process([a, b], 1, 1, Starting), Process([b, a], 0, 0, Starting)];
    var s2 := Apply(s1, Try(1));
    assert s1[0].paths[..1] == [a];
    assert !Locked(s1, b);
    assert s2 == [Process([a, b], 1, 1, Starting), Process([b, a], 1, 1, Starting)];
    var s3 := Apply(s2, Try(0));
    assert s2[1].paths[..1][0] == b;
    assert Holds(s2[1], b);
    assert s3 == [Process([a, b], 1, 1, Closing(true)), Process([b, a], 1, 1, Starting)];
    var s4 := Apply(s3, Try(1));
    assert s3[0].paths[..1][0] == a;
    assert Holds(s3[0], a);
    var steps := [Try(0), Try(1), Try(0), Try(1)];
    assert steps[1..] == [Try(1), Try(0), Try(1)] && steps[1..][1..] == [Try(0), Try(1)];
    assert steps[1..][1..][1..] == [Try(1)] && steps[1..][1..][1..][1..] == [];
    assert Possible(s4, []) && After(s4, []) == s4;
    assert Possible(s3, [Try(1)]) && After(s3, [Try(1)]) == s4;
    assert Possible(s2, [Try(0), Try(1)]) && After(s2, [Try(0), Try(1)]) == s4;
    assert Possible(s1, [Try(1), Try(0), Try(1)]) && After(s1, [Try(1), Try(0), Try(1)]) == s4;
  }
}
