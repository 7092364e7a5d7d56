/** Auditing a signed effect bundle against the connector receipt ledger
    (cmd/stewardctl/permit_bundle_audit.go). */
module EffectAudit {
  import opened Common
  import opened ConnectorHistory

  datatype Step = Step(
    id: string, task: string, connector: string, operation: string, operationDigest: string,
    requestDigest: string, requestBytes: int)

  datatype Bundle = Bundle(
    tenant: string, instance: string, capsule: string, policy: string, routePolicy: string,
    generation: nat, approvalThreshold: int, steps: seq<Step>)

  // ---------------------------------------------------------------- what the audit computes

  datatype Status = Unspent | Authorized | Done

  datatype AuditStep = AuditStep(step: Step, status: Status, authorization: Option<Receipt>, terminal: Option<Receipt>)

  /** What is audited: the bundle, its envelope digest, its signers, and the index by task. */
  datatype Context = Context(bundle: Bundle, permit: string, keyIds: seq<string>, index: map<CallDigest, nat>)

  function DigestOf(b: Bundle, s: Step): CallDigest {
    CallDigest(b.tenant, b.instance, s.task, s.connector, s.operation)
  }

  /** The index by task digest; of two steps with one digest the later wins. */
  function ByTask(b: Bundle, n: nat): map<CallDigest, nat>
    requires n <= |b.steps|
  {
    if n == 0 then map[] else ByTask(b, n - 1)[DigestOf(b, b.steps[n - 1]) := n - 1]
  }

  /** The index leads from a digest to a step that has it. */
  ghost predicate Indexed(ctx: Context) {
    forall d :: d in ctx.index ==>
      ctx.index[d] < |ctx.bundle.steps| && DigestOf(ctx.bundle, ctx.bundle.steps[ctx.index[d]]) == d
  }

  lemma {:induction false} ByTaskIndexes(b: Bundle, n: nat)
    requires n <= |b.steps|
    ensures forall d :: d in ByTask(b, n) ==> ByTask(b, n)[d] < n && DigestOf(b, b.steps[ByTask(b, n)[d]]) == d
  {
    if n == 0 {
    } else {
      ByTaskIndexes(b, n - 1);
    }
  }

  /** Every step is found by its digest, and steps with distinct digests by their own. */
  lemma {:induction false} ByTaskFinds(b: Bundle, n: nat, i: nat)
    requires i < n <= |b.steps|
    ensures DigestOf(b, b.steps[i]) in ByTask(b, n)
    ensures (forall j :: i < j < n ==> DigestOf(b, b.steps[j]) != DigestOf(b, b.steps[i])) ==> ByTask(b, n)[DigestOf(b, b.steps[i])] == i
  {
    if i == n - 1 {
    } else {
      ByTaskFinds(b, n - 1, i);
    }
  }

  function Join(ids: seq<string>): string {
    if ids == [] then "" else if |ids| == 1 then ids[0] else ids[0] + "," + Join(ids[1..])
  }

  /** What a receipt for this step must be bound to. */
  function Expected(ctx: Context, s: Step): Call {
    var b := ctx.bundle;
    var threshold := b.approvalThreshold > 1;
    Call("connector_call", "authorized", b.tenant, b.capsule, b.policy, b.routePolicy, b.generation,
         GrantId(b.tenant, b.instance, b.generation), s.connector, s.operation, s.operationDigest,
         DigestOf(b, s),
         if !threshold && |ctx.keyIds| == 1 then ctx.keyIds[0] else "",
         if threshold then Join(ctx.keyIds) else "",
         if threshold then b.approvalThreshold else 0,
         s.requestDigest, s.requestBytes)
  }

  /** The receipt is one of this bundle's and belongs to step i. */
  predicate Selects(ctx: Context, i: nat, r: Receipt) {
    r.event.permit == ctx.permit && r.event.call.task in ctx.index && ctx.index[r.event.call.task] == i
  }

  /** Bundle verification demands unique task IDs, so no two steps have one task digest. */
  predicate DistinctSteps(b: Bundle) {
    forall i, j :: 0 <= i < j < |b.steps| ==> b.steps[i].task != b.steps[j].task
  }

  /** The receipt is the bundle's and carries step i's own digest. */
  predicate Carries(ctx: Context, i: nat, r: Receipt)
    requires i < |ctx.bundle.steps|
  {
    r.event.permit == ctx.permit && r.event.call.task == DigestOf(ctx.bundle, ctx.bundle.steps[i])
  }

  /** With distinct steps, the receipts the index gives to a step are those carrying its digest. */
  lemma SelectsItsOwn(ctx: Context, i: nat, r: Receipt)
    requires ctx.index == ByTask(ctx.bundle, |ctx.bundle.steps|) && DistinctSteps(ctx.bundle) && i < |ctx.bundle.steps|
    ensures Selects(ctx, i, r) <==> Carries(ctx, i, r)
  {
    ByTaskFinds(ctx.bundle, |ctx.bundle.steps|, i);
    ByTaskIndexes(ctx.bundle, |ctx.bundle.steps|);
  }

  /** The step's last receipt of a phase. */
  function Slot(ctx: Context, i: nat, rs: seq<Receipt>, phase: Phase): Option<Receipt> {
    if rs == [] then None
    else
      var last := rs[|rs| - 1];
      if Selects(ctx, i, last) && last.event.phase == phase then Some(last) else Slot(ctx, i, rs[..|rs| - 1], phase)
  }

  /** The status the step was last given. */
  function StatusOf(ctx: Context, i: nat, rs: seq<Receipt>): Status {
    if rs == [] then Unspent
    else
      var last := rs[|rs| - 1];
      if Selects(ctx, i, last) && last.event.phase == Authorize then Authorized
      else if Selects(ctx, i, last) && last.event.phase == Terminal then Done
      else StatusOf(ctx, i, rs[..|rs| - 1])
  }

  predicate InWindow(r: Receipt, window: int -> bool) {
    r.observedAt.Some? && window(r.observedAt.value)
  }

  /** The receipt names a listed task, is bound exactly as the bundle says, and is a terminal or
      an authorization in the signed window. */
  predicate Fits(ctx: Context, r: Receipt, window: int -> bool) {
    && r.event.call.task in ctx.index
    && ctx.index[r.event.call.task] < |ctx.bundle.steps|
    && r.event.call == Expected(ctx, ctx.bundle.steps[ctx.index[r.event.call.task]])
    && (r.event.phase == Authorize || r.event.phase == Terminal)
    && (r.event.phase == Authorize ==> InWindow(r, window))
  }

  /** The receipt is accepted after the ones before it. */
  predicate Visitable(ctx: Context, rs: seq<Receipt>, r: Receipt, window: int -> bool) {
    r.event.permit != ctx.permit ||
    (Fits(ctx, r, window) && Slot(ctx, ctx.index[r.event.call.task], rs, r.event.phase).None?)
  }

  predicate Clean(ctx: Context, rs: seq<Receipt>, window: int -> bool) {
    rs == [] || (Clean(ctx, rs[..|rs| - 1], window) && Visitable(ctx, rs[..|rs| - 1], rs[|rs| - 1], window))
  }

  function StepState(ctx: Context, i: nat, rs: seq<Receipt>): AuditStep
    requires i < |ctx.bundle.steps|
  {
    AuditStep(ctx.bundle.steps[i], StatusOf(ctx, i, rs), Slot(ctx, i, rs, Authorize), Slot(ctx, i, rs, Terminal))
  }

  predicate TerminalsAuthorized(ctx: Context, rs: seq<Receipt>) {
    forall i :: 0 <= i < |ctx.bundle.steps| ==>
      (Slot(ctx, i, rs, Terminal).Some? ==> Slot(ctx, i, rs, Authorize).Some?)
  }

  // ---------------------------------------------------------------- what acceptance means

  lemma {:induction false} SlotFinds(ctx: Context, i: nat, rs: seq<Receipt>, phase: Phase)
    ensures var s := Slot(ctx, i, rs, phase);
            && (s.Some? ==> s.value in rs && Selects(ctx, i, s.value) && s.value.event.phase == phase)
            && (s.None? ==> forall k :: 0 <= k < |rs| && rs[k].event.phase == phase ==> !Selects(ctx, i, rs[k]))
  {
    if rs == [] {
    } else {
      SlotFinds(ctx, i, rs[..|rs| - 1], phase);
    }
  }

  lemma {:induction false} CleanPrefix(ctx: Context, rs: seq<Receipt>, window: int -> bool, k: nat)
    requires Clean(ctx, rs, window) && k < |rs|
    ensures Clean(ctx, rs[..k], window) && Visitable(ctx, rs[..k], rs[k], window)
  {
    var n := |rs| - 1;
    if k >= n {
    } else {
      CleanPrefix(ctx, rs[..n], window, k);
      assert rs[..n][..k] == rs[..k];
    }
  }

  /** Two receipts under the permit for one task and of one phase. */
  predicate Repeats(ctx: Context, a: Receipt, b: Receipt) {
    && a.event.permit == ctx.permit && b.event.permit == ctx.permit
    && a.event.call.task == b.event.call.task && a.event.phase == b.event.phase
  }

  /** Audit acceptance, said of the ledger as a whole. */
  ghost predicate Sane(ctx: Context, rs: seq<Receipt>, window: int -> bool) {
    && (forall k :: 0 <= k < |rs| && rs[k].event.permit == ctx.permit ==> Fits(ctx, rs[k], window))
    && (forall j, k :: 0 <= j < k < |rs| ==> !Repeats(ctx, rs[j], rs[k]))
  }

  lemma CleanIsSane(ctx: Context, rs: seq<Receipt>, window: int -> bool)
    requires Clean(ctx, rs, window)
    ensures Sane(ctx, rs, window)
  {
    forall k | 0 <= k < |rs| ensures Visitable(ctx, rs[..k], rs[k], window) {
      CleanPrefix(ctx, rs, window, k);
    }
    forall j, k | 0 <= j < k < |rs| ensures !Repeats(ctx, rs[j], rs[k]) {
      assert Visitable(ctx, rs[..k], rs[k], window);
      if rs[k].event.permit == ctx.permit {
        SlotFinds(ctx, ctx.index[rs[k].event.call.task], rs[..k], rs[k].event.phase);
        assert rs[..k][j] == rs[j];
      }
    }
  }

  lemma {:induction false} SaneIsClean(ctx: Context, rs: seq<Receipt>, window: int -> bool)
    requires Indexed(ctx) && Sane(ctx, rs, window)
    ensures Clean(ctx, rs, window)
  {
    if rs == [] {
    } else {
      var k := |rs| - 1;
      assert forall j :: 0 <= j < k ==> rs[..k][j] == rs[j];
      SaneIsClean(ctx, rs[..k], window);
      if rs[k].event.permit == ctx.permit {
        NoRepeatNoSlot(ctx, rs[..k], rs[k]);
      }
    }
  }

  lemma NoRepeatNoSlot(ctx: Context, rs: seq<Receipt>, r: Receipt)
    requires Indexed(ctx) && r.event.permit == ctx.permit && r.event.call.task in ctx.index
    requires forall j :: 0 <= j < |rs| ==> !Repeats(ctx, rs[j], r)
    ensures Slot(ctx, ctx.index[r.event.call.task], rs, r.event.phase).None?
  {
    var i := ctx.index[r.event.call.task];
    forall j | 0 <= j < |rs| && Selects(ctx, i, rs[j]) ensures rs[j].event.call.task == r.event.call.task {
      SelectsTask(ctx, i, rs[j], r);
    }
    SlotFinds(ctx, i, rs, r.event.phase);
  }

  lemma SelectsTask(ctx: Context, i: nat, a: Receipt, b: Receipt)
    requires Indexed(ctx) && Selects(ctx, i, a) && Selects(ctx, i, b)
    ensures a.event.call.task == b.event.call.task
  {
  }

  /** A step's own receipt of a phase is the only one, and it is the one reported. */
  lemma ReportedReceiptIsTheOnlyOne(ctx: Context, rs: seq<Receipt>, window: int -> bool, i: nat, k: nat)
    requires Indexed(ctx) && Clean(ctx, rs, window) && k < |rs| && Selects(ctx, i, rs[k])
    ensures Slot(ctx, i, rs, rs[k].event.phase) == Some(rs[k])
    ensures forall j :: 0 <= j < |rs| && j != k && Selects(ctx, i, rs[j]) ==> rs[j].event.phase != rs[k].event.phase
  {
    CleanIsSane(ctx, rs, window);
    forall j | 0 <= j < |rs| && j != k && Selects(ctx, i, rs[j]) ensures rs[j].event.phase != rs[k].event.phase {
      SelectsTask(ctx, i, rs[j], rs[k]);
      assert j < k ==> !Repeats(ctx, rs[j], rs[k]);
      assert k < j ==> !Repeats(ctx, rs[k], rs[j]);
    }
    SlotFinds(ctx, i, rs, rs[k].event.phase);
  }

  /** What is reported for a step is exactly the ledger's receipt of that phase with the step's own
      digest, and there is at most one. */
  ghost predicate ReportsItsOwn(ctx: Context, rs: seq<Receipt>, i: nat, phase: Phase, reported: Option<Receipt>)
    requires i < |ctx.bundle.steps|
  {
    forall r :: reported == Some(r) <==> r in rs && Carries(ctx, i, r) && r.event.phase == phase
  }

  lemma StepsReportTheirOwn(ctx: Context, rs: seq<Receipt>, window: int -> bool, i: nat, phase: Phase)
    requires ctx.index == ByTask(ctx.bundle, |ctx.bundle.steps|) && DistinctSteps(ctx.bundle) && Indexed(ctx)
    requires i < |ctx.bundle.steps| && Clean(ctx, rs, window)
    ensures ReportsItsOwn(ctx, rs, i, phase, Slot(ctx, i, rs, phase))
  {
    SlotFinds(ctx, i, rs, phase);
    forall r ensures Slot(ctx, i, rs, phase) == Some(r) <==> r in rs && Carries(ctx, i, r) && r.event.phase == phase {
      SelectsItsOwn(ctx, i, r);
      if r in rs && Carries(ctx, i, r) && r.event.phase == phase {
        var k :| 0 <= k < |rs| && rs[k] == r;
        ReportedReceiptIsTheOnlyOne(ctx, rs, window, i, k);
      }
    }
  }

  lemma {:induction false} ByTaskLatest(b: Bundle, n: nat, j: nat)
    requires j < n <= |b.steps|
    ensures DigestOf(b, b.steps[j]) in ByTask(b, n) && ByTask(b, n)[DigestOf(b, b.steps[j])] >= j
  {
    if j == n - 1 {
    } else {
      ByTaskLatest(b, n - 1, j);
    }
  }

  /** Distinct tasks are needed: a step that shares its digest with a later one reports nothing,
      whatever the ledger holds. */
  lemma ShadowedStepReportsNothing(ctx: Context, rs: seq<Receipt>, i: nat, j: nat, phase: Phase)
    requires ctx.index == ByTask(ctx.bundle, |ctx.bundle.steps|) && Indexed(ctx)
    requires i < j < |ctx.bundle.steps| && DigestOf(ctx.bundle, ctx.bundle.steps[i]) == DigestOf(ctx.bundle, ctx.bundle.steps[j])
    ensures Slot(ctx, i, rs, phase).None?
  {
    ByTaskLatest(ctx.bundle, |ctx.bundle.steps|, j);
    forall r ensures !Selects(ctx, i, r) {}
    SlotFinds(ctx, i, rs, phase);
  }

  /** The status that the receipts a step has call for. */
  function Deserved(s: AuditStep): Status {
    if s.terminal.Some? then Done else if s.authorization.Some? then Authorized else Unspent
  }

  /** Receipt j is a terminal of the step and receipt k a later authorization of it. */
  predicate ReversedAt(ctx: Context, i: nat, rs: seq<Receipt>, j: nat, k: nat) {
    && j < k < |rs| && Selects(ctx, i, rs[j]) && Selects(ctx, i, rs[k])
    && rs[j].event.phase == Terminal && rs[k].event.phase == Authorize
  }

  ghost predicate Reversed(ctx: Context, i: nat, rs: seq<Receipt>) {
    exists j: nat, k: nat :: ReversedAt(ctx, i, rs, j, k)
  }

  /** Status matches the receipts exactly when no authorization follows its terminal. */
  lemma {:induction false} StatusMatchesIff(ctx: Context, rs: seq<Receipt>, window: int -> bool, i: nat)
    requires i < |ctx.bundle.steps| && Clean(ctx, rs, window)
    ensures StatusOf(ctx, i, rs) == Deserved(StepState(ctx, i, rs)) <==> !Reversed(ctx, i, rs)
  {
    if rs == [] {
    } else {
      var n := |rs| - 1;
      StatusMatchesIff(ctx, rs[..n], window, i);
      ReversedOnce(ctx, i, rs);
      if Reversed(ctx, i, rs[..n]) {
        ReversedHasBoth(ctx, i, rs[..n]);
      }
    }
  }

  lemma ReversedHasBoth(ctx: Context, i: nat, rs: seq<Receipt>)
    requires Reversed(ctx, i, rs)
    ensures Slot(ctx, i, rs, Terminal).Some? && Slot(ctx, i, rs, Authorize).Some?
  {
    SlotFinds(ctx, i, rs, Terminal);
    SlotFinds(ctx, i, rs, Authorize);
  }

  lemma ReversedOnce(ctx: Context, i: nat, rs: seq<Receipt>)
    requires rs != []
    ensures var n := |rs| - 1;
            Reversed(ctx, i, rs) <==>
              || Reversed(ctx, i, rs[..n])
              || (Selects(ctx, i, rs[n]) && rs[n].event.phase == Authorize && Slot(ctx, i, rs[..n], Terminal).Some?)
  {
    var n := |rs| - 1;
    SlotFinds(ctx, i, rs[..n], Terminal);
    if j: nat, k: nat :| ReversedAt(ctx, i, rs[..n], j, k) {
      assert ReversedAt(ctx, i, rs, j, k);
    }
    if Selects(ctx, i, rs[n]) && rs[n].event.phase == Authorize && Slot(ctx, i, rs[..n], Terminal).Some? {
      var j: nat :| j < n && rs[..n][j] == Slot(ctx, i, rs[..n], Terminal).value;
      assert ReversedAt(ctx, i, rs, j, n);
    }
    if j: nat, k: nat :| ReversedAt(ctx, i, rs, j, k) {
      assert rs[..n][j] == rs[j];
      assert k < n ==> ReversedAt(ctx, i, rs[..n], j, k);
    }
  }

  /** The audit fold alone would report `authorized` for a step whose terminal came first. */
  lemma FoldAloneMisreports(ctx: Context, i: nat, terminal: Receipt, authorization: Receipt, window: int -> bool)
    requires i < |ctx.bundle.steps| && Selects(ctx, i, terminal) && Selects(ctx, i, authorization)
    requires terminal.event.phase == Terminal && authorization.event.phase == Authorize
    requires Fits(ctx, terminal, window) && Fits(ctx, authorization, window)
    ensures Clean(ctx, [terminal, authorization], window)
    ensures StepState(ctx, i, [terminal, authorization]).terminal.Some?
    ensures StepState(ctx, i, [terminal, authorization]).authorization.Some?
    ensures StepState(ctx, i, [terminal, authorization]).status == Authorized
  {
    StateAfter(ctx, i, [], terminal);
    assert [] + [terminal] == [terminal];
    var one := [terminal];
    assert one[..|one| - 1] == [] && Visitable(ctx, one[..|one| - 1], one[|one| - 1], window);
    StateAfter(ctx, i, [terminal], authorization);
    assert [terminal] + [authorization] == [terminal, authorization] && [terminal, authorization][..1] == [terminal];
    assert Clean(ctx, [terminal], window);
  }

  /** On a ledger the history check accepts, status always matches. */
  lemma StatusMatchesOnLedgers(ctx: Context, rs: seq<Receipt>, window: int -> bool, i: nat)
    requires Indexed(ctx) && i < |ctx.bundle.steps| && Clean(ctx, rs, window) && HistoryOf(rs).Some?
    ensures StatusOf(ctx, i, rs) == Deserved(StepState(ctx, i, rs))
  {
    AcceptedLedgerIsOrdered(rs);
    StatusMatchesIff(ctx, rs, window, i);
    forall j: nat, k: nat | j < k < |rs| ensures !ReversedAt(ctx, i, rs, j, k) {
      if Selects(ctx, i, rs[j]) && Selects(ctx, i, rs[k]) {
        SelectsTask(ctx, i, rs[j], rs[k]);
      }
    }
  }

  /** Receipts of other permits change nothing: with or without one, at any position, the ledger
      is equally clean and every step ends the same. */
  lemma {:induction false} ForeignReceiptsChangeNothing(
      ctx: Context, before: seq<Receipt>, x: Receipt, after: seq<Receipt>, window: int -> bool, i: nat, phase: Phase)
    requires x.event.permit != ctx.permit
    ensures Clean(ctx, before + [x] + after, window) <==> Clean(ctx, before + after, window)
    ensures StatusOf(ctx, i, before + [x] + after) == StatusOf(ctx, i, before + after)
    ensures Slot(ctx, i, before + [x] + after, phase) == Slot(ctx, i, before + after, phase)
    decreases |after|
  {
    var with, without := before + [x] + after, before + after;
    if after == [] {
      assert with[..|with| - 1] == before && without == before;
    } else {
      var n := |after| - 1;
      var last := after[n];
      assert with[..|with| - 1] == before + [x] + after[..n];
      assert without[..|without| - 1] == before + after[..n];
      ForeignReceiptsChangeNothing(ctx, before, x, after[..n], window, i, phase);
      if last.event.call.task in ctx.index {
        ForeignReceiptsChangeNothing(ctx, before, x, after[..n], window, ctx.index[last.event.call.task], last.event.phase);
      }
    }
  }

  // ---------------------------------------------------------------- the code

  /** The steps table and its index, before any receipt. */
  method PrepareSteps(bundle: Bundle, permit: string, keyIds: seq<string>) returns (steps: array<AuditStep>, ctx: Context)
    ensures fresh(steps) && steps.Length == |bundle.steps|
    ensures ctx == Context(bundle, permit, keyIds, ByTask(bundle, |bundle.steps|)) && Indexed(ctx)
    ensures forall i :: 0 <= i < steps.Length ==> steps[i] == AuditStep(bundle.steps[i], Unspent, None, None)
  {
    steps := new AuditStep[|bundle.steps|](_ => AuditStep(Step("", "", "", "", "", "", 0), Unspent, None, None));
    var byTask: map<CallDigest, nat> := map[];
    for index := 0 to |bundle.steps|
      invariant byTask == ByTask(bundle, index)
      invariant forall i :: 0 <= i < index ==> steps[i] == AuditStep(bundle.steps[i], Unspent, None, None)
    {
      steps[index] := AuditStep(bundle.steps[index], Unspent, None, None);
      byTask := byTask[DigestOf(bundle, bundle.steps[index]) := index];
    }
    ByTaskIndexes(bundle, |bundle.steps|);
    ctx := Context(bundle, permit, keyIds, byTask);
  }

  /** How one receipt changes one step. */
  lemma StateAfter(ctx: Context, i: nat, rs: seq<Receipt>, r: Receipt)
    requires i < |ctx.bundle.steps|
    ensures var s := StepState(ctx, i, rs);
            StepState(ctx, i, rs + [r]) ==
            if Selects(ctx, i, r) && r.event.phase == Authorize then s.(authorization := Some(r), status := Authorized)
            else if Selects(ctx, i, r) && r.event.phase == Terminal then s.(terminal := Some(r), status := Done)
            else s
  {
    assert (rs + [r])[..|rs|] == rs;
  }

  /** What the audit does with one verified receipt. */
  method Visit(ctx: Context, steps: array<AuditStep>, r: Receipt, window: int -> bool, ghost rs: seq<Receipt>) returns (ok: bool)
    requires Indexed(ctx) && steps.Length == |ctx.bundle.steps|
    requires forall i :: 0 <= i < steps.Length ==> steps[i] == StepState(ctx, i, rs)
    modifies steps
    ensures ok <==> Visitable(ctx, rs, r, window)
    ensures ok ==> forall i :: 0 <= i < steps.Length ==> steps[i] == StepState(ctx, i, rs + [r])
  {
    forall i: nat | i < steps.Length
      ensures StepState(ctx, i, rs + [r]) ==
              if Selects(ctx, i, r) && r.event.phase == Authorize then steps[i].(authorization := Some(r), status := Authorized)
              else if Selects(ctx, i, r) && r.event.phase == Terminal then steps[i].(terminal := Some(r), status := Done)
              else steps[i]
    {
      StateAfter(ctx, i, rs, r);
    }
    if r.event.permit != ctx.permit {
      return true;
    }
    if r.event.call.task !in ctx.index {
      return false;
    }
    var index := ctx.index[r.event.call.task];
    if r.event.call != Expected(ctx, steps[index].step) {
      return false;
    }
    match r.event.phase {
      case Authorize =>
        if steps[index].authorization.Some? || !InWindow(r, window) {
          return false;
        }
        steps[index] := steps[index].(authorization := Some(r), status := Authorized);
      case Terminal =>
        if steps[index].terminal.Some? {
          return false;
        }
        steps[index] := steps[index].(terminal := Some(r), status := Done);
      case _ =>
        return false;
    }
    ok := true;
  }

  datatype ExecutionStatus = AllUnspent | AllTerminal | Incomplete

  datatype Report = Report(
    execution: ExecutionStatus, unspent: nat, authorized: nat, terminal: nat, steps: seq<AuditStep>)

  function CountStatus(steps: seq<AuditStep>, status: Status): nat {
    if steps == [] then 0
    else CountStatus(steps[..|steps| - 1], status) + if steps[|steps| - 1].status == status then 1 else 0
  }

  lemma {:induction false} CountIsAll(steps: seq<AuditStep>, status: Status)
    ensures CountStatus(steps, status) <= |steps|
    ensures CountStatus(steps, status) == |steps| <==> forall i :: 0 <= i < |steps| ==> steps[i].status == status
  {
    if steps == [] {
    } else {
      CountIsAll(steps[..|steps| - 1], status);
    }
  }

  method Tally(steps: array<AuditStep>) returns (unspent: nat, authorized: nat, terminal: nat)
    ensures unspent == CountStatus(steps[..], Unspent)
    ensures authorized == CountStatus(steps[..], Authorized)
    ensures terminal == CountStatus(steps[..], Done)
    ensures unspent + authorized + terminal == steps.Length
  {
    unspent, authorized, terminal := 0, 0, 0;
    for index := 0 to steps.Length
      invariant unspent == CountStatus(steps[..index], Unspent)
      invariant authorized == CountStatus(steps[..index], Authorized)
      invariant terminal == CountStatus(steps[..index], Done)
      invariant unspent + authorized + terminal == index
    {
      assert steps[..index + 1][..index] == steps[..index];
      match steps[index].status
      case Unspent => unspent := unspent + 1;
      case Authorized => authorized := authorized + 1;
      case Done => terminal := terminal + 1;
    }
    assert steps[..steps.Length] == steps[..];
  }

  method TerminalWithoutAuthorization(steps: array<AuditStep>) returns (bad: bool)
    ensures bad <==> exists i :: 0 <= i < steps.Length && steps[i].terminal.Some? && steps[i].authorization.None?
  {
    for index := 0 to steps.Length
      invariant forall i :: 0 <= i < index ==> !(steps[i].terminal.Some? && steps[i].authorization.None?)
    {
      if steps[index].terminal.Some? && steps[index].authorization.None? {
        return true;
      }
    }
    return false;
  }

  /** The receipts pass the ledger's history check and the audit's own. */
  ghost predicate Auditable(ctx: Context, rs: seq<Receipt>, window: int -> bool) {
    HistoryOf(rs).Some? && Sane(ctx, rs, window)
  }

  lemma Acceptance(ctx: Context, rs: seq<Receipt>, window: int -> bool)
    requires Indexed(ctx)
    ensures Sane(ctx, rs, window) <==> Clean(ctx, rs, window)
  {
    if Sane(ctx, rs, window) {
      SaneIsClean(ctx, rs, window);
    }
    if Clean(ctx, rs, window) {
      CleanIsSane(ctx, rs, window);
    }
  }

  lemma CleanPrefixes(ctx: Context, rs: seq<Receipt>, window: int -> bool, n: nat)
    requires n < |rs|
    ensures Clean(ctx, rs, window) ==> Clean(ctx, rs[..n + 1], window)
    ensures HistoryOf(rs).Some? ==> HistoryOf(rs[..n + 1]).Some?
  {
    if Clean(ctx, rs, window) {
      if n + 1 < |rs| {
        CleanPrefix(ctx, rs, window, n + 1);
      } else {
        assert rs[..n + 1] == rs;
      }
    }
    if HistoryOf(rs).Some? {
      HistoryOfPrefix(rs, n + 1);
    }
  }

  /** The scan of the ledger stops at the first refused receipt. */
  method ScanLedger(ctx: Context, steps: array<AuditStep>, rs: seq<Receipt>, window: int -> bool) returns (ok: bool)
    requires Indexed(ctx) && steps.Length == |ctx.bundle.steps|
    requires forall i :: 0 <= i < steps.Length ==> steps[i] == StepState(ctx, i, [])
    modifies steps
    ensures ok <==> HistoryOf(rs).Some? && Clean(ctx, rs, window)
    ensures ok ==> forall i :: 0 <= i < steps.Length ==> steps[i] == StepState(ctx, i, rs)
  {
    var ledger := new Ledger();
    for n := 0 to |rs|
      invariant HistoryOf(rs[..n]) == Some(History(ledger.pending, ledger.spent))
      invariant Clean(ctx, rs[..n], window)
      invariant forall i :: 0 <= i < steps.Length ==> steps[i] == StepState(ctx, i, rs[..n])
    {
      assert rs[..n + 1] == rs[..n] + [rs[n]] && rs[..n + 1][..n] == rs[..n];
      CleanPrefixes(ctx, rs, window, n);
      ok := ledger.UpdateHistory(rs[n]);
      if !ok {
        return;
      }
      ok := Visit(ctx, steps, rs[n], window, rs[..n]);
      if !ok {
        return;
      }
    }
    assert rs[..|rs|] == rs;
    ok := true;
  }

  /** What a report says about one step: its own receipts, and the status they call for. */
  ghost predicate StepReported(ctx: Context, rs: seq<Receipt>, i: nat, s: AuditStep)
    requires i < |ctx.bundle.steps|
  {
    && s == StepState(ctx, i, rs) && s.status == Deserved(s)
    && (s.terminal.Some? ==> s.authorization.Some?)
    && (DistinctSteps(ctx.bundle) ==>
          ReportsItsOwn(ctx, rs, i, Authorize, s.authorization) && ReportsItsOwn(ctx, rs, i, Terminal, s.terminal))
  }

  ghost predicate StepsReported(ctx: Context, rs: seq<Receipt>, steps: seq<AuditStep>) {
    |steps| == |ctx.bundle.steps| && forall i :: 0 <= i < |steps| ==> StepReported(ctx, rs, i, steps[i])
  }

  /** The counts are the numbers of steps in each status, and the execution status sums them up. */
  ghost predicate CountsReported(r: Report) {
    && r.unspent + r.authorized + r.terminal == |r.steps|
    && r.unspent == CountStatus(r.steps, Unspent) && r.authorized == CountStatus(r.steps, Authorized)
    && r.terminal == CountStatus(r.steps, Done)
    && (r.steps != [] ==>
          && (r.execution == AllUnspent <==> forall i :: 0 <= i < |r.steps| ==> r.steps[i].status == Unspent)
          && (r.execution == AllTerminal <==> forall i :: 0 <= i < |r.steps| ==> r.steps[i].status == Done))
  }

  lemma LedgerStepsReported(ctx: Context, rs: seq<Receipt>, window: int -> bool, i: nat)
    requires ctx.index == ByTask(ctx.bundle, |ctx.bundle.steps|) && Indexed(ctx)
    requires HistoryOf(rs).Some? && Clean(ctx, rs, window) && i < |ctx.bundle.steps|
    ensures StepReported(ctx, rs, i, StepState(ctx, i, rs))
  {
    LedgerAuthorizesTerminals(ctx, rs);
    StatusMatchesOnLedgers(ctx, rs, window, i);
    if DistinctSteps(ctx.bundle) {
      StepsReportTheirOwn(ctx, rs, window, i, Authorize);
      StepsReportTheirOwn(ctx, rs, window, i, Terminal);
    }
  }

  /** The counting and the summary at the end of the audit. */
  method Summarize(steps: array<AuditStep>) returns (r: Report)
    ensures r.steps == steps[..] && CountsReported(r)
  {
    var unspent, authorized, terminal := Tally(steps);
    CountIsAll(steps[..], Unspent);
    CountIsAll(steps[..], Done);
    var execution := Incomplete;
    if unspent == steps.Length {
      execution := AllUnspent;
    } else if terminal == steps.Length {
      execution := AllTerminal;
    }
    r := Report(execution, unspent, authorized, terminal, steps[..]);
  }

  /** The whole audit.  It succeeds exactly on auditable ledgers whose head is the expected one;
      it reports for each step its own receipts and the status they call for; and the counts
      add up. */
  method Audit(bundle: Bundle, permit: string, keyIds: seq<string>, rs: seq<Receipt>, window: int -> bool, headMatches: bool)
    returns (r: Option<Report>, ctx: Context)
    ensures ctx == Context(bundle, permit, keyIds, ByTask(bundle, |bundle.steps|))
    ensures r.Some? <==> Auditable(ctx, rs, window) && headMatches
    ensures r.Some? ==> StepsReported(ctx, rs, r.value.steps) && CountsReported(r.value)
  {
    var steps: array<AuditStep>;
    steps, ctx := PrepareSteps(bundle, permit, keyIds);
    var ok := ScanLedger(ctx, steps, rs, window);
    Acceptance(ctx, rs, window);
    r := None;
    if !ok {
      return;
    }
    forall i: nat | i < steps.Length ensures StepReported(ctx, rs, i, steps[i]) {
      LedgerStepsReported(ctx, rs, window, i);
    }
    var bad := TerminalWithoutAuthorization(steps);
    if bad || !headMatches {
      return;
    }
    var report := Summarize(steps);
    r := Some(report);
  }

  /** The final check for a terminal without authorization never fires on an accepted ledger. */
  lemma LedgerAuthorizesTerminals(ctx: Context, rs: seq<Receipt>)
    requires HistoryOf(rs).Some?
    ensures TerminalsAuthorized(ctx, rs)
  {
    forall i: nat | i < |ctx.bundle.steps| && Slot(ctx, i, rs, Terminal).Some?
      ensures Slot(ctx, i, rs, Authorize).Some?
    {
      SlotFinds(ctx, i, rs, Terminal);
      var k :| 0 <= k < |rs| && rs[k] == Slot(ctx, i, rs, Terminal).value;
      TerminalIsAuthorized(rs, k);
      var j: nat :| AuthorizedAt(rs[..k], rs[k].event, j);
      assert rs[j] == rs[..k][j] && Selects(ctx, i, rs[j]);
      SlotFinds(ctx, i, rs, Authorize);
    }
  }
}
