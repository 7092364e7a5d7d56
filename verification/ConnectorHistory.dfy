/** The history check of the connector receipt ledger (internal/connectorledger/ledger.go).

    Digests are symbolic and so injective.  `sound` stands for the history checks that are not
    modelled: task-chain coordinates, run ownership and inference scope; they can only refuse. */
module ConnectorHistory {
  import opened Common

  datatype Phase = Authorize | Dispatch | Terminal | Deny

  datatype CallOutcome = Responded | CallFailed | NoOutcome

  datatype CallDigest = CallDigest(tenant: string, instance: string, task: string, connector: string, operation: string)

  datatype GrantId = GrantId(tenant: string, instance: string, generation: nat)

  /** Every field of an event that the bundle fixes. */
  datatype Call = Call(
    kind: string, effectMode: string, tenant: string, capsule: string, policy: string, routePolicy: string,
    generation: nat, grant: GrantId, connector: string, operation: string, operationDigest: string,
    task: CallDigest, authorityKey: string, authorityKeySet: string, approvalThreshold: int,
    requestDigest: string, requestBytes: int)

  /** `rest` holds the other fields that stay the same through one call's lifecycle. */
  datatype Event = Event(
    permit: string, call: Call, rest: string, protocol: string,
    phase: Phase, outcome: CallOutcome, runId: string, taskStatus: string)

  datatype Receipt = Receipt(sequence: nat, event: Event, observedAt: Option<int>, sound: bool)

  // ---------------------------------------------------------------- the ledger's history

  datatype History = History(pending: map<CallDigest, Event>, spent: set<CallDigest>)

  predicate SameCall(a: Event, b: Event) {
    a.permit == b.permit && a.call == b.call && a.rest == b.rest && a.protocol == b.protocol
  }

  predicate ValidTransition(previous: Event, next: Event) {
    && SameCall(previous, next)
    && if previous.protocol == "" then previous.phase == Authorize && next.phase == Terminal
       else match previous.phase
         case Authorize =>
           || next.phase == Dispatch
           || (next.phase == Terminal && next.outcome == CallFailed && next.runId == "" && next.taskStatus == "")
         case Dispatch =>
           && next.phase == Terminal && next.runId == previous.runId
           && ((next.outcome == Responded && next.taskStatus != "") || (next.outcome == CallFailed && next.taskStatus == ""))
         case _ => false
  }

  function Advance(h: History, r: Receipt): Option<History> {
    var e := r.event;
    var task := e.call.task;
    if !r.sound then None
    else match e.phase
      case Authorize =>
        if task in h.spent then None else Some(History(h.pending[task := e], h.spent + {task}))
      case Dispatch =>
        if task !in h.pending || !ValidTransition(h.pending[task], e) then None
        else Some(h.(pending := h.pending[task := e]))
      case Terminal =>
        if task !in h.pending || !ValidTransition(h.pending[task], e) then None
        else Some(h.(pending := h.pending - {task}))
      case Deny => Some(h)
  }

  function HistoryOf(rs: seq<Receipt>): Option<History> {
    if rs == [] then Some(History(map[], {}))
    else
      var h := HistoryOf(rs[..|rs| - 1]);
      if h.None? then None else Advance(h.value, rs[|rs| - 1])
  }

  ghost predicate AuthorizedAt(rs: seq<Receipt>, e: Event, k: nat) {
    k < |rs| && rs[k].event.phase == Authorize && SameCall(rs[k].event, e)
  }

  ghost predicate AuthorizedAs(rs: seq<Receipt>, e: Event) {
    exists k: nat :: AuthorizedAt(rs, e, k)
  }

  /** Every authorization is remembered as spent. */
  ghost predicate AllSpent(h: History, rs: seq<Receipt>) {
    forall k :: 0 <= k < |rs| && rs[k].event.phase == Authorize ==> rs[k].event.call.task in h.spent
  }

  /** Every pending call was authorized earlier, under the same permit. */
  ghost predicate PendingAuthorized(h: History, rs: seq<Receipt>) {
    forall t :: t in h.pending ==> t in h.spent && h.pending[t].call.task == t && AuthorizedAs(rs, h.pending[t])
  }

  lemma AuthorizedGrows(rs: seq<Receipt>, r: Receipt, e: Event)
    requires AuthorizedAs(rs, e)
    ensures AuthorizedAs(rs + [r], e)
  {
    var k: nat :| AuthorizedAt(rs, e, k);
    assert AuthorizedAt(rs + [r], e, k);
  }

  lemma SameCallAuthorized(rs: seq<Receipt>, e: Event, f: Event)
    requires AuthorizedAs(rs, e) && SameCall(e, f)
    ensures AuthorizedAs(rs, f)
  {
    var k: nat :| AuthorizedAt(rs, e, k);
    assert AuthorizedAt(rs, f, k);
  }

  lemma AdvanceKeepsPending(h: History, rs: seq<Receipt>, r: Receipt)
    requires PendingAuthorized(h, rs) && Advance(h, r).Some?
    ensures PendingAuthorized(Advance(h, r).value, rs + [r])
  {
    var g, task := Advance(h, r).value, r.event.call.task;
    forall t | t in g.pending
      ensures t in g.spent && g.pending[t].call.task == t && AuthorizedAs(rs + [r], g.pending[t])
    {
      if t == task && r.event.phase == Authorize {
        assert AuthorizedAt(rs + [r], r.event, |rs|);
      } else if t == task && r.event.phase == Dispatch {
        AuthorizedGrows(rs, r, h.pending[t]);
        SameCallAuthorized(rs + [r], h.pending[t], r.event);
      } else {
        AuthorizedGrows(rs, r, h.pending[t]);
      }
    }
  }

  lemma AdvanceKeepsSpent(h: History, rs: seq<Receipt>, r: Receipt)
    requires AllSpent(h, rs) && Advance(h, r).Some?
    ensures AllSpent(Advance(h, r).value, rs + [r])
  {
  }

  lemma {:induction false} HistoryKeepsInv(rs: seq<Receipt>)
    requires HistoryOf(rs).Some?
    ensures AllSpent(HistoryOf(rs).value, rs) && PendingAuthorized(HistoryOf(rs).value, rs)
  {
    if rs == [] {
    } else {
      var k := |rs| - 1;
      HistoryKeepsInv(rs[..k]);
      var h := HistoryOf(rs[..k]).value;
      AdvanceKeepsSpent(h, rs[..k], rs[k]);
      AdvanceKeepsPending(h, rs[..k], rs[k]);
      assert rs[..k] + [rs[k]] == rs;
    }
  }

  lemma {:induction false} HistoryOfPrefix(rs: seq<Receipt>, n: nat)
    requires n <= |rs| && HistoryOf(rs).Some?
    ensures HistoryOf(rs[..n]).Some? && HistoryOf(rs[..n]).value.spent <= HistoryOf(rs).value.spent
  {
    if n < |rs| {
      HistoryOfPrefix(rs[..|rs| - 1], n);
      assert rs[..|rs| - 1][..n] == rs[..n];
    } else {
      assert rs[..n] == rs;
    }
  }

  /** Every terminal receipt has an earlier authorization of the same call under the same
      permit, and no task is authorized twice. */
  lemma TerminalIsAuthorized(rs: seq<Receipt>, k: nat)
    requires HistoryOf(rs).Some? && k < |rs| && rs[k].event.phase == Terminal
    ensures AuthorizedAs(rs[..k], rs[k].event)
  {
    HistoryOfPrefix(rs, k + 1);
    assert rs[..k + 1][..k] == rs[..k];
    HistoryKeepsInv(rs[..k]);
    SameCallAuthorized(rs[..k], HistoryOf(rs[..k]).value.pending[rs[k].event.call.task], rs[k].event);
  }

  lemma TerminalIsSpent(rs: seq<Receipt>, k: nat)
    requires HistoryOf(rs).Some? && k < |rs| && rs[k].event.phase == Terminal
    ensures HistoryOf(rs[..k]).Some? && rs[k].event.call.task in HistoryOf(rs[..k]).value.spent
  {
    HistoryOfPrefix(rs, k + 1);
    assert rs[..k + 1][..k] == rs[..k];
    HistoryKeepsInv(rs[..k]);
  }

  /** An accepted ledger never authorizes a task after a terminal receipt for it. */
  ghost predicate Ordered(rs: seq<Receipt>) {
    forall j, k :: 0 <= j < k < |rs| && rs[j].event.phase == Terminal && rs[k].event.phase == Authorize ==>
      rs[j].event.call.task != rs[k].event.call.task
  }

  lemma AcceptedLedgerIsOrdered(rs: seq<Receipt>)
    requires HistoryOf(rs).Some?
    ensures Ordered(rs)
  {
    forall j, k | 0 <= j < k < |rs| && rs[j].event.phase == Terminal && rs[k].event.phase == Authorize
      ensures rs[j].event.call.task != rs[k].event.call.task
    {
      TerminalIsSpent(rs, j);
      HistoryOfPrefix(rs, k + 1);
      assert rs[..k + 1][..k] == rs[..k];
      HistoryOfPrefix(rs[..k], j);
      assert rs[..k][..j] == rs[..j];
    }
  }

  // ---------------------------------------------------------------- the code

  class Ledger {
    var pending: map<CallDigest, Event>
    var spent: set<CallDigest>

    constructor ()
      ensures pending == map[] && spent == {}
    {
      pending, spent := map[], {};
    }

    /** `updateHistory`. */
    method UpdateHistory(r: Receipt) returns (ok: bool)
      modifies this
      ensures ok <==> Advance(History(old(pending), old(spent)), r).Some?
      ensures ok ==> Advance(History(old(pending), old(spent)), r) == Some(History(pending, spent))
    {
      var event := r.event;
      var task := event.call.task;
      if !r.sound {
        return false;
      }
      ok := true;
      match event.phase {
        case Authorize =>
          if task in spent {
            return false;
          }
          spent := spent + {task};
          pending := pending[task := event];
        case Dispatch =>
          if task !in pending || !ValidTransition(pending[task], event) {
            return false;
          }
          pending := pending[task := event];
        case Terminal =>
          if task !in pending || !ValidTransition(pending[task], event) {
            return false;
          }
          pending := pending - {task};
        case Deny =>
      }
    }
  }
}
