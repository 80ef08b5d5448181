/** Policy gate, approval requests and the audit trail that records them. */
module Approvals {
  import opened Options

  datatype Status = Pending | Approved | Denied

  datatype Request = Request(
    id: nat,
    runId: string,
    workflowId: string,
    action: string,
    reason: string,
    status: Status,
    requestedBy: string,
    decidedBy: Option<string>)

  datatype Mode = Allow | ApprovalRequired | Deny

  datatype Rule = Rule(matches: string -> bool, mode: Mode)

  datatype Policy = Policy(rules: seq<Rule>, defaultMode: Mode)

  /** The mode of the first rule that matches, as the code has it. */
  function ModeFor(rules: seq<Rule>, defaultMode: Mode, action: string): Mode {
    if rules == [] then defaultMode
    else if rules[0].matches(action) then rules[0].mode
    else ModeFor(rules[1..], defaultMode, action)
  }

  datatype Entry =
    | PolicyChecked(action: string, mode: Mode)
    | PolicyDenied(action: string, reason: string)
    | PolicyDeniedReported(action: string, reason: string)
    | Requested(id: nat, action: string, reason: string)
    | Decided(id: nat, approved: bool, action: string, reason: string)
    | Used(id: nat, action: string)

  datatype AuditEvent = AuditEvent(runId: string, workflowId: string, actor: string, entry: Entry)

  datatype Outcome =
    | Allowed
    | Granted(request: Request)
    | Recorded(request: Request)
    | PolicyDeniedError(action: string, reason: string)
    | ApprovalRequiredError(request: Request)
    | UnknownRequest(id: nat)

  datatype State = State(store: map<nat, Request>, audit: seq<AuditEvent>, next: nat)

  datatype Op =
    | RequestOp(runId: string, workflowId: string, action: string, reason: string, actor: string)
    | DecideOp(id: nat, approved: bool, decidedBy: string, note: Option<string>)
    | EnforceOp(runId: string, workflowId: string, mode: Mode, action: string, actor: string, reason: string,
                approvalId: Option<nat>)

  // ----- the operations on values

  function OrElse(note: Option<string>, current: string): string {
    if note.Some? && note.value != "" then note.value else current
  }

  function Log(s: State, e: AuditEvent): State { s.(audit := s.audit + [e]) }

  function RequestStep(s: State, runId: string, workflowId: string, action: string, reason: string, actor: string)
    : (State, Request)
  {
    var r := Request(s.next, runId, workflowId, action, reason, Pending, actor, None);
    (State(s.store[s.next := r], s.audit + [AuditEvent(runId, workflowId, actor, Requested(r.id, action, reason))],
           s.next + 1), r)
  }

  function DecideStep(s: State, id: nat, approved: bool, decidedBy: string, note: Option<string>): (State, Outcome) {
    if id !in s.store then (s, UnknownRequest(id))
    else
      var current := s.store[id];
      var updated := current.(status := if approved then Approved else Denied,
                              decidedBy := Some(decidedBy), reason := OrElse(note, current.reason));
      (State(s.store[id := updated],
             s.audit + [AuditEvent(current.runId, current.workflowId, decidedBy,
                                   Decided(current.id, approved, current.action, updated.reason))],
             s.next), Recorded(updated))
  }

  function EnforceStep(s: State, op: Op): (State, Outcome)
    requires op.EnforceOp?
  {
    var at := (e: Entry) => AuditEvent(op.runId, op.workflowId, op.actor, e);
    var s1 := Log(s, at(PolicyChecked(op.action, op.mode)));
    match op.mode
    case Allow => (s1, Allowed)
    case Deny =>
      (Log(Log(s1, at(PolicyDenied(op.action, op.reason))), at(PolicyDeniedReported(op.action, op.reason))),
       PolicyDeniedError(op.action, op.reason))
    case ApprovalRequired =>
      if op.approvalId.Some? && op.approvalId.value !in s1.store then (s1, UnknownRequest(op.approvalId.value))
      else if op.approvalId.Some? && s1.store[op.approvalId.value].status.Approved? then
        var r := s1.store[op.approvalId.value];
        (Log(s1, at(Used(r.id, op.action))), Granted(r))
      else
        var (s2, r) := RequestStep(s1, op.runId, op.workflowId, op.action, op.reason, op.actor);
        (s2, ApprovalRequiredError(r))
  }

  function Step(s: State, op: Op): State {
    match op
    case RequestOp(runId, workflowId, action, reason, actor) =>
      RequestStep(s, runId, workflowId, action, reason, actor).0
    case DecideOp(id, approved, decidedBy, note) => DecideStep(s, id, approved, decidedBy, note).0
    case EnforceOp(_, _, _, _, _, _, _) => EnforceStep(s, op).0
  }

  function Run(ops: seq<Op>): State {
    if ops == [] then State(map[], [], 0) else Step(Run(ops[..|ops| - 1]), ops[|ops| - 1])
  }

  // ----- the service

  class ApprovalService {
    var store: map<nat, Request>
    var audit: seq<AuditEvent>
    var next: nat

    ghost function View(): State
      reads this
    {
      State(store, audit, next)
    }

    constructor ()
      ensures View() == Run([])
    {
      store, audit, next := map[], [], 0;
    }

    method AppendEvent(runId: string, workflowId: string, actor: string, entry: Entry)
      modifies this`audit
      ensures audit == old(audit) + [AuditEvent(runId, workflowId, actor, entry)]
    {
      audit := audit + [AuditEvent(runId, workflowId, actor, entry)];
    }

    method RequestApproval(runId: string, workflowId: string, action: string, reason: string, requestedBy: string)
        returns (request: Request)
      modifies this
      ensures (View(), request) == RequestStep(old(View()), runId, workflowId, action, reason, requestedBy)
      ensures request == Request(old(next), runId, workflowId, action, reason, Pending, requestedBy, None)
      ensures store == old(store)[request.id := request] && next == old(next) + 1
      ensures audit == old(audit) + [AuditEvent(runId, workflowId, requestedBy, Requested(request.id, action, reason))]
    {
      request := Request(next, runId, workflowId, action, reason, Pending, requestedBy, None);
      next := next + 1;
      store := store[request.id := request];
      AppendEvent(runId, workflowId, requestedBy, Requested(request.id, action, reason));
    }

    method Decide(id: nat, approved: bool, decidedBy: string, note: Option<string>) returns (o: Outcome)
      modifies this
      ensures (View(), o) == DecideStep(old(View()), id, approved, decidedBy, note)
      ensures id !in old(store) ==> o == UnknownRequest(id) && View() == old(View())
      ensures id in old(store) ==>
                && o.Recorded? && store == old(store)[id := o.request] && |audit| == |old(audit)| + 1
                && o.request == old(store)[id].(status := if approved then Approved else Denied, decidedBy := Some(decidedBy),
                                                reason := o.request.reason)
                && o.request.reason == if note == None || note == Some("") then old(store)[id].reason else note.value
    {
      if id !in store {
        return UnknownRequest(id);
      }
      var current := store[id];
      var updated := current.(status := if approved then Approved else Denied,
                              decidedBy := Some(decidedBy), reason := OrElse(note, current.reason));
      store := store[id := updated];
      AppendEvent(updated.runId, updated.workflowId, decidedBy,
                  Decided(updated.id, approved, updated.action, updated.reason));
      return Recorded(updated);
    }

    method Enforce(runId: string, workflowId: string, policy: Policy, action: string, actor: string, reason: string,
                   approvalId: Option<nat>) returns (o: Outcome)
      modifies this
      ensures (View(), o) == EnforceStep(old(View()),
                EnforceOp(runId, workflowId, ModeFor(policy.rules, policy.defaultMode, action), action, actor, reason,
                          approvalId))
    {
      var mode := ModeFor(policy.rules, policy.defaultMode, action);
      AppendEvent(runId, workflowId, actor, PolicyChecked(action, mode));
      if mode.Allow? {
        return Allowed;
      }
      if mode.Deny? {
        AppendEvent(runId, workflowId, actor, PolicyDenied(action, reason));
        AppendEvent(runId, workflowId, actor, PolicyDeniedReported(action, reason));
        return PolicyDeniedError(action, reason);
      }
      if approvalId.Some? {
        if approvalId.value !in store {
          return UnknownRequest(approvalId.value);
        }
        var request := store[approvalId.value];
        if request.status.Approved? {
          AppendEvent(runId, workflowId, actor, Used(request.id, action));
          return Granted(request);
        }
      }
      var pending := RequestApproval(runId, workflowId, action, reason, actor);
      return ApprovalRequiredError(pending);
    }
  }

  // ----- the trail replays to the store

  function ReplayOne(m: map<nat, Request>, e: AuditEvent): map<nat, Request> {
    match e.entry
    case Requested(id, action, reason) =>
      m[id := Request(id, e.runId, e.workflowId, action, reason, Pending, e.actor, None)]
    case Decided(id, approved, action, reason) =>
      if id in m then
        m[id := m[id].(status := if approved then Approved else Denied, decidedBy := Some(e.actor), reason := reason)]
      else m
    case PolicyChecked(_, _) => m
    case PolicyDenied(_, _) => m
    case PolicyDeniedReported(_, _) => m
    case Used(_, _) => m
  }

  /** The requests as the audit trail alone tells them. */
  function Replay(audit: seq<AuditEvent>): map<nat, Request> {
    if audit == [] then map[] else ReplayOne(Replay(audit[..|audit| - 1]), audit[|audit| - 1])
  }

  ghost predicate Consistent(s: State) {
    && s.store == Replay(s.audit)
    && forall id :: id in s.store ==> s.store[id].id == id && id < s.next
  }

  lemma ReplayAppend(audit: seq<AuditEvent>, e: AuditEvent)
    ensures Replay(audit + [e]) == ReplayOne(Replay(audit), e)
  {
    assert (audit + [e])[..|audit|] == audit;
  }

  lemma RequestConsistent(s: State, runId: string, workflowId: string, action: string, reason: string, actor: string)
    requires Consistent(s)
    ensures Consistent(RequestStep(s, runId, workflowId, action, reason, actor).0)
  {
    ReplayAppend(s.audit, AuditEvent(runId, workflowId, actor, Requested(s.next, action, reason)));
  }

  lemma LogConsistent(s: State, e: AuditEvent)
    requires Consistent(s) && !e.entry.Requested? && !e.entry.Decided?
    ensures Consistent(Log(s, e)) && Log(s, e).store == s.store
  {
    hide Replay;
    ReplayAppend(s.audit, e);
  }

  lemma StepConsistent(s: State, op: Op)
    requires Consistent(s)
    ensures Consistent(Step(s, op))
  {
    hide Replay, Consistent;
    match op
    case RequestOp(runId, workflowId, action, reason, actor) =>
      RequestConsistent(s, runId, workflowId, action, reason, actor);
    case DecideOp(id, approved, decidedBy, note) => DecideConsistent(s, id, approved, decidedBy, note);
    case EnforceOp(runId, workflowId, mode, action, actor, reason, approvalId) =>
      var at := (e: Entry) => AuditEvent(runId, workflowId, actor, e);
      var s1 := Log(s, at(PolicyChecked(action, mode)));
      LogConsistent(s, at(PolicyChecked(action, mode)));
      if mode.Deny? {
        var s2 := Log(s1, at(PolicyDenied(action, reason)));
        LogConsistent(s1, at(PolicyDenied(action, reason)));
        LogConsistent(s2, at(PolicyDeniedReported(action, reason)));
      } else if mode.ApprovalRequired? {
        RequestConsistent(s1, runId, workflowId, action, reason, actor);
        if approvalId.Some? && approvalId.value in s1.store {
          LogConsistent(s1, at(Used(s1.store[approvalId.value].id, action)));
        }
      }
  }

  lemma DecideConsistent(s: State, id: nat, approved: bool, decidedBy: string, note: Option<string>)
    requires Consistent(s)
    ensures Consistent(DecideStep(s, id, approved, decidedBy, note).0)
  {
    if id in s.store {
      var r := s.store[id];
      ReplayAppend(s.audit, AuditEvent(r.runId, r.workflowId, decidedBy,
                                       Decided(r.id, approved, r.action, OrElse(note, r.reason))));
    }
  }

  /** In every run the store is exactly what replaying the audit trail gives: the status, the
      reason and the people of every request, however often it was decided. */
  lemma {:induction false} StoreIsReplay(ops: seq<Op>)
    ensures Run(ops).store == Replay(Run(ops).audit)
    ensures Consistent(Run(ops))
  {
    hide Step;
    if ops != [] {
      StoreIsReplay(ops[..|ops| - 1]);
      StepConsistent(Run(ops[..|ops| - 1]), ops[|ops| - 1]);
    }
  }

  // ----- an approval is used only while it stands

  /** The latest decision on `id` before position `n` of the trail is the one at `j`. */
  ghost predicate LatestDecision(audit: seq<AuditEvent>, n: nat, id: nat, j: int)
    requires n <= |audit|
  {
    0 <= j < n && audit[j].entry.Decided? && audit[j].entry.id == id
    && forall k :: j < k < n && audit[k].entry.Decided? ==> audit[k].entry.id != id
  }

  ghost predicate StandsApproved(audit: seq<AuditEvent>, n: nat, id: nat)
    requires n <= |audit|
  {
    exists j :: LatestDecision(audit, n, id, j) && audit[j].entry.approved
  }

  /** ... and the action it approves is this one. */
  ghost predicate ApprovedFor(audit: seq<AuditEvent>, n: nat, id: nat, action: string)
    requires n <= |audit|
  {
    exists j :: LatestDecision(audit, n, id, j) && audit[j].entry.approved && audit[j].entry.action == action
  }

  /** Requests are new when they are logged, and decisions are about logged requests and repeat their action. */
  predicate Fits(m: map<nat, Request>, e: Entry) {
    && (e.Requested? ==> e.id !in m)
    && (e.Decided? ==> e.id in m && m[e.id].action == e.action)
  }

  predicate WellFormed(audit: seq<AuditEvent>) {
    audit == []
    || (WellFormed(audit[..|audit| - 1]) && Fits(Replay(audit[..|audit| - 1]), audit[|audit| - 1].entry))
  }

  lemma {:induction false} StandsIffApproved(audit: seq<AuditEvent>, id: nat)
    requires WellFormed(audit)
    ensures StandsApproved(audit, |audit|, id) <==> id in Replay(audit) && Replay(audit)[id].status.Approved?
    ensures id !in Replay(audit) ==> forall j :: 0 <= j < |audit| && audit[j].entry.Decided? ==> audit[j].entry.id != id
  {
    hide LatestDecision;
    if audit == [] {
      NothingDecided(id);
    } else {
      var n := |audit| - 1;
      StandsIffApproved(audit[..n], id);
      LatestIsInside(audit, id);
      LatestIsInside(audit[..n], id);
      assert forall j :: 0 <= j < n ==> audit[..n][j] == audit[j];
      forall j: int ensures LatestDecision(audit, |audit|, id, j) <==>
                              if audit[n].entry.Decided? && audit[n].entry.id == id then j == n
                              else LatestDecision(audit[..n], n, id, j)
      {
        DecisionOneMore(audit, id, j);
      }
    }
  }

  lemma NothingDecided(id: nat)
    ensures !StandsApproved([], 0, id)
  {
  }

  lemma LatestIsInside(audit: seq<AuditEvent>, id: nat)
    ensures forall j: int :: LatestDecision(audit, |audit|, id, j) ==>
              0 <= j < |audit| && audit[j].entry.Decided? && audit[j].entry.id == id
  {
  }

  lemma DecisionOneMore(audit: seq<AuditEvent>, id: nat, j: int)
    requires audit != []
    ensures var n := |audit| - 1;
            LatestDecision(audit, |audit|, id, j) <==>
              if audit[n].entry.Decided? && audit[n].entry.id == id then j == n
              else LatestDecision(audit[..n], n, id, j)
  {
    var n := |audit| - 1;
    assert forall k :: 0 <= k < n ==> audit[..n][k] == audit[k];
    if LatestDecision(audit, |audit|, id, j) && j < n {
      forall k | j < k < n && audit[..n][k].entry.Decided? ensures audit[..n][k].entry.id != id {
        assert audit[..n][k] == audit[k];
      }
    }
  }

  lemma DecisionInLonger(audit: seq<AuditEvent>, more: seq<AuditEvent>, n: nat, id: nat, j: int)
    requires n <= |audit|
    ensures LatestDecision(audit + more, n, id, j) <==> LatestDecision(audit, n, id, j)
  {
    assert forall k :: 0 <= k < n ==> (audit + more)[k] == audit[k];
  }

  lemma StandsInLonger(audit: seq<AuditEvent>, more: seq<AuditEvent>, n: nat, id: nat)
    requires n <= |audit| && StandsApproved(audit, n, id)
    ensures StandsApproved(audit + more, n, id)
  {
    var j :| LatestDecision(audit, n, id, j) && audit[j].entry.approved;
    DecisionInLonger(audit, more, n, id, j);
    assert (audit + more)[j] == audit[j];
  }

  lemma InsideLonger(audit: seq<AuditEvent>, n: nat, id: nat, j: int)
    requires n <= |audit| && LatestDecision(audit, n, id, j)
    ensures 0 <= j < n && audit[j].entry.Decided? && audit[j].entry.id == id
  {
  }

  ghost predicate UsesStand(audit: seq<AuditEvent>) {
    forall i :: 0 <= i < |audit| && audit[i].entry.Used? ==> StandsApproved(audit, i, audit[i].entry.id)
  }

  lemma UsesStandAfter(audit: seq<AuditEvent>, more: seq<AuditEvent>)
    requires UsesStand(audit)
    requires forall i :: 0 <= i < |more| && more[i].entry.Used? ==>
               StandsApproved(audit + more, |audit| + i, more[i].entry.id)
    ensures UsesStand(audit + more)
  {
    var all := audit + more;
    forall i | 0 <= i < |all| && all[i].entry.Used? ensures StandsApproved(all, i, all[i].entry.id) {
      if i < |audit| {
        StandsInLonger(audit, more, i, audit[i].entry.id);
      } else {
        assert all[i] == more[i - |audit|];
      }
    }
  }

  lemma StepUsesStand(s: State, op: Op)
    requires Consistent(s) && WellFormed(s.audit) && UsesStand(s.audit)
    ensures UsesStand(Step(s, op).audit)
  {
    hide Replay, StandsApproved, UsesStand, WellFormed;
    var audit' := Step(s, op).audit;
    assert audit' == s.audit + audit'[|s.audit|..];
    var more := audit'[|s.audit|..];
    if op.EnforceOp? && op.mode.ApprovalRequired? && op.approvalId.Some? && op.approvalId.value in s.store
       && s.store[op.approvalId.value].status.Approved?
    {
      var id := op.approvalId.value;
      var checked := AuditEvent(op.runId, op.workflowId, op.actor, PolicyChecked(op.action, op.mode));
      var used := AuditEvent(op.runId, op.workflowId, op.actor, Used(id, op.action));
      assert more == [checked, used];
      LogConsistent(s, checked);
      WellFormedAppend(s.audit, checked);
      StandsIffApproved(s.audit + [checked], id);
      StandsInLonger(s.audit + [checked], [used], |s.audit| + 1, id);
      assert s.audit + [checked] + [used] == audit';
    }
    UsesStandAfter(s.audit, more);
  }

  /** Whatever is requested, decided, decided again and enforced, an approval is used only when
      the latest earlier decision on that request approved it. */
  lemma {:induction false} EveryUseWasApproved(ops: seq<Op>, i: nat)
    requires i < |Run(ops).audit| && Run(ops).audit[i].entry.Used?
    ensures StandsApproved(Run(ops).audit, i, Run(ops).audit[i].entry.id)
  {
    AllUsesStand(ops);
  }

  lemma {:induction false} AllUsesStand(ops: seq<Op>)
    ensures UsesStand(Run(ops).audit)
  {
    hide Step, WellFormed;
    if ops != [] {
      AllUsesStand(ops[..|ops| - 1]);
      StoreIsReplay(ops[..|ops| - 1]);
      TrailIsWellFormed(ops[..|ops| - 1]);
      StepUsesStand(Run(ops[..|ops| - 1]), ops[|ops| - 1]);
    }
  }

  lemma WellFormedAppend(audit: seq<AuditEvent>, e: AuditEvent)
    ensures WellFormed(audit + [e]) <==> WellFormed(audit) && Fits(Replay(audit), e.entry)
  {
    assert (audit + [e])[..|audit|] == audit;
  }

  lemma {:induction false} TrailIsWellFormed(ops: seq<Op>)
    ensures WellFormed(Run(ops).audit)
  {
    hide Step;
    if ops != [] {
      TrailIsWellFormed(ops[..|ops| - 1]);
      StoreIsReplay(ops[..|ops| - 1]);
      StepWellFormed(Run(ops[..|ops| - 1]), ops[|ops| - 1]);
    }
  }

  lemma StepWellFormed(s: State, op: Op)
    requires Consistent(s) && WellFormed(s.audit)
    ensures WellFormed(Step(s, op).audit)
  {
    hide Replay, WellFormed;
    match op
    case RequestOp(runId, workflowId, action, reason, actor) =>
      WellFormedAppend(s.audit, AuditEvent(runId, workflowId, actor, Requested(s.next, action, reason)));
    case DecideOp(id, approved, decidedBy, note) =>
      if id in s.store {
        var r := s.store[id];
        WellFormedAppend(s.audit, AuditEvent(r.runId, r.workflowId, decidedBy,
                                             Decided(r.id, approved, r.action, OrElse(note, r.reason))));
      }
    case EnforceOp(runId, workflowId, mode, action, actor, reason, approvalId) =>
      var at := (e: Entry) => AuditEvent(runId, workflowId, actor, e);
      var s1 := Log(s, at(PolicyChecked(action, mode)));
      LogConsistent(s, at(PolicyChecked(action, mode)));
      WellFormedAppend(s.audit, at(PolicyChecked(action, mode)));
      if mode.Deny? {
        WellFormedAppend(s1.audit, at(PolicyDenied(action, reason)));
        WellFormedAppend(s1.audit + [at(PolicyDenied(action, reason))], at(PolicyDeniedReported(action, reason)));
      } else if mode.ApprovalRequired? {
        WellFormedAppend(s1.audit, at(Requested(s1.next, action, reason)));
        if approvalId.Some? && approvalId.value in s1.store {
          WellFormedAppend(s1.audit, at(Used(s1.store[approvalId.value].id, action)));
        }
      }
  }

  /** After any run, an action goes ahead exactly when policy allows it, or demands approval and the
      latest decision on the request it names approves that request: of whatever action. */
  lemma GoesAheadIff(ops: seq<Op>, op: Op)
    requires op.EnforceOp?
    ensures var s := Run(ops);
            var o := EnforceStep(s, op).1;
            (o.Allowed? || o.Granted?) <==>
              op.mode.Allow?
              || (op.mode.ApprovalRequired? && op.approvalId.Some?
                  && StandsApproved(s.audit, |s.audit|, op.approvalId.value))
  {
    hide Replay, StandsApproved, WellFormed, Run;
    StoreIsReplay(ops);
    TrailIsWellFormed(ops);
    if op.approvalId.Some? {
      StandsIffApproved(Run(ops).audit, op.approvalId.value);
    }
  }

  /** After any run, an enforced action that still needs approval leaves one new pending request for it,
      stored and logged, for somebody to decide. */
  lemma DemandLeavesRequest(ops: seq<Op>, op: Op)
    requires op.EnforceOp? && EnforceStep(Run(ops), op).1.ApprovalRequiredError?
    ensures var s, (s', o) := Run(ops), EnforceStep(Run(ops), op);
            var r := o.request;
            && r.id !in s.store && s'.store == s.store[r.id := r]
            && r.status == Pending && r.decidedBy == None && r.action == op.action && r.requestedBy == op.actor
            && r.reason == op.reason && r.runId == op.runId && r.workflowId == op.workflowId
            && s'.audit == s.audit + [AuditEvent(op.runId, op.workflowId, op.actor, PolicyChecked(op.action, op.mode)),
                                      AuditEvent(op.runId, op.workflowId, op.actor, Requested(r.id, op.action, op.reason))]
  {
    hide Run, Replay;
    StoreIsReplay(ops);
  }

  /** After any run, an enforced action that is not denied and leaves no new request changes nothing but the
      trail: the check, and the use if there is one; a denial is logged twice. */
  lemma NoDemandNoRequest(ops: seq<Op>, op: Op)
    requires op.EnforceOp? && !EnforceStep(Run(ops), op).1.ApprovalRequiredError?
    ensures var s, (s', o) := Run(ops), EnforceStep(Run(ops), op);
            var check := AuditEvent(op.runId, op.workflowId, op.actor, PolicyChecked(op.action, op.mode));
            && s'.store == s.store && s'.next == s.next
            && (o.Allowed? || o.UnknownRequest? ==> s'.audit == s.audit + [check])
            && (o.Granted? ==>
                  s'.audit == s.audit + [check, AuditEvent(op.runId, op.workflowId, op.actor, Used(o.request.id, op.action))])
            && (o.PolicyDeniedError? <==> op.mode.Deny?)
            && (o.PolicyDeniedError? ==>
                  s'.audit == s.audit + [check, AuditEvent(op.runId, op.workflowId, op.actor, PolicyDenied(op.action, op.reason)),
                                         AuditEvent(op.runId, op.workflowId, op.actor, PolicyDeniedReported(op.action, op.reason))])
  {
    hide Run, Replay;
    StoreIsReplay(ops);
  }

  /** The way the gate is meant to be used, after any run: enforce, approve what it asks for, enforce again
      with that approval. */
  lemma DemandThenGrant(ops: seq<Op>, op: Op, decidedBy: string, note: Option<string>)
    requires op.EnforceOp? && EnforceStep(Run(ops), op).1.ApprovalRequiredError?
    ensures var r := EnforceStep(Run(ops), op).1.request;
            var decide := DecideOp(r.id, true, decidedBy, note);
            var later := Run(ops + [op] + [decide]);
            && EnforceStep(later, op.(approvalId := Some(r.id))).1.Granted?
            && EnforceStep(later, op.(approvalId := Some(r.id))).1.request.action == op.action
  {
    hide Run, Replay;
    var r := EnforceStep(Run(ops), op).1.request;
    DemandLeavesRequest(ops, op);
    RunOneMore(ops, op);
    RunOneMore(ops + [op], DecideOp(r.id, true, decidedBy, note));
  }

  // ----- the action that was approved

  lemma {:induction false} ActionIsFixed(audit: seq<AuditEvent>, n: nat, id: nat)
    requires WellFormed(audit) && n <= |audit| && id in Replay(audit[..n])
    ensures id in Replay(audit) && Replay(audit)[id].action == Replay(audit[..n])[id].action
  {
    if n == |audit| {
      assert audit[..n] == audit;
    } else {
      assert audit[..|audit| - 1][..n] == audit[..n];
      ActionIsFixed(audit[..|audit| - 1], n, id);
    }
  }

  lemma {:induction false} DecisionFits(audit: seq<AuditEvent>, j: nat)
    requires WellFormed(audit) && j < |audit|
    ensures Fits(Replay(audit[..j]), audit[j].entry)
  {
    if j < |audit| - 1 {
      DecisionFits(audit[..|audit| - 1], j);
      assert audit[..|audit| - 1][..j] == audit[..j];
    } else {
      assert audit[..j] == audit[..|audit| - 1];
    }
  }

  /** The gate does not compare the approved action with the enforced one: over any run a use is of the
      action that was approved exactly when it is of the action the request was made for. */
  lemma UsedActionIff(ops: seq<Op>, i: nat)
    requires i < |Run(ops).audit| && Run(ops).audit[i].entry.Used?
    ensures var u := Run(ops).audit[i].entry;
            && u.id in Run(ops).store
            && (ApprovedFor(Run(ops).audit, i, u.id, u.action) <==> Run(ops).store[u.id].action == u.action)
  {
    hide Run, LatestDecision, WellFormed, Replay;
    StoreIsReplay(ops);
    TrailIsWellFormed(ops);
    EveryUseWasApproved(ops, i);
    var audit, id := Run(ops).audit, Run(ops).audit[i].entry.id;
    forall j: int | LatestDecision(audit, i, id, j)
      ensures 0 <= j < i && audit[j].entry.Decided?
      ensures id in Replay(audit) && audit[j].entry.action == Replay(audit)[id].action
    {
      InsideLonger(audit, i, id, j);
      DecisionFits(audit, j);
      ActionIsFixed(audit, j, id);
    }
    var j :| LatestDecision(audit, i, id, j) && audit[j].entry.approved;
  }

  /** So after any run in which a request stands approved, the gate lets any action at all through on it;
      the use is then of an action that was not approved exactly when it is another than the request's. */
  lemma ApprovalServesAnyAction(ops: seq<Op>, op: Op)
    requires op.EnforceOp? && op.mode.ApprovalRequired? && op.approvalId.Some?
    requires StandsApproved(Run(ops).audit, |Run(ops).audit|, op.approvalId.value)
    ensures var id := op.approvalId.value;
            var audit := Run(ops + [op]).audit;
            var last := |audit| - 1;
            && EnforceStep(Run(ops), op).1.Granted?
            && last > 0 && audit[last].entry == Used(id, op.action)
            && id in Run(ops).store
            && (ApprovedFor(audit, last, id, op.action) <==> op.action == Run(ops).store[id].action)
  {
    hide Replay, StandsApproved, ApprovedFor, WellFormed, Run;
    var id := op.approvalId.value;
    StoreIsReplay(ops);
    TrailIsWellFormed(ops);
    StandsIffApproved(Run(ops).audit, id);
    RunOneMore(ops, op);
    var s' := Run(ops + [op]);
    UsedActionIff(ops + [op], |s'.audit| - 1);
  }

  lemma RunOneMore(ops: seq<Op>, op: Op)
    ensures Run(ops + [op]) == Step(Run(ops), op)
  {
    hide Step;
    assert (ops + [op])[..|ops|] == ops;
  }

  /** For instance: a request for action `a` is made and approved, and action `b` is enforced with it. */
  lemma OtherActionIsUsed(a: string, b: string, request: Op, decide: Op, enforce: Op)
    requires request.RequestOp? && request.action == a
    requires decide.DecideOp? && decide.id == 0 && decide.approved
    requires enforce.EnforceOp? && enforce.mode.ApprovalRequired? && enforce.approvalId == Some(0) && enforce.action == b
    ensures var audit := Run([request, decide, enforce]).audit;
            && |audit| == 4 && audit[3].entry == Used(0, b)
            && (ApprovedFor(audit, 3, 0, b) <==> a == b)
  {
    hide Replay, StandsApproved, ApprovedFor, WellFormed, Run;
    var ops := [request, decide];
    RunOneMore([], request);
    RunOneMore([request], decide);
    assert [] + [request] == [request] && [request] + [decide] == ops && ops + [enforce] == [request, decide, enforce];
    assert Run([]) == State(map[], [], 0) by { NothingRun(); }
    StoreIsReplay(ops);
    TrailIsWellFormed(ops);
    StandsIffApproved(Run(ops).audit, 0);
    ApprovalServesAnyAction(ops, enforce);
    RunOneMore(ops, enforce);
  }

  lemma NothingRun()
    ensures Run([]) == State(map[], [], 0)
  {
  }

  /** The first matching rule decides, wherever more specific ones come, and the default decides
      when none matches. */
  lemma {:induction false} FirstMatchDecides(rules: seq<Rule>, defaultMode: Mode, action: string)
    ensures (exists i :: 0 <= i < |rules| && rules[i].matches(action)
                         && (forall j :: 0 <= j < i ==> !rules[j].matches(action))
                         && ModeFor(rules, defaultMode, action) == rules[i].mode)
            || ((forall j :: 0 <= j < |rules| ==> !rules[j].matches(action))
                && ModeFor(rules, defaultMode, action) == defaultMode)
  {
    if rules != [] && !rules[0].matches(action) {
      FirstMatchDecides(rules[1..], defaultMode, action);
      if exists j :: 0 <= j < |rules| && rules[j].matches(action) {
        var j :| 0 <= j < |rules| && rules[j].matches(action);
        assert rules[1..][j - 1] == rules[j];
        var i :| 0 <= i < |rules[1..]| && rules[1..][i].matches(action)
                 && (forall j :: 0 <= j < i ==> !rules[1..][j].matches(action))
                 && ModeFor(rules[1..], defaultMode, action) == rules[1..][i].mode;
        assert rules[i + 1] == rules[1..][i];
        forall j | 0 <= j < i + 1 ensures !rules[j].matches(action) {
          if j > 0 {
            assert rules[j] == rules[1..][j - 1];
          }
        }
      } else {
        forall i | 0 <= i < |rules[1..]| ensures !rules[1..][i].matches(action) {
          assert rules[1..][i] == rules[i + 1];
        }
      }
    }
  }
}
