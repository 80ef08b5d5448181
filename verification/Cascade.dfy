/** The generic cascade: tiers run in order until one of them ends the run. */
module Cascade {
  import opened Options

  datatype StepKind = NoOp | Continue | Escalate | ReadyToPropose

  type Data = map<string, string>

  datatype Reason =
    | Text(text: string)
    | NoHandlerForKind(kind: string)
    | NoRulesHandler(workflowId: string, tierId: string)
    | NoLlmHandler(tierId: string)
    | GateNotWired | GateAllowed | GateRefused | GateEscalated | GateSentBack | GateUnknownVerdict
    | AwaitingOperator
    | CascadeExhausted

  datatype CascadeStep = CascadeStep(kind: StepKind, reason: Reason, metadata: Data)

  datatype TierKind = Rules | CloudLlm | LocalLlm | SecondOpinion | Human | OtherKind(name: string)

  datatype Tier = Tier(tierId: string, kind: TierKind, config: Data)

  /** A skill's handler: it sees the inputs, what has accumulated and its tier's configuration, and
      may also change what has accumulated. */
  type Handler = (Data, Data, Data) -> (CascadeStep, Data)

  datatype Proposed = Draft(text: string) | Everything(accumulated: Data)

  datatype GateVerdict = Allow(report: string) | Refuse(report: string) | EscalateIt(report: string)
                       | SendBack(report: string) | UnknownVerdict

  datatype Context = Context(
    workflowId: string,
    inputs: Data,
    llmHandlers: map<string, Handler>,
    gate: Option<(Data, Data, Proposed) -> GateVerdict>)

  datatype Proposal = Proposal(workflowId: string, threadId: string, context: Data)

  datatype AuditEntry = AuditEntry(tierId: string, kind: StepKind, reason: Reason, metadataKeys: set<string>)

  datatype Final = Final(verdict: StepKind, reason: Reason, proposalPath: Option<string>)

  datatype Result = Result(final: Final, audit: seq<AuditEntry>, accumulated: Data)

  type Registry = map<(string, string), Handler>

  const THREAD_KEY := "thread_id"
  const PATH_KEY := "proposal_path"
  const DRAFT_KEY := "draft"
  const GATE_KEY := "gate_verdict"

  function Get(d: Data, k: string): Option<string> { if k in d then Some(d[k]) else None }

  function ThreadOf(inputs: Data): string {
    if THREAD_KEY in inputs then inputs[THREAD_KEY] else "unknown"
  }

  // ----- one tier

  datatype TierRun = TierRun(step: CascadeStep, accumulated: Data, staged: Option<Proposal>)

  function RunTier(reg: Registry, ctx: Context, tier: Tier, acc: Data): TierRun {
    match tier.kind
    case OtherKind(name) => TierRun(CascadeStep(Escalate, NoHandlerForKind(name), map[]), acc, None)
    case Rules =>
      if (ctx.workflowId, tier.tierId) in reg then
        var (step, acc') := reg[(ctx.workflowId, tier.tierId)](ctx.inputs, acc, tier.config);
        TierRun(step, acc', None)
      else TierRun(CascadeStep(Escalate, NoRulesHandler(ctx.workflowId, tier.tierId), map[]), acc, None)
    case CloudLlm => RunLlm(ctx, tier, acc)
    case LocalLlm => RunLlm(ctx, tier, acc)
    case SecondOpinion => TierRun(GateStep(ctx, tier, acc), acc, None)
    case Human =>
      TierRun(CascadeStep(ReadyToPropose, AwaitingOperator, map[PATH_KEY := ThreadOf(ctx.inputs)]), acc,
              Some(Proposal(ctx.workflowId, ThreadOf(ctx.inputs), acc)))
  }

  function RunLlm(ctx: Context, tier: Tier, acc: Data): TierRun {
    if tier.tierId in ctx.llmHandlers then
      var (step, acc') := ctx.llmHandlers[tier.tierId](ctx.inputs, acc, tier.config);
      TierRun(step, acc', None)
    else TierRun(CascadeStep(Escalate, NoLlmHandler(tier.tierId), map["missing_key" := tier.tierId]), acc, None)
  }

  /** A gate that is not wired lets the run continue; anything but "allow" escalates. */
  function GateStep(ctx: Context, tier: Tier, acc: Data): CascadeStep {
    if ctx.gate.None? then CascadeStep(Continue, GateNotWired, map[])
    else
      match ctx.gate.value(tier.config, ctx.inputs, if DRAFT_KEY in acc then Draft(acc[DRAFT_KEY]) else Everything(acc))
      case Allow(report) => CascadeStep(Continue, GateAllowed, map[GATE_KEY := report])
      case Refuse(report) => CascadeStep(Escalate, GateRefused, map[GATE_KEY := report])
      case EscalateIt(report) => CascadeStep(Escalate, GateEscalated, map[GATE_KEY := report])
      case SendBack(report) => CascadeStep(Escalate, GateSentBack, map[GATE_KEY := report])
      case UnknownVerdict => CascadeStep(Escalate, GateUnknownVerdict, map[])
  }

  function Entry(tier: Tier, step: CascadeStep): AuditEntry {
    AuditEntry(tier.tierId, step.kind, step.reason, step.metadata.Keys)
  }

  // ----- the walk

  /** A walk over some tiers: the tier that ended it, if one did, and everything it left behind. */
  datatype Walked = Walked(stopped: Option<Final>, audit: seq<AuditEntry>, accumulated: Data, staged: seq<Proposal>)

  function Staged(p: Option<Proposal>): seq<Proposal> { if p.Some? then [p.value] else [] }

  function Walk(reg: Registry, ctx: Context, tiers: seq<Tier>, acc: Data): Walked {
    if tiers == [] then Walked(None, [], acc, [])
    else
      var run := RunTier(reg, ctx, tiers[0], acc);
      var entry := Entry(tiers[0], run.step);
      if run.step.kind.Continue? then
        var rest := Walk(reg, ctx, tiers[1..], run.accumulated + run.step.metadata);
        Walked(rest.stopped, [entry] + rest.audit, rest.accumulated, Staged(run.staged) + rest.staged)
      else
        Walked(Some(FinalOf(run.step)), [entry], run.accumulated, Staged(run.staged))
  }

  function FinalOf(step: CascadeStep): Final {
    Final(step.kind, step.reason, if step.kind.ReadyToPropose? then Get(step.metadata, PATH_KEY) else None)
  }

  /** A run that no tier ended escalates. */
  function Finish(w: Walked): Result {
    Result(if w.stopped.Some? then w.stopped.value else Final(Escalate, CascadeExhausted, None), w.audit, w.accumulated)
  }

  class CascadeRunner {
    var rulesHandlers: Registry
    /** The staged proposal files, by path: one thread has one file. */
    var proposals: map<string, Proposal>

    constructor ()
      ensures rulesHandlers == map[] && proposals == map[]
    {
      rulesHandlers, proposals := map[], map[];
    }

    method RegisterRulesHandler(workflowId: string, tierId: string, handler: Handler)
      modifies this`rulesHandlers
      ensures rulesHandlers == old(rulesHandlers)[(workflowId, tierId) := handler]
    {
      rulesHandlers := rulesHandlers[(workflowId, tierId) := handler];
    }

    method HandleTier(ctx: Context, tier: Tier, acc: Data) returns (run: TierRun)
      modifies this`proposals
      ensures run == RunTier(rulesHandlers, ctx, tier, acc)
      ensures proposals == if run.staged.Some? then old(proposals)[ThreadOf(ctx.inputs) := run.staged.value]
                           else old(proposals)
    {
      run := RunTier(rulesHandlers, ctx, tier, acc);
      if run.staged.Some? {
        proposals := proposals[run.staged.value.threadId := run.staged.value];
      }
    }

    method RunCascade(ctx: Context, tiers: seq<Tier>) returns (result: Result)
      modifies this`proposals
      ensures var w := Walk(rulesHandlers, ctx, tiers, map[]);
              && result == Finish(w)
              && proposals == if w.staged == [] then old(proposals)
                              else old(proposals)[ThreadOf(ctx.inputs) := w.staged[|w.staged| - 1]]
    {
      hide RunTier, Walk;
      var accumulated: Data := map[];
      var audit := [];
      ghost var staged := [];
      ghost var all := Walk(rulesHandlers, ctx, tiers, map[]);
      assert tiers[0..] == tiers;
      BeforeNothing(all);
      for i := 0 to |tiers|
        invariant all == Before(audit, staged, Walk(rulesHandlers, ctx, tiers[i..], accumulated))
        invariant proposals == if staged == [] then old(proposals)
                               else old(proposals)[ThreadOf(ctx.inputs) := staged[|staged| - 1]]
      {
        WalkOne(rulesHandlers, ctx, tiers, i, accumulated, audit, staged);
        var run := HandleTier(ctx, tiers[i], accumulated);
        audit := audit + [Entry(tiers[i], run.step)];
        staged := staged + Staged(run.staged);
        if !run.step.kind.Continue? {
          return Result(FinalOf(run.step), audit, run.accumulated);
        }
        accumulated := run.accumulated + run.step.metadata;
      }
      WalkNone(rulesHandlers, ctx, tiers[|tiers|..], accumulated, audit, staged);
      return Result(Final(Escalate, CascadeExhausted, None), audit, accumulated);
    }
  }

  lemma BeforeNothing(w: Walked)
    ensures Before([], [], w) == w
  {
    assert [] + w.audit == w.audit && [] + w.staged == w.staged;
  }

  lemma WalkOne(reg: Registry, ctx: Context, tiers: seq<Tier>, i: nat, acc: Data, audit: seq<AuditEntry>,
                staged: seq<Proposal>)
    requires i < |tiers|
    ensures var run := RunTier(reg, ctx, tiers[i], acc);
            var audit', staged' := audit + [Entry(tiers[i], run.step)], staged + Staged(run.staged);
            Before(audit, staged, Walk(reg, ctx, tiers[i..], acc)) ==
              if run.step.kind.Continue?
              then Before(audit', staged', Walk(reg, ctx, tiers[i + 1..], run.accumulated + run.step.metadata))
              else Walked(Some(FinalOf(run.step)), audit', run.accumulated, staged')
  {
    hide RunTier;
    assert tiers[i..][1..] == tiers[i + 1..] && tiers[i..][0] == tiers[i];
    var run := RunTier(reg, ctx, tiers[i], acc);
    var rest := Walk(reg, ctx, tiers[i + 1..], run.accumulated + run.step.metadata);
    assert audit + ([Entry(tiers[i], run.step)] + rest.audit) == (audit + [Entry(tiers[i], run.step)]) + rest.audit;
    assert staged + (Staged(run.staged) + rest.staged) == (staged + Staged(run.staged)) + rest.staged;
  }

  lemma WalkNone(reg: Registry, ctx: Context, tiers: seq<Tier>, acc: Data, audit: seq<AuditEntry>, staged: seq<Proposal>)
    requires tiers == []
    ensures Before(audit, staged, Walk(reg, ctx, tiers, acc)) == Walked(None, audit, acc, staged)
  {
    assert audit + [] == audit && staged + [] == staged;
  }

  function Before(audit: seq<AuditEntry>, staged: seq<Proposal>, w: Walked): Walked {
    w.(audit := audit + w.audit, staged := staged + w.staged)
  }

  // ----- what holds of every run

  /** Running `a` and then `b` is running `a` alone if it stops, and otherwise running `b` from
      what `a` accumulated, with the audit logs one after the other. */
  lemma {:induction false} Composition(reg: Registry, ctx: Context, a: seq<Tier>, b: seq<Tier>, acc: Data)
    ensures var wa := Walk(reg, ctx, a, acc);
            Walk(reg, ctx, a + b, acc) ==
              if wa.stopped.Some? then wa
              else Before(wa.audit, wa.staged, Walk(reg, ctx, b, wa.accumulated))
  {
    hide RunTier;
    if a == [] {
      assert a + b == b;
      var w := Walk(reg, ctx, b, acc);
      assert [] + w.audit == w.audit && [] + w.staged == w.staged;
    } else {
      assert (a + b)[1..] == a[1..] + b && (a + b)[0] == a[0];
      var run := RunTier(reg, ctx, a[0], acc);
      if run.step.kind.Continue? {
        Composition(reg, ctx, a[1..], b, run.accumulated + run.step.metadata);
        ComposeBefore(Entry(a[0], run.step), Staged(run.staged),
                      Walk(reg, ctx, a[1..], run.accumulated + run.step.metadata),
                      Walk(reg, ctx, b, Walk(reg, ctx, a[1..], run.accumulated + run.step.metadata).accumulated));
      }
    }
  }

  lemma ComposeBefore(entry: AuditEntry, staged: seq<Proposal>, w: Walked, w': Walked)
    ensures [entry] + (w.audit + w'.audit) == ([entry] + w.audit) + w'.audit
    ensures staged + (w.staged + w'.staged) == (staged + w.staged) + w'.staged
  {
  }

  /** Tiers behind one that ends the run never matter. */
  lemma TailIsDead(reg: Registry, ctx: Context, a: seq<Tier>, b: seq<Tier>, c: seq<Tier>, acc: Data)
    requires Walk(reg, ctx, a, acc).stopped.Some?
    ensures Walk(reg, ctx, a + b, acc) == Walk(reg, ctx, a + c, acc)
  {
    Composition(reg, ctx, a, b, acc);
    Composition(reg, ctx, a, c, acc);
  }

  /** The audit log has one entry per tier reached; all but the last say "continue", and the last
      says it exactly when no tier ended the run. The final verdict is never "continue". */
  lemma {:induction false} AuditShape(reg: Registry, ctx: Context, tiers: seq<Tier>, acc: Data)
    ensures var w := Walk(reg, ctx, tiers, acc);
            && |w.audit| <= |tiers|
            && (forall i :: 0 <= i < |w.audit| ==> w.audit[i].tierId == tiers[i].tierId)
            && (forall i :: 0 <= i < |w.audit| - 1 ==> w.audit[i].kind.Continue?)
            && (w.stopped.None? ==> |w.audit| == |tiers| && forall i :: 0 <= i < |w.audit| ==> w.audit[i].kind.Continue?)
            && (w.stopped.Some? ==> w.audit != [] && !w.audit[|w.audit| - 1].kind.Continue?
                                    && w.stopped.value.verdict == w.audit[|w.audit| - 1].kind
                                    && w.stopped.value.reason == w.audit[|w.audit| - 1].reason)
            && !Finish(w).final.verdict.Continue?
  {
    hide RunTier;
    if tiers != [] {
      var run := RunTier(reg, ctx, tiers[0], acc);
      if run.step.kind.Continue? {
        AuditShape(reg, ctx, tiers[1..], run.accumulated + run.step.metadata);
      }
    }
  }

  /** A run stages at most one proposal: it does so exactly when it ends at a human tier, so after
      every earlier tier said "continue", and the proposal carries all that had accumulated. */
  lemma {:induction false} OneProposal(reg: Registry, ctx: Context, tiers: seq<Tier>, acc: Data)
    ensures var w := Walk(reg, ctx, tiers, acc);
            && |w.audit| <= |tiers|
            && (w.staged != [] <==> w.stopped.Some? && w.audit != [] && tiers[|w.audit| - 1].kind.Human?)
            && (w.staged != [] ==>
                  && w.staged == [Proposal(ctx.workflowId, ThreadOf(ctx.inputs), w.accumulated)]
                  && w.stopped == Some(Final(ReadyToPropose, AwaitingOperator, Some(ThreadOf(ctx.inputs)))))
  {
    hide RunTier;
    if tiers != [] {
      var run := RunTier(reg, ctx, tiers[0], acc);
      OnlyHumanStages(reg, ctx, tiers[0], acc);
      if run.step.kind.Continue? {
        OneProposal(reg, ctx, tiers[1..], run.accumulated + run.step.metadata);
        AuditShape(reg, ctx, tiers[1..], run.accumulated + run.step.metadata);
      }
    }
  }

  lemma OnlyHumanStages(reg: Registry, ctx: Context, tier: Tier, acc: Data)
    ensures var run := RunTier(reg, ctx, tier, acc);
            && (run.staged.Some? <==> tier.kind.Human?)
            && (tier.kind.Human? ==>
                  && run.accumulated == acc
                  && run.staged == Some(Proposal(ctx.workflowId, ThreadOf(ctx.inputs), acc))
                  && FinalOf(run.step) == Final(ReadyToPropose, AwaitingOperator, Some(ThreadOf(ctx.inputs))))
  {
  }

  /** There is something to run for the tier, and it is not the tier that hands over to the operator. */
  predicate Wired(reg: Registry, ctx: Context, tier: Tier) {
    match tier.kind
    case OtherKind(_) => false
    case Rules => (ctx.workflowId, tier.tierId) in reg
    case CloudLlm => tier.tierId in ctx.llmHandlers
    case LocalLlm => tier.tierId in ctx.llmHandlers
    case SecondOpinion => true
    case Human => false
  }

  lemma ContinuesOnlyIfWired(reg: Registry, ctx: Context, tier: Tier, acc: Data)
    ensures var run := RunTier(reg, ctx, tier, acc);
            && (run.step.kind.Continue? ==> Wired(reg, ctx, tier))
            && (!Wired(reg, ctx, tier) && !tier.kind.Human? ==> run.step.kind.Escalate? && run.accumulated == acc && run.staged.None?)
            && (tier.kind.SecondOpinion? && run.step.kind.Continue? ==>
                  run.step.reason == if ctx.gate.None? then GateNotWired else GateAllowed)
  {
  }

  /** The cascade fails closed on missing handlers: a run passes only tiers that are wired, and a gate
      only where it allowed or none was given; so it never gets behind a tier without a handler, and if it gets to one it
      escalates there and stages nothing. */
  lemma {:induction false} FailsClosed(reg: Registry, ctx: Context, tiers: seq<Tier>, acc: Data)
    ensures var w := Walk(reg, ctx, tiers, acc);
            && |w.audit| <= |tiers|
            && (forall i :: 0 <= i < |w.audit| && w.audit[i].kind.Continue? ==>
                  Wired(reg, ctx, tiers[i])
                  && (tiers[i].kind.SecondOpinion? ==>
                        w.audit[i].reason == if ctx.gate.None? then GateNotWired else GateAllowed))
            && (forall k :: 0 <= k < |tiers| && !Wired(reg, ctx, tiers[k]) ==> |w.audit| <= k + 1)
            && (w.audit != [] && !Wired(reg, ctx, tiers[|w.audit| - 1]) && !tiers[|w.audit| - 1].kind.Human? ==>
                  Finish(w).final.verdict.Escalate? && w.staged == [])
  {
    hide RunTier, Wired;
    if tiers != [] {
      var run := RunTier(reg, ctx, tiers[0], acc);
      ContinuesOnlyIfWired(reg, ctx, tiers[0], acc);
      if run.step.kind.Continue? {
        var rest := Walk(reg, ctx, tiers[1..], run.accumulated + run.step.metadata);
        FailsClosed(reg, ctx, tiers[1..], run.accumulated + run.step.metadata);
        OnlyHumanStages(reg, ctx, tiers[0], acc);
        OnlyHumanIsTerminal(reg, ctx, tiers[0], acc);
        forall k | 0 <= k < |tiers| && !Wired(reg, ctx, tiers[k]) ensures |rest.audit| + 1 <= k + 1 {
          assert tiers[1..][k - 1] == tiers[k];
        }
      }
    }
  }

  lemma OnlyHumanIsTerminal(reg: Registry, ctx: Context, tier: Tier, acc: Data)
    requires RunTier(reg, ctx, tier, acc).step.kind.Continue?
    ensures !tier.kind.Human?
  {
  }

  /** What the gate of a second-opinion tier is asked about: the draft, if there is one. */
  function AskedAbout(acc: Data): Proposed { if DRAFT_KEY in acc then Draft(acc[DRAFT_KEY]) else Everything(acc) }

  /** A run that reaches a second-opinion tier stops there with "escalate" unless the gate, asked about what
      has accumulated, allows; then it goes on, and the report is with what accumulated. */
  lemma GateRules(reg: Registry, ctx: Context, a: seq<Tier>, t: Tier, b: seq<Tier>, acc: Data)
    requires t.kind.SecondOpinion? && ctx.gate.Some? && Walk(reg, ctx, a, acc).stopped.None?
    ensures var wa, w := Walk(reg, ctx, a, acc), Walk(reg, ctx, a + ([t] + b), acc);
            var verdict := ctx.gate.value(t.config, ctx.inputs, AskedAbout(wa.accumulated));
            if verdict.Allow? then
              w == Before(wa.audit + [AuditEntry(t.tierId, Continue, GateAllowed, {GATE_KEY})], wa.staged,
                          Walk(reg, ctx, b, wa.accumulated[GATE_KEY := verdict.report]))
            else
              && w.stopped.Some? && w.stopped.value.verdict == Escalate && |w.audit| == |wa.audit| + 1
              && w.accumulated == wa.accumulated && w.staged == wa.staged
  {
    hide Walk;
    var wa := Walk(reg, ctx, a, acc);
    var verdict := ctx.gate.value(t.config, ctx.inputs, AskedAbout(wa.accumulated));
    Composition(reg, ctx, a, [t] + b, acc);
    OneTier(reg, ctx, t, b, wa.accumulated);
    if verdict.Allow? {
      var entry := AuditEntry(t.tierId, Continue, GateAllowed, {GATE_KEY});
      assert Entry(t, GateStep(ctx, t, wa.accumulated)) == entry;
      assert wa.accumulated + map[GATE_KEY := verdict.report] == wa.accumulated[GATE_KEY := verdict.report];
      BeforeTwice(wa.audit, wa.staged, [entry], [], Walk(reg, ctx, b, wa.accumulated[GATE_KEY := verdict.report]));
      assert wa.staged + [] == wa.staged;
    }
  }

  /** Without a gate a second-opinion tier lets the run go on and adds nothing: the operator's approval is
      then all there is. */
  lemma NoGateGoesOn(reg: Registry, ctx: Context, a: seq<Tier>, t: Tier, b: seq<Tier>, acc: Data)
    requires t.kind.SecondOpinion? && ctx.gate.None? && Walk(reg, ctx, a, acc).stopped.None?
    ensures var wa := Walk(reg, ctx, a, acc);
            Walk(reg, ctx, a + ([t] + b), acc)
            == Before(wa.audit + [AuditEntry(t.tierId, Continue, GateNotWired, {})], wa.staged,
                      Walk(reg, ctx, b, wa.accumulated))
  {
    hide Walk;
    var wa := Walk(reg, ctx, a, acc);
    Composition(reg, ctx, a, [t] + b, acc);
    OneTier(reg, ctx, t, b, wa.accumulated);
    var entry := AuditEntry(t.tierId, Continue, GateNotWired, {});
    assert Entry(t, GateStep(ctx, t, wa.accumulated)) == entry && wa.accumulated + map[] == wa.accumulated;
    BeforeTwice(wa.audit, wa.staged, [entry], [], Walk(reg, ctx, b, wa.accumulated));
    assert wa.staged + [] == wa.staged;
  }

  /** A run that reaches a tier of an unknown kind or without its handler ends there, says which, and leaves
      everything as it was. */
  lemma MissingHandlerEnds(reg: Registry, ctx: Context, a: seq<Tier>, t: Tier, b: seq<Tier>, acc: Data)
    requires !t.kind.SecondOpinion? && !t.kind.Human? && HandlerOf(reg, ctx, t) == None
    requires Walk(reg, ctx, a, acc).stopped.None?
    ensures var wa, w := Walk(reg, ctx, a, acc), Walk(reg, ctx, a + ([t] + b), acc);
            && w.stopped == Some(Final(Escalate,
                                       match t.kind
                                       case OtherKind(name) => NoHandlerForKind(name)
                                       case Rules => NoRulesHandler(ctx.workflowId, t.tierId)
                                       case _ => NoLlmHandler(t.tierId),
                                       None))
            && w.accumulated == wa.accumulated && w.staged == wa.staged && |w.audit| == |wa.audit| + 1
  {
    hide Walk;
    var wa := Walk(reg, ctx, a, acc);
    Composition(reg, ctx, a, [t] + b, acc);
    OneTier(reg, ctx, t, b, wa.accumulated);
    assert wa.staged + [] == wa.staged;
  }

  lemma BeforeTwice(audit: seq<AuditEntry>, staged: seq<Proposal>, audit': seq<AuditEntry>, staged': seq<Proposal>, w: Walked)
    ensures Before(audit, staged, Before(audit', staged', w)) == Before(audit + audit', staged + staged', w)
  {
    assert audit + (audit' + w.audit) == (audit + audit') + w.audit;
    assert staged + (staged' + w.staged) == (staged + staged') + w.staged;
  }

  lemma OneTier(reg: Registry, ctx: Context, t: Tier, b: seq<Tier>, acc: Data)
    ensures var run := RunTier(reg, ctx, t, acc);
            Walk(reg, ctx, [t] + b, acc) ==
              if run.step.kind.Continue?
              then Before([Entry(t, run.step)], Staged(run.staged), Walk(reg, ctx, b, run.accumulated + run.step.metadata))
              else Walked(Some(FinalOf(run.step)), [Entry(t, run.step)], run.accumulated, Staged(run.staged))
  {
    hide RunTier;
    assert ([t] + b)[1..] == b && ([t] + b)[0] == t;
  }

  /** The handler a tier runs: registered for the workflow and the tier, or injected for the tier. */
  function HandlerOf(reg: Registry, ctx: Context, t: Tier): Option<Handler> {
    match t.kind
    case Rules => if (ctx.workflowId, t.tierId) in reg then Some(reg[(ctx.workflowId, t.tierId)]) else None
    case CloudLlm => if t.tierId in ctx.llmHandlers then Some(ctx.llmHandlers[t.tierId]) else None
    case LocalLlm => if t.tierId in ctx.llmHandlers then Some(ctx.llmHandlers[t.tierId]) else None
    case _ => None
  }

  /** A run that reaches a tier with a handler does what the handler says on the inputs, on what has
      accumulated and on the tier's configuration: it goes on with the handler's metadata over what
      accumulated, or ends with the handler's verdict and reason. */
  lemma HandlerRules(reg: Registry, ctx: Context, a: seq<Tier>, t: Tier, b: seq<Tier>, acc: Data)
    requires HandlerOf(reg, ctx, t).Some? && Walk(reg, ctx, a, acc).stopped.None?
    ensures var wa, w := Walk(reg, ctx, a, acc), Walk(reg, ctx, a + ([t] + b), acc);
            var (step, left) := HandlerOf(reg, ctx, t).value(ctx.inputs, wa.accumulated, t.config);
            var entry := AuditEntry(t.tierId, step.kind, step.reason, step.metadata.Keys);
            if step.kind == Continue then
              w == Before(wa.audit + [entry], wa.staged, Walk(reg, ctx, b, left + step.metadata))
            else
              && w.stopped.Some? && w.stopped.value.verdict == step.kind && w.stopped.value.reason == step.reason
              && (w.stopped.value.proposalPath.Some? ==>
                    step.kind == ReadyToPropose && PATH_KEY in step.metadata
                    && w.stopped.value.proposalPath == Some(step.metadata[PATH_KEY]))
              && w.audit == wa.audit + [entry] && w.accumulated == left && w.staged == wa.staged
  {
    hide Walk;
    var wa := Walk(reg, ctx, a, acc);
    var (step, left) := HandlerOf(reg, ctx, t).value(ctx.inputs, wa.accumulated, t.config);
    Composition(reg, ctx, a, [t] + b, acc);
    OneTier(reg, ctx, t, b, wa.accumulated);
    var entry := AuditEntry(t.tierId, step.kind, step.reason, step.metadata.Keys);
    BeforeTwice(wa.audit, wa.staged, [entry], [], Walk(reg, ctx, b, left + step.metadata));
    assert wa.staged + [] == wa.staged;
  }

  /** No handler drops a key that had accumulated. */
  ghost predicate HandlersKeepKeys(reg: Registry, ctx: Context) {
    && (forall k, inputs, acc: Data, config :: k in reg ==> acc.Keys <= reg[k](inputs, acc, config).1.Keys)
    && (forall k, inputs, acc: Data, config :: k in ctx.llmHandlers ==>
          acc.Keys <= ctx.llmHandlers[k](inputs, acc, config).1.Keys)
  }

  lemma TierKeepsKeys(reg: Registry, ctx: Context, tier: Tier, acc: Data)
    requires HandlersKeepKeys(reg, ctx)
    ensures acc.Keys <= RunTier(reg, ctx, tier, acc).accumulated.Keys
  {
  }

  /** If no handler drops what had accumulated, everything the tiers that continued reported is still
      there when the run ends, so an operator's proposal shows all of it. */
  lemma {:induction false} ReportsReachTheEnd(reg: Registry, ctx: Context, tiers: seq<Tier>, acc: Data)
    requires HandlersKeepKeys(reg, ctx)
    ensures var w := Walk(reg, ctx, tiers, acc);
            && acc.Keys <= w.accumulated.Keys
            && (forall i :: 0 <= i < |w.audit| && w.audit[i].kind.Continue? ==> w.audit[i].metadataKeys <= w.accumulated.Keys)
            && (forall p :: p in w.staged ==> p.context == w.accumulated)
  {
    hide RunTier, HandlersKeepKeys;
    OneProposal(reg, ctx, tiers, acc);
    if tiers != [] {
      var run := RunTier(reg, ctx, tiers[0], acc);
      TierKeepsKeys(reg, ctx, tiers[0], acc);
      if run.step.kind.Continue? {
        var acc' := run.accumulated + run.step.metadata;
        assert run.accumulated.Keys <= acc'.Keys && run.step.metadata.Keys <= acc'.Keys;
        ReportsReachTheEnd(reg, ctx, tiers[1..], acc');
      }
    }
  }
}
