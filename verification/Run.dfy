/** One run of the kernel: any policy, any environment, one truthful terminal state. */
module Runs {
  import opened Characters
  import opened Contracts
  import opened Environments
  import opened EvidenceIds
  import opened Kernels
  import opened Ledger
  import opened Plugins
  import opened Policies
  import opened RunContexts
  import opened TraceRecording
  import opened Verifier

  datatype Policy = FixedPolicy | DirectPolicy | AgenticPolicy

  datatype FailureReason =
    | RunCancelled
    | BudgetReason(kind: Kind)
    | ProviderUnavailable
    | ProviderFailed
    | Unexpected
    | NoTerminalState
    | PersistenceFailed

  /** The caller either gets a result, or an exception the kernel does not catch passes through. */
  datatype RunOutcome =
    | Returned(terminalState: TerminalState, output: Option<Output>, reason: Option<FailureReason>,
               verification: Option<Verification>)
    | Escaped(exn: Exn)

  /** The except clauses of the run, in order. */
  function Caught(exn: Exn): (TerminalState, FailureReason) {
    if exn.kind.Cancelled? then (Failed, RunCancelled)
    else if exn.kind.IsBudget() then (Exhausted, BudgetReason(exn.kind))
    else if exn.kind.Unavailable? then (Blocked, ProviderUnavailable)
    else if exn.kind.DecisionFormat? || exn.kind.OtherProvider? then (Failed, ProviderFailed)
    else (Failed, Unexpected)
  }

  function StatusFor(state: TerminalState): EventStatus {
    match state
    case Blocked => StatusBlocked
    case Exhausted => StatusFailed
    case Failed => StatusFailed
    case _ => Completed
  }

  /** How the policy's end reads before the output is persisted: the except clauses, or the state it left. */
  function Ending(e: Option<Exn>, state: Option<TerminalState>): (TerminalState, Option<FailureReason>) {
    if e.Some? then (Caught(e.value).0, Some(Caught(e.value).1))
    else if state.Some? then (state.value, None)
    else (Failed, Some(NoTerminalState))
  }

  /** A writer that fails turns any end into a failure, which keeps an earlier reason. */
  function Persisted(end: (TerminalState, Option<FailureReason>), kept: bool): (TerminalState, Option<FailureReason>) {
    if kept then end else (Failed, if end.1.Some? then end.1 else Some(PersistenceFailed))
  }

  /** Nothing had to be written, or the writer wrote. */
  ghost predicate Kept(ctx: RunContext, before: seq<Output>, after: seq<Output>)
    reads ctx`output
  {
    ctx.output.None? || !ctx.hasResultWriter || after != before
  }

  /** The state and reason of a returned run say which except clause ended it, and whether the output was kept. */
  predicate ReasonFits(state: TerminalState, reason: Option<FailureReason>, kept: bool) {
    && (state.Exhausted? <==> reason.Some? && reason.value.BudgetReason? && kept)
    && (state.Blocked? <==> reason == Some(ProviderUnavailable) && kept)
    && (!kept ==> state.Failed?)
    && (reason == Some(PersistenceFailed) ==> !kept)
    && (reason.Some? && reason.value.BudgetReason? ==> reason.value.kind.IsBudget())
  }

  lemma EndingFits(e: Option<Exn>, state: Option<TerminalState>, kept: bool)
    requires e.None? ==> state.Some? && IsClean(state.value)
    ensures var end := Persisted(Ending(e, state), kept); ReasonFits(end.0, end.1, kept)
  {
  }

  /** The ledger's counts, the run's counters and the policy's limits at the end of a run. */
  ghost predicate Accounted(ctx: RunContext)
    reads ctx`modelCalls, ctx`toolCalls, ctx`iterations, ctx`evidence, ctx`unbuilt, ctx.bundle
  {
    ctx.Counted() && ctx.Tally().numbered && ctx.Tally().native && ctx.Tally().added == |ctx.evidence|
  }

  /** What the policies that repair say of a run that ended on its own. */
  ghost predicate CompletedBy(policy: Policy, kernel: HarnessKernel, ctx: RunContext, state: Option<TerminalState>)
    reads ctx`probe, ctx`iterations, ctx`toolCalls, ctx`modelCalls, kernel`repairRounds
  {
    && (policy.FixedPolicy? ==> FixedCounts(kernel, ctx, state))
    && (!policy.DirectPolicy? ==> OnlyWhenExhausted(kernel, ctx, state))
  }

  /** Only the agentic policy builds requests that may fail to be built. */
  ghost predicate BuiltFor(policy: Policy, kernel: HarnessKernel, ctx: RunContext)
    reads ctx`unbuilt, ctx`modelCalls
  {
    if policy.AgenticPolicy? then RequestsBuilt(kernel, ctx) else ctx.unbuilt == 0
  }

  /** A budget reason is true, and an agentic run that asked no model was refused before its first request. */
  ghost predicate Explained(policy: Policy, kernel: HarnessKernel, ctx: RunContext, reason: Option<FailureReason>)
    reads ctx`modelCalls, ctx`toolCalls, ctx`iterations, ctx`evidence, ctx`probe, kernel`startedAt
  {
    && (reason.Some? && reason.value.BudgetReason? ==> BudgetSpent(ctx, reason.value.kind))
    && (policy.AgenticPolicy? && ctx.modelCalls == 0 ==>
          reason.Some? && Unasked(kernel, ctx, reason == Some(BudgetReason(WallClock))))
  }

  lemma EndExplained(policy: Policy, kernel: HarnessKernel, ctx: RunContext, e: Option<Exn>)
    requires e.Some? ==> BudgetSpent(ctx, e.value.kind)
    requires policy.AgenticPolicy? && ctx.modelCalls == 0 ==> e.Some? && Unasked(kernel, ctx, e.value.kind.WallClock?)
    ensures Explained(policy, kernel, ctx, Ending(e, ctx.terminalState).1)
  {
  }

  /** Persisting the output explains no less. */
  lemma PersistedExplained(policy: Policy, kernel: HarnessKernel, ctx: RunContext,
                           end: (TerminalState, Option<FailureReason>), kept: bool)
    requires Explained(policy, kernel, ctx, end.1)
    ensures Explained(policy, kernel, ctx, Persisted(end, kept).1)
  {
  }

  method ExecutePolicy(policy: Policy, kernel: HarnessKernel, ctx: RunContext, env: Environment)
    returns (e: Option<Exn>)
    requires ctx.Ready() && ctx.policy.Valid() && ctx.Unused() && kernel.repairRounds == 0
    modifies kernel`repairRounds, env`exits, env`modelInvocations
    modifies ctx`probe, ctx`evidence, ctx`allocatedIds, ctx`idCounters, ctx`toolCalls, ctx`callFingerprints
    modifies ctx`toolResults, ctx`artifactCalls, ctx`iterations, ctx`modelCalls, ctx`output, ctx`verification
    modifies ctx`terminalState, ctx`verifierFeedback, ctx`formatRepairUsed, ctx`unbuilt
    modifies ctx.trace`origin, ctx.trace`now, ctx.trace`finished
    modifies ctx.bundle`sequence, ctx.bundle`events, ctx.bundle`issuedIds, ctx.bundle`evidenceFiles
    ensures ctx.Between() && Bounded(kernel, ctx) && BuiltFor(policy, kernel, ctx)
    ensures e.None? ==> ctx.unbuilt == 0
    ensures env.exits == old(env.exits) + Count(e.Some? && e.value.kind.Exit?)
    ensures env.modelInvocations - old(env.modelInvocations) == ctx.modelCalls - ctx.unbuilt
    ensures Explained(policy, kernel, ctx, Ending(e, ctx.terminalState).1)
    ensures if e.None? then Truthful(ctx) else ctx.terminalState.None?
    ensures e.None? ==> CompletedBy(policy, kernel, ctx, ctx.terminalState)
    ensures ctx.Tally().formatErrors <= 1
      || (ctx.Tally().formatErrors == 2 && e.Some? && e.value.kind.DecisionFormat?)
    ensures policy.FixedPolicy? && HasBuiltins(kernel.plugins) && IsEscape(e) ==> VerdictEscapes(ctx)
    ensures policy.FixedPolicy? && HasBuiltins(kernel.plugins) ==>
      FixedOutcome(StateOf(kernel, ctx), ctx.policy.maxEvidenceFrames, DurationOf(ctx), ctx.adapter.VideoAnalysis?, e)
  {
    hide RunContext.Tally, PairingOf, RunContext.Ready, RunContext.Between, RunContext.Unused, Truthful, FixedOutcome;
    hide HasBuiltins, RequestsBuilt, VerdictEscapes, BudgetSpent, Unasked, Explained, Ending;
    match policy {
      case FixedPolicy =>
        e := ExecuteFixed(kernel, ctx, env);
        ReadyIsBetween(ctx);
      case DirectPolicy =>
        e := ExecuteDirect(kernel, ctx, env);
        ReadyIsBetween(ctx);
      case AgenticPolicy =>
        e := ExecuteAgentic(kernel, ctx, env);
        if e.None? {
          ReadyIsBetween(ctx);
        }
    }
    EndExplained(policy, kernel, ctx, e);
  }

  /** Open the run span on a fresh context. */
  method OpenRun(ctx: RunContext) returns (span: TraceSpan)
    requires ctx.Valid() && ctx.IsFresh()
    modifies ctx`runSpan
    modifies ctx.trace`origin, ctx.trace`now, ctx.bundle`sequence, ctx.bundle`events, ctx.bundle`issuedIds
    ensures ctx.Ready() && ctx.Unused() && ctx.runSpan == Some(span) && span.phase == "run"
  {
    hide PairingOf, EvidenceSound, AllFrom, PlainPhase, PhaseFits, TypeFits, Strip;
    RunPhase();
    var started := ctx.trace.Start(RunBase, "run", NoPayload);
    AuditRunOpens(StartEvent(ctx.bundle.sequence, started.value, NoPayload));
    span := started.value;
    ctx.runSpan := Some(span);
  }

  lemma RunPhase()
    ensures PlainPhase("run") && PhaseFits("run") && Strip("run") == "run" && PlainPhase("terminal")
    ensures forall status :: TypeFits(SpanEvent(RunBase, status))
  {
    hide TypeFits;
    KernelPhases();
    forall status ensures TypeFits(SpanEvent(RunBase, status)) {
      NativeTypeFits(SpanEvent(RunBase, status));
    }
  }

  /** The ledger of a run that ended in a state is closed, sound and accounted for. */
  ghost predicate LedgerClosed(ctx: RunContext, state: TerminalState)
    reads ctx, ctx.bundle, ctx.trace, ctx.trace.bundle
  {
    && ctx.bundle.finalized && ctx.bundle.terminalState == Some(state)
    && ctx.Tally().spans.Closed? && ctx.Tally().lastClosed == Some(Closing(RunBase, StatusFor(state)))
    && ctx.trace.Valid() && EvidenceSound(ctx.evidence, ctx.allocatedIds, ctx.bundle.evidenceFiles)
    && Accounted(ctx) && ctx.Tally().requests + ctx.unbuilt == ctx.modelCalls
  }

  /** Record the terminal phase, close the run span and finalize the bundle. */
  method CloseRun(ctx: RunContext, span: TraceSpan, state: TerminalState, failed: bool)
    requires ctx.Between() && ctx.runSpan == Some(span) && span.phase == "run"
    modifies ctx.trace`origin, ctx.trace`now, ctx.trace`finished
    modifies ctx.bundle`sequence, ctx.bundle`events, ctx.bundle`issuedIds
    modifies ctx.bundle`finalized, ctx.bundle`terminalState
    ensures LedgerClosed(ctx, state) && (old(Truthful(ctx)) ==> Truthful(ctx))
    ensures ctx.Tally() == old(ctx.Tally()).(
      count := old(ctx.Tally()).count + 2,
      spans := Closed,
      lastClosed := Some(Closing(RunBase, StatusFor(state))))
  {
    hide AuditOf, PairingOf, NextAudit, EvidenceSound, AllFrom, PlainPhase, PhaseFits, TypeFits, Strip, Agree;
    hide OffsetMs;
    RunPhase();
    CompletePhase(ctx, "terminal", TerminalPayload(state, failed));
    ghost var before := ctx.Tally();
    var closed := ctx.trace.Finish(span, StatusFor(state), TerminalPayload(state, failed), None);
    AuditRunCloses(before, closed.value);
    StillAgree(old(ctx.Tally()), ctx.Tally(), ctx.policy, ctx.Counts(), ctx.Counts(), 0, 0, 0);
    RequestsAccounted(ctx);
    var done := ctx.bundle.Finalize(state);
  }

  /** States that end a run without a failure reason. */
  predicate IsClean(state: TerminalState) {
    state.Succeeded? || state.Partial? || state.NoOp?
  }

  lemma TruthfulIsClean(ctx: RunContext)
    requires Truthful(ctx)
    ensures ctx.terminalState.Some? && IsClean(ctx.terminalState.value)
    ensures ctx.terminalState.value.NoOp? <==> ctx.output.None?
  {
  }

  /** The output is an analysis whose every claim is grounded in the evidence on record. */
  ghost predicate GroundedOutput(ctx: RunContext)
    requires ctx.adapter.VideoAnalysis?
    reads ctx`output, ctx`evidence, ctx`probe
  {
    && ctx.output.Some? && ctx.output.value.Analysis? && ctx.probe.Some?
    && Grounded(ctx.output.value.result, ctx.evidence, ctx.probe.value.durationSeconds, ctx.adapter.requiredSections)
  }

  /** A run that succeeded at video analysis returns a grounded result. */
  lemma SucceededIsGrounded(ctx: RunContext)
    requires Truthful(ctx) && ctx.terminalState == Some(Succeeded) && ctx.adapter.VideoAnalysis?
    ensures GroundedOutput(ctx)
  {
    VerifyClaimsExact(ctx.output.value.result, ctx.evidence, ctx.probe.value.durationSeconds,
                      ctx.adapter.requiredSections);
  }

  lemma BetweenIsOpen(ctx: RunContext)
    requires ctx.Between()
    ensures !ctx.bundle.finalized && ctx.Tally().spans.Idle?
  {
  }

  lemma NothingCalled(policy: Policy, kernel: HarnessKernel, ctx: RunContext, e: Option<Exn>)
    requires ctx.Unused() && e.Some? && e.value.kind.Cancelled?
    ensures FixedOutcome(StateOf(kernel, ctx), ctx.policy.maxEvidenceFrames, DurationOf(ctx),
                         ctx.adapter.VideoAnalysis?, e)
    ensures !IsEscape(e) && BuiltFor(policy, kernel, ctx) && ctx.unbuilt == 0
    ensures ctx.Tally().formatErrors == 0 && ctx.Tally().repairs == 0 && ctx.modelCalls == 0 && ctx.terminalState.None?
    ensures Explained(policy, kernel, ctx, Ending(e, ctx.terminalState).1)
  {
  }

  /**
   What the built-in tools guarantee about a whole fixed run: the frame cap, well-formed sampling calls,
   and windows inside the media, unless those of the last, failed verdict leave it and the run is not clean.
   */
  ghost predicate FixedRan(ctx: RunContext, clean: bool)
    reads ctx`evidence, ctx`callFingerprints, ctx`probe, ctx`verification
  {
    && FrameCount(ctx.evidence) <= ctx.policy.maxEvidenceFrames
    && WellFormedCalls(ctx.callFingerprints, ctx.adapter.VideoAnalysis?)
    && (CallsInside(ctx.callFingerprints, DurationOf(ctx)) || (VerdictEscapes(ctx) && !clean))
  }

  lemma OutcomeMeans(kernel: HarnessKernel, ctx: RunContext, e: Option<Exn>)
    requires FixedOutcome(StateOf(kernel, ctx), ctx.policy.maxEvidenceFrames, DurationOf(ctx),
                          ctx.adapter.VideoAnalysis?, e)
    requires IsEscape(e) ==> VerdictEscapes(ctx)
    ensures FixedRan(ctx, e.None?)
  {
  }

  /** Persist the output, if there is one to persist; a failing writer fails the run. */
  method Persist(ctx: RunContext, env: Environment, state: TerminalState, reason: Option<FailureReason>)
    returns (r: Outcome<(TerminalState, Option<FailureReason>)>)
    requires reason.None? <==> IsClean(state)
    modifies env`exits, env`saved
    ensures r.Raised? ==> !r.exn.kind.IsOrdinary()
    ensures env.exits == old(env.exits) + Count(r.Raised?)
    ensures r.Ok? ==> r.value == Persisted((state, reason), Kept(ctx, old(env.saved), env.saved))
    ensures env.saved == old(env.saved)
      || (ctx.output.Some? && ctx.hasResultWriter && env.saved == old(env.saved) + [ctx.output.value])
  {
    if ctx.output.None? || !ctx.hasResultWriter {
      return Ok((state, reason));
    }
    var written := env.WriteResult(ctx.output.value);
    if written.Ok? {
      return Ok((state, reason));
    }
    if !written.exn.kind.IsOrdinary() {
      return Raised(written.exn);
    }
    return Ok((Failed, if reason.Some? then reason else Some(PersistenceFailed)));
  }

  /**
   A returned run closed its ledger with its own status and finalized its bundle with the state it
   returns. The state is true: a clean one was reached by the policy and says what happened, its output
   was kept, and a successful analysis is grounded; any other one names the except clause behind it.
   */
  ghost predicate Concluded(ctx: RunContext, r: RunOutcome, before: seq<Output>, after: seq<Output>)
    requires r.Returned?
    reads ctx, ctx.bundle, ctx.trace, ctx.trace.bundle
  {
    && LedgerClosed(ctx, r.terminalState)
    && ctx.terminalState == Some(r.terminalState) && ctx.output == r.output && ctx.verification == r.verification
    && ReasonFits(r.terminalState, r.reason, Kept(ctx, before, after))
    && (r.reason.None? <==> IsClean(r.terminalState))
    && (IsClean(r.terminalState) ==> Truthful(ctx))
    && (IsClean(r.terminalState) && r.output.Some? && ctx.hasResultWriter ==> after == before + [r.output.value])
    && (r.terminalState.Succeeded? && ctx.adapter.VideoAnalysis? ==> GroundedOutput(ctx))
  }

  /** Turn the policy's end into a terminal state, persist the output, and close the run. */
  method Settle(ctx: RunContext, env: Environment, span: TraceSpan, e: Option<Exn>) returns (r: RunOutcome)
    requires ctx.Between() && ctx.runSpan == Some(span) && span.phase == "run"
    requires if e.None? then Truthful(ctx) else ctx.terminalState.None? && !e.value.kind.Exit?
    modifies ctx`terminalState, env`exits, env`saved
    modifies ctx.trace`origin, ctx.trace`now, ctx.trace`finished
    modifies ctx.bundle`sequence, ctx.bundle`events, ctx.bundle`issuedIds
    modifies ctx.bundle`finalized, ctx.bundle`terminalState
    ensures r.Returned? <==> env.exits == old(env.exits)
    ensures r.Escaped? ==> !ctx.bundle.finalized && ctx.Tally().spans.Idle?
    ensures r.Escaped? ==> !r.exn.kind.IsOrdinary() && env.exits == old(env.exits) + 1
    ensures r.Returned? ==>
      && Concluded(ctx, r, old(env.saved), env.saved)
      && ctx.Tally() == old(ctx.Tally()).(
        count := old(ctx.Tally()).count + 2,
        spans := Closed,
        lastClosed := Some(Closing(RunBase, StatusFor(r.terminalState))))
    ensures r.Returned? && IsClean(r.terminalState) ==> e.None? && old(ctx.terminalState) == Some(r.terminalState)
    ensures r.Returned? && e.Some? && e.value.kind.DecisionFormat? ==> r.terminalState.Failed?
    // The except clause that caught the exception decides the state, unless the output could not be kept.
    ensures r.Returned? ==>
      (r.terminalState, r.reason) == Persisted(Ending(e, old(ctx.terminalState)), Kept(ctx, old(env.saved), env.saved))
    ensures env.saved == old(env.saved)
      || (ctx.output.Some? && ctx.hasResultWriter && env.saved == old(env.saved) + [ctx.output.value])
  {
    hide RunContext.Tally, PairingOf, RunContext.Between, EvidenceSound, Accounted, GroundedOutput, Truthful;
    hide LedgerClosed, Persisted, Ending, ReasonFits, Kept, Caught;
    var decided := Decide(ctx, env, e);
    if decided.Raised? {
      BetweenIsOpen(ctx);
      return Escaped(decided.exn);
    }
    var state, reason := decided.value.0, decided.value.1;
    if state.Succeeded? && ctx.adapter.VideoAnalysis? {
      SucceededIsGrounded(ctx);
    }
    CloseRun(ctx, span, state, reason.Some?);
    return Returned(state, ctx.output, reason, ctx.verification);
  }

  /** The terminal state and reason, once the output is persisted. */
  method Decide(ctx: RunContext, env: Environment, e: Option<Exn>)
    returns (r: Outcome<(TerminalState, Option<FailureReason>)>)
    requires if e.None? then Truthful(ctx) else ctx.terminalState.None? && !e.value.kind.Exit?
    modifies ctx`terminalState, env`exits, env`saved
    ensures r.Raised? ==> !r.exn.kind.IsOrdinary()
    ensures env.exits == old(env.exits) + Count(r.Raised?)
    ensures env.saved == old(env.saved)
      || (ctx.output.Some? && ctx.hasResultWriter && env.saved == old(env.saved) + [ctx.output.value])
    ensures r.Ok? ==>
      && ctx.terminalState == Some(r.value.0)
      && r.value == Persisted(Ending(e, old(ctx.terminalState)), Kept(ctx, old(env.saved), env.saved))
      && ReasonFits(r.value.0, r.value.1, Kept(ctx, old(env.saved), env.saved))
      && (r.value.1.None? <==> IsClean(r.value.0))
      && (e.Some? && e.value.kind.DecisionFormat? ==> r.value.0.Failed?)
    ensures r.Ok? && IsClean(r.value.0) ==>
      && e.None? && Truthful(ctx) && old(ctx.terminalState) == Some(r.value.0)
      && (ctx.output.Some? && ctx.hasResultWriter ==> env.saved == old(env.saved) + [ctx.output.value])
  {
    var state, reason := Failed, Some(NoTerminalState);
    if e.Some? {
      state, reason := Caught(e.value).0, Some(Caught(e.value).1);
    } else if ctx.terminalState.Some? {
      state, reason := ctx.terminalState.value, None;
      TruthfulIsClean(ctx);
    } else {
      TruthfulIsClean(ctx);
    }
    assert (state, reason) == Ending(e, old(ctx.terminalState));
    ctx.terminalState := Some(state);
    var persisted := Persist(ctx, env, state, reason);
    if persisted.Raised? {
      return Raised(persisted.exn);
    }
    EndingFits(e, old(ctx.terminalState), Kept(ctx, old(env.saved), env.saved));
    ctx.terminalState := Some(persisted.value.0);
    return persisted;
  }

  /**
   What the policy did. Every model call counted reached the model but for a request that could not be
   built, in an agentic run that then does not end cleanly; a run that ends on its own made the calls its
   policy prescribes; and a fixed run with the built-in tools kept within their bounds.
   */
  ghost predicate Conducted(policy: Policy, kernel: HarnessKernel, ctx: RunContext, state: Option<TerminalState>,
                            clean: bool, asked: int)
    reads ctx`unbuilt, ctx`modelCalls, ctx`probe, ctx`iterations, ctx`toolCalls, ctx`evidence, ctx`callFingerprints
    reads ctx`verification, kernel`repairRounds
  {
    && BuiltFor(policy, kernel, ctx) && asked == ctx.modelCalls - ctx.unbuilt
    && (clean ==> ctx.unbuilt == 0 && CompletedBy(policy, kernel, ctx, state))
    && (policy.FixedPolicy? && HasBuiltins(kernel.plugins) ==> FixedRan(ctx, clean))
  }

  lemma ConductedWeakens(policy: Policy, kernel: HarnessKernel, ctx: RunContext, state: Option<TerminalState>,
                         clean: bool, asked: int)
    requires Conducted(policy, kernel, ctx, state, clean, asked)
    ensures forall other :: Conducted(policy, kernel, ctx, other, false, asked)
  {
  }

  /** Open the run and execute its policy, unless it was cancelled before it started. */
  method Drive(policy: Policy, kernel: HarnessKernel, ctx: RunContext, env: Environment, cancelled: Option<Exn>)
    returns (span: TraceSpan, e: Option<Exn>)
    requires ctx.Valid() && ctx.IsFresh() && ctx.policy.Valid() && kernel.repairRounds == 0
    requires cancelled.Some? ==> cancelled.value.kind.Cancelled?
    modifies kernel`repairRounds, env`exits, env`modelInvocations
    modifies ctx`probe, ctx`evidence, ctx`allocatedIds, ctx`idCounters, ctx`toolCalls, ctx`callFingerprints
    modifies ctx`toolResults, ctx`artifactCalls, ctx`iterations, ctx`modelCalls, ctx`output, ctx`verification
    modifies ctx`terminalState, ctx`verifierFeedback, ctx`formatRepairUsed, ctx`unbuilt, ctx`runSpan
    modifies ctx.trace`origin, ctx.trace`now, ctx.trace`finished
    modifies ctx.bundle`sequence, ctx.bundle`events, ctx.bundle`issuedIds, ctx.bundle`evidenceFiles
    ensures ctx.Between() && Bounded(kernel, ctx)
    ensures ctx.runSpan == Some(span) && span.phase == "run"
    ensures Conducted(policy, kernel, ctx, ctx.terminalState, e.None?,
                      env.modelInvocations - old(env.modelInvocations))
    ensures Explained(policy, kernel, ctx, Ending(e, ctx.terminalState).1)
    ensures !ctx.bundle.finalized && ctx.Tally().spans.Idle?
    ensures env.exits == old(env.exits) + Count(e.Some? && e.value.kind.Exit?)
    ensures if e.None? then Truthful(ctx) else ctx.terminalState.None?
    ensures ctx.Tally().formatErrors <= 1
      || (ctx.Tally().formatErrors == 2 && e.Some? && e.value.kind.DecisionFormat?)
  {
    hide RunContext.Tally, PairingOf, RunContext.Ready, RunContext.Between, RunContext.Unused, RunContext.Valid;
    hide BuiltFor, VerdictEscapes, Truthful, FixedOutcome, HasBuiltins, FrameCount, CompletedBy, Explained, Ending;
    span := OpenRun(ctx);
    if cancelled.Some? {
      e := cancelled;
      NothingCalled(policy, kernel, ctx, e);
      ReadyIsBetween(ctx);
    } else {
      UnusedModels(ctx);
      e := ExecutePolicy(policy, kernel, ctx, env);
    }
    BetweenIsOpen(ctx);
    if policy.FixedPolicy? && HasBuiltins(kernel.plugins) {
      OutcomeMeans(kernel, ctx, e);
    }
  }

  lemma RequestsAccounted(ctx: RunContext)
    requires Accounted(ctx)
    ensures ctx.Tally().requests + ctx.unbuilt == ctx.modelCalls
  {
  }

  lemma UnusedModels(ctx: RunContext)
    requires ctx.Unused()
    ensures ctx.modelCalls == 0
  {
  }

  /** Drive one run to a truthful terminal state with exactly one finalization. */
  method Run(policy: Policy, kernel: HarnessKernel, ctx: RunContext, env: Environment) returns (r: RunOutcome)
    requires ctx.Valid() && ctx.IsFresh() && ctx.policy.Valid()
    modifies kernel`repairRounds, kernel`startedAt, env`exits, env`modelInvocations, env`saved
    modifies ctx`probe, ctx`evidence, ctx`allocatedIds, ctx`idCounters, ctx`toolCalls, ctx`callFingerprints
    modifies ctx`toolResults, ctx`artifactCalls, ctx`iterations, ctx`modelCalls, ctx`output, ctx`verification
    modifies ctx`terminalState, ctx`verifierFeedback, ctx`formatRepairUsed, ctx`unbuilt, ctx`runSpan
    modifies ctx.trace`origin, ctx.trace`now, ctx.trace`finished
    modifies ctx.bundle`sequence, ctx.bundle`events, ctx.bundle`issuedIds, ctx.bundle`evidenceFiles
    modifies ctx.bundle`finalized, ctx.bundle`terminalState
    // The run returns exactly when every exception raised was one the kernel handles.
    ensures r.Returned? <==> env.exits == old(env.exits)
    ensures r.Escaped? ==> !ctx.bundle.finalized && !r.exn.kind.IsOrdinary()
    ensures r.Escaped? ==> ctx.Tally().spans.Idle? || ctx.bundle.events == []
    // Whatever happened, a returned run is closed, true and accounted for, and kept every budget.
    ensures r.Returned? ==>
      && Concluded(ctx, r, old(env.saved), env.saved) && Bounded(kernel, ctx)
      && Conducted(policy, kernel, ctx, Some(r.terminalState), IsClean(r.terminalState),
                   env.modelInvocations - old(env.modelInvocations))
      && Explained(policy, kernel, ctx, r.reason) && kernel.startedAt.Some?
      && ctx.Tally().formatErrors <= 2 && (ctx.Tally().formatErrors == 2 ==> r.terminalState.Failed?)
  {
    hide RunContext.Tally, RunContext.Between, RunContext.Valid, Concluded, Conducted, Explained, Bounded, IsClean;
    kernel.repairRounds := 0;
    var identity := env.ReadIdentity();
    if identity.Raised? && identity.exn.kind.Exit? {
      return Escaped(identity.exn);
    }
    var now := env.ReadClock();
    kernel.startedAt := Some(now);
    r := Conduct(policy, kernel, ctx, env,
                 if identity.Raised? && identity.exn.kind.Cancelled? then Some(identity.exn) else None);
  }

  /** Drive the policy and settle how it ended, unless an exception the kernel does not handle passes through. */
  method Conduct(policy: Policy, kernel: HarnessKernel, ctx: RunContext, env: Environment, cancelled: Option<Exn>)
    returns (r: RunOutcome)
    requires ctx.Valid() && ctx.IsFresh() && ctx.policy.Valid() && kernel.repairRounds == 0
    requires cancelled.Some? ==> cancelled.value.kind.Cancelled?
    modifies kernel`repairRounds, env`exits, env`modelInvocations, env`saved
    modifies ctx`probe, ctx`evidence, ctx`allocatedIds, ctx`idCounters, ctx`toolCalls, ctx`callFingerprints
    modifies ctx`toolResults, ctx`artifactCalls, ctx`iterations, ctx`modelCalls, ctx`output, ctx`verification
    modifies ctx`terminalState, ctx`verifierFeedback, ctx`formatRepairUsed, ctx`unbuilt, ctx`runSpan
    modifies ctx.trace`origin, ctx.trace`now, ctx.trace`finished
    modifies ctx.bundle`sequence, ctx.bundle`events, ctx.bundle`issuedIds, ctx.bundle`evidenceFiles
    modifies ctx.bundle`finalized, ctx.bundle`terminalState
    ensures r.Returned? <==> env.exits == old(env.exits)
    ensures r.Escaped? ==> !ctx.bundle.finalized && !r.exn.kind.IsOrdinary() && ctx.Tally().spans.Idle?
    ensures r.Returned? ==>
      && Concluded(ctx, r, old(env.saved), env.saved) && Bounded(kernel, ctx)
      && Conducted(policy, kernel, ctx, Some(r.terminalState), IsClean(r.terminalState),
                   env.modelInvocations - old(env.modelInvocations))
      && Explained(policy, kernel, ctx, r.reason)
      && ctx.Tally().formatErrors <= 2 && (ctx.Tally().formatErrors == 2 ==> r.terminalState.Failed?)
  {
    hide RunContext.Tally, RunContext.Between, RunContext.Valid, Truthful, Concluded, Conducted, Persisted, Kept;
    hide Ending, StatusFor, Explained, IsClean, RunContext.IsFresh, Caught;
    var span, e := Drive(policy, kernel, ctx, env, cancelled);
    if e.Some? && e.value.kind.Exit? {
      return Escaped(e.value);
    }
    ConductedWeakens(policy, kernel, ctx, ctx.terminalState, e.None?, env.modelInvocations - old(env.modelInvocations));
    ghost var end := Ending(e, ctx.terminalState);
    r := Settle(ctx, env, span, e);
    PersistedExplained(policy, kernel, ctx, end, Kept(ctx, old(env.saved), env.saved));
  }
}
