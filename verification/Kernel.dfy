/** The bounded execution kernel: it enforces budgets before any work and audits every step. */
module Kernels {
  import opened Characters
  import opened Contracts
  import opened Environments
  import opened EvidenceIds
  import opened Ledger
  import opened Plugins
  import opened RunContexts
  import opened Sampling
  import opened Tools
  import opened TraceRecording
  import opened Verifier

  const MAX_REPAIR_ROUNDS := 2

  function StatusOf(status: ToolStatus): (s: EventStatus)
    ensures s != Started
  {
    match status
    case ToolCompleted => Completed
    case ToolSkipped => Skipped
    case ToolFailed => StatusFailed
  }

  /** The status a tool span closes with. */
  function CallStatus(r: Outcome<ToolResult>): EventStatus {
    if r.Ok? then StatusOf(r.value.status) else StatusFailed
  }

  function Snapshot(ctx: RunContext): Budget
    reads ctx
  {
    Budget(ctx.iterations, ctx.toolCalls, ctx.modelCalls, FrameCount(ctx.evidence))
  }

  /** Open a span inside the run. */
  method OpenSpan(ctx: RunContext, base: Base, phase: string, payload: Payload) returns (span: TraceSpan)
    requires ctx.Valid() && ctx.Tally().spans.Idle? && ctx.trace.origin.Some?
    requires (base.ProbeBase? || base.ToolCallBase? || base.ModelRequestBase?) && PlainPhase(phase)
    modifies ctx.trace`origin, ctx.trace`now, ctx.bundle`sequence, ctx.bundle`events, ctx.bundle`issuedIds
    ensures ctx.Valid() && ctx.trace.origin.Some? && ctx.Holds(span) && span.base == base && span.phase == phase
    ensures ctx.Tally() == old(ctx.Tally()).(
      count := old(ctx.Tally()).count + 1,
      spans := InSpan(old(ctx.Tally()).spans.run, base, span.correlationId),
      toolStarts := old(ctx.Tally()).toolStarts + Count(base.ToolCallBase?))
  {
    hide AuditOf, PairingOf, NextAudit, EvidenceSound, AllFrom, PhaseFits, TypeFits, Strip;
    NativeTypeFits(SpanEvent(base, Started));
    var start := ctx.trace.Start(base, phase, payload);
    span := start.value;
    AuditOpens(old(ctx.Tally()), StartEvent(ctx.bundle.sequence, span, payload));
  }

  /** Close the open span; the run span alone stays open. */
  method CloseSpan(ctx: RunContext, span: TraceSpan, status: EventStatus, payload: Payload, usage: Option<Usage>)
    requires ctx.Valid() && ctx.Holds(span) && status != Started && !span.base.OtherBase? && PlainPhase(span.phase)
    requires ctx.Tally().spans.InSpan? && ctx.Tally().spans.base == span.base
    modifies ctx.trace`origin, ctx.trace`now, ctx.trace`finished
    modifies ctx.bundle`sequence, ctx.bundle`events, ctx.bundle`issuedIds
    ensures ctx.Valid() && ctx.trace.origin.Some?
    ensures ctx.Tally() == old(ctx.Tally()).(
      count := old(ctx.Tally()).count + 1,
      spans := Idle(old(ctx.Tally()).spans.run),
      lastClosed := Some(Closing(span.base, status)),
      requests := old(ctx.Tally()).requests
        + Count(span.base.ModelRequestBase? && (status.Completed? || status.StatusFailed?)))
  {
    hide AuditOf, PairingOf, NextAudit, EvidenceSound, AllFrom, PhaseFits, TypeFits, Strip;
    NativeTypeFits(SpanEvent(span.base, status));
    var closed := ctx.trace.Finish(span, status, payload, usage);
    AuditCloses(old(ctx.Tally()), closed.value);
  }

  /** Append one numeric budget snapshot. */
  method EmitBudget(ctx: RunContext)
    requires ctx.Valid() && ctx.Tally().spans.Idle?
    modifies ctx.bundle`sequence, ctx.bundle`events, ctx.bundle`issuedIds
    ensures ctx.Valid()
    ensures ctx.Tally() == old(ctx.Tally()).(
      count := old(ctx.Tally()).count + 1,
      lastBudget := Some(Snapshot(ctx)),
      budgetsOrdered := old(ctx.Tally()).budgetsOrdered && Rises(old(ctx.Tally()).lastBudget, Snapshot(ctx)))
  {
    hide AuditOf, PairingOf, NextAudit, EvidenceSound, AllFrom, PlainPhase;
    KernelPhases();
    var event := ctx.Note("budget", BudgetPayload(Snapshot(ctx)), BudgetUpdated, Completed);
    AuditBudgets(old(ctx.Tally()), event);
  }

  method CompletePhase(ctx: RunContext, phase: string, payload: Payload)
    requires ctx.Valid() && ctx.Tally().spans.Idle? && PlainPhase(phase)
    modifies ctx.bundle`sequence, ctx.bundle`events, ctx.bundle`issuedIds
    ensures ctx.Valid()
    ensures ctx.Tally() == old(ctx.Tally()).(
      count := old(ctx.Tally()).count + 1,
      lastSampled := if phase == SAMPLE_EVIDENCE && payload.PhasePayload? && payload.frameCount.Some?
        then payload.frameCount else old(ctx.Tally()).lastSampled)
  {
    hide AuditOf, PairingOf, NextAudit, EvidenceSound, AllFrom, PlainPhase;
    var event := ctx.Note(phase, payload, PhaseCompleted, Completed);
    AuditCompletes(old(ctx.Tally()), event);
  }

  /** What later phases may rely on: only counters of their own moved. */
  ghost predicate SameMarks(a: Audit, b: Audit) {
    a.spans == b.spans && a.repairs == b.repairs && a.formatErrors == b.formatErrors && a.lastVerdict == b.lastVerdict
  }

  /** What an admitted call may answer: what its tool may, or the kernel's own frame overflow. */
  ghost predicate IsCallAnswer(r: Outcome<ToolResult>, arguments: ToolArguments, duration: real) {
    r == Raised(Raise(FrameOverflow)) || IsToolAnswer(r, RequestedWindows(arguments), duration)
  }

  /** What a tool call leaves behind for later phases. */
  datatype CallTrace = CallTrace(evidence: seq<Evidence>, results: seq<ToolSummary>, lastSampled: Option<nat>)

  ghost function TraceOf(ctx: RunContext): CallTrace
    reads ctx`evidence, ctx`toolResults, ctx.bundle
  {
    CallTrace(ctx.evidence, ctx.toolResults, ctx.Tally().lastSampled)
  }

  /** What a tool itself may add and answer. */
  ghost predicate ToolRan(body: ToolBody, arguments: ToolArguments, duration: real, before: seq<Evidence>,
                          after: seq<Evidence>, r: Outcome<ToolResult>)
  {
    var gained := |after| - |before|;
    && IsCallAnswer(r, arguments, duration)
    && Grew(before, after, body, arguments, duration)
    && (body.SampleEvidenceBody? ==> arguments.SampleArguments? && gained <= arguments.maxFrames)
    && (body.SampleEvidenceBody? && r.Ok? ==> r.value.frameCount.Some? && r.value.frameCount.value == gained)
    && (body.SampleEvidenceBody? && r != Raised(Raise(FrameOverflow)) ==>
          (r == Raised(Raise(WindowEscapes)) <==> !WithinDuration(arguments.windows, duration)))
    && (body.SampleEvidenceBody? && r == Raised(Raise(FrameOverflow)) ==> WithinDuration(arguments.windows, duration))
  }

  /** What the kernel makes of a tool's answer: the frame cap is checked after every completed call. */
  ghost predicate IsSettled(name: string, cap: nat, before: CallTrace, after: CallTrace, ran: Outcome<ToolResult>,
                          r: Outcome<ToolResult>)
  {
    && r == (if ran.Ok? && FrameCount(after.evidence) > cap then Raised(Raise(FrameOverflow)) else ran)
    && after.evidence == before.evidence
    && after.results == (if r.Ok? then before.results + [ToolSummary(name, r.value.status, r.value.evidenceIds)]
                         else before.results)
    && after.lastSampled == (if r.Ok? && name == SAMPLE_EVIDENCE && r.value.frameCount.Some?
                             then r.value.frameCount else before.lastSampled)
  }

  lemma SettledRan(name: string, body: ToolBody, arguments: ToolArguments, cap: nat, duration: real,
                   before: CallTrace, after: CallTrace, ran: Outcome<ToolResult>, r: Outcome<ToolResult>)
    requires ToolRan(body, arguments, duration, before.evidence, after.evidence, ran)
    requires ran != Raised(Raise(FrameOverflow))
    requires IsSettled(name, cap, before.(evidence := after.evidence), after, ran, r)
    ensures CallRan(name, body, arguments, cap, duration, before, after, r)
  {
    hide Grew, IsToolAnswer;
  }

  /** The effect of an admitted call: what its tool did, and the frame cap checked after every tool. */
  ghost predicate CallRan(name: string, body: ToolBody, arguments: ToolArguments, cap: nat, duration: real,
                          before: CallTrace, after: CallTrace, r: Outcome<ToolResult>)
  {
    && ToolRan(body, arguments, duration, before.evidence, after.evidence, r)
    && (r.Ok? ==> FrameCount(after.evidence) <= cap)
    && (r == Raised(Raise(FrameOverflow)) ==> FrameCount(after.evidence) > cap)
    && after.results == (if r.Ok? then before.results + [ToolSummary(name, r.value.status, r.value.evidenceIds)]
                         else before.results)
    && after.lastSampled == (if r.Ok? && name == SAMPLE_EVIDENCE && r.value.frameCount.Some?
                             then r.value.frameCount else before.lastSampled)
  }

  /** Close a failed or blocked span and record the counters it moved. */
  method FailSpan(ctx: RunContext, span: TraceSpan, status: EventStatus, usage: Option<Usage>)
    requires ctx.Valid() && ctx.runSpan.Some? && ctx.Holds(span) && !span.base.OtherBase? && PlainPhase(span.phase)
    requires ctx.unbuilt == 0
    requires ctx.Tally().spans.InSpan? && ctx.Tally().spans.base == span.base
    requires status.StatusFailed? || status.StatusBlocked?
    requires ctx.CountedBut(Count(span.base.ToolCallBase?), 0,
                            Count(span.base.ModelRequestBase? && status.StatusFailed?))
    modifies ctx.trace`origin, ctx.trace`now, ctx.trace`finished
    modifies ctx.bundle`sequence, ctx.bundle`events, ctx.bundle`issuedIds
    ensures ctx.Ready()
    ensures SameMarks(old(ctx.Tally()).(spans := Idle(old(ctx.Tally()).spans.run)), ctx.Tally())
    ensures ctx.Tally().lastSampled == old(ctx.Tally()).lastSampled
    ensures ctx.Tally().lastClosed == Some(Closing(span.base, status))
  {
    hide RunContext.Tally, PairingOf, PlainPhase, RunContext.Valid, RunContext.Holds, Agree, Rises;
    ghost var before, counts := ctx.Tally(), ctx.Counts();
    CloseSpan(ctx, span, status, NoPayload, usage);
    EmitBudget(ctx);
    SnapshotAgrees(before, ctx.Tally(), ctx.policy, counts, counts, Count(span.base.ToolCallBase?),
                   Count(span.base.ModelRequestBase? && status.StatusFailed?));
  }

  /** Close a completed span, complete its phase, and record the counters it moved. */
  method FinishSpan(ctx: RunContext, span: TraceSpan, status: EventStatus, usage: Option<Usage>, phase: string,
                    payload: Payload)
    requires ctx.Valid() && ctx.runSpan.Some? && ctx.Holds(span) && !span.base.OtherBase? && PlainPhase(span.phase)
    requires ctx.unbuilt == 0
    requires ctx.Tally().spans.InSpan? && ctx.Tally().spans.base == span.base
    requires status != Started && (span.base.ModelRequestBase? ==> status.Completed?) && PlainPhase(phase)
    requires ctx.CountedBut(Count(span.base.ToolCallBase?), 0, Count(span.base.ModelRequestBase?))
    modifies ctx.trace`origin, ctx.trace`now, ctx.trace`finished
    modifies ctx.bundle`sequence, ctx.bundle`events, ctx.bundle`issuedIds
    ensures ctx.Ready()
    ensures SameMarks(old(ctx.Tally()).(spans := Idle(old(ctx.Tally()).spans.run)), ctx.Tally())
    ensures ctx.Tally().lastSampled == if phase == SAMPLE_EVIDENCE && payload.PhasePayload? && payload.frameCount.Some?
      then payload.frameCount else old(ctx.Tally()).lastSampled
    ensures ctx.Tally().lastClosed == Some(Closing(span.base, status))
  {
    hide RunContext.Tally, PairingOf, PlainPhase, RunContext.Valid, RunContext.Holds, Agree, Rises;
    ghost var before, counts := ctx.Tally(), ctx.Counts();
    CloseSpan(ctx, span, status, NoPayload, usage);
    CompletePhase(ctx, phase, payload);
    EmitBudget(ctx);
    SnapshotAgrees(before, ctx.Tally(), ctx.policy, counts, counts, Count(span.base.ToolCallBase?),
                   Count(span.base.ModelRequestBase?));
  }

  /** The input model of another author's tool may raise anything while it judges a call. */
  predicate IsJudged(plugins: seq<Plugin>, name: string, exn: Exn) {
    ToolByName(plugins, name).Some? && ToolByName(plugins, name).value.body.CustomBody? && IsForeign(exn.kind)
  }

  /** An exception raised before the kernel did anything. */
  predicate IsRefusal(exn: Exn, cause: Option<Kind>) {
    exn == Raise(WallClock) || exn == Raise(RuntimeFailure) || (cause.Some? && exn == Raise(cause.value))
  }

  /** A budget exception of the kernel's own is true: the counter it names is at its limit. */
  ghost predicate BudgetSpent(ctx: RunContext, kind: Kind)
    reads ctx`modelCalls, ctx`toolCalls, ctx`iterations, ctx`evidence
  {
    match kind
    case ModelCallBudget => ctx.modelCalls >= ctx.policy.maxModelCalls
    case ToolCallBudget => ctx.toolCalls >= ctx.policy.maxToolCalls
    case IterationBudget => ctx.iterations >= ctx.policy.maxIterations
    case FrameHeadroom => FrameCount(ctx.evidence) >= ctx.policy.maxEvidenceFrames
    case FrameOverflow => FrameCount(ctx.evidence) > ctx.policy.maxEvidenceFrames
    case _ => true
  }

  /** No counter is behind any other exception. */
  lemma ForeignSpends(ctx: RunContext, kind: Kind)
    requires IsForeign(kind) || kind.WallClock? || kind.WindowEscapes?
    ensures BudgetSpent(ctx, kind)
  {
  }

  lemma NoModelSpends(ctx: RunContext)
    ensures BudgetSpent(ctx, Unavailable)
  {
  }

  lemma RanSpends(ctx: RunContext, name: string, body: ToolBody, arguments: ToolArguments, duration: real,
                  before: CallTrace, after: CallTrace, r: Outcome<ToolResult>)
    requires CallRan(name, body, arguments, ctx.policy.maxEvidenceFrames, duration, before, after, r)
    requires after.evidence == ctx.evidence && r.Raised?
    ensures BudgetSpent(ctx, r.exn.kind)
  {
    hide Grew, FrameCount;
  }

  /** What the wall clock says at a reading: only a started run that is still within its seconds goes on. */
  function WallVerdict(startedAt: Option<real>, now: real, maxWallSeconds: nat): Option<Exn> {
    if startedAt.None? then Some(Raise(RuntimeFailure))
    else if now - startedAt.value > maxWallSeconds as real then Some(Raise(WallClock))
    else None
  }

  class HarnessKernel {
    const plugins: seq<Plugin>
    var repairRounds: nat
    var startedAt: Option<real>

    constructor (plugins: seq<Plugin>)
      ensures this.plugins == plugins && repairRounds == 0 && startedAt == None
    {
      this.plugins, repairRounds, startedAt := plugins, 0, None;
    }

    /** Refuse to go on once the run has outlived its wall-clock budget. */
    method EnforceWall(ctx: RunContext, env: Environment) returns (e: Option<Exn>, now: real)
      ensures e == WallVerdict(startedAt, now, ctx.policy.maxWallSeconds)
    {
      now := 0.0;
      if startedAt.None? {
        return Some(Raise(RuntimeFailure)), now;
      }
      var reading := env.ReadClock();
      if reading - startedAt.value > ctx.policy.maxWallSeconds as real {
        return Some(Raise(WallClock)), reading;
      }
      return None, reading;
    }

    method RunProbe(ctx: RunContext, env: Environment) returns (e: Option<Exn>)
      requires ctx.Ready()
      modifies ctx`probe, env`exits
      modifies ctx.trace`origin, ctx.trace`now, ctx.trace`finished
      modifies ctx.bundle`sequence, ctx.bundle`events, ctx.bundle`issuedIds
      ensures ctx.Ready() && SameMarks(old(ctx.Tally()), ctx.Tally())
      ensures ctx.Tally().lastSampled == old(ctx.Tally()).lastSampled
      ensures e.None? ==> ctx.probe.Some?
      ensures e.Some? ==> ctx.probe == old(ctx.probe)
      ensures e.Some? ==> e.value == Raise(WallClock) || IsForeign(e.value.kind)
      ensures e.Some? ==> BudgetSpent(ctx, e.value.kind)
      ensures env.exits == old(env.exits) + Count(e.Some? && e.value.kind.Exit?)
      ensures e.None? ==> ctx.Tally().lastClosed == Some(Closing(ProbeBase, Completed))
      ensures ctx.Tally() == old(ctx.Tally())
        || ctx.Tally().lastClosed == Some(Closing(ProbeBase, if e.None? then Completed else StatusFailed))
    {
      hide RunContext.Tally, PairingOf, RunContext.Ready, SameMarks, BudgetSpent;
      var now;
      e, now := EnforceWall(ctx, env);
      if e.Some? {
        SameTally(ctx);
        ForeignSpends(ctx, e.value.kind);
        return;
      }
      e := ProbeInSpan(ctx, env);
      if e.Some? {
        ForeignSpends(ctx, e.value.kind);
      }
    }

    /** Probe the media inside a span, which closes as failed when the probe raises. */
    method ProbeInSpan(ctx: RunContext, env: Environment) returns (e: Option<Exn>)
      requires ctx.Ready()
      modifies ctx`probe, env`exits
      modifies ctx.trace`origin, ctx.trace`now, ctx.trace`finished
      modifies ctx.bundle`sequence, ctx.bundle`events, ctx.bundle`issuedIds
      ensures ctx.Ready() && SameMarks(old(ctx.Tally()), ctx.Tally())
      ensures ctx.Tally().lastSampled == old(ctx.Tally()).lastSampled
      ensures if e.None? then ctx.probe.Some? else ctx.probe == old(ctx.probe) && IsForeign(e.value.kind)
      ensures env.exits == old(env.exits) + Count(e.Some? && e.value.kind.Exit?)
      ensures ctx.Tally().lastClosed == Some(Closing(ProbeBase, if e.None? then Completed else StatusFailed))
    {
      hide RunContext.Tally, PairingOf, PlainPhase, RunContext.Valid, RunContext.Holds, Agree;
      KernelPhases();
      var span := OpenSpan(ctx, ProbeBase, "probe_media", NoPayload);
      var probed := env.ProbeMedia();
      if probed.Ok? {
        ctx.probe := Some(probed.value);
      }
      var status := if probed.Ok? then Completed else StatusFailed;
      CloseSpan(ctx, span, status, NoPayload, None);
      StillAgree(old(ctx.Tally()), ctx.Tally(), ctx.policy, ctx.Counts(), ctx.Counts(), 0, 0, 0);
      if probed.Raised? {
        return Some(probed.exn);
      }
      ghost var closed := ctx.Tally();
      CompletePhase(ctx, "probe_media", NoPayload);
      StillAgree(closed, ctx.Tally(), ctx.policy, ctx.Counts(), ctx.Counts(), 0, 0, 0);
      return None;
    }

    /** Why the kernel would refuse the call outright, in the order it checks. */
    function Admission(ctx: RunContext, name: string, raw: RawArguments): Option<Kind>
      reads this, ctx
    {
      var tool := ToolByName(plugins, name);
      if ctx.toolCalls >= ctx.policy.maxToolCalls then Some(ToolCallBudget)
      else if tool.None? then Some(UnknownTool)
      else
        var arguments := Validate(tool.value.body, raw);
        if arguments.None? then Some(InvalidArguments)
        else if Fingerprint(name, arguments.value) in ctx.callFingerprints then Some(DuplicateCall)
        else None
    }

    /** Run the tool's own code inside the open tool span. */
    method Execute(ctx: RunContext, env: Environment, body: ToolBody, arguments: ToolArguments, ghost span: TraceSpan)
      returns (r: Outcome<ToolResult>)
      requires ctx.Valid() && ctx.Holds(span) && ctx.Tally().spans.InSpan? && ctx.probe.Some?
      requires Matches(body, arguments)
      modifies ctx`evidence, ctx`allocatedIds, ctx`idCounters, env`exits
      modifies ctx.bundle`sequence, ctx.bundle`events, ctx.bundle`issuedIds, ctx.bundle`evidenceFiles
      ensures ctx.Valid() && ctx.Holds(span)
      ensures ToolRan(body, arguments, ctx.probe.value.durationSeconds, old(ctx.evidence), ctx.evidence, r)
      ensures old(ctx.evidence) <= ctx.evidence && r != Raised(Raise(FrameOverflow))
      ensures Deposited(old(ctx.Tally()), ctx.Tally(), |ctx.evidence| - |old(ctx.evidence)|)
      ensures env.exits == old(env.exits) + Count(r.Raised? && r.exn.kind.Exit?)
    {
      hide RunContext.Tally, PairingOf, PlainPhase, RunContext.Valid, RunContext.Holds;
      match body
      case SampleEvidenceBody =>
        ghost var candidates;
        r, candidates := SampleEvidence(ctx, env, arguments, span);
      case TranscribeAudioBody => r := TranscribeAudio(ctx, env, arguments, span);
      case CustomBody => r := RunCustomTool(ctx, env, arguments, span);
    }

    /** Judge a call before it is counted: its tool and validated arguments, or why it is refused. */
    method AdmitCall(ctx: RunContext, env: Environment, name: string, raw: RawArguments)
      returns (r: Outcome<(ToolBody, ToolArguments)>)
      modifies env`exits
      ensures env.exits == old(env.exits) + Count(r.Raised? && r.exn.kind.Exit?)
      ensures r.Raised? ==> IsRefusal(r.exn, Admission(ctx, name, raw)) || IsJudged(plugins, name, r.exn)
      ensures r.Raised? ==> BudgetSpent(ctx, r.exn.kind)
      ensures r.Ok? ==>
        && ctx.probe.Some? && Admission(ctx, name, raw).None? && Matches(r.value.0, r.value.1)
        && ToolByName(plugins, name).Some? && ToolByName(plugins, name).value.body == r.value.0
        && Validate(r.value.0, raw) == Some(r.value.1)
    {
      if ctx.probe.None? {
        return Raised(Raise(RuntimeFailure));
      }
      var wall, now := EnforceWall(ctx, env);
      if wall.Some? {
        return Raised(wall.value);
      }
      if ctx.toolCalls >= ctx.policy.maxToolCalls {
        return Raised(Raise(ToolCallBudget));
      }
      var tool := ToolByName(plugins, name);
      if tool.None? {
        return Raised(Raise(UnknownTool));
      }
      if tool.value.body.CustomBody? {
        var judged := env.JudgeInput();
        if judged.Some? {
          return Raised(judged.value);
        }
      }
      var arguments := Validate(tool.value.body, raw);
      if arguments.None? {
        return Raised(Raise(InvalidArguments));
      }
      if Fingerprint(name, arguments.value) in ctx.callFingerprints {
        return Raised(Raise(DuplicateCall));
      }
      return Ok((tool.value.body, arguments.value));
    }

    /** Execute one frozen, model-visible tool under strict input validation. */
    method RunTool(ctx: RunContext, env: Environment, name: string, raw: RawArguments) returns (r: Outcome<ToolResult>)
      requires ctx.Ready() && PlainPhase(name)
      modifies ctx`evidence, ctx`allocatedIds, ctx`idCounters, ctx`toolCalls, ctx`callFingerprints, ctx`toolResults
      modifies ctx`artifactCalls, env`exits
      modifies ctx.trace`origin, ctx.trace`now, ctx.trace`finished
      modifies ctx.bundle`sequence, ctx.bundle`events, ctx.bundle`issuedIds, ctx.bundle`evidenceFiles
      ensures ctx.Ready() && SameMarks(old(ctx.Tally()), ctx.Tally())
      ensures env.exits == old(env.exits) + Count(r.Raised? && r.exn.kind.Exit?)
      ensures old(ctx.evidence) <= ctx.evidence
      // A refused call leaves no mark.
      ensures ctx.toolCalls == old(ctx.toolCalls) ==>
        && r.Raised? && (IsRefusal(r.exn, old(Admission(ctx, name, raw))) || IsJudged(plugins, name, r.exn))
        && ctx.evidence == old(ctx.evidence) && ctx.callFingerprints == old(ctx.callFingerprints)
        && ctx.toolResults == old(ctx.toolResults) && ctx.Tally() == old(ctx.Tally())
      // An admitted call is counted and remembered, whatever its outcome.
      ensures ctx.toolCalls != old(ctx.toolCalls) ==>
        && ctx.toolCalls == old(ctx.toolCalls) + 1 && ctx.probe.Some?
        && old(Admission(ctx, name, raw)).None?
        && var tool := ToolByName(plugins, name).value;
           var arguments := Validate(tool.body, raw).value;
           && ctx.callFingerprints == old(ctx.callFingerprints) + {Fingerprint(name, arguments)}
           && CallRan(name, tool.body, arguments, ctx.policy.maxEvidenceFrames, ctx.probe.value.durationSeconds,
                      old(TraceOf(ctx)), TraceOf(ctx), r)
      // Its span closed with what the tool reported, or as failed.
      ensures ctx.toolCalls != old(ctx.toolCalls) ==>
        ctx.Tally().lastClosed == Some(Closing(ToolCallBase, CallStatus(r)))
      ensures r.Raised? ==> BudgetSpent(ctx, r.exn.kind)
      // Only a completed call leaves a result on record.
      ensures ctx.toolResults == if r.Ok?
        then old(ctx.toolResults) + [ToolSummary(name, r.value.status, r.value.evidenceIds)] else old(ctx.toolResults)
    {
      hide RunContext.Tally, PairingOf, PlainPhase, RunContext.Valid, RunContext.Holds, Grew, Fits, Agree;
      hide BudgetSpent, CallRan, Validate, WithinDuration;
      var admitted := AdmitCall(ctx, env, name, raw);
      if admitted.Raised? {
        return Raised(admitted.exn);
      }
      var body, arguments := admitted.value.0, admitted.value.1;
      ctx.callFingerprints := ctx.callFingerprints + {Fingerprint(name, arguments)};
      ctx.toolCalls := ctx.toolCalls + 1;
      CountedAgree(ctx.Tally(), ctx.policy, old(ctx.Counts()), ctx.Counts(), 1, 0);
      r := RunAdmitted(ctx, env, name, body, arguments);
    }

    /** The part of a tool call that its trace span encloses, and the record it leaves. */
    method RunAdmitted(ctx: RunContext, env: Environment, name: string, body: ToolBody, arguments: ToolArguments)
      returns (r: Outcome<ToolResult>)
      requires ctx.Valid() && ctx.Tally().spans.Idle? && ctx.trace.origin.Some? && ctx.runSpan.Some? && ctx.probe.Some?
      requires ctx.unbuilt == 0 && PlainPhase(name)
      requires Matches(body, arguments) && ctx.CountedBut(1, 1, 0)
      modifies ctx`evidence, ctx`allocatedIds, ctx`idCounters, ctx`toolResults, ctx`artifactCalls, env`exits
      modifies ctx.trace`origin, ctx.trace`now, ctx.trace`finished
      modifies ctx.bundle`sequence, ctx.bundle`events, ctx.bundle`issuedIds, ctx.bundle`evidenceFiles
      ensures ctx.Ready() && SameMarks(old(ctx.Tally()), ctx.Tally())
      ensures env.exits == old(env.exits) + Count(r.Raised? && r.exn.kind.Exit?)
      ensures old(ctx.evidence) <= ctx.evidence
      ensures CallRan(name, body, arguments, ctx.policy.maxEvidenceFrames, ctx.probe.value.durationSeconds,
                      old(TraceOf(ctx)), TraceOf(ctx), r)
      ensures ctx.Tally().lastClosed == Some(Closing(ToolCallBase, CallStatus(r)))
      ensures r.Raised? ==> BudgetSpent(ctx, r.exn.kind)
      // Only a completed call leaves a result on record.
      ensures ctx.toolResults == if r.Ok?
        then old(ctx.toolResults) + [ToolSummary(name, r.value.status, r.value.evidenceIds)] else old(ctx.toolResults)
    {
      hide RunContext.Tally, PairingOf, PlainPhase, RunContext.Valid, RunContext.Holds, ToolRan, Matches;
      hide WithinDuration, IsSettled, BudgetSpent, Agree;
      ghost var counts := ctx.Counts();
      var span := OpenSpan(ctx, ToolCallBase, name, ToolPayload(name, arguments));
      OpenedAgree(old(ctx.Tally()), ctx.Tally(), ctx.policy, counts, 1, 0);
      ghost var started := ctx.Tally();
      ctx.artifactCalls := ctx.artifactCalls + 1;
      var ran := Execute(ctx, env, body, arguments, span);
      FrameCountMonotone(old(ctx.evidence), ctx.evidence);
      StillAgree(started, ctx.Tally(), ctx.policy, counts, ctx.Counts(), 1, 0, 0);
      r := SettleCall(ctx, name, span, ran);
      SettledRan(name, body, arguments, ctx.policy.maxEvidenceFrames, ctx.probe.value.durationSeconds,
                 old(TraceOf(ctx)), TraceOf(ctx), ran, r);
      if r.Raised? {
        RanSpends(ctx, name, body, arguments, ctx.probe.value.durationSeconds, old(TraceOf(ctx)), TraceOf(ctx), r);
      }
    }

    /** Close the tool span by what the tool answered, unless its frames overflow the cap. */
    method SettleCall(ctx: RunContext, name: string, span: TraceSpan, ran: Outcome<ToolResult>)
      returns (r: Outcome<ToolResult>)
      requires ctx.Valid() && ctx.runSpan.Some? && ctx.Holds(span) && span.base.ToolCallBase? && span.phase == name
      requires ctx.unbuilt == 0 && PlainPhase(name)
      requires ctx.Tally().spans.InSpan? && ctx.Tally().spans.base == span.base && ctx.CountedBut(1, 0, 0)
      modifies ctx`toolResults, ctx.trace`origin, ctx.trace`now, ctx.trace`finished
      modifies ctx.bundle`sequence, ctx.bundle`events, ctx.bundle`issuedIds
      ensures ctx.Ready()
      ensures SameMarks(old(ctx.Tally()).(spans := Idle(old(ctx.Tally()).spans.run)), ctx.Tally())
      ensures IsSettled(name, ctx.policy.maxEvidenceFrames, old(TraceOf(ctx)), TraceOf(ctx), ran, r)
      ensures r == ran || (ran.Ok? && r == Raised(Raise(FrameOverflow)))
      ensures ctx.Tally().lastClosed == Some(Closing(ToolCallBase, CallStatus(r)))
    {
      hide RunContext.Tally, PairingOf, PlainPhase, RunContext.Valid, RunContext.Holds, StatusOf;
      r := ran;
      if r.Raised? {
        FailSpan(ctx, span, StatusFailed, r.exn.counters);
      } else if FrameCount(ctx.evidence) > ctx.policy.maxEvidenceFrames {
        FailSpan(ctx, span, StatusFailed, None);
        r := Raised(Raise(FrameOverflow));
      } else {
        ctx.toolResults := ctx.toolResults + [ToolSummary(name, r.value.status, r.value.evidenceIds)];
        FinishSpan(ctx, span, StatusOf(r.value.status), Some(r.value.usage), name,
                   PhasePayload(r.value.status, r.value.frameCount));
      }
    }

    /** Why no model is asked at a clock reading: nothing probed, the wall clock, or the model-call budget. */
    function ModelRefusal(ctx: RunContext, now: real): Option<Exn>
      reads `startedAt, ctx`probe, ctx`modelCalls
    {
      if ctx.probe.None? then Some(Raise(RuntimeFailure))
      else if WallVerdict(startedAt, now, ctx.policy.maxWallSeconds).Some? then
        WallVerdict(startedAt, now, ctx.policy.maxWallSeconds)
      else if ctx.modelCalls >= ctx.policy.maxModelCalls then Some(Raise(ModelCallBudget))
      else None
    }

    lemma ModelRefusalSpends(ctx: RunContext, now: real)
      requires ModelRefusal(ctx, now).Some?
      ensures BudgetSpent(ctx, ModelRefusal(ctx, now).value.kind) && IsRefusal(ModelRefusal(ctx, now).value,
                                                                             Some(ModelCallBudget))
    {
    }

    /** Exactly one task model call over the captured evidence, if there is any. */
    method Synthesize(ctx: RunContext, env: Environment) returns (e: Option<Exn>, now: real)
      requires ctx.Ready()
      modifies ctx`terminalState, ctx`modelCalls, ctx`output, env`exits, env`modelInvocations
      modifies ctx.trace`origin, ctx.trace`now, ctx.trace`finished
      modifies ctx.bundle`sequence, ctx.bundle`events, ctx.bundle`issuedIds
      ensures ctx.Ready() && SameMarks(old(ctx.Tally()), ctx.Tally())
      ensures ctx.Tally().lastSampled == old(ctx.Tally()).lastSampled
      ensures env.exits == old(env.exits) + Count(e.Some? && e.value.kind.Exit?)
      ensures ctx.modelCalls - old(ctx.modelCalls) == env.modelInvocations - old(env.modelInvocations)
      // Without evidence nothing is asked of the model, and the run ends as a no-op.
      ensures ctx.probe.Some? && ctx.evidence == [] ==>
        && e.None? && ctx.terminalState == Some(NoOp)
        && ctx.output == old(ctx.output) && ctx.modelCalls == old(ctx.modelCalls)
      ensures !(ctx.probe.Some? && ctx.evidence == []) ==> ctx.terminalState == old(ctx.terminalState)
      // Otherwise the model is asked exactly when nothing refuses the call, and a refusal leaves no mark.
      ensures !(ctx.probe.Some? && ctx.evidence == []) ==>
        var refusal := old(ModelRefusal(ctx, now));
        && ctx.modelCalls == old(ctx.modelCalls) + Count(refusal.None?)
        && (refusal.Some? ==> e == refusal && ctx.Tally() == old(ctx.Tally()))
        && (refusal.None? && e.Some? ==> IsForeign(e.value.kind))
      ensures ctx.evidence != [] && e.None? ==> ctx.output.Some?
      ensures e.Some? ==> ctx.output == old(ctx.output) && BudgetSpent(ctx, e.value.kind)
      ensures e.Some? ==> IsForeign(e.value.kind) || IsRefusal(e.value, Some(ModelCallBudget))
      ensures ctx.modelCalls != old(ctx.modelCalls) ==>
        ctx.Tally().lastClosed == Some(Closing(ModelRequestBase, if e.None? then Completed else StatusFailed))
    {
      hide RunContext.Tally, PairingOf, PlainPhase, BudgetSpent, IsRefusal, RunContext.Ready, SameMarks;
      now := 0.0;
      if ctx.probe.None? {
        ModelRefusalSpends(ctx, now);
        SameTally(ctx);
        return Some(Raise(RuntimeFailure)), now;
      }
      if ctx.evidence == [] {
        NothingToSynthesize(ctx);
        return None, now;
      }
      e, now := EnforceWall(ctx, env);
      SameTally(ctx);
      if e.Some? {
        ModelRefusalSpends(ctx, now);
        return;
      }
      if ctx.modelCalls >= ctx.policy.maxModelCalls {
        ModelRefusalSpends(ctx, now);
        return Some(Raise(ModelCallBudget)), now;
      }
      e := AskForResult(ctx, env);
      if e.Some? {
        ForeignSpends(ctx, e.value.kind);
      }
    }

    lemma SameTally(ctx: RunContext)
      ensures SameMarks(ctx.Tally(), ctx.Tally())
    {
    }

    /** A run without evidence ends as a no-op. */
    method NothingToSynthesize(ctx: RunContext)
      requires ctx.Ready()
      modifies ctx`terminalState, ctx.bundle`sequence, ctx.bundle`events, ctx.bundle`issuedIds
      ensures ctx.Ready() && SameMarks(old(ctx.Tally()), ctx.Tally())
      ensures ctx.Tally().lastSampled == old(ctx.Tally()).lastSampled && ctx.terminalState == Some(NoOp)
    {
      hide RunContext.Tally, PairingOf, PlainPhase, RunContext.Valid;
      KernelPhases();
      ctx.terminalState := Some(NoOp);
      CompletePhase(ctx, "synthesize_result", NoPayload);
    }

    /** Count the task's model call and make it inside a span. */
    method AskForResult(ctx: RunContext, env: Environment) returns (e: Option<Exn>)
      requires ctx.Ready() && ctx.modelCalls < ctx.policy.maxModelCalls
      modifies ctx`modelCalls, ctx`output, env`exits, env`modelInvocations
      modifies ctx.trace`origin, ctx.trace`now, ctx.trace`finished
      modifies ctx.bundle`sequence, ctx.bundle`events, ctx.bundle`issuedIds
      ensures ctx.Ready() && SameMarks(old(ctx.Tally()), ctx.Tally())
      ensures ctx.Tally().lastSampled == old(ctx.Tally()).lastSampled
      ensures env.exits == old(env.exits) + Count(e.Some? && e.value.kind.Exit?)
      ensures ctx.modelCalls == old(ctx.modelCalls) + 1 && env.modelInvocations == old(env.modelInvocations) + 1
      ensures e.Some? ==> IsForeign(e.value.kind) && ctx.output == old(ctx.output)
      ensures e.None? ==> ctx.output.Some?
      ensures ctx.Tally().lastClosed
        == Some(Closing(ModelRequestBase, if e.None? then Completed else StatusFailed))
    {
      hide RunContext.Tally, PairingOf, PlainPhase, RunContext.Valid, RunContext.Holds, Agree;
      KernelPhases();
      ctx.modelCalls := ctx.modelCalls + 1;
      ghost var counts := ctx.Counts();
      CountedAgree(ctx.Tally(), ctx.policy, old(ctx.Counts()), counts, 0, 1);
      var span := OpenSpan(ctx, ModelRequestBase, "synthesize_result", NoPayload);
      OpenedAgree(old(ctx.Tally()), ctx.Tally(), ctx.policy, counts, 0, 1);
      var reply := env.RequestFinal();
      if reply.Raised? {
        FailSpan(ctx, span, StatusFailed, reply.exn.counters);
        return Some(reply.exn);
      }
      ctx.output := Some(reply.value.0);
      FinishSpan(ctx, span, Completed, Some(reply.value.1), "synthesize_result", NoPayload);
      return None;
    }

    /** Record an agent decision, or the failure to format one. */
    method RecordDecision(ctx: RunContext, calls: seq<string>, status: EventStatus)
      requires ctx.Valid() && ctx.Tally().spans.Idle? && status != Started
      modifies ctx.bundle`sequence, ctx.bundle`events, ctx.bundle`issuedIds
      ensures ctx.Valid()
      ensures ctx.Tally() == old(ctx.Tally()).(
        count := old(ctx.Tally()).count + 1,
        formatErrors := old(ctx.Tally()).formatErrors + Count(status.StatusFailed?))
    {
      hide AuditOf, PairingOf, NextAudit, EvidenceSound, AllFrom, PlainPhase;
      KernelPhases();
      var event := ctx.Note("agent.decision", DecisionPayload(calls), AgentDecision, status);
      AuditDecides(old(ctx.Tally()), event);
    }

    /** Close the model request and record what was decided, with the counters it moved. */
    method ConcludeDecision(ctx: RunContext, span: TraceSpan, status: EventStatus, usage: Option<Usage>,
                            calls: seq<string>)
      requires ctx.Valid() && ctx.runSpan.Some? && ctx.Holds(span) && span.base.ModelRequestBase?
      requires ctx.unbuilt == 0 && PlainPhase(span.phase)
      requires ctx.Tally().spans.InSpan? && ctx.Tally().spans.base == span.base && ctx.CountedBut(0, 0, 1)
      requires status.Completed? || status.StatusFailed?
      modifies ctx.trace`origin, ctx.trace`now, ctx.trace`finished
      modifies ctx.bundle`sequence, ctx.bundle`events, ctx.bundle`issuedIds
      ensures ctx.Ready() && ctx.Tally().lastSampled == old(ctx.Tally()).lastSampled
      ensures ctx.Tally().lastClosed == Some(Closing(ModelRequestBase, status))
      ensures SameMarks(
        old(ctx.Tally()).(spans := Idle(old(ctx.Tally()).spans.run),
                          formatErrors := old(ctx.Tally()).formatErrors + Count(status.StatusFailed?)),
        ctx.Tally())
    {
      hide RunContext.Tally, PairingOf, PlainPhase, RunContext.Valid, RunContext.Holds, Agree, Rises;
      ghost var before, counts := ctx.Tally(), ctx.Counts();
      CloseSpan(ctx, span, status, NoPayload, usage);
      RecordDecision(ctx, calls, status);
      EmitBudget(ctx);
      SnapshotAgrees(before, ctx.Tally(), ctx.policy, counts, counts, 0, 1);
    }

    /** The schemas a decision request is built from: those of the visible tools, then the output model's. */
    function RequestSchemas(ctx: RunContext): seq<Schema> {
      ToolSchemas(plugins) + [ctx.adapter.OutputSchema()]
    }

    /** Build a decision request; generating a schema runs plugin or task code, and nothing catches what it raises. */
    method BuildRequest(ctx: RunContext, env: Environment) returns (e: Option<Exn>)
      modifies env`exits
      ensures AllGenerate(RequestSchemas(ctx)) ==> e.None?
      ensures SomeNever(RequestSchemas(ctx)) ==> e.Some?
      ensures e.Some? ==> IsForeign(e.value.kind) && !e.value.kind.DecisionFormat?
      ensures env.exits == old(env.exits) + Count(e.Some? && e.value.kind.Exit?)
    {
      var schemas := RequestSchemas(ctx);
      for k := 0 to |schemas|
        invariant env.exits == old(env.exits)
        invariant forall i :: 0 <= i < k ==> !schemas[i].NeverGenerates?
      {
        e := env.GenerateSchema(schemas[k]);
        if e.Some? {
          return;
        }
      }
      return None;
    }

    /** Why no decision is asked for at a clock reading. */
    function DecisionRefusal(ctx: RunContext, now: real): Option<Exn>
      reads `startedAt, ctx`probe, ctx`modelCalls
    {
      if ModelRefusal(ctx, now).Some? then ModelRefusal(ctx, now)
      else if !ctx.hasAgentModel then Some(Raise(Unavailable))
      else None
    }

    /** One bounded agent decision over everything captured so far. */
    method RequestAgentDecision(ctx: RunContext, env: Environment, formatRepair: bool)
      returns (r: Outcome<(Decision, Usage)>, now: real)
      requires ctx.Ready()
      modifies ctx`modelCalls, ctx`unbuilt, ctx`verifierFeedback, env`exits, env`modelInvocations
      modifies ctx.trace`origin, ctx.trace`now, ctx.trace`finished
      modifies ctx.bundle`sequence, ctx.bundle`events, ctx.bundle`issuedIds
      ensures ctx.Between() && (ctx.unbuilt == 0 ==> ctx.Ready())
      ensures SameMarks(old(ctx.Tally()).(formatErrors := ctx.Tally().formatErrors), ctx.Tally())
      ensures ctx.Tally().lastSampled == old(ctx.Tally()).lastSampled
      ensures env.exits == old(env.exits) + Count(r.Raised? && r.exn.kind.Exit?)
      ensures ctx.Tally().formatErrors == old(ctx.Tally()).formatErrors + Count(r.Raised? && r.exn.kind.DecisionFormat?)
      ensures r.Ok? ==> r.value.0.Valid() && ctx.verifierFeedback == None
      // A failed request keeps the feedback for the next one.
      ensures r.Raised? ==> ctx.verifierFeedback == old(ctx.verifierFeedback) && BudgetSpent(ctx, r.exn.kind)
      // A call is counted exactly when nothing refuses it.
      ensures var refusal := old(DecisionRefusal(ctx, now));
        && ctx.modelCalls == old(ctx.modelCalls) + Count(refusal.None?)
        && (refusal.Some? ==> r == Raised(refusal.value))
        && (refusal.None? && r.Raised? ==> IsForeign(r.exn.kind))
      ensures r.Raised? && r.exn.kind.DecisionFormat? ==> ctx.modelCalls == old(ctx.modelCalls) + 1
      // It is counted before its request is built; when that raises, nothing reaches the model or the ledger.
      ensures env.modelInvocations - old(env.modelInvocations) == ctx.modelCalls - old(ctx.modelCalls) - ctx.unbuilt
      ensures ctx.unbuilt <= 1
      ensures ctx.unbuilt == 1 ==>
        && r.Raised? && !r.exn.kind.DecisionFormat? && ctx.modelCalls == old(ctx.modelCalls) + 1
        && ctx.Tally() == old(ctx.Tally())
      ensures AllGenerate(RequestSchemas(ctx)) ==> ctx.unbuilt == 0
      ensures SomeNever(RequestSchemas(ctx)) && ctx.modelCalls != old(ctx.modelCalls) ==> ctx.unbuilt == 1
      ensures ctx.modelCalls != old(ctx.modelCalls) && ctx.unbuilt == 0 ==>
        ctx.Tally().lastClosed == Some(Closing(ModelRequestBase, if r.Ok? then Completed else StatusFailed))
    {
      hide RunContext.Tally, RunContext.Valid, RunContext.Holds, AllGenerate, SomeNever, Agree, WallVerdict;
      hide IsForeign, HarnessKernel.RequestSchemas, BudgetSpent, HarnessKernel.ModelRefusal;
      var refusal;
      refusal, now := RefuseModel(ctx, env);
      if refusal.Some? {
        return Raised(refusal.value), now;
      }
      if !ctx.hasAgentModel {
        NoModelSpends(ctx);
        BlockDecision(ctx);
        return Raised(Raise(Unavailable)), now;
      }
      r := AskModel(ctx, env);
      if r.Raised? {
        ForeignSpends(ctx, r.exn.kind);
      }
    }

    /** The checks ahead of a decision's model call, in their order. */
    method RefuseModel(ctx: RunContext, env: Environment) returns (e: Option<Exn>, now: real)
      ensures e == ModelRefusal(ctx, now)
      ensures e.Some? ==> BudgetSpent(ctx, e.value.kind) && !e.value.kind.Exit? && !e.value.kind.DecisionFormat?
      ensures e.None? ==> ctx.modelCalls < ctx.policy.maxModelCalls
    {
      now := 0.0;
      if ctx.probe.None? {
        return Some(Raise(RuntimeFailure)), now;
      }
      e, now := EnforceWall(ctx, env);
      if e.None? && ctx.modelCalls >= ctx.policy.maxModelCalls {
        return Some(Raise(ModelCallBudget)), now;
      }
    }

    /** Record that no agent model is there to be asked. */
    method BlockDecision(ctx: RunContext)
      requires ctx.Ready()
      modifies ctx.trace`origin, ctx.trace`now, ctx.trace`finished
      modifies ctx.bundle`sequence, ctx.bundle`events, ctx.bundle`issuedIds
      ensures ctx.Ready() && SameMarks(old(ctx.Tally()), ctx.Tally())
      ensures ctx.Tally().lastSampled == old(ctx.Tally()).lastSampled
      ensures ctx.Tally().lastClosed == Some(Closing(ModelRequestBase, StatusBlocked))
    {
      hide RunContext.Tally, PairingOf, PlainPhase, RunContext.Valid, RunContext.Holds, Agree;
      KernelPhases();
      var span := OpenSpan(ctx, ModelRequestBase, "agent_decision", NoPayload);
      OpenedAgree(old(ctx.Tally()), ctx.Tally(), ctx.policy, ctx.Counts(), 0, 0);
      FailSpan(ctx, span, StatusBlocked, None);
    }

    /** Count a model call, build its request, and ask the model inside a span. */
    method AskModel(ctx: RunContext, env: Environment) returns (r: Outcome<(Decision, Usage)>)
      requires ctx.Ready() && ctx.modelCalls < ctx.policy.maxModelCalls
      modifies ctx`modelCalls, ctx`unbuilt, ctx`verifierFeedback, env`exits, env`modelInvocations
      modifies ctx.trace`origin, ctx.trace`now, ctx.trace`finished
      modifies ctx.bundle`sequence, ctx.bundle`events, ctx.bundle`issuedIds
      ensures ctx.Between() && ctx.modelCalls == old(ctx.modelCalls) + 1 && ctx.unbuilt <= 1
      ensures env.exits == old(env.exits) + Count(r.Raised? && r.exn.kind.Exit?)
      ensures env.modelInvocations == old(env.modelInvocations) + 1 - ctx.unbuilt
      ensures r.Raised? ==> IsForeign(r.exn.kind)
      ensures r.Ok? ==> r.value.0.Valid()
      ensures ctx.verifierFeedback == if r.Ok? then None else old(ctx.verifierFeedback)
      ensures ctx.unbuilt == 1 ==> r.Raised? && !r.exn.kind.DecisionFormat? && ctx.Tally() == old(ctx.Tally())
      ensures ctx.unbuilt == 0 ==>
        && SameMarks(old(ctx.Tally()).(formatErrors := old(ctx.Tally()).formatErrors
                                                       + Count(r.Raised? && r.exn.kind.DecisionFormat?)),
                     ctx.Tally())
        && ctx.Tally().lastSampled == old(ctx.Tally()).lastSampled
        && ctx.Tally().lastClosed == Some(Closing(ModelRequestBase, if r.Ok? then Completed else StatusFailed))
      ensures AllGenerate(RequestSchemas(ctx)) ==> ctx.unbuilt == 0
      ensures SomeNever(RequestSchemas(ctx)) ==> ctx.unbuilt == 1
    {
      hide RunContext.Tally, PairingOf, PlainPhase, RunContext.Valid, RunContext.Holds, AllGenerate, SomeNever;
      hide HarnessKernel.RequestSchemas, Agree, SameMarks;
      ctx.modelCalls := ctx.modelCalls + 1;
      CountedAgree(ctx.Tally(), ctx.policy, old(ctx.Counts()), ctx.Counts(), 0, 1);
      var fault := BuildRequest(ctx, env);
      if fault.Some? {
        ctx.unbuilt := 1;
        UnbuiltAgrees(ctx.Tally(), ctx.policy, old(ctx.Counts()).(modelCalls := ctx.modelCalls), ctx.Counts());
        return Raised(fault.value);
      }
      r := MakeRequest(ctx, env);
    }

    /** Ask the model for a decision inside a span. */
    method MakeRequest(ctx: RunContext, env: Environment) returns (r: Outcome<(Decision, Usage)>)
      requires ctx.Valid() && ctx.Tally().spans.Idle? && ctx.trace.origin.Some? && ctx.runSpan.Some?
      requires ctx.unbuilt == 0 && ctx.CountedBut(0, 0, 1)
      modifies ctx`verifierFeedback, env`exits, env`modelInvocations
      modifies ctx.trace`origin, ctx.trace`now, ctx.trace`finished
      modifies ctx.bundle`sequence, ctx.bundle`events, ctx.bundle`issuedIds
      ensures ctx.Ready()
      ensures env.exits == old(env.exits) + Count(r.Raised? && r.exn.kind.Exit?)
      ensures env.modelInvocations == old(env.modelInvocations) + 1
      ensures if r.Ok? then r.value.0.Valid() else IsForeign(r.exn.kind)
      ensures ctx.verifierFeedback == if r.Ok? then None else old(ctx.verifierFeedback)
      ensures SameMarks(old(ctx.Tally()).(formatErrors := old(ctx.Tally()).formatErrors
                                                          + Count(r.Raised? && r.exn.kind.DecisionFormat?)),
                        ctx.Tally())
      ensures ctx.Tally().lastSampled == old(ctx.Tally()).lastSampled
      ensures ctx.Tally().lastClosed == Some(Closing(ModelRequestBase, if r.Ok? then Completed else StatusFailed))
    {
      hide RunContext.Tally, PairingOf, PlainPhase, RunContext.Valid, RunContext.Holds, Agree;
      KernelPhases();
      var span := OpenSpan(ctx, ModelRequestBase, "agent_decision", NoPayload);
      OpenedAgree(old(ctx.Tally()), ctx.Tally(), ctx.policy, ctx.Counts(), 0, 1);
      r := env.DecideNext();
      SettleDecision(ctx, span, r);
    }

    /** Close the model request by what came back, and record the decision or the failure to format one. */
    method SettleDecision(ctx: RunContext, span: TraceSpan, r: Outcome<(Decision, Usage)>)
      requires ctx.Valid() && ctx.runSpan.Some? && ctx.Holds(span) && span.base.ModelRequestBase?
      requires ctx.unbuilt == 0 && PlainPhase(span.phase)
      requires ctx.Tally().spans.InSpan? && ctx.Tally().spans.base == span.base && ctx.CountedBut(0, 0, 1)
      modifies ctx`verifierFeedback, ctx.trace`origin, ctx.trace`now, ctx.trace`finished
      modifies ctx.bundle`sequence, ctx.bundle`events, ctx.bundle`issuedIds
      ensures ctx.Ready() && ctx.Tally().lastSampled == old(ctx.Tally()).lastSampled
      ensures SameMarks(
        old(ctx.Tally()).(spans := Idle(old(ctx.Tally()).spans.run),
                          formatErrors := old(ctx.Tally()).formatErrors
                                          + Count(r.Raised? && r.exn.kind.DecisionFormat?)),
        ctx.Tally())
      ensures ctx.Tally().lastClosed == Some(Closing(ModelRequestBase, if r.Ok? then Completed else StatusFailed))
      // Feedback applies to exactly one successful request.
      ensures ctx.verifierFeedback == if r.Ok? then None else old(ctx.verifierFeedback)
    {
      hide RunContext.Tally, PairingOf, PlainPhase, RunContext.Valid, RunContext.Holds;
      if r.Raised? && !r.exn.kind.DecisionFormat? {
        FailSpan(ctx, span, StatusFailed, r.exn.counters);
      } else if r.Raised? {
        ConcludeDecision(ctx, span, StatusFailed, r.exn.counters, []);
      } else {
        ctx.verifierFeedback := None;
        ConcludeDecision(ctx, span, Completed, Some(r.value.1), CallNames(r.value.0));
      }
    }

    function CallNames(decision: Decision): seq<string> {
      if decision.ToolCalls? then seq(|decision.calls|, i requires 0 <= i < |decision.calls| => decision.calls[i].name)
      else []
    }

    /** Parse one final answer through the task's strict schema. */
    method AcceptAgentFinal(ctx: RunContext, payload: nat) returns (e: Option<Exn>)
      modifies ctx`output
      ensures match ctx.adapter.Parse(payload)
        case Accepted(output) => e.None? && ctx.output == Some(output)
        case ParseRaises(kind) => e == Some(Raise(kind)) && ctx.output == old(ctx.output)
    {
      match ctx.adapter.Parse(payload)
      case ParseRaises(kind) =>
        return Some(Raise(kind));
      case Accepted(output) =>
        ctx.output := Some(output);
        return None;
    }

    /** Check the output against the evidence it was made from, and record the verdict. */
    method Verify(ctx: RunContext) returns (r: Outcome<Verification>)
      requires ctx.Ready()
      modifies ctx`verification, ctx.bundle`sequence, ctx.bundle`events, ctx.bundle`issuedIds
      ensures ctx.Ready()
      ensures SameMarks(old(ctx.Tally()).(lastVerdict := ctx.Tally().lastVerdict), ctx.Tally())
      ensures ctx.Tally().lastSampled == old(ctx.Tally()).lastSampled
      ensures r.Ok? ==>
        && ctx.probe.Some? && ctx.output.Some?
        && ctx.adapter.Verify(ctx.output.value, ctx.evidence, ctx.probe.value) == Verdict(r.value)
        && ctx.verification == Some(r.value)
        && ctx.Tally().lastVerdict == Some(r.value.passed)
      ensures r.Raised? ==>
        && r.exn.kind.IsOrdinary() && IsForeign(r.exn.kind)
        && ctx.verification == old(ctx.verification) && ctx.Tally() == old(ctx.Tally())
    {
      hide RunContext.Tally, PairingOf, RunContext.Valid, VerifyClaims, PlainPhase, Agree;
      if ctx.probe.None? || ctx.output.None? {
        return Raised(Raise(RuntimeFailure));
      }
      match ctx.adapter.Verify(ctx.output.value, ctx.evidence, ctx.probe.value)
      case VerifierRaises(kind) =>
        return Raised(Raise(kind));
      case Verdict(v) =>
        RecordVerdict(ctx, v);
        return Ok(v);
    }

    /** Keep the task's verdict and record it. */
    method RecordVerdict(ctx: RunContext, v: Verification)
      requires ctx.Ready()
      modifies ctx`verification, ctx.bundle`sequence, ctx.bundle`events, ctx.bundle`issuedIds
      ensures ctx.Ready() && ctx.verification == Some(v)
      ensures SameMarks(old(ctx.Tally()).(lastVerdict := Some(v.passed)), ctx.Tally())
      ensures ctx.Tally().lastSampled == old(ctx.Tally()).lastSampled
    {
      hide AuditOf, PairingOf, NextAudit, EvidenceSound, AllFrom, PlainPhase, Agree;
      KernelPhases();
      ctx.verification := Some(v);
      var event := ctx.Note("verify_claims", VerdictPayload(v.passed, v.failedGates), VerifierCompleted, Completed);
      AuditVerifies(old(ctx.Tally()), event);
      CompletePhase(ctx, "verify_claims", VerdictPayload(v.passed, v.failedGates));
      StillAgree(old(ctx.Tally()), ctx.Tally(), ctx.policy, ctx.Counts(), ctx.Counts(), 0, 0, 0);
    }

    /** Why no iteration starts at a clock reading. */
    function IterationRefusal(ctx: RunContext, now: real): Option<Exn>
      reads `startedAt, ctx`iterations
    {
      if WallVerdict(startedAt, now, ctx.policy.maxWallSeconds).Some? then
        WallVerdict(startedAt, now, ctx.policy.maxWallSeconds)
      else if ctx.iterations >= ctx.policy.maxIterations then Some(Raise(IterationBudget))
      else None
    }

    /** Count one acquisition iteration, or refuse to exceed the budget. */
    method RecordIteration(ctx: RunContext, env: Environment) returns (e: Option<Exn>, now: real)
      requires ctx.Ready()
      modifies ctx`iterations, ctx.bundle`sequence, ctx.bundle`events, ctx.bundle`issuedIds
      ensures ctx.Ready() && SameMarks(old(ctx.Tally()), ctx.Tally())
      ensures ctx.Tally().lastSampled == old(ctx.Tally()).lastSampled
      ensures e == old(IterationRefusal(ctx, now))
      ensures ctx.iterations == old(ctx.iterations) + Count(e.None?)
      ensures e.Some? ==> IsRefusal(e.value, Some(IterationBudget)) && BudgetSpent(ctx, e.value.kind)
    {
      hide RunContext.Tally, PairingOf, PlainPhase, RunContext.Valid, RunContext.Holds, Agree, Rises;
      e, now := EnforceWall(ctx, env);
      if e.Some? {
        return;
      }
      if ctx.iterations >= ctx.policy.maxIterations {
        return Some(Raise(IterationBudget)), now;
      }
      ctx.iterations := ctx.iterations + 1;
      EmitBudget(ctx);
      SnapshotAgrees(old(ctx.Tally()), ctx.Tally(), ctx.policy, old(ctx.Counts()), ctx.Counts(), 0, 0);
    }

    /** Refuse further acquisition once the frame cap is reached. */
    method EnsureFrameHeadroom(ctx: RunContext, env: Environment) returns (e: Option<Exn>, now: real)
      ensures e == if WallVerdict(startedAt, now, ctx.policy.maxWallSeconds).Some?
        then WallVerdict(startedAt, now, ctx.policy.maxWallSeconds)
        else if FrameCount(ctx.evidence) >= ctx.policy.maxEvidenceFrames then Some(Raise(FrameHeadroom)) else None
      ensures e.Some? ==> BudgetSpent(ctx, e.value.kind)
    {
      e, now := EnforceWall(ctx, env);
      if e.None? && FrameCount(ctx.evidence) >= ctx.policy.maxEvidenceFrames {
        return Some(Raise(FrameHeadroom)), now;
      }
    }

    function RemainingFrames(ctx: RunContext): (n: nat)
      reads ctx`evidence
      ensures n + FrameCount(ctx.evidence) >= ctx.policy.maxEvidenceFrames
      ensures n > 0 ==> n + FrameCount(ctx.evidence) == ctx.policy.maxEvidenceFrames
    {
      if FrameCount(ctx.evidence) >= ctx.policy.maxEvidenceFrames then 0
      else ctx.policy.maxEvidenceFrames - FrameCount(ctx.evidence)
    }

    predicate RepairAvailable(ctx: RunContext)
      reads this`repairRounds, ctx`iterations
    {
      repairRounds < MAX_REPAIR_ROUNDS && ctx.iterations < ctx.policy.maxIterations
    }

    /** Consume one repair round and record the structured request for it. */
    method RecordRepair(ctx: RunContext, env: Environment, v: Verification) returns (r: Outcome<Feedback>)
      requires ctx.Ready()
      modifies this`repairRounds, ctx.bundle`sequence, ctx.bundle`events, ctx.bundle`issuedIds
      ensures ctx.Ready()
      ensures SameMarks(old(ctx.Tally()).(repairs := ctx.Tally().repairs), ctx.Tally())
      ensures ctx.Tally().lastSampled == old(ctx.Tally()).lastSampled
      ensures ctx.Tally().repairs - old(ctx.Tally()).repairs == repairRounds - old(repairRounds)
      ensures r.Ok? ==> repairRounds == old(repairRounds) + 1 && r.value == Feedback(v.failedGates, v.targetedWindows)
      ensures r.Raised? ==> IsRefusal(r.exn, None) && !r.exn.kind.Exit? && repairRounds == old(repairRounds)
    {
      hide RunContext.Tally, PairingOf, RunContext.Ready, SameMarks;
      var wall, now := EnforceWall(ctx, env);
      if wall.Some? {
        SameTally(ctx);
        return Raised(wall.value);
      }
      repairRounds := repairRounds + 1;
      NoteRepair(ctx, Feedback(v.failedGates, v.targetedWindows));
      return Ok(Feedback(v.failedGates, v.targetedWindows));
    }

    /** Record the request for a repair round, and a snapshot of the counters. */
    method NoteRepair(ctx: RunContext, feedback: Feedback)
      requires ctx.Ready()
      modifies ctx.bundle`sequence, ctx.bundle`events, ctx.bundle`issuedIds
      ensures ctx.Ready() && ctx.Tally().repairs == old(ctx.Tally()).repairs + 1
      ensures SameMarks(old(ctx.Tally()).(repairs := ctx.Tally().repairs), ctx.Tally())
      ensures ctx.Tally().lastSampled == old(ctx.Tally()).lastSampled
    {
      hide AuditOf, PairingOf, NextAudit, EvidenceSound, AllFrom, PlainPhase, Agree, Rises;
      KernelPhases();
      var event := ctx.Note("repair.requested", FeedbackPayload(feedback), RepairRequested, Completed);
      AuditRepairs(old(ctx.Tally()), event);
      EmitBudget(ctx);
      SnapshotAgrees(old(ctx.Tally()), ctx.Tally(), ctx.policy, ctx.Counts(), ctx.Counts(), 0, 0);
    }

    /** Capture one complete fixed-rate timeline, `frames`, as uncapped baseline evidence. */
    method PrepareDirectBaseline(ctx: RunContext, env: Environment)
      returns (e: Option<Exn>, ghost frames: seq<ExtractedFrame>, ghost added: seq<Evidence>)
      requires ctx.Ready()
      modifies ctx`evidence, ctx`allocatedIds, ctx`idCounters, ctx`artifactCalls, env`exits
      modifies ctx.bundle`sequence, ctx.bundle`events, ctx.bundle`issuedIds, ctx.bundle`evidenceFiles
      ensures ctx.Ready() && SameMarks(old(ctx.Tally()), ctx.Tally())
      ensures ctx.Tally().lastSampled == old(ctx.Tally()).lastSampled
      ensures env.exits == old(env.exits) + Count(e.Some? && e.value.kind.Exit?)
      ensures ctx.evidence == old(ctx.evidence) + added
      ensures e.Some? ==> e.value == Raise(WallClock) || IsForeign(e.value.kind)
      ensures e.Some? ==> BudgetSpent(ctx, e.value.kind)
      ensures ctx.probe.None? ==> e.Some? && added == []
      ensures ctx.probe.Some? ==> BaselineAdded(ctx, added, frames, ctx.probe.value.durationSeconds, e.None?)
      // The timeline's frames are counted like any others, and nothing caps them.
      ensures e.None? ==>
        && FrameCount(ctx.evidence) == FrameCount(old(ctx.evidence)) + |frames|
        && ctx.Tally().lastBudget == Some(Snapshot(ctx))
    {
      hide RunContext.Tally, PairingOf, PlainPhase, RunContext.Valid, RunContext.Holds, FrameCount, BaselineAdded;
      hide BudgetSpent, RunContext.Ready;
      frames, added := [], [];
      assert ctx.evidence + [] == ctx.evidence;
      SameTally(ctx);
      if ctx.probe.None? {
        ForeignSpends(ctx, RuntimeFailure);
        return Some(Raise(RuntimeFailure)), frames, added;
      }
      NothingAdded(ctx, frames, ctx.probe.value.durationSeconds);
      var now;
      e, now := EnforceWall(ctx, env);
      if e.Some? {
        ForeignSpends(ctx, e.value.kind);
        return;
      }
      ctx.artifactCalls := ctx.artifactCalls + 1;
      var timeline := env.ExtractTimeline();
      if timeline.Raised? {
        ForeignSpends(ctx, timeline.exn.kind);
        return Some(timeline.exn), frames, added;
      }
      frames := timeline.value;
      e, added := DepositBaseline(ctx, env, timeline.value);
      if e.Some? {
        ForeignSpends(ctx, e.value.kind);
        return;
      }
      ConcludeBaseline(ctx);
    }

    /** Complete the baseline's phase and record the frames it added. */
    method ConcludeBaseline(ctx: RunContext)
      requires ctx.Ready()
      modifies ctx.bundle`sequence, ctx.bundle`events, ctx.bundle`issuedIds
      ensures ctx.Ready() && SameMarks(old(ctx.Tally()), ctx.Tally())
      ensures ctx.Tally().lastSampled == old(ctx.Tally()).lastSampled
      ensures ctx.Tally().lastBudget == Some(Snapshot(ctx))
    {
      hide RunContext.Tally, PairingOf, PlainPhase, RunContext.Valid, RunContext.Holds, FrameCount, Agree, Rises;
      KernelPhases();
      CompletePhase(ctx, "prepare_direct_baseline", NoPayload);
      EmitBudget(ctx);
      SnapshotAgrees(old(ctx.Tally()), ctx.Tally(), ctx.policy, ctx.Counts(), ctx.Counts(), 0, 0);
    }

    /** Store the timeline frames, then the registered subtitle if there is one. */
    method DepositBaseline(ctx: RunContext, env: Environment, frames: seq<ExtractedFrame>)
      returns (e: Option<Exn>, ghost added: seq<Evidence>)
      requires ctx.Ready() && ctx.probe.Some?
      modifies ctx`evidence, ctx`allocatedIds, ctx`idCounters
      modifies ctx.bundle`sequence, ctx.bundle`events, ctx.bundle`issuedIds, ctx.bundle`evidenceFiles
      ensures ctx.Ready() && ctx.evidence == old(ctx.evidence) + added
      ensures Deposited(old(ctx.Tally()), ctx.Tally(), |added|) && SameMarks(old(ctx.Tally()), ctx.Tally())
      ensures e.Some? ==> e.value == Raise(ValidationFailure) || e.value == Raise(OtherFailure)
      ensures BaselineAdded(ctx, added, frames, ctx.probe.value.durationSeconds, e.None?)
      ensures e.None? ==> FrameCount(ctx.evidence) == FrameCount(old(ctx.evidence)) + |frames|
    {
      hide RunContext.Tally, PlainPhase, RunContext.Valid, RunContext.Holds, FrameCount, IsBaseline, IsBaselineItem;
      hide Agree;
      ghost var before, duration, counts := ctx.evidence, ctx.probe.value.durationSeconds, ctx.Counts();
      e, added := DepositTimeline(ctx, env, frames);
      if e.None? && HasSubtitle(ctx) {
        ghost var last;
        e, last := DepositSubtitle(ctx, env, frames);
        if e.None? {
          MoreBaseline(added, last, frames, duration);
          assert (before + added) + [last] == before + (added + [last]);
          added := added + [last];
        }
      }
      FrameCountMonotone(before, ctx.evidence);
      StillAgree(old(ctx.Tally()), ctx.Tally(), ctx.policy, counts, ctx.Counts(), 0, 0, 0);
      BaselineFrames(before, added, frames, duration);
    }

    /** Store one frame for each timeline frame, in timeline order, until an exception stops it. */
    method DepositTimeline(ctx: RunContext, env: Environment, frames: seq<ExtractedFrame>)
      returns (e: Option<Exn>, ghost added: seq<Evidence>)
      requires ctx.Valid() && ctx.Tally().spans.Idle? && ctx.probe.Some?
      modifies ctx`evidence, ctx`allocatedIds, ctx`idCounters
      modifies ctx.bundle`sequence, ctx.bundle`events, ctx.bundle`issuedIds, ctx.bundle`evidenceFiles
      ensures ctx.Valid() && ctx.evidence == old(ctx.evidence) + added
      ensures Deposited(old(ctx.Tally()), ctx.Tally(), |added|)
      ensures e.Some? ==> e.value == Raise(ValidationFailure) || e.value == Raise(OtherFailure)
      ensures IsBaseline(added, frames, ctx.probe.value.durationSeconds) && |added| <= |frames|
      ensures e.None? ==> |added| == |frames|
    {
      hide RunContext.Tally, RunContext.Valid, RunContext.Holds, FrameCount, IsBaseline, IsBaselineItem, Deposited;
      ghost var before, duration := ctx.evidence, ctx.probe.value.durationSeconds;
      added := [];
      assert before + added == before;
      NoBaseline(frames, duration);
      DepositedNone(ctx.Tally());
      for k := 0 to |frames|
        invariant ctx.Valid() && ctx.evidence == before + added && |added| == k
        invariant Deposited(old(ctx.Tally()), ctx.Tally(), k) && ctx.Tally().spans.Idle?
        invariant IsBaseline(added, frames, duration)
      {
        ghost var tally := ctx.Tally();
        var frame := Deposit(ctx, env, FramePrefix, frames[k].timestamp, frames[k].timestamp, Frame, None, true,
                             DirectBaseline);
        if frame.Raised? {
          return Some(frame.exn), added;
        }
        DepositedMore(old(ctx.Tally()), tally, ctx.Tally(), k);
        ghost var last := ctx.evidence[|ctx.evidence| - 1];
        FrameIsBaseline(last, frames, k, duration);
        MoreBaseline(added, last, frames, duration);
        assert (before + added) + [last] == before + (added + [last]);
        added := added + [last];
      }
      return None, added;
    }

    /** Store the registered subtitle as one transcript of the whole range. */
    method DepositSubtitle(ctx: RunContext, env: Environment, ghost frames: seq<ExtractedFrame>)
      returns (e: Option<Exn>, ghost last: Evidence)
      requires ctx.Valid() && ctx.Tally().spans.Idle? && ctx.probe.Some?
      modifies ctx`evidence, ctx`allocatedIds, ctx`idCounters
      modifies ctx.bundle`sequence, ctx.bundle`events, ctx.bundle`issuedIds, ctx.bundle`evidenceFiles
      ensures ctx.Valid()
      ensures e.Some? ==>
        && (e.value == Raise(ValidationFailure) || e.value == Raise(OtherFailure))
        && ctx.evidence == old(ctx.evidence) && ctx.Tally() == old(ctx.Tally())
      ensures e.None? ==>
        && ctx.evidence == old(ctx.evidence) + [last] && Deposited(old(ctx.Tally()), ctx.Tally(), 1)
        && IsBaselineItem(last, frames, |frames|, ctx.probe.value.durationSeconds)
        && last.content == ctx.registeredSubtitle
    {
      hide RunContext.Tally, RunContext.Valid, RunContext.Holds, IsBaselineItem, Deposited;
      var stored := Deposit(ctx, env, TranscriptPrefix, 0.0, ctx.probe.value.durationSeconds, Transcript,
                            ctx.registeredSubtitle, false, DirectBaseline);
      last := Evidence("", 0.0, 0.0, Transcript, None, false, DirectBaseline);
      if stored.Raised? {
        return Some(stored.exn), last;
      }
      last := ctx.evidence[|ctx.evidence| - 1];
      SubtitleIsBaseline(last, frames, ctx.probe.value.durationSeconds);
      return None, last;
    }
  }

  lemma FrameIsBaseline(item: Evidence, frames: seq<ExtractedFrame>, k: nat, duration: real)
    requires k < |frames| && item.budgetClass.DirectBaseline? && item.modality.Frame?
    requires item.startSeconds == item.endSeconds == frames[k].timestamp
    ensures IsBaselineItem(item, frames, k, duration)
  {
  }

  lemma SubtitleIsBaseline(item: Evidence, frames: seq<ExtractedFrame>, duration: real)
    requires item.budgetClass.DirectBaseline? && item.modality.Transcript?
    requires item.startSeconds == 0.0 && item.endSeconds == duration
    ensures IsBaselineItem(item, frames, |frames|, duration)
  {
  }

  /** One frame for each timeline frame, at its own time, then a transcript of the whole range. */
  ghost predicate IsBaseline(added: seq<Evidence>, frames: seq<ExtractedFrame>, duration: real) {
    && |added| <= |frames| + 1
    && forall k :: 0 <= k < |added| ==> IsBaselineItem(added[k], frames, k, duration)
  }

  /** What preparing the baseline added: all of it, with a registered subtitle last, when it completed. */
  ghost predicate BaselineAdded(ctx: RunContext, added: seq<Evidence>, frames: seq<ExtractedFrame>, duration: real,
                                complete: bool)
  {
    && IsBaseline(added, frames, duration)
    && (complete ==> |added| == |frames| + Count(HasSubtitle(ctx)))
    && (complete && HasSubtitle(ctx) ==> added[|frames|].content == ctx.registeredSubtitle)
  }

  lemma NothingAdded(ctx: RunContext, frames: seq<ExtractedFrame>, duration: real)
    ensures BaselineAdded(ctx, [], frames, duration, false)
  {
  }

  predicate IsBaselineItem(item: Evidence, frames: seq<ExtractedFrame>, k: nat, duration: real) {
    && item.budgetClass.DirectBaseline?
    && if k < |frames| then
         item.modality.Frame? && item.startSeconds == item.endSeconds == frames[k].timestamp
       else
         item.modality.Transcript? && item.startSeconds == 0.0 && item.endSeconds == duration
  }

  lemma NoBaseline(frames: seq<ExtractedFrame>, duration: real)
    ensures IsBaseline([], frames, duration)
  {
  }

  lemma MoreBaseline(added: seq<Evidence>, item: Evidence, frames: seq<ExtractedFrame>, duration: real)
    requires IsBaseline(added, frames, duration) && |added| <= |frames|
    requires IsBaselineItem(item, frames, |added|, duration)
    ensures IsBaseline(added + [item], frames, duration)
  {
  }

  lemma {:induction false} BaselineFrames(before: seq<Evidence>, added: seq<Evidence>, frames: seq<ExtractedFrame>,
                                          duration: real)
    requires IsBaseline(added, frames, duration)
    ensures FrameCount(before + added) == FrameCount(before) + if |added| <= |frames| then |added| else |frames|
    decreases |added|
  {
    if |added| == 0 {
      assert before + added == before;
    } else {
      var n := |added| - 1;
      assert before + added == (before + added[..n]) + [added[n]];
      FrameCountAppend(before + added[..n], added[n]);
      BaselineFrames(before, added[..n], frames, duration);
    }
  }

  lemma ReadyIsBetween(ctx: RunContext)
    requires ctx.Ready()
    ensures ctx.Between() && ctx.unbuilt == 0
  {
  }

  predicate HasSubtitle(ctx: RunContext) {
    ctx.registeredSubtitle.Some? && ctx.registeredSubtitle.value != ""
  }
}
