/** The three execution policies, and what each guarantees about its own run. */
module Policies {
  import opened Contracts
  import opened Environments
  import opened Kernels
  import opened Ledger
  import opened Plugins
  import opened RunContexts
  import opened Tools
  import opened TraceRecording
  import opened Verifier

  const MAX_TOOL_WINDOWS := 3

  function OrderedWindows(windows: seq<Window>): seq<Window> {
    if |windows| == 0 then []
    else (if windows[0].startSeconds >= 0.0 && windows[0].endSeconds > windows[0].startSeconds then [windows[0]]
          else [])
         + OrderedWindows(windows[1..])
  }

  /** Keep the first three ordered, positive windows. */
  function ValidOnly(windows: seq<Window>): seq<Window> {
    var ordered := OrderedWindows(windows);
    if |ordered| > MAX_TOOL_WINDOWS then ordered[..MAX_TOOL_WINDOWS] else ordered
  }

  lemma {:induction false} OrderedWindowsMembers(windows: seq<Window>, w: Window)
    ensures w in OrderedWindows(windows) <==> w in windows && w.startSeconds >= 0.0 && w.endSeconds > w.startSeconds
  {
    if |windows| > 0 {
      OrderedWindowsMembers(windows[1..], w);
      assert windows == [windows[0]] + windows[1..];
    }
  }

  /** Whatever windows a verifier targets, the sampling tool's schema accepts those that are kept. */
  lemma ValidOnlyAccepted(windows: seq<Window>)
    ensures ValidWindows(ValidOnly(windows))
  {
    forall i | 0 <= i < |ValidOnly(windows)| ensures ValidWindow(ValidOnly(windows)[i]) {
      OrderedWindowsMembers(windows, ValidOnly(windows)[i]);
    }
  }

  /** Evidence as the built-in tools collect it: frames at one instant, transcripts of the whole range. */
  ghost predicate Placed(evidence: seq<Evidence>, duration: real) {
    forall i :: 0 <= i < |evidence| ==>
      || (evidence[i].modality.Frame? && evidence[i].startSeconds == evidence[i].endSeconds)
      || (evidence[i].modality.Transcript? && evidence[i].startSeconds == 0.0 && evidence[i].endSeconds == duration)
  }

  /**
   The windows the verifier targets around escaping built-in evidence are all degenerate or inverted,
   so none survives the filter: a fixed repair round always samples the whole range again.
   */
  lemma RepairNeverTargets(result: AnalysisResult, evidence: seq<Evidence>, duration: real, sections: seq<string>)
    requires Placed(evidence, duration)
    ensures ValidOnly(VerifyClaims(result, evidence, duration, sections).targetedWindows) == []
  {
    var windows := VerifyClaims(result, evidence, duration, sections).targetedWindows;
    if |OrderedWindows(windows)| > 0 {
      var w := OrderedWindows(windows)[0];
      OrderedWindowsMembers(windows, w);
      TargetedWindowsExact(result, evidence, duration, sections, w);
      assert false;
    }
  }

  /** Every sampling call so far was well formed, and asked for at least what the last one left room for. */
  ghost predicate SampledWithin(calls: set<Fingerprint>, remaining: nat, last: Option<nat>) {
    forall f :: f in calls && f.tool == SAMPLE_EVIDENCE ==>
      && f.arguments.SampleArguments? && 1 <= f.arguments.maxFrames <= 96 && ValidWindows(f.arguments.windows)
      && last.Some? && f.arguments.maxFrames >= remaining + last.value
  }

  /** Every sampling call so far covered the whole range, and the last one is on record. */
  ghost predicate SampledWhole(calls: set<Fingerprint>, remaining: nat, last: Option<nat>) {
    && (forall f :: f in calls && f.tool == SAMPLE_EVIDENCE ==>
          f.arguments.SampleArguments? && f.arguments.windows == [])
    && (last.Some? ==> Fingerprint(SAMPLE_EVIDENCE, SampleArguments([], remaining + last.value)) in calls)
  }

  /** One sampling round asks for all the remaining frames, in the surviving windows. */
  function SamplingArguments(remaining: nat, targeted: seq<Window>): RawArguments {
    var windows := ValidOnly(targeted);
    RawArguments(if windows == [] then None else Some(windows), Some(remaining), true, 0)
  }

  /** A whole-range transcription keeps everything the fixed policy relies on. */
  lemma AfterTranscribing(before: seq<Evidence>, after: seq<Evidence>, duration: real, calls: set<Fingerprint>,
                          remaining: nat, last: Option<nat>)
    requires Grew(before, after, TranscribeAudioBody, AudioArguments([]), duration)
    ensures FrameCount(after) == FrameCount(before)
    ensures Placed(before, duration) ==> Placed(after, duration)
    ensures SampledWithin(calls, remaining, last) ==>
      SampledWithin(calls + {Fingerprint(TRANSCRIBE_AUDIO, AudioArguments([]))}, remaining, last)
    ensures SampledWhole(calls, remaining, last) ==>
      SampledWhole(calls + {Fingerprint(TRANSCRIBE_AUDIO, AudioArguments([]))}, remaining, last)
  {
    assert |SAMPLE_EVIDENCE| == 15 && |TRANSCRIBE_AUDIO| == 16;
    if Placed(before, duration) {
      forall i | 0 <= i < |after|
        ensures (after[i].modality.Frame? && after[i].startSeconds == after[i].endSeconds)
          || (after[i].modality.Transcript? && after[i].startSeconds == 0.0 && after[i].endSeconds == duration)
      {
        if i < |before| { assert after[i] == before[i]; }
      }
    }
  }

  /** A completed sampling round leaves room for exactly the frames it did not add. */
  lemma AfterSampling(before: seq<Evidence>, after: seq<Evidence>, duration: real, calls: set<Fingerprint>,
                      windows: seq<Window>, remaining: nat, left: nat, last: Option<nat>)
    requires Grew(before, after, SampleEvidenceBody, SampleArguments(windows, remaining), duration)
    requires |after| - |before| <= remaining && left == remaining - (|after| - |before|)
    requires 1 <= remaining <= 96 && ValidWindows(windows)
    requires SampledWithin(calls, remaining, last)
    ensures SampledWithin(calls + {Fingerprint(SAMPLE_EVIDENCE, SampleArguments(windows, remaining))}, left,
                          Some(|after| - |before|))
    ensures Placed(before, duration) ==> Placed(after, duration)
    ensures windows == [] && SampledWhole(calls, remaining, last) ==>
      SampledWhole(calls + {Fingerprint(SAMPLE_EVIDENCE, SampleArguments(windows, remaining))}, left,
                   Some(|after| - |before|))
  {
    if Placed(before, duration) {
      forall i | 0 <= i < |after|
        ensures (after[i].modality.Frame? && after[i].startSeconds == after[i].endSeconds)
          || (after[i].modality.Transcript? && after[i].startSeconds == 0.0 && after[i].endSeconds == duration)
      {
        if i < |before| { assert after[i] == before[i]; }
      }
    }
  }

  lemma SamplingAccepted(remaining: nat, targeted: seq<Window>)
    requires 1 <= remaining <= 96
    ensures Validate(SampleEvidenceBody, SamplingArguments(remaining, targeted))
         == Some(SampleArguments(ValidOnly(targeted), remaining))
  {
    ValidOnlyAccepted(targeted);
  }

  /** An exact repetition of a sampling call means the last round added nothing, and the reverse. */
  lemma RepetitionMeansNoFrames(calls: set<Fingerprint>, windows: seq<Window>, remaining: nat, last: Option<nat>)
    requires SampledWithin(calls, remaining, last)
    ensures Fingerprint(SAMPLE_EVIDENCE, SampleArguments(windows, remaining)) in calls ==> last == Some(0)
    ensures SampledWhole(calls, remaining, last) && last == Some(0) ==>
      Fingerprint(SAMPLE_EVIDENCE, SampleArguments([], remaining)) in calls
  {
  }

  lemma SamplingCountsFrames(before: seq<Evidence>, after: seq<Evidence>, arguments: ToolArguments, duration: real)
    requires Grew(before, after, SampleEvidenceBody, arguments, duration)
    ensures FrameCount(after) == FrameCount(before) + |after| - |before|
  {
  }

  /**
   Every sampling call asks for 1 to 96 frames in at most three ordered windows, and for a video
   analysis it asks for no window at all.
   */
  ghost predicate WellFormedCalls(calls: set<Fingerprint>, video: bool) {
    forall f :: f in calls && f.tool == SAMPLE_EVIDENCE ==>
      && f.arguments.SampleArguments? && 1 <= f.arguments.maxFrames <= 96 && ValidWindows(f.arguments.windows)
      && (video ==> f.arguments.windows == [])
  }

  /** Every sampling call asked only for windows inside the media. */
  ghost predicate CallsInside(calls: set<Fingerprint>, duration: real) {
    forall f :: f in calls && f.tool == SAMPLE_EVIDENCE ==>
      f.arguments.SampleArguments? && WithinDuration(f.arguments.windows, duration)
  }

  /** The built-in tools found that a requested window leaves the media. */
  predicate IsEscape(e: Option<Exn>) {
    e.Some? && e.value.kind.WindowEscapes?
  }

  /** Everything the fixed policy keeps track of, as values. */
  datatype SamplingState = SamplingState(
    evidence: seq<Evidence>,
    calls: set<Fingerprint>,
    remaining: nat,
    last: Option<nat>)
  {
    ghost predicate Sound(cap: nat, duration: real, video: bool) {
      && FrameCount(evidence) <= cap && remaining == cap - FrameCount(evidence)
      && SampledWithin(calls, remaining, last) && CallsInside(calls, duration)
      && (video ==> Placed(evidence, duration) && SampledWhole(calls, remaining, last))
    }
  }

  /** Kinds that would betray a badly built call, or frames gathered past the cap. */
  predicate IsBadCall(kind: Kind) {
    kind.UnknownTool? || kind.InvalidArguments? || kind.FrameOverflow?
  }

  /** How a repetition is refused: as a duplicate, unless a budget refuses the round first. */
  predicate IsStop(kind: Kind) {
    kind.DuplicateCall? || kind.IsBudget() || kind.RuntimeFailure?
  }

  /**
   What a sampling round of the fixed policy over some kept windows may do to that state, and how it
   may fail. An admitted call escapes exactly when a window leaves the media.
   */
  ghost predicate SampleResult(before: SamplingState, after: SamplingState, cap: nat, duration: real,
                               windows: seq<Window>, video: bool, e: Option<Exn>)
  {
    && FrameCount(after.evidence) <= cap
    && (e.None? ==> after.Sound(cap, duration, video))
    && (e.Some? ==> !IsBadCall(e.value.kind))
    && WellFormedCalls(after.calls, video)
    && (if after.calls == before.calls then !IsEscape(e)
        else IsEscape(e) <==> !WithinDuration(windows, duration))
    && (!IsEscape(e) ==> CallsInside(after.calls, duration))
    && (video ==> windows == [])
    && (e == Some(Raise(DuplicateCall)) ==> before.last == Some(0) && after.last == before.last)
    && (video && before.last == Some(0) ==> e.Some? && after.calls == before.calls && IsStop(e.value.kind))
  }

  lemma AdmittedSampling(before: SamplingState, after: SamplingState, cap: nat, duration: real, video: bool,
                         windows: seq<Window>, t: CallTrace, u: CallTrace, r: Outcome<ToolResult>)
    requires before.Sound(cap, duration, video) && 1 <= before.remaining <= 96 && ValidWindows(windows)
    requires video ==> windows == []
    requires Fingerprint(SAMPLE_EVIDENCE, SampleArguments(windows, before.remaining)) !in before.calls
    requires CallRan(SAMPLE_EVIDENCE, SampleEvidenceBody, SampleArguments(windows, before.remaining), cap, duration,
                     t, u, r)
    requires t.evidence == before.evidence && t.lastSampled == before.last
    requires u.evidence == after.evidence && u.lastSampled == after.last
    requires after.calls == before.calls + {Fingerprint(SAMPLE_EVIDENCE, SampleArguments(windows, before.remaining))}
    requires after.remaining == if FrameCount(after.evidence) >= cap then 0 else cap - FrameCount(after.evidence)
    ensures SampleResult(before, after, cap, duration, windows, video, if r.Raised? then Some(r.exn) else None)
  {
    SamplingCountsFrames(before.evidence, after.evidence, SampleArguments(windows, before.remaining), duration);
    AfterSampling(before.evidence, after.evidence, duration, before.calls, windows, before.remaining, after.remaining,
                  before.last);
    RepetitionMeansNoFrames(before.calls, windows, before.remaining, before.last);
  }

  lemma RefusedSampling(before: SamplingState, after: SamplingState, cap: nat, duration: real, video: bool,
                        windows: seq<Window>, exn: Exn, cause: Option<Kind>)
    requires before.Sound(cap, duration, video) && after == before && (video ==> windows == [])
    requires IsRefusal(exn, cause)
    requires cause.Some? ==>
      || cause == Some(ToolCallBudget)
      || (cause == Some(DuplicateCall)
          && Fingerprint(SAMPLE_EVIDENCE, SampleArguments(windows, before.remaining)) in before.calls)
    ensures SampleResult(before, after, cap, duration, windows, video, Some(exn))
  {
    RepetitionMeansNoFrames(before.calls, windows, before.remaining, before.last);
  }

  ghost function StateOf(kernel: HarnessKernel, ctx: RunContext): SamplingState
    reads ctx`evidence, ctx`callFingerprints, ctx.bundle
  {
    SamplingState(ctx.evidence, ctx.callFingerprints, kernel.RemainingFrames(ctx), ctx.Tally().lastSampled)
  }

  /** What the fixed policy maintains with the default plugins. */
  ghost predicate FixedSound(kernel: HarnessKernel, ctx: RunContext)
    requires ctx.probe.Some?
    reads ctx`evidence, ctx`callFingerprints, ctx`probe, ctx.bundle
  {
    HasBuiltins(kernel.plugins) ==>
      StateOf(kernel, ctx).Sound(ctx.policy.maxEvidenceFrames, ctx.probe.value.durationSeconds,
                                 ctx.adapter.VideoAnalysis?)
  }

  /** The windows of a repair round: any with the default tools, none after a video verdict. */
  ghost predicate TargetsOf(kernel: HarnessKernel, ctx: RunContext, targeted: seq<Window>) {
    HasBuiltins(kernel.plugins) && ctx.adapter.VideoAnalysis? ==> ValidOnly(targeted) == []
  }

  /** Only the tool budget, or an exact repetition, makes the kernel refuse a sampling call. */
  lemma SamplingAdmission(kernel: HarnessKernel, ctx: RunContext, remaining: nat, targeted: seq<Window>)
    requires HasBuiltins(kernel.plugins) && 1 <= remaining <= 96
    ensures
      var cause := kernel.Admission(ctx, SAMPLE_EVIDENCE, SamplingArguments(remaining, targeted));
      var repeated :=
        Fingerprint(SAMPLE_EVIDENCE, SampleArguments(ValidOnly(targeted), remaining)) in ctx.callFingerprints;
      && (cause.Some? ==> cause == Some(ToolCallBudget) || (cause == Some(DuplicateCall) && repeated))
      && (repeated ==> cause.Some?)
  {
    SamplingAccepted(remaining, targeted);
  }

  /** Sample the remaining frames inside the surviving windows. */
  method Sample(kernel: HarnessKernel, ctx: RunContext, env: Environment, targeted: seq<Window>)
    returns (e: Option<Exn>)
    requires ctx.Ready() && ctx.policy.Valid() && ctx.probe.Some? && FixedSound(kernel, ctx)
    requires TargetsOf(kernel, ctx, targeted)
    requires 1 <= kernel.RemainingFrames(ctx)
    modifies ctx`evidence, ctx`allocatedIds, ctx`idCounters, ctx`toolCalls, ctx`callFingerprints, ctx`toolResults
    modifies ctx`artifactCalls, env`exits
    modifies ctx.trace`origin, ctx.trace`now, ctx.trace`finished
    modifies ctx.bundle`sequence, ctx.bundle`events, ctx.bundle`issuedIds, ctx.bundle`evidenceFiles
    ensures ctx.Ready() && SameMarks(old(ctx.Tally()), ctx.Tally()) && old(ctx.evidence) <= ctx.evidence
    ensures env.exits == old(env.exits) + Count(e.Some? && e.value.kind.Exit?)
    ensures e.Some? ==> BudgetSpent(ctx, e.value.kind)
    ensures e.None? ==> ctx.toolCalls == old(ctx.toolCalls) + 1
    ensures HasBuiltins(kernel.plugins) ==>
      SampleResult(old(StateOf(kernel, ctx)), StateOf(kernel, ctx), ctx.policy.maxEvidenceFrames,
                   ctx.probe.value.durationSeconds, ValidOnly(targeted), ctx.adapter.VideoAnalysis?, e)
  {
    hide RunContext.Tally, RunContext.Ready, SameMarks, Validate, ValidWindows, ToolByName, ValidOnly, BudgetSpent;
    hide SamplingArguments, PlainPhase, HarnessKernel.Admission, IsRefusal, CallRan, SampleResult;
    hide SamplingState.Sound, FrameCount;
    ghost var before, before' := StateOf(kernel, ctx), TraceOf(ctx);
    var remaining := kernel.RemainingFrames(ctx);
    var raw := SamplingArguments(remaining, targeted);
    ghost var windows := ValidOnly(targeted);
    ghost var cause := kernel.Admission(ctx, SAMPLE_EVIDENCE, raw);
    if HasBuiltins(kernel.plugins) {
      SamplingAccepted(remaining, targeted);
      ValidOnlyAccepted(targeted);
      SamplingAdmission(kernel, ctx, remaining, targeted);
    }
    KernelPhases();
    var r := kernel.RunTool(ctx, env, SAMPLE_EVIDENCE, raw);
    e := if r.Raised? then Some(r.exn) else None;
    if HasBuiltins(kernel.plugins) {
      ghost var after := StateOf(kernel, ctx);
      ghost var duration := ctx.probe.value.durationSeconds;
      if ctx.toolCalls == old(ctx.toolCalls) {
        RefusedSampling(before, after, ctx.policy.maxEvidenceFrames, duration, ctx.adapter.VideoAnalysis?, windows,
                        r.exn, cause);
      } else {
        AdmittedSampling(before, after, ctx.policy.maxEvidenceFrames, duration, ctx.adapter.VideoAnalysis?, windows,
                         before', TraceOf(ctx), r);
      }
    }
  }

  /** No frame was added, and nothing but transcripts of the whole range. */
  ghost predicate OnlyTranscripts(before: seq<Evidence>, after: seq<Evidence>, duration: real) {
    && before <= after && FrameCount(after) == FrameCount(before)
    && forall i :: |before| <= i < |after| ==>
         after[i].modality.Transcript? && after[i].startSeconds == 0.0 && after[i].endSeconds == duration
  }

  lemma OnlyNothing(evidence: seq<Evidence>, duration: real)
    ensures OnlyTranscripts(evidence, evidence, duration)
  {
  }

  /** The built-in transcription of the whole range, as the fixed policy calls it. */
  lemma AdmittedTranscription(before: SamplingState, after: SamplingState, cap: nat, duration: real, video: bool,
                              t: CallTrace, u: CallTrace, r: Outcome<ToolResult>)
    requires before.Sound(cap, duration, video) && before.last.None?
    requires CallRan(TRANSCRIBE_AUDIO, TranscribeAudioBody, AudioArguments([]), cap, duration, t, u, r)
    requires t.evidence == before.evidence && t.lastSampled == before.last
    requires u.evidence == after.evidence && u.lastSampled == after.last
    requires after.calls == before.calls + {Fingerprint(TRANSCRIBE_AUDIO, AudioArguments([]))}
    requires after.remaining == if FrameCount(after.evidence) >= cap then 0 else cap - FrameCount(after.evidence)
    ensures r.Ok? ==> after.Sound(cap, duration, video) && after.last.None?
    ensures r.Raised? ==> SampleResult(before, after, cap, duration, [], video, Some(r.exn))
    ensures OnlyTranscripts(before.evidence, after.evidence, duration)
  {
    AfterTranscribing(before.evidence, after.evidence, duration, before.calls, before.remaining, before.last);
    assert |SAMPLE_EVIDENCE| == 15 && |TRANSCRIBE_AUDIO| == 16;
  }

  lemma TranscriptionAdmission(kernel: HarnessKernel, ctx: RunContext)
    requires HasBuiltins(kernel.plugins) && ctx.callFingerprints == {}
    ensures Validate(TranscribeAudioBody, NO_ARGUMENTS) == Some(AudioArguments([]))
    ensures kernel.Admission(ctx, TRANSCRIBE_AUDIO, NO_ARGUMENTS).Some? ==>
      kernel.Admission(ctx, TRANSCRIBE_AUDIO, NO_ARGUMENTS) == Some(ToolCallBudget)
  {
  }

  lemma RefusalIsNoResult(before: SamplingState, after: SamplingState, cap: nat, duration: real,
                          windows: seq<Window>, video: bool, exn: Exn, cause: Option<Kind>)
    requires before.Sound(cap, duration, video) && after == before && (video ==> windows == [])
    requires IsRefusal(exn, cause)
    requires cause.Some? ==> cause.value.ToolCallBudget? || cause.value.IterationBudget? || cause.value.FrameHeadroom?
    ensures SampleResult(before, after, cap, duration, windows, video, Some(exn))
  {
  }

  /** Transcribe the whole range before anything else was called. */
  method Transcribe(kernel: HarnessKernel, ctx: RunContext, env: Environment) returns (e: Option<Exn>)
    requires ctx.Ready() && ctx.policy.Valid() && ctx.probe.Some? && FixedSound(kernel, ctx)
    requires ctx.callFingerprints == {} && ctx.Tally().lastSampled.None?
    modifies ctx`evidence, ctx`allocatedIds, ctx`idCounters, ctx`toolCalls, ctx`callFingerprints, ctx`toolResults
    modifies ctx`artifactCalls, env`exits
    modifies ctx.trace`origin, ctx.trace`now, ctx.trace`finished
    modifies ctx.bundle`sequence, ctx.bundle`events, ctx.bundle`issuedIds, ctx.bundle`evidenceFiles
    ensures ctx.Ready() && SameMarks(old(ctx.Tally()), ctx.Tally()) && old(ctx.evidence) <= ctx.evidence
    ensures env.exits == old(env.exits) + Count(e.Some? && e.value.kind.Exit?)
    ensures e.Some? ==> BudgetSpent(ctx, e.value.kind)
    ensures e.None? ==> ctx.toolCalls == old(ctx.toolCalls) + 1
    ensures HasBuiltins(kernel.plugins) ==>
      if e.None? then FixedSound(kernel, ctx) && ctx.Tally().lastSampled.None?
      else SampleResult(old(StateOf(kernel, ctx)), StateOf(kernel, ctx), ctx.policy.maxEvidenceFrames,
                        ctx.probe.value.durationSeconds, [], ctx.adapter.VideoAnalysis?, e)
    ensures HasBuiltins(kernel.plugins) ==>
      OnlyTranscripts(old(ctx.evidence), ctx.evidence, ctx.probe.value.durationSeconds)
  {
    hide RunContext.Tally, RunContext.Ready, SameMarks, Validate, ToolByName, BudgetSpent, HarnessKernel.Admission;
    hide PlainPhase, IsRefusal, CallRan, SampleResult, SamplingState.Sound, FrameCount, OnlyTranscripts;
    ghost var before, before' := StateOf(kernel, ctx), TraceOf(ctx);
    ghost var cause := kernel.Admission(ctx, TRANSCRIBE_AUDIO, NO_ARGUMENTS);
    if HasBuiltins(kernel.plugins) {
      TranscriptionAdmission(kernel, ctx);
    }
    KernelPhases();
    var r := kernel.RunTool(ctx, env, TRANSCRIBE_AUDIO, NO_ARGUMENTS);
    e := if r.Raised? then Some(r.exn) else None;
    if HasBuiltins(kernel.plugins) {
      ghost var after := StateOf(kernel, ctx);
      ghost var duration := ctx.probe.value.durationSeconds;
      if ctx.toolCalls == old(ctx.toolCalls) {
        OnlyNothing(ctx.evidence, duration);
        RefusalIsNoResult(before, after, ctx.policy.maxEvidenceFrames, duration, [], ctx.adapter.VideoAnalysis?, r.exn,
                          cause);
      } else {
        AdmittedTranscription(before, after, ctx.policy.maxEvidenceFrames, duration, ctx.adapter.VideoAnalysis?,
                              before', TraceOf(ctx), r);
      }
    }
  }

  /**
   A result depends on its starting state only through the last sampling round and the calls made;
   a first round, which requests the whole range, may have made others before.
   */
  lemma SameLast(a: SamplingState, b: SamplingState, after: SamplingState, cap: nat, duration: real,
                 windows: seq<Window>, video: bool, e: Option<Exn>)
    requires SampleResult(a, after, cap, duration, windows, video, e) && a.last == b.last
    requires a.calls == b.calls || (windows == [] && b.last.None?)
    ensures SampleResult(b, after, cap, duration, windows, video, e)
  {
  }

  lemma ResultSound(before: SamplingState, after: SamplingState, cap: nat, duration: real, windows: seq<Window>,
                    video: bool)
    requires SampleResult(before, after, cap, duration, windows, video, None)
    ensures after.Sound(cap, duration, video)
  {
  }

  /** Sample frames, unless the frame cap or the wall clock forbids it. */
  method AcquireFrames(kernel: HarnessKernel, ctx: RunContext, env: Environment, targeted: seq<Window>)
    returns (e: Option<Exn>)
    requires ctx.Ready() && ctx.policy.Valid() && ctx.probe.Some? && FixedSound(kernel, ctx)
    requires TargetsOf(kernel, ctx, targeted)
    modifies ctx`evidence, ctx`allocatedIds, ctx`idCounters, ctx`toolCalls, ctx`callFingerprints, ctx`toolResults
    modifies ctx`artifactCalls, env`exits
    modifies ctx.trace`origin, ctx.trace`now, ctx.trace`finished
    modifies ctx.bundle`sequence, ctx.bundle`events, ctx.bundle`issuedIds, ctx.bundle`evidenceFiles
    ensures ctx.Ready() && SameMarks(old(ctx.Tally()), ctx.Tally()) && old(ctx.evidence) <= ctx.evidence
    ensures env.exits == old(env.exits) + Count(e.Some? && e.value.kind.Exit?)
    ensures e.Some? ==> BudgetSpent(ctx, e.value.kind)
    ensures e.None? ==> ctx.toolCalls == old(ctx.toolCalls) + 1 && FixedSound(kernel, ctx)
    ensures HasBuiltins(kernel.plugins) ==>
      SampleResult(old(StateOf(kernel, ctx)), StateOf(kernel, ctx), ctx.policy.maxEvidenceFrames,
                   ctx.probe.value.durationSeconds, ValidOnly(targeted), ctx.adapter.VideoAnalysis?, e)
  {
    hide RunContext.Tally, RunContext.Ready, IsRefusal, SampleResult, SamplingState.Sound, FrameCount, BudgetSpent;
    hide HasBuiltins, TargetsOf, HarnessKernel.RemainingFrames, HarnessKernel.Admission;
    ghost var before, cap := StateOf(kernel, ctx), ctx.policy.maxEvidenceFrames;
    ghost var duration, video := ctx.probe.value.durationSeconds, ctx.adapter.VideoAnalysis?;
    ghost var windows := ValidOnly(targeted);
    TargetsKept(kernel, ctx, targeted);
    var now;
    e, now := kernel.EnsureFrameHeadroom(ctx, env);
    if e.Some? {
      if HasBuiltins(kernel.plugins) {
        RefusalIsNoResult(before, StateOf(kernel, ctx), cap, duration, windows, video, e.value, Some(FrameHeadroom));
      }
      return;
    }
    HeadroomLeft(kernel, ctx);
    e := Sample(kernel, ctx, env, targeted);
    if HasBuiltins(kernel.plugins) && e.None? {
      ResultSound(before, StateOf(kernel, ctx), cap, duration, windows, video);
    }
  }

  lemma TargetsKept(kernel: HarnessKernel, ctx: RunContext, targeted: seq<Window>)
    requires TargetsOf(kernel, ctx, targeted)
    ensures HasBuiltins(kernel.plugins) && ctx.adapter.VideoAnalysis? ==> ValidOnly(targeted) == []
    ensures targeted == [] ==> ValidOnly(targeted) == []
  {
  }

  lemma HeadroomLeft(kernel: HarnessKernel, ctx: RunContext)
    requires FrameCount(ctx.evidence) < ctx.policy.maxEvidenceFrames
    ensures 1 <= kernel.RemainingFrames(ctx)
  {
  }

  /** One acquisition iteration; repair rounds sample frames only. */
  method Gather(kernel: HarnessKernel, ctx: RunContext, env: Environment, targeted: seq<Window>, repairRound: bool)
    returns (e: Option<Exn>)
    requires ctx.Ready() && ctx.policy.Valid() && ctx.probe.Some? && FixedSound(kernel, ctx)
    requires TargetsOf(kernel, ctx, targeted)
    requires !repairRound ==> ctx.callFingerprints == {} && ctx.Tally().lastSampled.None? && targeted == []
    modifies ctx`evidence, ctx`allocatedIds, ctx`idCounters, ctx`toolCalls, ctx`callFingerprints, ctx`toolResults
    modifies ctx`artifactCalls, ctx`iterations, env`exits
    modifies ctx.trace`origin, ctx.trace`now, ctx.trace`finished
    modifies ctx.bundle`sequence, ctx.bundle`events, ctx.bundle`issuedIds, ctx.bundle`evidenceFiles
    ensures ctx.Ready() && SameMarks(old(ctx.Tally()), ctx.Tally()) && old(ctx.evidence) <= ctx.evidence
    ensures env.exits == old(env.exits) + Count(e.Some? && e.value.kind.Exit?)
    ensures e.Some? ==> BudgetSpent(ctx, e.value.kind)
    ensures e.None? ==> FixedSound(kernel, ctx)
    ensures e.None? ==> ctx.iterations == old(ctx.iterations) + 1
    ensures e.None? ==> ctx.toolCalls == old(ctx.toolCalls) + 1 + Count(!repairRound && ctx.probe.value.hasAudio)
    ensures HasBuiltins(kernel.plugins) ==>
      SampleResult(old(StateOf(kernel, ctx)), StateOf(kernel, ctx), ctx.policy.maxEvidenceFrames,
                   ctx.probe.value.durationSeconds, ValidOnly(targeted), ctx.adapter.VideoAnalysis?, e)
  {
    hide RunContext.Tally, RunContext.Ready, IsRefusal, SampleResult, SamplingState.Sound, FrameCount, BudgetSpent;
    hide HasBuiltins, TargetsOf, HarnessKernel.RemainingFrames, HarnessKernel.Admission;
    ghost var before := StateOf(kernel, ctx);
    ghost var cap, duration := ctx.policy.maxEvidenceFrames, ctx.probe.value.durationSeconds;
    ghost var video, windows := ctx.adapter.VideoAnalysis?, ValidOnly(targeted);
    TargetsKept(kernel, ctx, targeted);
    var now;
    e, now := kernel.RecordIteration(ctx, env);
    if e.Some? {
      if HasBuiltins(kernel.plugins) {
        RefusalIsNoResult(before, StateOf(kernel, ctx), cap, duration, windows, video, e.value, Some(IterationBudget));
      }
      return;
    }
    if !repairRound && ctx.probe.value.hasAudio {
      e := Transcribe(kernel, ctx, env);
      if e.Some? {
        return;
      }
    }
    ghost var middle := StateOf(kernel, ctx);
    e := AcquireFrames(kernel, ctx, env, targeted);
    if HasBuiltins(kernel.plugins) {
      SameLast(middle, before, StateOf(kernel, ctx), cap, duration, windows, video, e);
    }
  }

  /** The output on record was checked, with this verdict, against the evidence on record. */
  ghost predicate Judged(ctx: RunContext, passed: bool)
    reads ctx`probe, ctx`output, ctx`verification, ctx`evidence, ctx.bundle
  {
    && ctx.probe.Some? && ctx.output.Some? && ctx.verification.Some?
    && ctx.adapter.Verify(ctx.output.value, ctx.evidence, ctx.probe.value) == Verdict(ctx.verification.value)
    && ctx.verification.value.passed == passed
    && ctx.Tally().lastVerdict == Some(passed)
  }

  /** The terminal state a policy sets says what happened. */
  ghost predicate Truthful(ctx: RunContext)
    reads ctx`probe, ctx`output, ctx`verification, ctx`evidence, ctx`terminalState, ctx`modelCalls, ctx.bundle
  {
    match ctx.terminalState
    case Some(Succeeded) => Judged(ctx, true)
    case Some(Partial) => Judged(ctx, false)
    case Some(NoOp) => ctx.evidence == [] && ctx.modelCalls == 0 && ctx.output.None?
    case _ => false
  }

  /** What every policy guarantees about its own execution, however it ends. */
  ghost predicate Bounded(kernel: HarnessKernel, ctx: RunContext)
    reads kernel`repairRounds, ctx.bundle
  {
    && kernel.repairRounds <= MAX_REPAIR_ROUNDS
    && ctx.Tally().repairs == kernel.repairRounds
  }

  function DurationOf(ctx: RunContext): real
    reads ctx`probe
  {
    if ctx.probe.Some? then ctx.probe.value.durationSeconds else 0.0
  }

  /** What the built-in tools guarantee about a whole fixed run, however it ends. */
  ghost predicate FixedOutcome(state: SamplingState, cap: nat, duration: real, video: bool, e: Option<Exn>) {
    && FrameCount(state.evidence) <= cap
    && WellFormedCalls(state.calls, video)
    && (e.Some? ==> !IsBadCall(e.value.kind) && (video ==> !IsEscape(e)))
    && (!IsEscape(e) ==> CallsInside(state.calls, duration))
    && (e == Some(Raise(DuplicateCall)) ==> state.last == Some(0))
  }

  /** Exceptions that say nothing about how calls were built. */
  predicate IsBenign(kind: Kind) {
    !IsBadCall(kind) && !kind.WindowEscapes? && !kind.DuplicateCall?
  }

  lemma SampleOutcome(before: SamplingState, after: SamplingState, cap: nat, duration: real, windows: seq<Window>,
                      video: bool, e: Option<Exn>)
    requires SampleResult(before, after, cap, duration, windows, video, e)
    ensures FixedOutcome(after, cap, duration, video, e)
    ensures IsEscape(e) ==> !WithinDuration(windows, duration)
  {
  }

  lemma SoundOutcome(state: SamplingState, cap: nat, duration: real, video: bool, e: Option<Exn>)
    requires state.Sound(cap, duration, video) && (e.Some? ==> IsBenign(e.value.kind))
    ensures FixedOutcome(state, cap, duration, video, e)
  {
  }

  lemma EmptySound(kernel: HarnessKernel, ctx: RunContext, duration: real, video: bool)
    requires ctx.evidence == [] && ctx.callFingerprints == {} && ctx.Tally().lastSampled.None?
    ensures StateOf(kernel, ctx).Sound(ctx.policy.maxEvidenceFrames, duration, video)
  {
  }

  /** A run ends as partial only when its repair rounds or its iterations are used up. */
  ghost predicate OnlyWhenExhausted(kernel: HarnessKernel, ctx: RunContext, state: Option<TerminalState>)
    reads ctx`iterations, kernel`repairRounds
  {
    state == Some(Partial) ==> !kernel.RepairAvailable(ctx)
  }

  /** Verify the output on record; then succeed, stop short, or record one repair round. */
  method JudgeOrRepair(kernel: HarnessKernel, ctx: RunContext, env: Environment) returns (r: Outcome<Option<Feedback>>)
    requires ctx.Ready() && Bounded(kernel, ctx) && ctx.terminalState.None?
    modifies kernel`repairRounds, ctx`verification, ctx`terminalState
    modifies ctx.bundle`sequence, ctx.bundle`events, ctx.bundle`issuedIds
    ensures ctx.Ready() && Bounded(kernel, ctx)
    ensures ctx.Tally().formatErrors == old(ctx.Tally()).formatErrors
    ensures ctx.Tally().lastSampled == old(ctx.Tally()).lastSampled
    ensures r.Raised? ==>
      ctx.terminalState.None? && IsBenign(r.exn.kind) && r.exn.kind.IsOrdinary() && BudgetSpent(ctx, r.exn.kind)
    ensures r.Ok? && r.value.None? ==> Truthful(ctx) && ctx.terminalState.Some? && !ctx.terminalState.value.NoOp?
    // The run stops short only when no repair is left.
    ensures r.Ok? && r.value.None? ==>
      kernel.repairRounds == old(kernel.repairRounds) && OnlyWhenExhausted(kernel, ctx, ctx.terminalState)
    // One more round was due: the verdict was negative and its feedback is what the caller gets.
    ensures r.Ok? && r.value.Some? ==>
      && ctx.terminalState.None? && kernel.repairRounds == old(kernel.repairRounds) + 1
      && old(kernel.RepairAvailable(ctx)) && Judged(ctx, false)
      && RepairsVerdict(ctx, r.value.value.targetedWindows)
      && r.value.value == Feedback(ctx.verification.value.failedGates, ctx.verification.value.targetedWindows)
  {
    hide RunContext.Tally, RunContext.Ready, VerifyClaims;
    var verdict := kernel.Verify(ctx);
    if verdict.Raised? {
      ForeignSpends(ctx, verdict.exn.kind);
      return Raised(verdict.exn);
    }
    if verdict.value.passed {
      ctx.terminalState := Some(Succeeded);
      return Ok(None);
    }
    if !kernel.RepairAvailable(ctx) {
      ctx.terminalState := Some(Partial);
      return Ok(None);
    }
    var repair := kernel.RecordRepair(ctx, env, verdict.value);
    if repair.Raised? {
      return Raised(repair.exn);
    }
    return Ok(Some(repair.value));
  }

  /** A negative video verdict over built-in evidence targets nothing. */
  lemma RepairTargets(kernel: HarnessKernel, ctx: RunContext)
    requires Judged(ctx, false) && FixedSound(kernel, ctx)
    ensures TargetsOf(kernel, ctx, ctx.verification.value.targetedWindows)
  {
    if HasBuiltins(kernel.plugins) && ctx.adapter.VideoAnalysis? {
      RepairNeverTargets(ctx.output.value.result, ctx.evidence, ctx.probe.value.durationSeconds,
                         ctx.adapter.requiredSections);
    }
  }

  /** The counters a fixed run keeps between rounds. */
  ghost predicate RoundReady(kernel: HarnessKernel, ctx: RunContext)
    reads ctx`probe, ctx`terminalState, ctx`evidence, ctx`callFingerprints, ctx`modelCalls, ctx`output, ctx.bundle
    reads kernel`repairRounds
  {
    && Bounded(kernel, ctx) && ctx.Tally().formatErrors == 0
    && ctx.probe.Some? && ctx.terminalState.None? && FixedSound(kernel, ctx)
    && (ctx.modelCalls > 0 ==> ctx.evidence != [])
    && (ctx.output.Some? ==> ctx.modelCalls > 0)
  }

  /** Ask the model for an output from the evidence gathered; without evidence the run ends as a no-op. */
  method SynthesizeRound(kernel: HarnessKernel, ctx: RunContext, env: Environment) returns (e: Option<Exn>)
    requires ctx.Ready() && RoundReady(kernel, ctx)
    modifies ctx`terminalState, ctx`modelCalls, ctx`output, env`exits, env`modelInvocations
    modifies ctx.trace`origin, ctx.trace`now, ctx.trace`finished
    modifies ctx.bundle`sequence, ctx.bundle`events, ctx.bundle`issuedIds
    ensures ctx.Ready() && Bounded(kernel, ctx) && ctx.Tally().formatErrors == 0
    ensures env.exits == old(env.exits) + Count(e.Some? && e.value.kind.Exit?)
    ensures e.Some? ==> BudgetSpent(ctx, e.value.kind) && ctx.terminalState.None? && !IsEscape(e)
    ensures ctx.modelCalls - old(ctx.modelCalls) == env.modelInvocations - old(env.modelInvocations)
    ensures e.None? ==> ctx.modelCalls == old(ctx.modelCalls) + Count(ctx.terminalState.None?)
    ensures e.None? && ctx.terminalState.None? ==> RoundReady(kernel, ctx)
    ensures ctx.terminalState.Some? ==> Truthful(ctx) && ctx.terminalState.value.NoOp?
    ensures HasBuiltins(kernel.plugins) ==>
      FixedOutcome(StateOf(kernel, ctx), ctx.policy.maxEvidenceFrames, DurationOf(ctx), ctx.adapter.VideoAnalysis?, e)
  {
    hide RunContext.Tally, RunContext.Ready, SamplingState.Sound, FixedOutcome, HasBuiltins, FrameCount, IsRefusal;
    hide IsForeign, IsBenign, HarnessKernel.RemainingFrames, Truthful, BudgetSpent, HarnessKernel.ModelRefusal;
    hide IsEscape;
    var now;
    e, now := kernel.Synthesize(ctx, env);
    SynthesisIsBenign(e);
    if HasBuiltins(kernel.plugins) {
      SoundOutcome(StateOf(kernel, ctx), ctx.policy.maxEvidenceFrames, ctx.probe.value.durationSeconds,
                   ctx.adapter.VideoAnalysis?, e);
    }
    if ctx.terminalState.Some? {
      NoOpIsTruthful(ctx);
    }
  }

  /** Gather evidence and synthesize an output from it; without evidence the run ends as a no-op. */
  method Produce(kernel: HarnessKernel, ctx: RunContext, env: Environment, targeted: seq<Window>, repairRound: bool)
    returns (e: Option<Exn>)
    requires ctx.Ready() && ctx.policy.Valid() && RoundReady(kernel, ctx) && TargetsOf(kernel, ctx, targeted)
    requires repairRound || (ctx.callFingerprints == {} && ctx.Tally().lastSampled.None? && targeted == [])
    modifies env`exits, env`modelInvocations
    modifies ctx`evidence, ctx`allocatedIds, ctx`idCounters, ctx`toolCalls, ctx`callFingerprints
    modifies ctx`toolResults, ctx`artifactCalls, ctx`iterations, ctx`modelCalls, ctx`output, ctx`terminalState
    modifies ctx.trace`origin, ctx.trace`now, ctx.trace`finished
    modifies ctx.bundle`sequence, ctx.bundle`events, ctx.bundle`issuedIds, ctx.bundle`evidenceFiles
    ensures ctx.Ready() && Bounded(kernel, ctx) && ctx.Tally().formatErrors == 0
    ensures env.exits == old(env.exits) + Count(e.Some? && e.value.kind.Exit?)
    ensures e.Some? ==> BudgetSpent(ctx, e.value.kind)
    ensures ctx.modelCalls - old(ctx.modelCalls) == env.modelInvocations - old(env.modelInvocations)
    ensures e.Some? ==> ctx.terminalState.None?
    ensures HasBuiltins(kernel.plugins) && IsEscape(e) ==>
      !WithinDuration(ValidOnly(targeted), ctx.probe.value.durationSeconds)
    ensures e.None? && ctx.terminalState.None? ==> RoundReady(kernel, ctx)
    ensures ctx.terminalState.Some? ==> Truthful(ctx) && ctx.terminalState.value.NoOp?
    ensures e.None? ==>
      && ctx.iterations == old(ctx.iterations) + 1
      && ctx.toolCalls == old(ctx.toolCalls) + 1 + Count(!repairRound && ctx.probe.value.hasAudio)
      && ctx.modelCalls == old(ctx.modelCalls) + Count(ctx.terminalState.None?)
    ensures HasBuiltins(kernel.plugins) ==>
      FixedOutcome(StateOf(kernel, ctx), ctx.policy.maxEvidenceFrames, DurationOf(ctx), ctx.adapter.VideoAnalysis?, e)
  {
    hide RunContext.Tally, RunContext.Ready, SampleResult, SamplingState.Sound, FixedOutcome, HasBuiltins;
    hide BudgetSpent, FrameCount, TargetsOf, IsRefusal, IsForeign, IsBenign, HarnessKernel.RemainingFrames, Truthful;
    ghost var cap, duration := ctx.policy.maxEvidenceFrames, ctx.probe.value.durationSeconds;
    ghost var video, before := ctx.adapter.VideoAnalysis?, StateOf(kernel, ctx);
    e := Gather(kernel, ctx, env, targeted, repairRound);
    if e.Some? {
      if HasBuiltins(kernel.plugins) {
        SampleOutcome(before, StateOf(kernel, ctx), cap, duration, ValidOnly(targeted), video, e);
      }
      return;
    }
    e := SynthesizeRound(kernel, ctx, env);
  }

  lemma SynthesisIsBenign(e: Option<Exn>)
    requires e.Some? ==> IsRefusal(e.value, Some(ModelCallBudget)) || IsForeign(e.value.kind)
    ensures e.Some? ==> IsBenign(e.value.kind) && !IsEscape(e)
  {
  }

  lemma NoOpIsTruthful(ctx: RunContext)
    requires ctx.terminalState == Some(NoOp) && ctx.evidence == [] && ctx.modelCalls == 0 && ctx.output.None?
    ensures Truthful(ctx)
  {
  }

  /**
   A fixed run that ends on its own made one sampling call and one model call in each iteration, one
   transcription in the first if there is audio, and one repair between two iterations.
   */
  ghost predicate FixedCounts(kernel: HarnessKernel, ctx: RunContext, state: Option<TerminalState>)
    reads ctx`probe, ctx`iterations, ctx`toolCalls, ctx`modelCalls, kernel`repairRounds
  {
    && ctx.probe.Some? && ctx.iterations == kernel.repairRounds + 1
    && ctx.toolCalls == ctx.iterations + Count(ctx.probe.value.hasAudio)
    && ctx.modelCalls == ctx.iterations - Count(state == Some(NoOp))
  }

  /** These windows are those of the last verdict, which failed. */
  ghost predicate RepairsVerdict(ctx: RunContext, targeted: seq<Window>)
    reads ctx`verification
  {
    ctx.verification.Some? && !ctx.verification.value.passed && ctx.verification.value.targetedWindows == targeted
  }

  /** The last verdict failed, and a window it targets, and the filter keeps, leaves the media. */
  ghost predicate VerdictEscapes(ctx: RunContext)
    reads ctx`verification, ctx`probe
  {
    && ctx.probe.Some? && ctx.verification.Some? && !ctx.verification.value.passed
    && !WithinDuration(ValidOnly(ctx.verification.value.targetedWindows), ctx.probe.value.durationSeconds)
  }

  lemma EscapeMeans(ctx: RunContext, targeted: seq<Window>, repairRound: bool, e: Option<Exn>, builtins: bool)
    requires ctx.probe.Some? && (if repairRound then RepairsVerdict(ctx, targeted) else targeted == [])
    requires builtins && IsEscape(e) ==> !WithinDuration(ValidOnly(targeted), ctx.probe.value.durationSeconds)
    ensures builtins && IsEscape(e) ==> VerdictEscapes(ctx)
  {
  }

  /** Probe the media; nothing has been asked or sampled yet. */
  method BeginFixed(kernel: HarnessKernel, ctx: RunContext, env: Environment) returns (e: Option<Exn>)
    requires ctx.Ready() && ctx.policy.Valid() && ctx.Unused() && kernel.repairRounds == 0
    modifies ctx`probe, env`exits
    modifies ctx.trace`origin, ctx.trace`now, ctx.trace`finished
    modifies ctx.bundle`sequence, ctx.bundle`events, ctx.bundle`issuedIds
    ensures ctx.Ready() && Bounded(kernel, ctx) && ctx.Tally().formatErrors == 0
    ensures ctx.Tally().lastSampled.None?
    ensures env.exits == old(env.exits) + Count(e.Some? && e.value.kind.Exit?)
    ensures e.Some? ==> BudgetSpent(ctx, e.value.kind)
    ensures e.None? ==> RoundReady(kernel, ctx)
    ensures !IsEscape(e)
    ensures e.Some? && HasBuiltins(kernel.plugins) ==>
      FixedOutcome(StateOf(kernel, ctx), ctx.policy.maxEvidenceFrames, DurationOf(ctx), ctx.adapter.VideoAnalysis?, e)
  {
    hide RunContext.Tally, RunContext.Ready, SamplingState.Sound, FixedOutcome, HasBuiltins, FrameCount, BudgetSpent;
    e := kernel.RunProbe(ctx, env);
    var duration := DurationOf(ctx);
    EmptySound(kernel, ctx, duration, ctx.adapter.VideoAnalysis?);
    if e.Some? {
      SoundOutcome(StateOf(kernel, ctx), ctx.policy.maxEvidenceFrames, duration, ctx.adapter.VideoAnalysis?, e);
    }
  }

  /** Judge a fixed round's output; a repair keeps everything the next round relies on. */
  method JudgeFixed(kernel: HarnessKernel, ctx: RunContext, env: Environment) returns (r: Outcome<Option<Feedback>>)
    requires ctx.Ready() && RoundReady(kernel, ctx)
    modifies kernel`repairRounds, ctx`verification, ctx`terminalState
    modifies ctx.bundle`sequence, ctx.bundle`events, ctx.bundle`issuedIds
    ensures ctx.Ready() && Bounded(kernel, ctx) && ctx.Tally().formatErrors == 0
    ensures r.Raised? ==>
      && ctx.terminalState.None? && !r.exn.kind.Exit? && !IsEscape(Some(r.exn)) && BudgetSpent(ctx, r.exn.kind)
    ensures r.Ok? && r.value.None? ==>
      && Truthful(ctx) && ctx.terminalState.Some? && !ctx.terminalState.value.NoOp?
      && kernel.repairRounds == old(kernel.repairRounds) && OnlyWhenExhausted(kernel, ctx, ctx.terminalState)
    ensures r.Ok? && r.value.Some? ==>
      && kernel.repairRounds == old(kernel.repairRounds) + 1 && RoundReady(kernel, ctx)
      && TargetsOf(kernel, ctx, r.value.value.targetedWindows) && RepairsVerdict(ctx, r.value.value.targetedWindows)
    ensures HasBuiltins(kernel.plugins) ==>
      FixedOutcome(StateOf(kernel, ctx), ctx.policy.maxEvidenceFrames, DurationOf(ctx), ctx.adapter.VideoAnalysis?,
                   if r.Raised? then Some(r.exn) else None)
  {
    hide RunContext.Tally, RunContext.Ready, SamplingState.Sound, FixedOutcome, HasBuiltins, FrameCount, BudgetSpent;
    hide TargetsOf, Truthful, Judged, HarnessKernel.RepairAvailable, HarnessKernel.RemainingFrames, RepairsVerdict;
    r := JudgeOrRepair(kernel, ctx, env);
    if HasBuiltins(kernel.plugins) {
      SoundOutcome(StateOf(kernel, ctx), ctx.policy.maxEvidenceFrames, ctx.probe.value.durationSeconds,
                   ctx.adapter.VideoAnalysis?, if r.Raised? then Some(r.exn) else None);
    }
    if r.Ok? && r.value.Some? {
      RepairTargets(kernel, ctx);
    }
  }

  /** One round of a fixed run: Ok gives the windows of the next one, or says that the run ended. */
  method FixedRound(kernel: HarnessKernel, ctx: RunContext, env: Environment, targeted: seq<Window>, repairRound: bool)
    returns (r: Outcome<Option<seq<Window>>>)
    requires ctx.Ready() && ctx.policy.Valid() && RoundReady(kernel, ctx) && TargetsOf(kernel, ctx, targeted)
    requires repairRound || (ctx.callFingerprints == {} && ctx.Tally().lastSampled.None? && targeted == [])
    requires repairRound ==> RepairsVerdict(ctx, targeted)
    modifies kernel`repairRounds, env`exits, env`modelInvocations
    modifies ctx`evidence, ctx`allocatedIds, ctx`idCounters, ctx`toolCalls, ctx`callFingerprints
    modifies ctx`toolResults, ctx`artifactCalls, ctx`iterations, ctx`modelCalls, ctx`output, ctx`verification
    modifies ctx`terminalState
    modifies ctx.trace`origin, ctx.trace`now, ctx.trace`finished
    modifies ctx.bundle`sequence, ctx.bundle`events, ctx.bundle`issuedIds, ctx.bundle`evidenceFiles
    ensures ctx.Ready() && Bounded(kernel, ctx) && ctx.Tally().formatErrors == 0
    ensures env.exits == old(env.exits) + Count(r.Raised? && r.exn.kind.Exit?)
    ensures ctx.modelCalls - old(ctx.modelCalls) == env.modelInvocations - old(env.modelInvocations)
    ensures r.Raised? ==> BudgetSpent(ctx, r.exn.kind) && ctx.terminalState.None?
    ensures HasBuiltins(kernel.plugins) && r.Raised? && IsEscape(Some(r.exn)) ==> VerdictEscapes(ctx)
    ensures HasBuiltins(kernel.plugins) ==>
      FixedOutcome(StateOf(kernel, ctx), ctx.policy.maxEvidenceFrames, DurationOf(ctx), ctx.adapter.VideoAnalysis?,
                   if r.Raised? then Some(r.exn) else None)
    ensures r.Ok? ==>
      && ctx.iterations == old(ctx.iterations) + 1
      && ctx.toolCalls == old(ctx.toolCalls) + 1 + Count(!repairRound && ctx.probe.value.hasAudio)
      && ctx.modelCalls == old(ctx.modelCalls) + Count(ctx.terminalState != Some(NoOp))
    ensures r.Ok? && r.value.None? ==>
      && Truthful(ctx) && OnlyWhenExhausted(kernel, ctx, ctx.terminalState)
      && kernel.repairRounds == old(kernel.repairRounds)
    ensures r.Ok? && r.value.Some? ==>
      && kernel.repairRounds == old(kernel.repairRounds) + 1 && RoundReady(kernel, ctx)
      && TargetsOf(kernel, ctx, r.value.value) && RepairsVerdict(ctx, r.value.value)
  {
    hide RunContext.Tally, RunContext.Ready, SamplingState.Sound, FixedOutcome, HasBuiltins, FrameCount, TargetsOf;
    hide Truthful, Judged, HarnessKernel.RepairAvailable, HarnessKernel.RemainingFrames, WellFormedCalls;
    hide RepairsVerdict, VerdictEscapes, WithinDuration, CallsInside, FixedSound, BudgetSpent, IsEscape;
    var e := Produce(kernel, ctx, env, targeted, repairRound);
    EscapeMeans(ctx, targeted, repairRound, e, HasBuiltins(kernel.plugins));
    if e.Some? {
      return Raised(e.value);
    }
    if ctx.terminalState.Some? {
      return Ok(None);
    }
    var judged := JudgeFixed(kernel, ctx, env);
    if judged.Raised? {
      return Raised(judged.exn);
    }
    return Ok(if judged.value.Some? then Some(judged.value.value.targetedWindows) else None);
  }

  /** Probe, then gather, synthesize, verify and repair in a fixed order. */
  method ExecuteFixed(kernel: HarnessKernel, ctx: RunContext, env: Environment) returns (e: Option<Exn>)
    requires ctx.Ready() && ctx.policy.Valid() && ctx.Unused() && kernel.repairRounds == 0
    modifies kernel`repairRounds, env`exits, env`modelInvocations
    modifies ctx`probe, ctx`evidence, ctx`allocatedIds, ctx`idCounters, ctx`toolCalls, ctx`callFingerprints
    modifies ctx`toolResults, ctx`artifactCalls, ctx`iterations, ctx`modelCalls, ctx`output, ctx`verification
    modifies ctx`terminalState
    modifies ctx.trace`origin, ctx.trace`now, ctx.trace`finished
    modifies ctx.bundle`sequence, ctx.bundle`events, ctx.bundle`issuedIds, ctx.bundle`evidenceFiles
    ensures ctx.Ready() && Bounded(kernel, ctx) && ctx.Tally().formatErrors == 0
    ensures env.exits == old(env.exits) + Count(e.Some? && e.value.kind.Exit?)
    ensures e.Some? ==> BudgetSpent(ctx, e.value.kind)
    ensures env.modelInvocations - old(env.modelInvocations) == ctx.modelCalls
    ensures if e.None? then Truthful(ctx) else ctx.terminalState.None?
    ensures e.None? ==> FixedCounts(kernel, ctx, ctx.terminalState) && OnlyWhenExhausted(kernel, ctx, ctx.terminalState)
    // Only the windows of the last, failed verdict can make a call escape.
    ensures HasBuiltins(kernel.plugins) && IsEscape(e) ==> VerdictEscapes(ctx)
    ensures HasBuiltins(kernel.plugins) ==>
      FixedOutcome(StateOf(kernel, ctx), ctx.policy.maxEvidenceFrames, DurationOf(ctx), ctx.adapter.VideoAnalysis?, e)
  {
    hide RunContext.Tally, RunContext.Ready, SamplingState.Sound, FixedOutcome, HasBuiltins, FrameCount, BudgetSpent;
    hide TargetsOf, Truthful, Judged, HarnessKernel.RepairAvailable, HarnessKernel.RemainingFrames, WellFormedCalls;
    hide RepairsVerdict, VerdictEscapes, WithinDuration, CallsInside, FixedSound;
    e := BeginFixed(kernel, ctx, env);
    if e.Some? {
      return;
    }
    NoTargets(kernel, ctx);
    var targeted: seq<Window> := [];
    var repairRound := false;
    while true
      invariant ctx.Ready() && RoundReady(kernel, ctx) && TargetsOf(kernel, ctx, targeted)
      invariant repairRound || (ctx.callFingerprints == {} && ctx.Tally().lastSampled.None? && targeted == [])
      invariant repairRound ==> RepairsVerdict(ctx, targeted)
      invariant env.exits == old(env.exits)
      invariant env.modelInvocations - old(env.modelInvocations) == ctx.modelCalls
      invariant ctx.modelCalls == ctx.iterations == kernel.repairRounds
      invariant ctx.toolCalls == ctx.iterations + Count(repairRound && ctx.probe.value.hasAudio)
      decreases MAX_REPAIR_ROUNDS - kernel.repairRounds
    {
      var round := FixedRound(kernel, ctx, env, targeted, repairRound);
      if round.Raised? {
        return Some(round.exn);
      }
      if round.value.None? {
        return None;
      }
      targeted := round.value.value;
      repairRound := true;
    }
  }

  lemma NoTargets(kernel: HarnessKernel, ctx: RunContext)
    ensures TargetsOf(kernel, ctx, [])
  {
  }

  predicate BaselineOnly(evidence: seq<Evidence>) {
    forall i :: 0 <= i < |evidence| ==> evidence[i].budgetClass.DirectBaseline?
  }

  /** A registered subtitle is the last piece of evidence. */
  ghost predicate SubtitleLast(ctx: RunContext)
    reads ctx`evidence
  {
    HasSubtitle(ctx) ==>
      |ctx.evidence| > 0 && ctx.evidence[|ctx.evidence| - 1].content == ctx.registeredSubtitle
  }

  lemma BaselinePrepared(ctx: RunContext, frames: seq<ExtractedFrame>, duration: real, complete: bool)
    requires ctx.evidence == [] || BaselineAdded(ctx, ctx.evidence, frames, duration, complete)
    requires complete ==> BaselineAdded(ctx, ctx.evidence, frames, duration, complete)
    ensures BaselineOnly(ctx.evidence) && (complete ==> SubtitleLast(ctx))
  {
  }

  /** Probe the media and capture the uncapped baseline. */
  method BeginDirect(kernel: HarnessKernel, ctx: RunContext, env: Environment) returns (e: Option<Exn>)
    requires ctx.Ready() && ctx.policy.Valid() && ctx.Unused() && kernel.repairRounds == 0
    modifies env`exits, ctx`probe, ctx`evidence, ctx`allocatedIds, ctx`idCounters, ctx`artifactCalls
    modifies ctx.trace`origin, ctx.trace`now, ctx.trace`finished
    modifies ctx.bundle`sequence, ctx.bundle`events, ctx.bundle`issuedIds, ctx.bundle`evidenceFiles
    ensures ctx.Ready() && Bounded(kernel, ctx) && ctx.Tally().formatErrors == 0
    ensures env.exits == old(env.exits) + Count(e.Some? && e.value.kind.Exit?)
    ensures e.Some? ==> BudgetSpent(ctx, e.value.kind)
    ensures e.None? ==> ctx.probe.Some?
    ensures BaselineOnly(ctx.evidence) && (e.None? ==> SubtitleLast(ctx))
  {
    hide RunContext.Tally, RunContext.Ready, FrameCount, IsRefusal, BaselineOnly, SubtitleLast, BudgetSpent;
    hide BaselineAdded;
    BaselinePrepared(ctx, [], 0.0, false);
    e := kernel.RunProbe(ctx, env);
    if e.Some? {
      return;
    }
    ghost var frames, added;
    e, frames, added := kernel.PrepareDirectBaseline(ctx, env);
    assert [] + added == added;
    BaselinePrepared(ctx, frames, ctx.probe.value.durationSeconds, e.None?);
  }

  /** Probe, capture the uncapped baseline, synthesize and verify once. */
  method ExecuteDirect(kernel: HarnessKernel, ctx: RunContext, env: Environment) returns (e: Option<Exn>)
    requires ctx.Ready() && ctx.policy.Valid() && ctx.Unused() && kernel.repairRounds == 0
    modifies env`exits, env`modelInvocations
    modifies ctx`probe, ctx`evidence, ctx`allocatedIds, ctx`idCounters, ctx`artifactCalls, ctx`modelCalls
    modifies ctx`output, ctx`verification, ctx`terminalState
    modifies ctx.trace`origin, ctx.trace`now, ctx.trace`finished
    modifies ctx.bundle`sequence, ctx.bundle`events, ctx.bundle`issuedIds, ctx.bundle`evidenceFiles
    ensures ctx.Ready() && Bounded(kernel, ctx) && ctx.Tally().formatErrors == 0
    ensures env.exits == old(env.exits) + Count(e.Some? && e.value.kind.Exit?)
    ensures e.Some? ==> BudgetSpent(ctx, e.value.kind)
    ensures env.modelInvocations - old(env.modelInvocations) == ctx.modelCalls
    ensures if e.None? then Truthful(ctx) else ctx.terminalState.None?
    // All its evidence is the uncapped baseline, and one model call is all it makes.
    ensures BaselineOnly(ctx.evidence)
    ensures e.None? ==> ctx.modelCalls == Count(ctx.terminalState != Some(NoOp)) && SubtitleLast(ctx)
  {
    hide RunContext.Tally, RunContext.Ready, FrameCount, IsRefusal, BaselineOnly, SubtitleLast, BudgetSpent;
    hide HarnessKernel.ModelRefusal, Truthful, SameMarks, IsForeign;
    e := BeginDirect(kernel, ctx, env);
    if e.Some? {
      return;
    }
    ghost var before := ctx.Tally();
    var now;
    e, now := kernel.Synthesize(ctx, env);
    MarksKept(kernel, ctx, before);
    if ctx.terminalState.Some? {
      NoOpIsTruthful(ctx);
    }
    if e.Some? || ctx.terminalState.Some? {
      return;
    }
    e := JudgeDirect(kernel, ctx);
  }

  lemma MarksKept(kernel: HarnessKernel, ctx: RunContext, before: Audit)
    requires SameMarks(before, ctx.Tally()) && before.formatErrors == 0 && before.repairs == kernel.repairRounds
    requires kernel.repairRounds <= MAX_REPAIR_ROUNDS
    ensures Bounded(kernel, ctx) && ctx.Tally().formatErrors == 0
  {
  }

  /** Verify the output on record once, and set the terminal state by the verdict. */
  method JudgeDirect(kernel: HarnessKernel, ctx: RunContext) returns (e: Option<Exn>)
    requires ctx.Ready() && Bounded(kernel, ctx) && ctx.Tally().formatErrors == 0 && ctx.terminalState.None?
    modifies ctx`verification, ctx`terminalState, ctx.bundle`sequence, ctx.bundle`events, ctx.bundle`issuedIds
    ensures ctx.Ready() && Bounded(kernel, ctx) && ctx.Tally().formatErrors == 0
    ensures e.None? ==> Truthful(ctx) && ctx.terminalState.Some? && !ctx.terminalState.value.NoOp?
    ensures e.Some? ==> ctx.terminalState.None? && !e.value.kind.Exit? && BudgetSpent(ctx, e.value.kind)
  {
    hide RunContext.Tally, RunContext.Ready, BudgetSpent, VerifyClaims;
    var verdict := kernel.Verify(ctx);
    if verdict.Raised? {
      ForeignSpends(ctx, verdict.exn.kind);
      return Some(verdict.exn);
    }
    ctx.terminalState := if verdict.value.passed then Some(Succeeded) else Some(Partial);
    return None;
  }

  /** What was added to the tool results names the calls, in order. */
  ghost predicate Recorded(before: seq<ToolSummary>, after: seq<ToolSummary>, calls: seq<ToolCall>) {
    && before <= after && |after| - |before| <= |calls|
    && forall k :: 0 <= k < |after| - |before| ==> after[|before| + k].tool == calls[k].name
  }

  /** Run the calls of one decision in order, stopping at the first exception. */
  method RunCalls(kernel: HarnessKernel, ctx: RunContext, env: Environment, calls: seq<ToolCall>)
    returns (e: Option<Exn>)
    requires ctx.Ready() && forall k :: 0 <= k < |calls| ==> ValidToolName(calls[k].name)
    modifies ctx`evidence, ctx`allocatedIds, ctx`idCounters, ctx`toolCalls, ctx`callFingerprints, ctx`toolResults
    modifies ctx`artifactCalls, env`exits
    modifies ctx.trace`origin, ctx.trace`now, ctx.trace`finished
    modifies ctx.bundle`sequence, ctx.bundle`events, ctx.bundle`issuedIds, ctx.bundle`evidenceFiles
    ensures ctx.Ready() && SameMarks(old(ctx.Tally()), ctx.Tally()) && old(ctx.evidence) <= ctx.evidence
    ensures env.exits == old(env.exits) + Count(e.Some? && e.value.kind.Exit?)
    ensures e.Some? ==> BudgetSpent(ctx, e.value.kind)
    ensures ctx.toolCalls - old(ctx.toolCalls) <= |calls|
    ensures e.None? ==> ctx.toolCalls == old(ctx.toolCalls) + |calls|
    // The results on record are those of the calls, in order, up to the one that raised.
    ensures |old(ctx.toolResults)| <= |ctx.toolResults| <= |old(ctx.toolResults)| + |calls|
    ensures e.None? ==> |ctx.toolResults| == |old(ctx.toolResults)| + |calls|
    ensures Recorded(old(ctx.toolResults), ctx.toolResults, calls)
  {
    hide RunContext.Tally, RunContext.Ready, FrameCount, IsRefusal, CallRan, HarnessKernel.Admission, BudgetSpent;
    hide Validate, ToolByName, ValidToolName, PlainPhase;
    for k := 0 to |calls|
      invariant ctx.Ready() && SameMarks(old(ctx.Tally()), ctx.Tally()) && old(ctx.evidence) <= ctx.evidence
      invariant env.exits == old(env.exits) && ctx.toolCalls == old(ctx.toolCalls) + k
      invariant |ctx.toolResults| == |old(ctx.toolResults)| + k
      invariant Recorded(old(ctx.toolResults), ctx.toolResults, calls)
    {
      ToolNamePlain(calls[k].name);
      var r := kernel.RunTool(ctx, env, calls[k].name, calls[k].arguments);
      if r.Raised? {
        return Some(r.exn);
      }
    }
    return None;
  }

  /**
   Every request counted was built, or the last one was not. The schemas decide: none fails when all
   can always be generated, and the first one fails when some never can.
   */
  ghost predicate RequestsBuilt(kernel: HarnessKernel, ctx: RunContext)
    reads ctx`unbuilt, ctx`modelCalls
  {
    && ctx.unbuilt <= 1
    && (AllGenerate(kernel.RequestSchemas(ctx)) ==> ctx.unbuilt == 0)
    && (SomeNever(kernel.RequestSchemas(ctx)) ==> ctx.unbuilt == ctx.modelCalls)
  }

  /** Why a started run asks no model: nothing was probed, time ran out, or there is no call or no model left. */
  ghost predicate Unasked(kernel: HarnessKernel, ctx: RunContext, late: bool)
    reads kernel`startedAt, ctx`probe, ctx`modelCalls
  {
    kernel.startedAt.Some? ==>
      late || ctx.probe.None? || ctx.modelCalls >= ctx.policy.maxModelCalls || !ctx.hasAgentModel
  }

  lemma RefusedUnasked(kernel: HarnessKernel, ctx: RunContext, now: real)
    requires kernel.DecisionRefusal(ctx, now).Some?
    ensures Unasked(kernel, ctx, kernel.DecisionRefusal(ctx, now).value.kind.WallClock?)
  {
  }

  lemma NothingProbed(kernel: HarnessKernel, ctx: RunContext, late: bool)
    requires ctx.probe.None?
    ensures Unasked(kernel, ctx, late)
  {
  }

  /** Ask for one agent decision; Ok without one absorbs the run's first badly formatted answer. */
  method AskAgent(kernel: HarnessKernel, ctx: RunContext, env: Environment, formatRepair: bool)
    returns (r: Outcome<Option<Decision>>)
    requires ctx.Ready() && Bounded(kernel, ctx) && RequestsBuilt(kernel, ctx)
    requires ctx.Tally().formatErrors == Count(ctx.formatRepairUsed)
    modifies env`exits, env`modelInvocations, ctx`modelCalls, ctx`unbuilt, ctx`verifierFeedback, ctx`formatRepairUsed
    modifies ctx.trace`origin, ctx.trace`now, ctx.trace`finished
    modifies ctx.bundle`sequence, ctx.bundle`events, ctx.bundle`issuedIds
    ensures ctx.Between() && Bounded(kernel, ctx) && RequestsBuilt(kernel, ctx)
    ensures env.exits == old(env.exits) + Count(r.Raised? && r.exn.kind.Exit?)
    ensures env.modelInvocations - old(env.modelInvocations) == ctx.modelCalls - old(ctx.modelCalls) - ctx.unbuilt
    ensures old(ctx.modelCalls) <= ctx.modelCalls
    ensures r.Raised? && ctx.modelCalls == old(ctx.modelCalls) ==> Unasked(kernel, ctx, r.exn.kind.WallClock?)
    ensures r.Raised? ==>
      && BudgetSpent(ctx, r.exn.kind)
      && (ctx.Tally().formatErrors <= 1 || (ctx.Tally().formatErrors == 2 && r.exn.kind.DecisionFormat?))
    ensures r.Ok? ==>
      && ctx.Ready() && ctx.modelCalls == old(ctx.modelCalls) + 1
      && ctx.Tally().formatErrors == Count(ctx.formatRepairUsed)
    ensures r.Ok? ==> if r.value.Some? then r.value.value.Valid() && ctx.formatRepairUsed == old(ctx.formatRepairUsed)
                      else !old(ctx.formatRepairUsed) && ctx.formatRepairUsed
  {
    hide RunContext.Tally, RunContext.Ready, RunContext.Between, FrameCount, IsRefusal, IsForeign, AllGenerate;
    hide SomeNever, HarnessKernel.RequestSchemas, BudgetSpent, Unasked, Decision.Valid, HarnessKernel.DecisionRefusal;
    hide HarnessKernel.ModelRefusal;
    ReadyIsBetween(ctx);
    var reply, now := kernel.RequestAgentDecision(ctx, env, formatRepair);
    if reply.Ok? {
      return Ok(Some(reply.value.0));
    }
    if ctx.modelCalls == old(ctx.modelCalls) {
      RefusedUnasked(kernel, ctx, now);
    }
    if !reply.exn.kind.DecisionFormat? || ctx.formatRepairUsed {
      return Raised(reply.exn);
    }
    ctx.formatRepairUsed := true;
    return Ok(None);
  }

  /** One agent decision and its bounded execution; Ok says whether the next request is a format repair. */
  method AgentStep(kernel: HarnessKernel, ctx: RunContext, env: Environment, formatRepair: bool)
    returns (r: Outcome<bool>)
    requires ctx.Ready() && Bounded(kernel, ctx) && ctx.terminalState.None? && RequestsBuilt(kernel, ctx)
    requires ctx.Tally().formatErrors == Count(ctx.formatRepairUsed)
    modifies kernel`repairRounds, env`exits, env`modelInvocations
    modifies ctx`evidence, ctx`allocatedIds, ctx`idCounters, ctx`toolCalls, ctx`callFingerprints, ctx`toolResults
    modifies ctx`artifactCalls, ctx`modelCalls, ctx`unbuilt, ctx`output, ctx`verification, ctx`terminalState
    modifies ctx`verifierFeedback, ctx`formatRepairUsed
    modifies ctx.trace`origin, ctx.trace`now, ctx.trace`finished
    modifies ctx.bundle`sequence, ctx.bundle`events, ctx.bundle`issuedIds, ctx.bundle`evidenceFiles
    ensures ctx.Between() && Bounded(kernel, ctx) && RequestsBuilt(kernel, ctx)
    ensures r.Ok? ==> ctx.Ready()
    ensures env.exits == old(env.exits) + Count(r.Raised? && r.exn.kind.Exit?)
    ensures r.Raised? ==> BudgetSpent(ctx, r.exn.kind)
    ensures ctx.modelCalls >= old(ctx.modelCalls)
    ensures r.Raised? && ctx.modelCalls == old(ctx.modelCalls) ==> Unasked(kernel, ctx, r.exn.kind.WallClock?)
    ensures env.modelInvocations - old(env.modelInvocations) == ctx.modelCalls - old(ctx.modelCalls) - ctx.unbuilt
    ensures r.Ok? ==> ctx.modelCalls == old(ctx.modelCalls) + 1
    ensures r.Ok? ==> ctx.Tally().formatErrors == Count(ctx.formatRepairUsed)
    ensures r.Raised? ==>
      && ctx.terminalState.None?
      && (ctx.Tally().formatErrors <= 1 || (ctx.Tally().formatErrors == 2 && r.exn.kind.DecisionFormat?))
    ensures ctx.terminalState.Some? ==> Truthful(ctx) && !ctx.terminalState.value.NoOp?
    // Only a badly formatted decision asks for a format repair, and only the first one does.
    ensures r.Ok? && r.value ==> !old(ctx.formatRepairUsed) && ctx.formatRepairUsed && ctx.terminalState.None?
    ensures r.Ok? && !r.value ==> ctx.formatRepairUsed == old(ctx.formatRepairUsed)
    // A repair discards the rejected output and hands its feedback to the next request.
    ensures r.Ok? && kernel.repairRounds != old(kernel.repairRounds) ==>
      && kernel.repairRounds == old(kernel.repairRounds) + 1
      && ctx.output.None? && ctx.verification.None? && ctx.verifierFeedback.Some? && ctx.terminalState.None?
    ensures r.Ok? && kernel.repairRounds == old(kernel.repairRounds) && ctx.terminalState.None? ==>
      ctx.output == old(ctx.output) && ctx.verification == old(ctx.verification)
    ensures r.Ok? ==> OnlyWhenExhausted(kernel, ctx, ctx.terminalState)
  {
    hide RunContext.Tally, RunContext.Ready, RunContext.Between, FrameCount, IsRefusal, Truthful, OnlyWhenExhausted;
    hide AllGenerate, SomeNever, HarnessKernel.RequestSchemas, BudgetSpent, Unasked, Bounded, RequestsBuilt;
    hide ValidToolName, Decision.Valid;
    var reply := AskAgent(kernel, ctx, env, formatRepair);
    if reply.Raised? {
      return Raised(reply.exn);
    }
    if reply.value.None? {
      NotEnded(kernel, ctx);
      return Ok(true);
    }
    var e := ActOn(kernel, ctx, env, reply.value.value);
    ReadyIsBetween(ctx);
    return if e.Some? then Raised(e.value) else Ok(false);
  }

  lemma NotEnded(kernel: HarnessKernel, ctx: RunContext)
    requires ctx.terminalState.None?
    ensures OnlyWhenExhausted(kernel, ctx, ctx.terminalState)
  {
  }

  /** Make the tool calls of a decision, or judge its final answer. */
  method ActOn(kernel: HarnessKernel, ctx: RunContext, env: Environment, decision: Decision) returns (e: Option<Exn>)
    requires ctx.Ready() && Bounded(kernel, ctx) && ctx.terminalState.None? && decision.Valid()
    modifies kernel`repairRounds, env`exits
    modifies ctx`evidence, ctx`allocatedIds, ctx`idCounters, ctx`toolCalls, ctx`callFingerprints, ctx`toolResults
    modifies ctx`artifactCalls, ctx`output, ctx`verification, ctx`terminalState, ctx`verifierFeedback
    modifies ctx.trace`origin, ctx.trace`now, ctx.trace`finished
    modifies ctx.bundle`sequence, ctx.bundle`events, ctx.bundle`issuedIds, ctx.bundle`evidenceFiles
    ensures ctx.Ready() && Bounded(kernel, ctx) && ctx.Tally().formatErrors == old(ctx.Tally()).formatErrors
    ensures env.exits == old(env.exits) + Count(e.Some? && e.value.kind.Exit?)
    ensures e.Some? ==> BudgetSpent(ctx, e.value.kind)
    ensures e.Some? ==> ctx.terminalState.None?
    ensures ctx.terminalState.Some? ==> Truthful(ctx) && !ctx.terminalState.value.NoOp?
    ensures e.None? && kernel.repairRounds != old(kernel.repairRounds) ==>
      && kernel.repairRounds == old(kernel.repairRounds) + 1
      && ctx.output.None? && ctx.verification.None? && ctx.verifierFeedback.Some? && ctx.terminalState.None?
    ensures e.None? && kernel.repairRounds == old(kernel.repairRounds) && ctx.terminalState.None? ==>
      ctx.output == old(ctx.output) && ctx.verification == old(ctx.verification)
    ensures e.None? ==> OnlyWhenExhausted(kernel, ctx, ctx.terminalState)
  {
    hide RunContext.Tally, RunContext.Ready, FrameCount, IsRefusal, Judged, Truthful, IsBenign, BudgetSpent;
    hide RepairsVerdict, ValidToolName;
    if decision.ToolCalls? {
      e := RunCalls(kernel, ctx, env, decision.calls);
      return;
    }
    e := kernel.AcceptAgentFinal(ctx, decision.payload);
    if e.Some? {
      ForeignSpends(ctx, e.value.kind);
      return;
    }
    var judged := JudgeOrRepair(kernel, ctx, env);
    if judged.Raised? {
      return Some(judged.exn);
    }
    if judged.value.Some? {
      ctx.verifierFeedback := judged.value;
      ctx.output := None;
      ctx.verification := None;
    }
    return None;
  }

  /** Probe once, then alternate agent decisions and their bounded execution. */
  method ExecuteAgentic(kernel: HarnessKernel, ctx: RunContext, env: Environment) returns (e: Option<Exn>)
    requires ctx.Ready() && ctx.policy.Valid() && ctx.Unused() && kernel.repairRounds == 0
    modifies kernel`repairRounds, env`exits, env`modelInvocations
    modifies ctx`probe, ctx`evidence, ctx`allocatedIds, ctx`idCounters, ctx`toolCalls, ctx`callFingerprints
    modifies ctx`toolResults, ctx`artifactCalls, ctx`modelCalls, ctx`output, ctx`verification, ctx`terminalState
    modifies ctx`verifierFeedback, ctx`formatRepairUsed, ctx`unbuilt
    modifies ctx.trace`origin, ctx.trace`now, ctx.trace`finished
    modifies ctx.bundle`sequence, ctx.bundle`events, ctx.bundle`issuedIds, ctx.bundle`evidenceFiles
    ensures ctx.Between() && Bounded(kernel, ctx) && RequestsBuilt(kernel, ctx)
    ensures e.None? ==> ctx.Ready()
    ensures env.exits == old(env.exits) + Count(e.Some? && e.value.kind.Exit?)
    ensures e.Some? ==> BudgetSpent(ctx, e.value.kind)
    ensures env.modelInvocations - old(env.modelInvocations) == ctx.modelCalls - ctx.unbuilt
    // A model is asked, unless the run ends before its first request.
    ensures ctx.modelCalls == 0 ==> e.Some? && Unasked(kernel, ctx, e.value.kind.WallClock?)
    ensures if e.None? then Truthful(ctx) && !ctx.terminalState.value.NoOp? else ctx.terminalState.None?
    ensures e.None? ==> OnlyWhenExhausted(kernel, ctx, ctx.terminalState)
    // One badly formatted decision is absorbed; a second one ends the run.
    ensures ctx.Tally().formatErrors <= 1
      || (ctx.Tally().formatErrors == 2 && e.Some? && e.value.kind.DecisionFormat?)
  {
    hide RunContext.Tally, RunContext.Ready, RunContext.Between, FrameCount, IsRefusal, Truthful, BudgetSpent;
    hide Unasked, AllGenerate, SomeNever, HarnessKernel.RequestSchemas;
    e := kernel.RunProbe(ctx, env);
    ReadyIsBetween(ctx);
    if e.Some? {
      NothingProbed(kernel, ctx, e.value.kind.WallClock?);
      return;
    }
    var formatRepair := false;
    ModelCallsBounded(ctx);
    while ctx.terminalState.None?
      invariant ctx.Ready() && Bounded(kernel, ctx) && env.exits == old(env.exits) && RequestsBuilt(kernel, ctx)
      invariant ctx.Tally().formatErrors == Count(ctx.formatRepairUsed)
      invariant env.modelInvocations - old(env.modelInvocations) == ctx.modelCalls <= ctx.policy.maxModelCalls
      invariant ctx.terminalState.Some? ==> Truthful(ctx) && !ctx.terminalState.value.NoOp? && ctx.modelCalls > 0
      invariant OnlyWhenExhausted(kernel, ctx, ctx.terminalState)
      decreases ctx.policy.maxModelCalls - ctx.modelCalls
    {
      var step := AgentStep(kernel, ctx, env, formatRepair);
      if step.Raised? {
        return Some(step.exn);
      }
      ReadyIsBetween(ctx);
      ModelCallsBounded(ctx);
      formatRepair := step.value;
    }
    ReadyIsBetween(ctx);
    return None;
  }

  lemma ModelCallsBounded(ctx: RunContext)
    requires ctx.Ready()
    ensures ctx.modelCalls <= ctx.policy.maxModelCalls
  {
  }
}
