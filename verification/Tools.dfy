/** The built-in tools, and any other plugin's tool, running over the kernel's evidence sink. */
module Tools {
  import opened Contracts
  import opened Environments
  import opened EvidenceIds
  import opened Ledger
  import opened Plugins
  import opened RunContexts
  import opened Sampling
  import opened TraceRecording
  import opened Verifier

  /**
   Evidence a tool may add as its `k`-th item: the built-ins add frames at one instant inside a
   requested window, or the transcript of their `k`-th window.
   */
  predicate Fits(body: ToolBody, arguments: ToolArguments, duration: real, item: Evidence, k: nat) {
    match body
    case SampleEvidenceBody =>
      && item.modality.Frame? && item.startSeconds == item.endSeconds
      && arguments.SampleArguments? && IsRequested(item.startSeconds, arguments.windows)
    case TranscribeAudioBody =>
      && item.modality.Transcript? && arguments.AudioArguments? && k < |AudioWindows(arguments, duration)|
      && Window(item.startSeconds, item.endSeconds) == AudioWindows(arguments, duration)[k]
    case CustomBody => true
  }

  function AudioWindows(arguments: ToolArguments, duration: real): seq<Window>
    requires arguments.AudioArguments?
  {
    if arguments.audioWindows == [] then [Window(0.0, duration)] else arguments.audioWindows
  }

  /** Evidence grew by items that fit the tool, frames in time order, and nothing that was there changed. */
  ghost predicate Grew(before: seq<Evidence>, after: seq<Evidence>, body: ToolBody, arguments: ToolArguments,
                       duration: real)
  {
    && before <= after
    && (forall i :: |before| <= i < |after| ==> Fits(body, arguments, duration, after[i], i - |before|))
    && (body.SampleEvidenceBody? ==> FrameCount(after) == FrameCount(before) + |after| - |before|)
    && (body.SampleEvidenceBody? ==>
          forall i, j :: |before| <= i < j < |after| ==> after[i].startSeconds <= after[j].startSeconds)
    && (body.TranscribeAudioBody? ==> FrameCount(after) == FrameCount(before))
  }

  lemma GrewNothing(evidence: seq<Evidence>, body: ToolBody, arguments: ToolArguments, duration: real)
    ensures Grew(evidence, evidence, body, arguments, duration)
  {
  }

  lemma GrewOne(before: seq<Evidence>, after: seq<Evidence>, item: Evidence, body: ToolBody, arguments: ToolArguments,
                duration: real)
    requires Grew(before, after, body, arguments, duration)
    requires Fits(body, arguments, duration, item, |after| - |before|)
    requires body.SampleEvidenceBody? && |after| > |before| ==> after[|after| - 1].startSeconds <= item.startSeconds
    ensures Grew(before, after + [item], body, arguments, duration)
  {
    hide Fits;
    FrameCountAppend(after, item);
    FitsFrames(body, arguments, duration, item, |after| - |before|);
  }

  lemma FitsFrames(body: ToolBody, arguments: ToolArguments, duration: real, item: Evidence, k: nat)
    requires Fits(body, arguments, duration, item, k)
    ensures body.SampleEvidenceBody? ==> item.modality.Frame?
    ensures body.TranscribeAudioBody? ==> item.modality.Transcript?
  {
  }

  predicate InAnyWindow(time: real, windows: seq<Window>) {
    exists i :: 0 <= i < |windows| && windows[i].startSeconds <= time <= windows[i].endSeconds
  }

  /** No window at all requests the whole range. */
  predicate IsRequested(time: real, windows: seq<Window>) {
    windows != [] ==> InAnyWindow(time, windows)
  }

  function InWindows(candidates: seq<FrameCandidate>, windows: seq<Window>): (r: seq<FrameCandidate>)
    ensures forall c :: c in r <==> c in candidates && InAnyWindow(c.timestamp, windows)
  {
    if |candidates| == 0 then []
    else
      assert candidates == [candidates[0]] + candidates[1..];
      (if InAnyWindow(candidates[0].timestamp, windows) then [candidates[0]] else [])
      + InWindows(candidates[1..], windows)
  }

  /** The candidates a sampling call chooses from. */
  function Requested(candidates: seq<FrameCandidate>, windows: seq<Window>): (r: seq<FrameCandidate>)
    ensures forall c :: c in r ==> c in candidates && IsRequested(c.timestamp, windows)
  {
    if windows != [] then InWindows(candidates, windows) else candidates
  }

  /** What a tool may answer: its own window check is the one kernel-side exception it raises. */
  ghost predicate IsToolAnswer(r: Outcome<ToolResult>, windows: seq<Window>, duration: real) {
    IsAnswer(r) || (r == Raised(Raise(WindowEscapes)) && !WithinDuration(windows, duration))
  }

  /** The windows a call asks for. */
  function RequestedWindows(arguments: ToolArguments): seq<Window> {
    match arguments
    case SampleArguments(windows, _) => windows
    case AudioArguments(windows) => windows
    case CustomArguments(_) => []
  }

  /** The kinds of arguments each tool body is validated into. */
  predicate Matches(body: ToolBody, arguments: ToolArguments) {
    match body
    case SampleEvidenceBody =>
      arguments.SampleArguments? && 1 <= arguments.maxFrames <= 96 && ValidWindows(arguments.windows)
    case TranscribeAudioBody => arguments.AudioArguments? && ValidWindows(arguments.audioWindows)
    case CustomBody => arguments.CustomArguments?
  }

  /** Between the two audits, `n` evidence items were recorded and nothing else was. */
  ghost predicate Deposited(a: Audit, b: Audit, n: nat) {
    b == a.(count := a.count + n, added := a.added + n)
  }

  lemma DepositedMore(a: Audit, b: Audit, c: Audit, n: nat)
    requires Deposited(a, b, n) && Deposited(b, c, 1)
    ensures Deposited(a, c, n + 1) && c.spans == a.spans
  {
  }

  lemma DepositedNone(a: Audit)
    ensures Deposited(a, a, 0)
  {
  }

  /** Add one allocated evidence item. */
  method Deposit(ctx: RunContext, env: Environment, prefix: IdPrefix, start: real, end: real, modality: Modality,
                 content: Option<string>, hasArtifact: bool, budgetClass: BudgetClass)
    returns (r: Outcome<string>)
    requires ctx.Valid() && (ctx.Tally().spans.Idle? || ctx.Tally().spans.InSpan?)
    modifies ctx`evidence, ctx`allocatedIds, ctx`idCounters
    modifies ctx.bundle`sequence, ctx.bundle`events, ctx.bundle`issuedIds, ctx.bundle`evidenceFiles
    ensures ctx.Valid() && ctx.Pairs() == old(ctx.Pairs())
    ensures ctx.bundle.issuedIds >= old(ctx.bundle.issuedIds)
    ensures forall span :: old(ctx.Holds(span)) ==> ctx.Holds(span)
    ensures r.Raised? ==>
      && (r.exn == Raise(ValidationFailure) || r.exn == Raise(OtherFailure))
      && ctx.evidence == old(ctx.evidence) && ctx.Tally() == old(ctx.Tally())
    ensures r.Ok? ==>
      && ValidRange(start, end)
      && ctx.evidence == old(ctx.evidence)
                         + [Evidence(r.value, start, end, modality, content, hasArtifact, budgetClass)]
      && Deposited(old(ctx.Tally()), ctx.Tally(), 1)
    ensures !ValidRange(start, end) ==> r == Raised(Raise(ValidationFailure))
  {
    hide AuditOf, PairingOf, NextAudit;
    var id := ctx.NextId(prefix);
    if !ValidRange(start, end) {
      return Raised(Raise(ValidationFailure));
    }
    var artifactOk := env.ArtifactExists();
    r := ctx.Add(Evidence(id, start, end, modality, content, hasArtifact, budgetClass), artifactOk);
  }

  /** Sample frames inside the requested windows; `candidates` is what the media port offered. */
  method SampleEvidence(ctx: RunContext, env: Environment, arguments: ToolArguments, ghost span: TraceSpan)
    returns (r: Outcome<ToolResult>, ghost candidates: seq<FrameCandidate>)
    requires ctx.Valid() && ctx.Holds(span) && ctx.Tally().spans.InSpan? && ctx.probe.Some?
    requires Matches(SampleEvidenceBody, arguments)
    modifies ctx`evidence, ctx`allocatedIds, ctx`idCounters, env`exits
    modifies ctx.bundle`sequence, ctx.bundle`events, ctx.bundle`issuedIds, ctx.bundle`evidenceFiles
    ensures ctx.Valid() && ctx.Holds(span)
    ensures Grew(old(ctx.evidence), ctx.evidence, SampleEvidenceBody, arguments, ctx.probe.value.durationSeconds)
    ensures Deposited(old(ctx.Tally()), ctx.Tally(), |ctx.evidence| - |old(ctx.evidence)|)
    ensures |ctx.evidence| - |old(ctx.evidence)| <= arguments.maxFrames
    ensures env.exits == old(env.exits) + (if r.Raised? && r.exn.kind.Exit? then 1 else 0)
    ensures IsToolAnswer(r, arguments.windows, ctx.probe.value.durationSeconds)
    // The call completes with one frame per distinct hash among the requested candidates, up to its limit.
    ensures r.Ok? ==>
      && r.value.status.ToolCompleted? && r.value.frameCount == Some(|ctx.evidence| - |old(ctx.evidence)|)
      && |ctx.evidence| - |old(ctx.evidence)|
         == Fewer(arguments.maxFrames, |Hashes(Requested(candidates, arguments.windows))|)
    ensures r == Raised(Raise(WindowEscapes)) <==> !WithinDuration(arguments.windows, ctx.probe.value.durationSeconds)
    ensures r == Raised(Raise(WindowEscapes)) ==> ctx.evidence == old(ctx.evidence)
  {
    hide RunContext.Tally, PairingOf, RunContext.Valid, RunContext.Holds, Grew, KeepsStrongest, FramesOf, Hashes;
    hide InRequestedOrder, WithinDuration;
    GrewNothing(ctx.evidence, SampleEvidenceBody, arguments, ctx.probe.value.durationSeconds);
    candidates := [];
    if !WithinDuration(arguments.windows, ctx.probe.value.durationSeconds) {
      return Raised(Raise(WindowEscapes)), candidates;
    }
    var found := env.VisualCandidates();
    if found.Raised? {
      return Raised(found.exn), candidates;
    }
    candidates := found.value;
    var selected := SelectRequested(ctx.videoKind, found.value, arguments.windows, arguments.maxFrames);
    if selected.None? {
      return Ok(ToolResult(ToolCompleted, [], Some(0), ZERO_USAGE)), candidates;
    }
    var extracted := env.ExtractFrames(selected.value);
    if extracted.Raised? {
      return Raised(extracted.exn), candidates;
    }
    r := DepositFrames(ctx, env, extracted.value, arguments, span);
  }

  function Fewer(a: int, b: int): int {
    if a < b then a else b
  }

  /** The frames extracted for a selection lie in the requested windows, in time order. */
  ghost predicate InRequestedOrder(frames: seq<ExtractedFrame>, windows: seq<Window>) {
    && (forall k :: 0 <= k < |frames| ==> IsRequested(frames[k].timestamp, windows))
    && (forall i, j :: 0 <= i < j < |frames| ==> frames[i].timestamp <= frames[j].timestamp)
  }

  /** Filter the candidates to the requested windows and select among them, if there are any. */
  method SelectRequested(kind: VideoKind, candidates: seq<FrameCandidate>, windows: seq<Window>, maxFrames: int)
    returns (selected: Option<seq<FrameCandidate>>)
    requires maxFrames >= 1
    ensures selected.None? ==> Requested(candidates, windows) == [] && |Hashes(Requested(candidates, windows))| == 0
    ensures selected.Some? ==>
      && |selected.value| == Fewer(maxFrames, |Hashes(Requested(candidates, windows))|)
      && InRequestedOrder(FramesOf(selected.value), windows)
  {
    hide KeepsStrongest, FramesOf;
    var requested := candidates;
    if windows != [] {
      requested := InWindows(candidates, windows);
    }
    if requested == [] {
      assert Hashes(requested) == {};
      return None;
    }
    selected := Select(kind, requested, maxFrames);
    FramesOrdered(selected.value);
    forall k | 0 <= k < |selected.value| ensures IsRequested(FramesOf(selected.value)[k].timestamp, windows) {
      FrameHasCandidate(selected.value, k);
    }
  }

  method DepositFrames(ctx: RunContext, env: Environment, frames: seq<ExtractedFrame>, arguments: ToolArguments,
                       ghost span: TraceSpan)
    returns (r: Outcome<ToolResult>)
    requires ctx.Valid() && ctx.Holds(span) && ctx.Tally().spans.InSpan? && ctx.probe.Some?
    requires arguments.SampleArguments? && InRequestedOrder(frames, arguments.windows)
    modifies ctx`evidence, ctx`allocatedIds, ctx`idCounters
    modifies ctx.bundle`sequence, ctx.bundle`events, ctx.bundle`issuedIds, ctx.bundle`evidenceFiles
    ensures ctx.Valid() && ctx.Holds(span)
    ensures Grew(old(ctx.evidence), ctx.evidence, SampleEvidenceBody, arguments, ctx.probe.value.durationSeconds)
    ensures Deposited(old(ctx.Tally()), ctx.Tally(), |ctx.evidence| - |old(ctx.evidence)|)
    ensures |ctx.evidence| - |old(ctx.evidence)| <= |frames|
    ensures r.Raised? ==> r.exn == Raise(ValidationFailure) || r.exn == Raise(OtherFailure)
    ensures r.Ok? ==>
      && |ctx.evidence| == |old(ctx.evidence)| + |frames|
      && r.value.status.ToolCompleted? && r.value.frameCount == Some(|frames|)
  {
    hide RunContext.Tally, PairingOf, RunContext.Valid, RunContext.Holds, Grew, IsRequested;
    GrewNothing(ctx.evidence, SampleEvidenceBody, arguments, ctx.probe.value.durationSeconds);
    var ids: seq<string> := [];
    for k := 0 to |frames|
      invariant ctx.Valid() && ctx.Holds(span) && |ids| == k
      invariant |ctx.evidence| == |old(ctx.evidence)| + k
      invariant k > 0 ==> ctx.evidence[|ctx.evidence| - 1].startSeconds == frames[k - 1].timestamp
      invariant Grew(old(ctx.evidence), ctx.evidence, SampleEvidenceBody, arguments, ctx.probe.value.durationSeconds)
      invariant Deposited(old(ctx.Tally()), ctx.Tally(), k)
    {
      ghost var before := ctx.evidence;
      var added := Deposit(ctx, env, FramePrefix, frames[k].timestamp, frames[k].timestamp, Frame, None, true,
                           ModelSelected);
      if added.Raised? {
        return Raised(added.exn);
      }
      GrewOne(old(ctx.evidence), before, ctx.evidence[|before|], SampleEvidenceBody, arguments,
              ctx.probe.value.durationSeconds);
      ids := ids + [added.value];
    }
    return Ok(ToolResult(ToolCompleted, ids, Some(|ids|), ZERO_USAGE));
  }

  /** Transcribe the requested windows, or the whole range. */
  method TranscribeAudio(ctx: RunContext, env: Environment, arguments: ToolArguments, ghost span: TraceSpan)
    returns (r: Outcome<ToolResult>)
    requires ctx.Valid() && ctx.Holds(span) && ctx.Tally().spans.InSpan? && ctx.probe.Some?
    requires Matches(TranscribeAudioBody, arguments)
    modifies ctx`evidence, ctx`allocatedIds, ctx`idCounters, env`exits
    modifies ctx.bundle`sequence, ctx.bundle`events, ctx.bundle`issuedIds, ctx.bundle`evidenceFiles
    ensures ctx.Valid() && ctx.Holds(span)
    ensures Grew(old(ctx.evidence), ctx.evidence, TranscribeAudioBody, arguments, ctx.probe.value.durationSeconds)
    ensures Deposited(old(ctx.Tally()), ctx.Tally(), |ctx.evidence| - |old(ctx.evidence)|)
    ensures env.exits == old(env.exits) + (if r.Raised? && r.exn.kind.Exit? then 1 else 0)
    ensures IsToolAnswer(r, arguments.audioWindows, ctx.probe.value.durationSeconds)
    ensures r.Ok? ==> r.value.frameCount == None
    ensures r.Ok? && r.value.status.ToolSkipped? ==>
      ctx.evidence == old(ctx.evidence) && (!ctx.probe.value.hasAudio || !ctx.hasRecognizer)
    ensures r.Ok? && r.value.status.ToolCompleted? ==>
      |ctx.evidence| == |old(ctx.evidence)| + |AudioWindows(arguments, ctx.probe.value.durationSeconds)|
  {
    hide RunContext.Tally, PairingOf, RunContext.Valid, RunContext.Holds, Grew;
    GrewNothing(ctx.evidence, TranscribeAudioBody, arguments, ctx.probe.value.durationSeconds);
    if !ctx.probe.value.hasAudio || !ctx.hasRecognizer {
      return Ok(ToolResult(ToolSkipped, [], None, ZERO_USAGE));
    }
    var windows := AudioWindows(arguments, ctx.probe.value.durationSeconds);
    if arguments.audioWindows == [] && !ValidWindow(windows[0]) {
      return Raised(Raise(ValidationFailure));
    }
    if !WithinDuration(windows, ctx.probe.value.durationSeconds) {
      return Raised(Raise(WindowEscapes));
    }
    r := TranscribeWindows(ctx, env, windows, arguments, span);
  }

  method TranscribeWindows(ctx: RunContext, env: Environment, windows: seq<Window>, arguments: ToolArguments,
                           ghost span: TraceSpan)
    returns (r: Outcome<ToolResult>)
    requires ctx.Valid() && ctx.Holds(span) && ctx.Tally().spans.InSpan? && ctx.probe.Some?
    requires arguments.AudioArguments? && windows == AudioWindows(arguments, ctx.probe.value.durationSeconds)
    modifies ctx`evidence, ctx`allocatedIds, ctx`idCounters, env`exits
    modifies ctx.bundle`sequence, ctx.bundle`events, ctx.bundle`issuedIds, ctx.bundle`evidenceFiles
    ensures ctx.Valid() && ctx.Holds(span)
    ensures Grew(old(ctx.evidence), ctx.evidence, TranscribeAudioBody, arguments, ctx.probe.value.durationSeconds)
    ensures Deposited(old(ctx.Tally()), ctx.Tally(), |ctx.evidence| - |old(ctx.evidence)|)
    ensures IsAnswer(r) && env.exits == old(env.exits) + (if r.Raised? && r.exn.kind.Exit? then 1 else 0)
    ensures r.Ok? ==>
      && r.value.frameCount == None && r.value.status.ToolCompleted?
      && |ctx.evidence| == |old(ctx.evidence)| + |windows|
  {
    hide RunContext.Tally, PairingOf, RunContext.Valid, RunContext.Holds, Grew, Deposited, Usage.Plus;
    GrewNothing(ctx.evidence, TranscribeAudioBody, arguments, ctx.probe.value.durationSeconds);
    DepositedNone(ctx.Tally());
    var ids: seq<string> := [];
    var usage := ZERO_USAGE;
    for k := 0 to |windows|
      invariant ctx.Valid() && ctx.Holds(span) && |ids| == k && ctx.Tally().spans == old(ctx.Tally()).spans
      invariant |ctx.evidence| == |old(ctx.evidence)| + k
      invariant Grew(old(ctx.evidence), ctx.evidence, TranscribeAudioBody, arguments, ctx.probe.value.durationSeconds)
      invariant Deposited(old(ctx.Tally()), ctx.Tally(), k)
      invariant env.exits == old(env.exits)
    {
      ghost var before, tally := ctx.evidence, ctx.Tally();
      var heard := TranscribeWindow(ctx, env, windows[k], span);
      if heard.Raised? {
        return Raised(heard.exn);
      }
      GrewOne(old(ctx.evidence), before, ctx.evidence[|before|], TranscribeAudioBody, arguments,
              ctx.probe.value.durationSeconds);
      DepositedMore(old(ctx.Tally()), tally, ctx.Tally(), k);
      ids, usage := ids + [heard.value.0], usage.Plus(heard.value.1);
    }
    return Ok(ToolResult(ToolCompleted, ids, None, usage));
  }

  /** Transcribe one window and store its transcript. */
  method TranscribeWindow(ctx: RunContext, env: Environment, window: Window, ghost span: TraceSpan)
    returns (r: Outcome<(string, Usage)>)
    requires ctx.Valid() && ctx.Holds(span) && ctx.Tally().spans.InSpan?
    modifies ctx`evidence, ctx`allocatedIds, ctx`idCounters, env`exits
    modifies ctx.bundle`sequence, ctx.bundle`events, ctx.bundle`issuedIds, ctx.bundle`evidenceFiles
    ensures ctx.Valid() && ctx.Holds(span)
    ensures IsAnswer(r) && env.exits == old(env.exits) + Count(r.Raised? && r.exn.kind.Exit?)
    ensures r.Raised? ==> ctx.evidence == old(ctx.evidence) && ctx.Tally() == old(ctx.Tally())
    ensures r.Ok? ==>
      && Deposited(old(ctx.Tally()), ctx.Tally(), 1)
      && |ctx.evidence| == |old(ctx.evidence)| + 1
      && ctx.evidence == old(ctx.evidence) + [ctx.evidence[|old(ctx.evidence)|]]
      && var item := ctx.evidence[|old(ctx.evidence)|];
         && item.startSeconds == window.startSeconds && item.endSeconds == window.endSeconds
         && item.modality.Transcript? && item.budgetClass.ModelSelected?
  {
    hide RunContext.Tally, RunContext.Valid, RunContext.Holds, Deposited;
    var heard := env.Transcribe(window);
    if heard.Raised? {
      return Raised(heard.exn);
    }
    var added := Deposit(ctx, env, TranscriptPrefix, window.startSeconds, window.endSeconds, Transcript,
                         Some(heard.value.text), false, ModelSelected);
    if added.Raised? {
      return Raised(added.exn);
    }
    return Ok((added.value, heard.value.usage));
  }

  /** Allocate an id and use it for nothing yet. */
  method AllocateOnly(ctx: RunContext, prefix: IdPrefix, ghost span: TraceSpan)
    requires ctx.Valid() && ctx.Holds(span)
    modifies ctx`allocatedIds, ctx`idCounters
    ensures ctx.Valid() && ctx.Holds(span)
  {
    hide AuditOf, PairingOf;
    var id := ctx.NextId(prefix);
  }

  /** Another plugin's tool: it may make any requests of the evidence sink, in any order. */
  method RunCustomTool(ctx: RunContext, env: Environment, arguments: ToolArguments, ghost span: TraceSpan)
    returns (r: Outcome<ToolResult>)
    requires ctx.Valid() && ctx.Holds(span) && ctx.Tally().spans.InSpan?
    modifies ctx`evidence, ctx`allocatedIds, ctx`idCounters, env`exits
    modifies ctx.bundle`sequence, ctx.bundle`events, ctx.bundle`issuedIds, ctx.bundle`evidenceFiles
    ensures ctx.Valid() && ctx.Holds(span)
    ensures old(ctx.evidence) <= ctx.evidence
    ensures Deposited(old(ctx.Tally()), ctx.Tally(), |ctx.evidence| - |old(ctx.evidence)|)
    ensures IsAnswer(r) && env.exits == old(env.exits) + (if r.Raised? && r.exn.kind.Exit? then 1 else 0)
  {
    hide RunContext.Tally, PairingOf, RunContext.Valid, RunContext.Holds;
    var requests: seq<SinkRequest>;
    requests, r := env.RunPlugin();
    for k := 0 to |requests|
      invariant ctx.Valid() && ctx.Holds(span)
      invariant IsAnswer(r) && env.exits == old(env.exits) + (if r.Raised? && r.exn.kind.Exit? then 1 else 0)
      invariant old(ctx.evidence) <= ctx.evidence
      invariant Deposited(old(ctx.Tally()), ctx.Tally(), |ctx.evidence| - |old(ctx.evidence)|)
    {
      match requests[k]
      case AllocateId(prefix) =>
        AllocateOnly(ctx, prefix, span);
      case Store(item, artifactOk) =>
        if ValidRange(item.startSeconds, item.endSeconds) {
          var added := ctx.Add(item, artifactOk);
        }
    }
  }
}
