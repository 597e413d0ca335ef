/** Per-run state: evidence accounting, counters and the ledger they are audited in. */
module RunContexts {
  import opened Characters
  import opened Contracts
  import opened EvidenceIds
  import opened Ledger
  import opened Sampling
  import opened TraceRecording
  import opened Verifier

  /** What one tool call left for the agent to read. */
  datatype ToolSummary = ToolSummary(tool: string, status: ToolStatus, evidenceIds: seq<string>)

  /** A canonical call. The SHA-256 digest of the name and arguments is modelled as injective. */
  datatype Fingerprint = Fingerprint(tool: string, arguments: ToolArguments)

  /** Collected evidence is uniquely identified, kernel-allocated and stored in the bundle. */
  ghost predicate EvidenceSound(evidence: seq<Evidence>, ids: set<string>, files: map<string, Evidence>) {
    && DistinctIds(evidence)
    && (forall i :: 0 <= i < |evidence| ==>
          && evidence[i].id in ids
          && evidence[i].id in files && files[evidence[i].id] == evidence[i]
          && ValidRange(evidence[i].startSeconds, evidence[i].endSeconds))
  }

  lemma EvidenceSoundAppend(evidence: seq<Evidence>, ids: set<string>, files: map<string, Evidence>, item: Evidence)
    requires EvidenceSound(evidence, ids, files) && item.id in ids
    requires forall i :: 0 <= i < |evidence| ==> evidence[i].id != item.id
    requires ValidRange(item.startSeconds, item.endSeconds)
    ensures EvidenceSound(evidence + [item], ids, files[item.id := item])
  {
  }

  /** The counters of a run, the requests that were never built, and the frames it holds. */
  datatype Counters = Counters(modelCalls: nat, toolCalls: nat, iterations: nat, unbuilt: nat, frames: nat)

  /** A ledger's counts agree with a run's counters but for the calls just counted, within the policy's limits. */
  ghost predicate Agree(tally: Audit, policy: HarnessPolicy, c: Counters, tools: nat, unseen: nat, models: nat) {
    && tally.requests + models + c.unbuilt == c.modelCalls <= policy.maxModelCalls
    && tally.toolStarts + unseen == c.toolCalls <= policy.maxToolCalls
    && c.iterations <= policy.maxIterations
    && tally.budgetsOrdered
    && match tally.lastBudget
       case None => c.modelCalls == models + c.unbuilt && c.toolCalls == tools && c.iterations == 0
       case Some(b) =>
         b.modelCalls + models + c.unbuilt == c.modelCalls && b.toolCalls + tools == c.toolCalls
         && b.iterations == c.iterations
         && b.evidenceFrames <= c.frames
  }

  /** Events that count nothing, and frames that only grow, change no agreement. */
  lemma StillAgree(before: Audit, after: Audit, policy: HarnessPolicy, c: Counters, d: Counters, tools: nat,
                   unseen: nat, models: nat)
    requires Agree(before, policy, c, tools, unseen, models) && d == c.(frames := d.frames) && c.frames <= d.frames
    requires after.requests == before.requests && after.toolStarts == before.toolStarts
    requires after.lastBudget == before.lastBudget && after.budgetsOrdered == before.budgetsOrdered
    ensures Agree(after, policy, d, tools, unseen, models)
  {
  }

  /** A call is counted before the ledger shows any of it. */
  lemma CountedAgree(tally: Audit, policy: HarnessPolicy, c: Counters, d: Counters, tools: nat, models: nat)
    requires Agree(tally, policy, c, 0, 0, 0)
    requires d == c.(modelCalls := c.modelCalls + models, toolCalls := c.toolCalls + tools)
    requires (models > 0 ==> d.modelCalls <= policy.maxModelCalls) && (tools > 0 ==> d.toolCalls <= policy.maxToolCalls)
    ensures Agree(tally, policy, d, tools, tools, models)
  {
  }

  /** A model call whose request cannot be built is counted as unbuilt instead. */
  lemma UnbuiltAgrees(tally: Audit, policy: HarnessPolicy, c: Counters, d: Counters)
    requires Agree(tally, policy, c, 0, 0, 1) && d == c.(unbuilt := c.unbuilt + 1)
    ensures Agree(tally, policy, d, 0, 0, 0)
  {
  }

  /** A span that opens for a call just counted shows it. */
  lemma OpenedAgree(before: Audit, after: Audit, policy: HarnessPolicy, c: Counters, tools: nat, models: nat)
    requires Agree(before, policy, c, tools, tools, models)
    requires after.requests == before.requests && after.toolStarts == before.toolStarts + tools
    requires after.lastBudget == before.lastBudget && after.budgetsOrdered == before.budgetsOrdered
    ensures Agree(after, policy, c, tools, 0, models)
  {
  }

  /** A snapshot taken once a call's span has closed catches up with the counters, which only grew. */
  lemma SnapshotAgrees(before: Audit, after: Audit, policy: HarnessPolicy, c: Counters, d: Counters, tools: nat,
                       models: nat)
    requires Agree(before, policy, c, tools, 0, models) && c.unbuilt == 0
    requires d == c.(iterations := d.iterations, frames := d.frames)
    requires c.iterations == d.iterations || c.iterations <= d.iterations <= policy.maxIterations
    requires c.frames <= d.frames
    requires after.requests == before.requests + models && after.toolStarts == before.toolStarts
    requires after.lastBudget == Some(Budget(d.iterations, d.toolCalls, d.modelCalls, d.frames))
    requires after.budgetsOrdered == (before.budgetsOrdered && Rises(before.lastBudget, after.lastBudget.value))
    ensures Agree(after, policy, d, 0, 0, 0)
  {
  }

  class RunContext {
    const policy: HarnessPolicy
    const bundle: RunBundle
    const trace: TraceRecorder
    const adapter: TaskAdapter
    const hasAgentModel: bool
    const hasRecognizer: bool
    const hasResultWriter: bool
    const registeredSubtitle: Option<string>
    const videoKind: VideoKind
    var probe: Option<MediaProbe>
    var evidence: seq<Evidence>
    var output: Option<Output>
    var verification: Option<Verification>
    var terminalState: Option<TerminalState>
    var toolResults: seq<ToolSummary>
    var verifierFeedback: Option<Feedback>
    var callFingerprints: set<Fingerprint>
    var formatRepairUsed: bool
    var modelCalls: nat
    var toolCalls: nat
    var iterations: nat
    var allocatedIds: set<string>
    var idCounters: map<IdPrefix, nat>
    var artifactCalls: nat
    /** Model calls counted for which no request could be built. */
    ghost var unbuilt: nat
    /** The span that encloses the whole run, once it is open. */
    ghost var runSpan: Option<TraceSpan>

    constructor (policy: HarnessPolicy, bundle: RunBundle, trace: TraceRecorder, adapter: TaskAdapter,
                 hasAgentModel: bool, hasRecognizer: bool, hasResultWriter: bool, registeredSubtitle: Option<string>,
                 videoKind: VideoKind)
      requires policy.Valid() && trace.bundle == bundle && trace.Valid() && !bundle.finalized
      requires bundle.events == [] && bundle.sequence == 0 && bundle.evidenceFiles == map[]
      ensures this.policy == policy && this.bundle == bundle && this.trace == trace && this.adapter == adapter
      ensures this.hasAgentModel == hasAgentModel && this.hasRecognizer == hasRecognizer
      ensures this.hasResultWriter == hasResultWriter && this.registeredSubtitle == registeredSubtitle
      ensures this.videoKind == videoKind
      ensures IsFresh() && Valid()
    {
      this.policy, this.bundle, this.trace, this.adapter := policy, bundle, trace, adapter;
      this.hasAgentModel, this.hasRecognizer := hasAgentModel, hasRecognizer;
      this.hasResultWriter, this.registeredSubtitle := hasResultWriter, registeredSubtitle;
      this.videoKind := videoKind;
      probe, evidence, output, verification, terminalState := None, [], None, None, None;
      toolResults, verifierFeedback, callFingerprints, formatRepairUsed := [], None, {}, false;
      modelCalls, toolCalls, iterations := 0, 0, 0;
      allocatedIds, idCounters, artifactCalls := {}, map[], 0;
      runSpan := None;
      unbuilt := 0;
    }

    ghost function Tally(): Audit
      reads bundle
    {
      AuditOf(bundle.events)
    }

    ghost function Pairs(): Pairing
      reads bundle
    {
      PairingOf(bundle.events)
    }

    /** No run has used this context yet. */
    ghost predicate IsFresh()
      reads this, bundle
    {
      && bundle.events == [] && bundle.sequence == 0 && !bundle.finalized && runSpan.None?
      && probe.None? && evidence == [] && output.None? && verification.None? && terminalState.None?
      && callFingerprints == {} && !formatRepairUsed
      && modelCalls == 0 && toolCalls == 0 && iterations == 0 && unbuilt == 0
    }

    /** The run span, once open, stays open and is the one the ledger's spans sit in. */
    ghost predicate RunHeld()
      reads `runSpan, bundle, trace
    {
      match runSpan
      case None => Tally().spans.NotStarted?
      case Some(span) =>
        && trace.bundle == bundle && trace.Issued(span) && span.eventId !in trace.finished && span.base.RunBase?
        && match Tally().spans
           case Idle(run) => run == span.correlationId
           case InSpan(run, base, correlation) => run == span.correlationId && !base.RunBase? && correlation != run
           case _ => false
    }

    /** The ledger is open, gapless and paired; evidence is sound and every addition was recorded. */
    ghost predicate Valid()
      reads `evidence, `allocatedIds, `idCounters, `runSpan, bundle, trace
    {
      && policy.Valid()
      && trace.bundle == bundle && trace.Valid()
      && !bundle.finalized && RunHeld()
      && Tally().numbered && Tally().native && Tally().count == bundle.sequence
      && Tally().added == |evidence|
      && EvidenceSound(evidence, allocatedIds, bundle.evidenceFiles)
      && AllFrom(allocatedIds, idCounters)
    }

    /** The ledger's own counts agree with the counters, and the counters respect the policy. */
    ghost predicate Counted()
      reads `modelCalls, `toolCalls, `iterations, `evidence, `unbuilt, bundle
    {
      CountedBut(0, 0, 0)
    }

    /**
     The same while calls just counted are not in the ledger's last snapshot yet: `tools` tool calls and
     `models` model calls, of which `unseen` and `models` have no closing or opening event either.
     */
    ghost predicate CountedBut(tools: nat, unseen: nat, models: nat)
      reads `modelCalls, `toolCalls, `iterations, `evidence, `unbuilt, bundle
    {
      Agree(Tally(), policy, Counts(), tools, unseen, models)
    }

    ghost function Counts(): Counters
      reads `modelCalls, `toolCalls, `iterations, `evidence, `unbuilt
    {
      Counters(modelCalls, toolCalls, iterations, unbuilt, FrameCount(evidence))
    }

    /** Between phases: the run span alone is open, and the counts agree but for unbuilt requests. */
    ghost predicate Between()
      reads `evidence, `allocatedIds, `idCounters, `modelCalls, `toolCalls, `iterations, `runSpan, `unbuilt
      reads bundle, trace
    {
      Valid() && Counted() && Tally().spans.Idle? && trace.origin.Some? && runSpan.Some?
    }

    /** The same, and every request counted so far was built: every count agrees, and the run may go on. */
    ghost predicate Ready()
      reads `evidence, `allocatedIds, `idCounters, `modelCalls, `toolCalls, `iterations, `runSpan, `unbuilt
      reads bundle, trace
    {
      Between() && unbuilt == 0
    }

    /** The span is the one open in the ledger, and its recorder has not finished it. */
    ghost predicate Holds(span: TraceSpan)
      reads bundle, trace
    {
      && trace.bundle == bundle && trace.Issued(span) && span.eventId !in trace.finished
      && Tally().spans.InSpan? && Tally().spans.base == span.base && Tally().spans.correlation == span.correlationId
    }

    /** The run span is open and nothing else has happened yet. */
    ghost predicate Unused()
      reads this, bundle
    {
      && probe.None? && evidence == [] && output.None? && verification.None? && terminalState.None?
      && callFingerprints == {} && !formatRepairUsed
      && modelCalls == 0 && toolCalls == 0 && iterations == 0 && unbuilt == 0
      && Tally().repairs == 0 && Tally().formatErrors == 0 && Tally().lastSampled.None?
    }

    /** Append an event that belongs to no span. */
    method Note(phase: string, payload: Payload, eventType: EventType, status: EventStatus) returns (event: RunEvent)
      requires trace.bundle == bundle && trace.Valid() && !bundle.finalized
      requires PlainPhase(phase) && !eventType.SpanEvent?
      modifies bundle`sequence, bundle`events, bundle`issuedIds
      ensures !bundle.finalized && trace.Valid() && Pairs() == old(Pairs())
      ensures bundle.issuedIds >= old(bundle.issuedIds)
      ensures bundle.sequence == old(bundle.sequence) + 1 && bundle.events == old(bundle.events) + [event]
      ensures event == RunEvent(bundle.sequence, phase, payload, event.eventId, Some(eventType), None, None,
                                Some(status), None, None)
      ensures Tally() == NextAudit(old(Tally()), event)
    {
      hide AuditOf, PairingOf, Strip, TypeFits, PhaseFits;
      NativeTypeFits(eventType);
      var id := bundle.FreshId();
      var appended := bundle.AppendEvent(phase, payload, id, eventType, None, None, status, None, None);
      event := appended.value;
    }

    /** Allocate the next sequential evidence id for one modality; it was never allocated before. */
    method NextId(prefix: IdPrefix) returns (id: string)
      requires AllFrom(allocatedIds, idCounters)
      modifies `idCounters, `allocatedIds
      ensures id !in old(allocatedIds) && allocatedIds == old(allocatedIds) + {id}
      ensures prefix in idCounters && id == FormatId(prefix, idCounters[prefix])
      ensures idCounters == old(idCounters)[prefix := idCounters[prefix]]
      ensures AllFrom(allocatedIds, idCounters)
    {
      var counter := (if prefix in idCounters then idCounters[prefix] else 0) + 1;
      NextIdFresh(allocatedIds, idCounters, prefix, counter);
      idCounters := idCounters[prefix := counter];
      id := FormatId(prefix, counter);
      allocatedIds := allocatedIds + {id};
    }

    /**
     Persist one allocated, new evidence item and record it. `artifactOk` is whether its artifact, if
     any, is an existing file beneath the bundle's artifacts directory.
     */
    method Add(item: Evidence, artifactOk: bool) returns (r: Outcome<string>)
      requires Valid() && ValidRange(item.startSeconds, item.endSeconds)
      requires Tally().spans.Idle? || Tally().spans.InSpan?
      modifies this`evidence, bundle`sequence, bundle`events, bundle`issuedIds, bundle`evidenceFiles
      ensures Valid() && Pairs() == old(Pairs()) && bundle.issuedIds >= old(bundle.issuedIds)
      ensures forall span :: old(Holds(span)) ==> Holds(span)
      ensures r.Ok? <==> item.id in allocatedIds && item.id !in Ids(old(evidence)) && (item.hasArtifact ==> artifactOk)
      ensures r.Ok? ==>
        && evidence == old(evidence) + [item] && r.value == item.id
        && Tally() == old(Tally()).(count := old(Tally()).count + 1, added := old(Tally()).added + 1)
      ensures r.Raised? ==> r.exn == Raise(OtherFailure) && evidence == old(evidence) && Tally() == old(Tally())
    {
      hide AuditOf, PairingOf, RunContext.Valid, RunContext.Holds;
      if item.id !in allocatedIds {
        return Raised(Raise(OtherFailure));
      }
      if exists i :: 0 <= i < |evidence| && evidence[i].id == item.id {
        return Raised(Raise(OtherFailure));
      }
      if item.hasArtifact && !artifactOk {
        return Raised(Raise(OtherFailure));
      }
      Record(item);
      return Ok(item.id);
    }

    /** Write a new item's record and announce it. */
    method Record(item: Evidence)
      requires Valid() && ValidRange(item.startSeconds, item.endSeconds)
      requires Tally().spans.Idle? || Tally().spans.InSpan?
      requires item.id in allocatedIds && item.id !in Ids(evidence)
      modifies this`evidence, bundle`sequence, bundle`events, bundle`issuedIds, bundle`evidenceFiles
      ensures Valid() && Pairs() == old(Pairs()) && bundle.issuedIds >= old(bundle.issuedIds)
      ensures forall span :: old(Holds(span)) ==> Holds(span)
      ensures evidence == old(evidence) + [item]
      ensures Tally() == old(Tally()).(count := old(Tally()).count + 1, added := old(Tally()).added + 1)
    {
      hide AuditOf, PairingOf, NextAudit, IsFileName, AllFrom, EvidenceSound, PlainPhase;
      AllocatedIsFileName(allocatedIds, idCounters, item.id);
      KernelPhases();
      var written := bundle.WriteEvidence(item);
      var event := Note("evidence.added", EvidencePayload(item.id), EvidenceAdded, Completed);
      AuditAdds(old(Tally()), event);
      EvidenceSoundAppend(evidence, allocatedIds, old(bundle.evidenceFiles), item);
      evidence := evidence + [item];
    }
  }

  lemma AllocatedIsFileName(ids: set<string>, counters: map<IdPrefix, nat>, id: string)
    requires AllFrom(ids, counters) && id in ids
    ensures IsFileName(id)
  {
    var p, k: nat :| p in counters && k <= counters[p] && id == FormatId(p, k);
  }
}
