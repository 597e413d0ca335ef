/** Ledger events, the append-only run bundle that stores them, and what an audit of a ledger sees. */
module Ledger {
  import opened Characters
  import opened Contracts

  datatype EventStatus = Started | Completed | StatusFailed | StatusBlocked | Skipped

  /** What a span measures. The recorder accepts any well-formed base type; the kernel opens four. */
  datatype Base = RunBase | ProbeBase | ToolCallBase | ModelRequestBase | OtherBase(text: string)

  datatype EventType =
    | SpanEvent(base: Base, status: EventStatus)
    | BudgetUpdated
    | PhaseCompleted
    | EvidenceAdded
    | VerifierCompleted
    | AgentDecision
    | RepairRequested

  datatype Budget = Budget(iterations: nat, toolCalls: nat, modelCalls: nat, evidenceFrames: nat)
  {
    predicate AtMost(other: Budget) {
      && iterations <= other.iterations && toolCalls <= other.toolCalls
      && modelCalls <= other.modelCalls && evidenceFrames <= other.evidenceFrames
    }
  }

  /** The validated arguments a tool call runs with. */
  datatype ToolArguments =
    | SampleArguments(windows: seq<Window>, maxFrames: int)
    | AudioArguments(audioWindows: seq<Window>)
    | CustomArguments(rest: nat)

  datatype Payload =
    | NoPayload
    | BudgetPayload(budget: Budget)
    | ToolPayload(tool: string, arguments: ToolArguments)
    | PhasePayload(status: ToolStatus, frameCount: Option<nat>)
    | EvidencePayload(evidenceId: string)
    | VerdictPayload(passed: bool, failedGates: seq<Gate>)
    | FeedbackPayload(feedback: Feedback)
    | DecisionPayload(toolCalls: seq<string>)
    | TerminalPayload(terminalState: TerminalState, failed: bool)

  datatype RunEvent = RunEvent(
    sequence: nat,
    phase: string,
    payload: Payload,
    eventId: Option<nat>,
    eventType: Option<EventType>,
    correlationId: Option<nat>,
    offsetMs: Option<int>,
    status: Option<EventStatus>,
    usage: Option<Usage>,
    durationMs: Option<int>)

  /** The event schema's lower bounds on measured times. */
  predicate ValidTimes(offsetMs: Option<int>, durationMs: Option<int>) {
    (offsetMs.Some? ==> 0 <= offsetMs.value) && (durationMs.Some? ==> 0 <= durationMs.value)
  }

  function StatusText(status: EventStatus): string {
    match status
    case Started => "started"
    case Completed => "completed"
    case StatusFailed => "failed"
    case StatusBlocked => "blocked"
    case Skipped => "skipped"
  }

  function BaseText(base: Base): string {
    match base
    case RunBase => "run"
    case ProbeBase => "probe"
    case ToolCallBase => "tool.call"
    case ModelRequestBase => "model.request"
    case OtherBase(text) => text
  }

  function Text(eventType: EventType): string {
    match eventType
    case SpanEvent(base, status) => BaseText(base) + "." + StatusText(status)
    case BudgetUpdated => "budget.updated"
    case PhaseCompleted => "phase.completed"
    case EvidenceAdded => "evidence.added"
    case VerifierCompleted => "verifier.completed"
    case AgentDecision => "agent.decision"
    case RepairRequested => "repair.requested"
  }

  /** The event schema strips a phase and bounds what is left. */
  predicate PhaseFits(phase: string) {
    1 <= |Strip(phase)| <= 128
  }

  predicate TypeFits(eventType: EventType) {
    |Text(eventType)| <= 128
  }

  /** A phase the schema accepts as it stands. */
  predicate PlainPhase(phase: string) {
    PhaseFits(phase) && Strip(phase) == phase
  }

  lemma EndsMakePlain(phase: string)
    requires 1 <= |phase| <= 128 && !IsSpace(phase[0]) && !IsSpace(phase[|phase| - 1])
    ensures PlainPhase(phase)
  {
  }

  /** The phases the kernel records under are plain. */
  lemma KernelPhases()
    ensures PlainPhase("run") && PlainPhase("terminal") && PlainPhase("budget") && PlainPhase("probe_media")
    ensures PlainPhase("synthesize_result") && PlainPhase("agent_decision") && PlainPhase("agent.decision")
    ensures PlainPhase("verify_claims") && PlainPhase("repair.requested") && PlainPhase("evidence.added")
    ensures PlainPhase("prepare_direct_baseline") && PlainPhase(SAMPLE_EVIDENCE) && PlainPhase(TRANSCRIBE_AUDIO)
  {
    hide PlainPhase;
    EndsMakePlain("run");
    EndsMakePlain("terminal");
    EndsMakePlain("budget");
    EndsMakePlain("probe_media");
    EndsMakePlain("synthesize_result");
    EndsMakePlain("agent_decision");
    EndsMakePlain("agent.decision");
    EndsMakePlain("verify_claims");
    EndsMakePlain("repair.requested");
    EndsMakePlain("evidence.added");
    EndsMakePlain("prepare_direct_baseline");
    EndsMakePlain(SAMPLE_EVIDENCE);
    EndsMakePlain(TRANSCRIBE_AUDIO);
  }

  /** The decision schema only lets plain names through. */
  lemma ToolNamePlain(name: string)
    requires ValidToolName(name)
    ensures PlainPhase(name)
  {
    EndsMakePlain(name);
  }

  /** A base type of 119 characters: a span of it can start, and cannot complete. */
  lemma LongBaseInput()
    ensures exists text: string ::
      && |text| == 119 && ValidBase(OtherBase(text))
      && TypeFits(SpanEvent(OtherBase(text), Started)) && !TypeFits(SpanEvent(OtherBase(text), Completed))
  {
    var text := seq(119, _ => 'a');
    assert |text| == 119 && DottedName(text);
    assert |Text(SpanEvent(OtherBase(text), Started))| == 119 + 1 + |"started"|;
    assert |Text(SpanEvent(OtherBase(text), Completed))| == 119 + 1 + |"completed"|;
  }

  /** Every event type but those of foreign spans is short enough. */
  lemma NativeTypeFits(eventType: EventType)
    requires eventType.SpanEvent? ==> !eventType.base.OtherBase?
    ensures TypeFits(eventType)
  {
  }

  predicate FitsSchema(phase: string, eventType: EventType, offsetMs: Option<int>, durationMs: Option<int>) {
    PhaseFits(phase) && TypeFits(eventType) && ValidTimes(offsetMs, durationMs)
  }

  /** Where a ledger stands between spans. */
  datatype SpanState =
    | NotStarted
    | Idle(run: nat)
    | InSpan(run: nat, base: Base, correlation: nat)
    | Closed
    | Broken

  /** One pass over a ledger: its span state and everything that can be counted in it. */
  datatype Audit = Audit(
    spans: SpanState,
    count: nat,
    numbered: bool,
    native: bool,
    requests: nat,
    toolStarts: nat,
    repairs: nat,
    formatErrors: nat,
    added: nat,
    lastBudget: Option<Budget>,
    budgetsOrdered: bool,
    lastVerdict: Option<bool>,
    lastSampled: Option<nat>,
    lastClosed: Option<Closing>)

  /** How the last span to close ended. */
  datatype Closing = Closing(base: Base, status: EventStatus)

  const EMPTY_AUDIT := Audit(NotStarted, 0, true, true, 0, 0, 0, 0, 0, None, true, None, None, None)

  const SAMPLE_EVIDENCE := "sample_evidence"
  const TRANSCRIBE_AUDIO := "transcribe_audio"

  function NextSpans(spans: SpanState, event: RunEvent): SpanState {
    match spans
    case NotStarted =>
      if event.eventType == Some(SpanEvent(RunBase, Started)) && event.correlationId.Some?
      then Idle(event.correlationId.value) else Broken
    case Idle(run) =>
      (match event.eventType
       case Some(SpanEvent(base, status)) =>
         if event.correlationId.None? then Broken
         else if base.RunBase? then
           (if status != Started && event.correlationId.value == run then Closed else Broken)
         else if status == Started then InSpan(run, base, event.correlationId.value)
         else Broken
       case _ => spans)
    case InSpan(run, base, correlation) =>
      (match event.eventType
       case Some(SpanEvent(closing, status)) =>
         if status != Started && closing == base && event.correlationId == Some(correlation)
         then Idle(run) else Broken
       case Some(EvidenceAdded) => spans
       case _ => Broken)
    case Closed => Broken
    case Broken => Broken
  }

  /** A finished model request, as the run index counts it. */
  predicate IsModelRequest(event: RunEvent) {
    event.eventType == Some(SpanEvent(ModelRequestBase, Completed))
    || event.eventType == Some(SpanEvent(ModelRequestBase, StatusFailed))
  }

  predicate IsToolStart(event: RunEvent) {
    event.eventType == Some(SpanEvent(ToolCallBase, Started))
  }

  /** The kernel's own event types; only its spans carry usage. */
  predicate IsNative(event: RunEvent) {
    && event.eventType.Some?
    && if event.eventType.value.SpanEvent? then !event.eventType.value.base.OtherBase? else event.usage.None?
  }

  function NextAudit(a: Audit, event: RunEvent): Audit {
    var budget := event.eventType == Some(BudgetUpdated) && event.payload.BudgetPayload?;
    Audit(
      NextSpans(a.spans, event),
      a.count + 1,
      a.numbered && event.sequence == a.count + 1,
      a.native && IsNative(event),
      a.requests + Count(IsModelRequest(event)),
      a.toolStarts + Count(IsToolStart(event)),
      a.repairs + Count(event.eventType == Some(RepairRequested)),
      a.formatErrors + Count(event.eventType == Some(AgentDecision) && event.status == Some(StatusFailed)),
      a.added + Count(event.eventType == Some(EvidenceAdded)),
      if budget then Some(event.payload.budget) else a.lastBudget,
      a.budgetsOrdered && (budget && a.lastBudget.Some? ==> a.lastBudget.value.AtMost(event.payload.budget)),
      if event.eventType == Some(VerifierCompleted) && event.payload.VerdictPayload?
        then Some(event.payload.passed) else a.lastVerdict,
      if event.eventType == Some(PhaseCompleted) && event.phase == SAMPLE_EVIDENCE && event.payload.PhasePayload?
        && event.payload.frameCount.Some?
        then event.payload.frameCount else a.lastSampled,
      match event.eventType
      case Some(SpanEvent(base, status)) => if status == Started then a.lastClosed else Some(Closing(base, status))
      case _ => a.lastClosed)
  }

  function AuditOf(events: seq<RunEvent>): Audit {
    if |events| == 0 then EMPTY_AUDIT
    else NextAudit(AuditOf(events[..|events| - 1]), events[|events| - 1])
  }

  /** A native event that continues the numbering of a gapless ledger. */
  predicate Follows(a: Audit, event: RunEvent) {
    a.numbered && a.native && event.sequence == a.count + 1 && IsNative(event)
  }

  lemma AuditOpens(a: Audit, event: RunEvent)
    requires a.spans.Idle? && Follows(a, event) && Opens(event) && !event.eventType.value.base.RunBase?
    ensures NextAudit(a, event) == a.(
      count := a.count + 1,
      spans := InSpan(a.spans.run, event.eventType.value.base, event.correlationId.value),
      toolStarts := a.toolStarts + Count(event.eventType.value.base.ToolCallBase?))
  {
  }

  lemma AuditCloses(a: Audit, event: RunEvent)
    requires a.spans.InSpan? && Follows(a, event) && Closes(event)
    requires event.eventType.value.base == a.spans.base && event.correlationId.value == a.spans.correlation
    ensures NextAudit(a, event) == a.(
      count := a.count + 1,
      spans := Idle(a.spans.run),
      lastClosed := Some(Closing(a.spans.base, event.eventType.value.status)),
      requests := a.requests + Count(a.spans.base.ModelRequestBase?
                                     && (event.eventType.value.status.Completed?
                                         || event.eventType.value.status.StatusFailed?)))
  {
  }

  lemma AuditRunOpens(event: RunEvent)
    requires event.sequence == 1 && Opens(event) && event.eventType.value.base.RunBase?
    ensures NextAudit(EMPTY_AUDIT, event) == EMPTY_AUDIT.(count := 1, spans := Idle(event.correlationId.value))
  {
  }

  lemma AuditRunCloses(a: Audit, event: RunEvent)
    requires a.spans.Idle? && Follows(a, event) && Closes(event)
    requires event.eventType.value.base.RunBase? && event.correlationId.value == a.spans.run
    ensures NextAudit(a, event) == a.(
      count := a.count + 1,
      spans := Closed,
      lastClosed := Some(Closing(RunBase, event.eventType.value.status)))
  {
  }

  lemma AuditAdds(a: Audit, event: RunEvent)
    requires (a.spans.Idle? || a.spans.InSpan?) && Follows(a, event) && event.eventType == Some(EvidenceAdded)
    ensures NextAudit(a, event) == a.(count := a.count + 1, added := a.added + 1)
  {
  }

  /** The budget snapshot does not fall below the one before it. */
  predicate Rises(last: Option<Budget>, budget: Budget) {
    last.Some? ==> last.value.AtMost(budget)
  }

  lemma AuditBudgets(a: Audit, event: RunEvent)
    requires a.spans.Idle? && Follows(a, event)
    requires event.eventType == Some(BudgetUpdated) && event.payload.BudgetPayload?
    ensures NextAudit(a, event) == a.(
      count := a.count + 1,
      lastBudget := Some(event.payload.budget),
      budgetsOrdered := a.budgetsOrdered && Rises(a.lastBudget, event.payload.budget))
  {
  }

  lemma AuditCompletes(a: Audit, event: RunEvent)
    requires a.spans.Idle? && Follows(a, event) && event.eventType == Some(PhaseCompleted)
    ensures NextAudit(a, event) == a.(
      count := a.count + 1,
      lastSampled := if event.phase == SAMPLE_EVIDENCE && event.payload.PhasePayload? && event.payload.frameCount.Some?
        then event.payload.frameCount else a.lastSampled)
  {
  }

  lemma AuditVerifies(a: Audit, event: RunEvent)
    requires a.spans.Idle? && Follows(a, event)
    requires event.eventType == Some(VerifierCompleted) && event.payload.VerdictPayload?
    ensures NextAudit(a, event) == a.(count := a.count + 1, lastVerdict := Some(event.payload.passed))
  {
  }

  lemma AuditDecides(a: Audit, event: RunEvent)
    requires a.spans.Idle? && Follows(a, event) && event.eventType == Some(AgentDecision)
    ensures NextAudit(a, event) == a.(
      count := a.count + 1,
      formatErrors := a.formatErrors + Count(event.status == Some(StatusFailed)))
  {
  }

  lemma AuditRepairs(a: Audit, event: RunEvent)
    requires a.spans.Idle? && Follows(a, event) && event.eventType == Some(RepairRequested)
    ensures NextAudit(a, event) == a.(count := a.count + 1, repairs := a.repairs + 1)
  {
  }

  lemma AuditAppend(events: seq<RunEvent>, event: RunEvent)
    ensures AuditOf(events + [event]) == NextAudit(AuditOf(events), event)
  {
    assert (events + [event])[..|events|] == events;
  }

  /** An event that opens or closes a span, as the recorder writes it. */
  predicate Opens(event: RunEvent) {
    && event.correlationId.Some? && event.eventId.Some? && event.offsetMs.Some?
    && event.eventType.Some? && event.eventType.value.SpanEvent?
    && event.eventType.value.status == Started && event.status == Some(Started)
  }

  predicate Closes(event: RunEvent) {
    && event.correlationId.Some? && event.offsetMs.Some? && event.durationMs.Some?
    && event.eventType.Some? && event.eventType.value.SpanEvent?
    && event.eventType.value.status != Started && event.status == Some(event.eventType.value.status)
  }

  /** `start` opened the span that `close` ends, and `close` measured it. */
  predicate Measures(start: RunEvent, close: RunEvent) {
    && Opens(start) && Closes(close)
    && start.correlationId == close.correlationId
    && start.eventType.value.base == close.eventType.value.base
    && close.durationMs.value == close.offsetMs.value - start.offsetMs.value
    && 0 <= close.durationMs.value
  }

  /** Names of lower-case letters, digits and underscores, each starting with a letter, joined by dots. */
  predicate DottedName(text: string) {
    && |text| > 0
    && (forall i :: 0 <= i < |text| ==> 'a' <= text[i] <= 'z' || '0' <= text[i] <= '9' || text[i] in "_.")
    && 'a' <= text[0] <= 'z'
    && text[|text| - 1] != '.'
    && (forall i :: 0 < i < |text| && text[i - 1] == '.' ==> 'a' <= text[i] <= 'z')
  }

  /** `^[a-z][a-z0-9_]*(\.[a-z][a-z0-9_]*)*$`, where the dollar sign also lets a final line feed through. */
  predicate ValidBaseText(text: string) {
    || DottedName(text)
    || (|text| > 0 && text[|text| - 1] == '\n' && DottedName(text[..|text| - 1]))
  }

  predicate ValidBase(base: Base) {
    base.OtherBase? ==> ValidBaseText(base.text)
  }

  /** The spans still open after a ledger, and whether it kept the pairing discipline so far. */
  datatype Pairing = Pairing(good: bool, open: map<nat, RunEvent>, seen: set<nat>)

  function NextPairing(p: Pairing, event: RunEvent): Pairing {
    if event.correlationId.None? then p
    else
      var id := event.correlationId.value;
      if Opens(event) then
        Pairing(p.good && id !in p.seen && ValidBase(event.eventType.value.base), p.open[id := event], p.seen + {id})
      else Pairing(p.good && id in p.open && Measures(p.open[id], event), p.open - {id}, p.seen)
  }

  function PairingOf(events: seq<RunEvent>): Pairing {
    if |events| == 0 then Pairing(true, map[], {})
    else NextPairing(PairingOf(events[..|events| - 1]), events[|events| - 1])
  }

  lemma PairingAppend(events: seq<RunEvent>, event: RunEvent)
    ensures PairingOf(events + [event]) == NextPairing(PairingOf(events), event)
  {
    assert (events + [event])[..|events|] == events;
  }

  /**
   The discipline of a recorded ledger: correlation ids appear only on span events, every span is
   opened once and closed at most once, and each close measures its own opening event.
   */
  ghost predicate Paired(events: seq<RunEvent>) {
    && (forall i :: 0 <= i < |events| && events[i].correlationId.Some? ==> Opens(events[i]) || Closes(events[i]))
    && (forall i, j :: 0 <= i < j < |events| && Opens(events[i]) && Opens(events[j]) ==>
          events[i].correlationId != events[j].correlationId)
    && (forall i, j :: 0 <= i < j < |events| && Closes(events[i]) && Closes(events[j]) ==>
          events[i].correlationId != events[j].correlationId)
    && (forall j :: 0 <= j < |events| && Closes(events[j]) ==>
          exists i :: 0 <= i < j && Measures(events[i], events[j]))
  }

  /** Event `i` opened the span the bookkeeping holds open under `id`. */
  ghost predicate HeldAt(events: seq<RunEvent>, open: map<nat, RunEvent>, id: nat, i: int) {
    id in open && 0 <= i < |events| && Opens(events[i]) && events[i] == open[id] && events[i].correlationId == Some(id)
  }

  lemma {:induction false} PairingBooks(events: seq<RunEvent>)
    requires PairingOf(events).good
    ensures forall i :: 0 <= i < |events| && events[i].correlationId.Some? ==>
      events[i].correlationId.value in PairingOf(events).seen
    ensures forall id :: id in PairingOf(events).open ==> id in PairingOf(events).seen
    ensures forall id :: id in PairingOf(events).open ==> exists i :: HeldAt(events, PairingOf(events).open, id, i)
    ensures forall j :: 0 <= j < |events| && Closes(events[j]) ==>
      events[j].correlationId.value !in PairingOf(events).open
  {
    if |events| > 0 {
      var front, last := events[..|events| - 1], events[|events| - 1];
      PairingBooks(front);
      var before, after := PairingOf(front), PairingOf(events);
      forall id | id in after.open ensures exists i :: HeldAt(events, after.open, id, i) {
        if Opens(last) && last.correlationId == Some(id) {
          assert HeldAt(events, after.open, id, |front|);
        } else {
          var i :| HeldAt(front, before.open, id, i);
          assert HeldAt(events, after.open, id, i);
        }
      }
    }
  }

  /** No event so far carries this id. */
  ghost predicate Unseen(events: seq<RunEvent>, id: Option<nat>) {
    forall i :: 0 <= i < |events| && events[i].correlationId.Some? ==> events[i].correlationId != id
  }

  /** An opening event under a new id keeps a ledger paired. */
  lemma PairedOpens(front: seq<RunEvent>, last: RunEvent)
    requires Paired(front) && Opens(last) && Unseen(front, last.correlationId)
    ensures Paired(front + [last])
  {
    PairedMeasures(front, last);
  }

  /** So does an event outside spans. */
  lemma PairedPasses(front: seq<RunEvent>, last: RunEvent)
    requires Paired(front) && last.correlationId.None?
    ensures Paired(front + [last])
  {
    PairedMeasures(front, last);
  }

  /** So does a closing event that measures an opening event not closed before. */
  lemma PairedCloses(front: seq<RunEvent>, last: RunEvent, i: nat)
    requires Paired(front) && i < |front| && Measures(front[i], last)
    requires forall j :: 0 <= j < |front| && Closes(front[j]) ==> front[j].correlationId != last.correlationId
    ensures Paired(front + [last])
  {
    PairedMeasures(front, last);
    assert Measures((front + [last])[i], last);
  }

  lemma PairedMeasures(front: seq<RunEvent>, last: RunEvent)
    requires Paired(front)
    ensures var events := front + [last];
      forall j :: 0 <= j < |front| && Closes(events[j]) ==> exists i :: 0 <= i < j && Measures(events[i], events[j])
  {
    hide Measures, Closes, Opens;
    var events := front + [last];
    forall j | 0 <= j < |front| && Closes(events[j]) ensures exists i :: 0 <= i < j && Measures(events[i], events[j]) {
      assert events[j] == front[j];
      var i :| 0 <= i < j && Measures(front[i], front[j]);
      assert Measures(events[i], events[j]);
    }
  }

  /** A ledger whose fold stayed good is paired, position by position. */
  lemma {:induction false} PairingMeaning(events: seq<RunEvent>)
    requires PairingOf(events).good
    ensures Paired(events)
  {
    if |events| > 0 {
      var front, last := events[..|events| - 1], events[|events| - 1];
      hide Paired, Measures, Closes, Opens, ValidBase;
      PairingMeaning(front);
      PairingBooks(front);
      assert events == front + [last];
      if last.correlationId.None? {
        PairedPasses(front, last);
      } else if Opens(last) {
        PairedOpens(front, last);
      } else {
        var i :| HeldAt(front, PairingOf(front).open, last.correlationId.value, i);
        PairedCloses(front, last, i);
      }
    } else {
      NothingPaired();
    }
  }

  lemma NothingPaired()
    ensures Paired([])
  {
  }

  /** The text is its own last path component; a lone dot and anything with a slash are not. */
  predicate IsFileName(text: string) {
    text != "." && '/' !in text
  }

  /** An append-only audit record of one run. The bundle also hands out the fresh ids events carry. */
  class RunBundle {
    var sequence: nat
    var finalized: bool
    var terminalState: Option<TerminalState>
    var events: seq<RunEvent>
    var issuedIds: nat
    /** The evidence items written under the bundle's evidence directory, by id. */
    var evidenceFiles: map<string, Evidence>

    constructor ()
      ensures sequence == 0 && !finalized && terminalState == None && events == [] && issuedIds == 0
      ensures evidenceFiles == map[]
    {
      sequence, finalized, terminalState, events, issuedIds := 0, false, None, [], 0;
      evidenceFiles := map[];
    }

    /** A universally unique id: one no earlier call returned. */
    method FreshId() returns (id: nat)
      modifies `issuedIds
      ensures id == old(issuedIds) && issuedIds == old(issuedIds) + 1
    {
      id := issuedIds;
      issuedIds := issuedIds + 1;
    }

    /**
     Append one event. A finalized bundle refuses, changing nothing; an event the schema rejects is
     not written, yet has consumed a sequence number.
     */
    method AppendEvent(phase: string, payload: Payload, eventId: nat, eventType: EventType,
                       correlationId: Option<nat>, offsetMs: Option<int>, status: EventStatus,
                       usage: Option<Usage>, durationMs: Option<int>)
      returns (r: Outcome<RunEvent>)
      modifies `sequence, `events
      ensures old(finalized) ==>
        r == Raised(Raise(RuntimeFailure)) && sequence == old(sequence) && events == old(events)
      ensures !old(finalized) ==> sequence == old(sequence) + 1
      ensures !old(finalized) && !FitsSchema(phase, eventType, offsetMs, durationMs) ==>
        r == Raised(Raise(ValidationFailure)) && events == old(events)
      ensures !old(finalized) && FitsSchema(phase, eventType, offsetMs, durationMs) ==>
        && r == Ok(RunEvent(sequence, Strip(phase), payload, Some(eventId), Some(eventType), correlationId, offsetMs,
                            Some(status), usage, durationMs))
        && events == old(events) + [r.value]
        && AuditOf(events) == NextAudit(old(AuditOf(events)), r.value)
        && PairingOf(events) == NextPairing(old(PairingOf(events)), r.value)
    {
      hide AuditOf, PairingOf, PhaseFits, TypeFits, Strip;
      if finalized {
        return Raised(Raise(RuntimeFailure));
      }
      sequence := sequence + 1;
      if !FitsSchema(phase, eventType, offsetMs, durationMs) {
        return Raised(Raise(ValidationFailure));
      }
      var event := RunEvent(sequence, Strip(phase), payload, Some(eventId), Some(eventType), correlationId, offsetMs,
                            Some(status), usage, durationMs);
      AuditAppend(events, event);
      PairingAppend(events, event);
      events := events + [event];
      return Ok(event);
    }

    /** Write one evidence item, unless the bundle is finalized or the id is not a file name. */
    method WriteEvidence(item: Evidence) returns (r: Outcome<bool>)
      modifies `evidenceFiles
      ensures r.Ok? <==> !finalized && IsFileName(item.id)
      ensures evidenceFiles == if r.Ok? then old(evidenceFiles)[item.id := item] else old(evidenceFiles)
      ensures r.Raised? ==> r.exn.kind.IsOrdinary()
    {
      if finalized {
        return Raised(Raise(RuntimeFailure));
      }
      if !IsFileName(item.id) {
        return Raised(Raise(OtherFailure));
      }
      evidenceFiles := evidenceFiles[item.id := item];
      return Ok(true);
    }

    /** Record the terminal state, once. */
    method Finalize(reason: TerminalState) returns (r: Outcome<bool>)
      modifies `finalized, `terminalState
      ensures old(finalized) ==> r == Raised(Raise(RuntimeFailure)) && terminalState == old(terminalState)
      ensures !old(finalized) ==> r == Ok(true) && terminalState == Some(reason)
      ensures finalized
    {
      if finalized {
        return Raised(Raise(RuntimeFailure));
      }
      terminalState := Some(reason);
      finalized := true;
      return Ok(true);
    }
  }
}
