/** What the run index recomputes from a finished run's ledger. */
module RunIndexing {
  import opened Contracts
  import opened EventText
  import opened Ledger

  datatype ModelUsage = ModelUsage(requests: nat, inputTokens: nat, outputTokens: nat, reported: bool)

  predicate IsIndexed(event: RunEvent) {
    var text := if event.eventType.Some? then Text(event.eventType.value) else "";
    || text == "model.request.completed" || text == "model.request.failed"
    || ("agent.decision" <= text && event.usage.Some?)
  }

  function NextUsage(u: ModelUsage, event: RunEvent): ModelUsage {
    if !IsIndexed(event) then u
    else if event.usage.None? then ModelUsage(u.requests + 1, u.inputTokens, u.outputTokens, false)
    else
      ModelUsage(u.requests + 1, u.inputTokens + event.usage.value.inputTokens,
                 u.outputTokens + event.usage.value.outputTokens, u.reported && event.usage.value.reported)
  }

  function UsageOf(events: seq<RunEvent>): ModelUsage {
    if |events| == 0 then ModelUsage(0, 0, 0, true)
    else NextUsage(UsageOf(events[..|events| - 1]), events[|events| - 1])
  }

  /** Count model-request attempts and sum their tokens. */
  method RecomputeUsage(events: seq<RunEvent>)
    returns (requests: nat, inputTokens: nat, outputTokens: nat, reported: bool)
    ensures ModelUsage(requests, inputTokens, outputTokens, reported) == UsageOf(events)
  {
    requests, inputTokens, outputTokens, reported := 0, 0, 0, true;
    for k := 0 to |events|
      invariant ModelUsage(requests, inputTokens, outputTokens, reported) == UsageOf(events[..k])
    {
      assert events[..k + 1][..k] == events[..k];
      var event := events[k];
      if !IsIndexed(event) {
        continue;
      }
      requests := requests + 1;
      if event.usage.None? {
        reported := false;
        continue;
      }
      inputTokens := inputTokens + event.usage.value.inputTokens;
      outputTokens := outputTokens + event.usage.value.outputTokens;
      reported := reported && event.usage.value.reported;
    }
    assert events[..|events|] == events;
  }

  /** The payload of the last budget snapshot, found by reading the ledger backwards. */
  method LastBudget(events: seq<RunEvent>) returns (budget: Option<Budget>)
    ensures budget == AuditOf(events).lastBudget
  {
    var k := |events|;
    assert events[..k] == events;
    while k > 0
      invariant 0 <= k <= |events|
      invariant AuditOf(events).lastBudget == AuditOf(events[..k]).lastBudget
    {
      assert events[..k][..k - 1] == events[..k - 1];
      k := k - 1;
      if events[k].eventType == Some(BudgetUpdated) && events[k].payload.BudgetPayload? {
        return Some(events[k].payload.budget);
      }
    }
    return None;
  }

  /** By its text alone, the index counts exactly the kernel's finished model requests. */
  lemma IndexedExact(event: RunEvent)
    requires IsNative(event)
    ensures IsIndexed(event) <==> IsModelRequest(event)
  {
    var eventType := event.eventType.value;
    TextLength(eventType);
    if eventType.SpanEvent? {
      match eventType.base
      case RunBase => assert Text(eventType)[0] == 'r';
      case ProbeBase => assert Text(eventType)[0] == 'p';
      case ToolCallBase => assert Text(eventType)[0] == 't';
      case ModelRequestBase => assert Text(eventType)[0] == 'm';
    }
    assert "agent.decision"[0] == 'a';
  }

  /** Only the two finished model requests have texts of 23 and 20 characters. */
  lemma TextLength(eventType: EventType)
    requires eventType.SpanEvent? ==> !eventType.base.OtherBase?
    ensures |Text(eventType)| == 23 <==> eventType == SpanEvent(ModelRequestBase, Completed)
    ensures |Text(eventType)| == 20 <==> eventType == SpanEvent(ModelRequestBase, StatusFailed)
  {
    if eventType.SpanEvent? {
      BaseLength(eventType.base);
      StatusLength(eventType.status);
    }
  }

  lemma BaseLength(base: Base)
    requires !base.OtherBase?
    ensures |BaseText(base)| == match base case RunBase => 3 case ProbeBase => 5 case ToolCallBase => 9 case _ => 13
  {
  }

  lemma StatusLength(status: EventStatus)
    ensures |StatusText(status)| ==
      match status
      case Started => 7 case Completed => 9 case StatusFailed => 6 case StatusBlocked => 7 case Skipped => 7
  {
  }

  /** The request count the index recomputes is the one the audit keeps beside the kernel's counter. */
  lemma {:induction false} IndexAgrees(events: seq<RunEvent>)
    requires AuditOf(events).native
    ensures UsageOf(events).requests == AuditOf(events).requests
  {
    if |events| > 0 {
      IndexAgrees(events[..|events| - 1]);
      IndexedExact(events[|events| - 1]);
    }
  }
}
