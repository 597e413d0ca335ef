/** What a closed ledger looks like, position by position. */
module LedgerShape {
  import opened Contracts
  import opened Ledger

  predicate IsSpan(event: RunEvent) {
    event.eventType.Some? && event.eventType.value.SpanEvent?
  }

  predicate IsStart(event: RunEvent) {
    IsSpan(event) && event.eventType.value.status == Started
  }

  predicate IsAddition(event: RunEvent) {
    event.eventType == Some(EvidenceAdded)
  }

  /** Event `j` closes the span event `i` opened, and between them evidence is all that was recorded. */
  ghost predicate ClosesSpan(events: seq<RunEvent>, i: int, j: int) {
    && 0 <= i < j < |events| && IsStart(events[i]) && IsSpan(events[j]) && !IsStart(events[j])
    && events[i].correlationId.Some? && events[i].correlationId == events[j].correlationId
    && events[i].eventType.value.base == events[j].eventType.value.base
    && forall k :: i < k < j ==> IsAddition(events[k])
  }

  ghost predicate OpensRun(event: RunEvent, run: nat) {
    event.eventType == Some(SpanEvent(RunBase, Started)) && event.correlationId == Some(run)
  }

  ghost predicate Settled(events: seq<RunEvent>, i: int) {
    && 0 < i < |events| && IsSpan(events[i])
    && !events[i].eventType.value.base.RunBase?
    && if IsStart(events[i]) then exists j :: ClosesSpan(events, i, j)
       else exists j :: 0 < j && ClosesSpan(events, j, i)
  }

  /** The run is open and every inner span event has its one partner. */
  ghost predicate Tidy(events: seq<RunEvent>, run: nat) {
    && |events| > 0 && OpensRun(events[0], run)
    && forall i :: 0 < i < |events| && IsSpan(events[i]) ==> Settled(events, i)
  }

  /** The run is open, and one inner span with it. */
  ghost predicate Busy(events: seq<RunEvent>, run: nat, base: Base, correlation: nat, k: int) {
    && 0 < k < |events| && Tidy(events[..k], run) && !base.RunBase?
    && events[k].eventType == Some(SpanEvent(base, Started)) && events[k].correlationId == Some(correlation)
    && forall j :: k < j < |events| ==> IsAddition(events[j])
  }

  /** Tidiness only looks at positions, so it survives any continuation. */
  lemma SettledExtends(events: seq<RunEvent>, longer: seq<RunEvent>, i: int)
    requires events <= longer && Settled(events, i)
    ensures Settled(longer, i)
  {
    if IsStart(events[i]) {
      var j :| ClosesSpan(events, i, j);
      assert ClosesSpan(longer, i, j);
    } else {
      var j :| 0 < j && ClosesSpan(events, j, i);
      assert ClosesSpan(longer, j, i);
    }
  }

  lemma TidyPlain(events: seq<RunEvent>, run: nat, event: RunEvent)
    requires Tidy(events, run) && !IsSpan(event)
    ensures Tidy(events + [event], run)
  {
    forall i | 0 < i < |events + [event]| && IsSpan((events + [event])[i]) ensures Settled(events + [event], i) {
      SettledExtends(events, events + [event], i);
    }
  }

  lemma BusyCloses(events: seq<RunEvent>, run: nat, base: Base, correlation: nat, k: int, event: RunEvent)
    requires Busy(events, run, base, correlation, k)
    requires IsSpan(event) && !IsStart(event) && event.eventType.value.base == base
    requires event.correlationId == Some(correlation)
    ensures Tidy(events + [event], run)
  {
    var longer, n := events + [event], |events|;
    assert ClosesSpan(longer, k, n);
    forall i | 0 < i < |longer| && IsSpan(longer[i]) ensures Settled(longer, i) {
      if i < k {
        assert events[..k] <= longer;
        SettledExtends(events[..k], longer, i);
      }
    }
  }

  lemma BusyAdds(events: seq<RunEvent>, run: nat, base: Base, correlation: nat, k: int, event: RunEvent)
    requires Busy(events, run, base, correlation, k) && IsAddition(event)
    ensures Busy(events + [event], run, base, correlation, k)
  {
    assert (events + [event])[..k] == events[..k];
  }

  ghost predicate Describes(spans: SpanState, events: seq<RunEvent>) {
    match spans
    case NotStarted => events == []
    case Idle(run) => Tidy(events, run)
    case InSpan(run, base, correlation) => exists k :: Busy(events, run, base, correlation, k)
    case Closed => exists run: nat :: ClosedRun(events, run)
    case Broken => true
  }

  /** What the audit's span state says about the events behind it. */
  lemma {:induction false} SpanStateMeaning(events: seq<RunEvent>)
    ensures Describes(AuditOf(events).spans, events)
  {
    if |events| > 0 {
      SpanStateMeaning(events[..|events| - 1]);
      assert events == events[..|events| - 1] + [events[|events| - 1]];
      DescribesNext(AuditOf(events[..|events| - 1]).spans, events[..|events| - 1], events[|events| - 1]);
    }
  }

  lemma DescribesNext(spans: SpanState, front: seq<RunEvent>, last: RunEvent)
    requires Describes(spans, front)
    ensures Describes(NextSpans(spans, last), front + [last])
  {
    var events, next := front + [last], NextSpans(spans, last);
    match spans
    case NotStarted =>
    case Idle(run) =>
      if IsSpan(last) {
        assert events[..|front|] == front;
        if next.InSpan? {
          assert Busy(events, next.run, next.base, next.correlation, |front|);
        } else if next.Closed? {
          assert ClosedRun(events, run);
        }
      } else {
        TidyPlain(front, run, last);
      }
    case InSpan(run, base, correlation) =>
      var k :| Busy(front, run, base, correlation, k);
      if next.Idle? {
        BusyCloses(front, run, base, correlation, k, last);
      } else if next.InSpan? {
        BusyAdds(front, run, base, correlation, k, last);
      }
    case Closed =>
    case Broken =>
  }

  /** The last event closes the run; before it the run was tidy. */
  ghost predicate ClosedRun(events: seq<RunEvent>, run: nat) {
    && |events| >= 2 && Tidy(events[..|events| - 1], run)
    && IsSpan(events[|events| - 1]) && !IsStart(events[|events| - 1])
    && events[|events| - 1].eventType.value.base.RunBase? && events[|events| - 1].correlationId == Some(run)
  }

  /** A gapless ledger numbers its events from one. */
  lemma {:induction false} NumberedMeaning(events: seq<RunEvent>)
    ensures AuditOf(events).count == |events|
    ensures AuditOf(events).numbered ==> forall i :: 0 <= i < |events| ==> events[i].sequence == i + 1
  {
    if |events| > 0 {
      NumberedMeaning(events[..|events| - 1]);
    }
  }

  /**
   The ledger of a returned run: numbered from one without a gap, opened by the single run span and
   closed by it, with every inner span closed, once, before anything but evidence was recorded.
   */
  lemma ClosedLedger(events: seq<RunEvent>)
    requires AuditOf(events).spans.Closed? && AuditOf(events).numbered
    ensures |events| >= 2
    ensures forall i :: 0 <= i < |events| ==> events[i].sequence == i + 1
    ensures exists run: nat :: OpensRun(events[0], run) && events[|events| - 1].correlationId == Some(run)
    ensures IsSpan(events[|events| - 1]) && !IsStart(events[|events| - 1])
    ensures events[|events| - 1].eventType.value.base.RunBase?
    ensures forall i :: 0 < i < |events| - 1 && IsSpan(events[i]) ==> Settled(events, i)
  {
    SpanStateMeaning(events);
    NumberedMeaning(events);
    var run: nat :| ClosedRun(events, run);
    var front := events[..|events| - 1];
    assert OpensRun(events[0], run);
    forall i | 0 < i < |events| - 1 && IsSpan(events[i]) ensures Settled(events, i) {
      assert events[i] == front[i];
      SettledExtends(front, events, i);
    }
  }

  /** No span is closed twice: the event that closes a given one is unique. */
  lemma ClosedOnce(events: seq<RunEvent>, i: int, j: int, k: int)
    requires ClosesSpan(events, i, j) && ClosesSpan(events, i, k)
    ensures j == k
  {
  }
}
