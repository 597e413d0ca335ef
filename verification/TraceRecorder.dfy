/** Paired, duration-measured trace spans written into a run bundle. */
module TraceRecording {
  import opened Characters
  import opened Contracts
  import opened Ledger

  datatype TraceSpan = TraceSpan(
    base: Base,
    phase: string,
    eventId: nat,
    correlationId: nat,
    startedOffsetMs: int)

  /** Python's round: the nearest integer, ties to even. */
  function RoundHalfEven(x: real): (n: int)
    ensures n as real - 0.5 <= x <= n as real + 0.5
  {
    var low := x.Floor;
    if x - low as real < 0.5 then low
    else if x - low as real > 0.5 then low + 1
    else if low % 2 == 0 then low else low + 1
  }

  /** Rounding keeps the order of readings, so measured durations are never negative. */
  lemma RoundMonotone(x: real, y: real)
    requires x <= y
    ensures RoundHalfEven(x) <= RoundHalfEven(y)
  {
  }

  function OffsetMs(origin: real, now: real): int {
    RoundHalfEven((now - origin) * 1000.0)
  }

  /** The event that opens a span, and the one that closes it. */
  function StartEvent(sequence: nat, span: TraceSpan, payload: Payload): RunEvent {
    RunEvent(sequence, Strip(span.phase), payload, Some(span.eventId), Some(SpanEvent(span.base, Started)),
             Some(span.correlationId), Some(span.startedOffsetMs), Some(Started), None, None)
  }

  function CloseEvent(sequence: nat, span: TraceSpan, status: EventStatus, payload: Payload, usage: Option<Usage>,
                      eventId: nat, offset: int): RunEvent
  {
    RunEvent(sequence, Strip(span.phase), payload, Some(eventId), Some(SpanEvent(span.base, status)),
             Some(span.correlationId), Some(offset), Some(status), usage, Some(offset - span.startedOffsetMs))
  }

  /** The event is the one that opened the span. */
  predicate OpenedBy(span: TraceSpan, event: RunEvent) {
    && Opens(event)
    && event.eventId == Some(span.eventId)
    && event.correlationId == Some(span.correlationId)
    && event.eventType == Some(SpanEvent(span.base, Started))
    && event.offsetMs == Some(span.startedOffsetMs)
  }

  lemma StartIsOpening(sequence: nat, span: TraceSpan, payload: Payload)
    ensures var event := StartEvent(sequence, span, payload);
      && Opens(event) && OpenedBy(span, event)
      && event.eventType == Some(SpanEvent(span.base, Started)) && event.correlationId == Some(span.correlationId)
  {
  }

  /** A recorder over a paired ledger: time does not run back, and every id in use was issued. */
  ghost predicate Keeps(p: Pairing, origin: Option<real>, now: real, finished: set<nat>, ids: nat) {
    && p.good && (origin.Some? ==> origin.value <= now)
    && (forall id :: id in p.seen ==> id < ids)
    && (forall id :: id in finished ==> id < ids)
  }

  /** A span such a recorder opened: still open in the ledger, or on record as finished. */
  ghost predicate Traces(span: TraceSpan, p: Pairing, origin: Option<real>, now: real, finished: set<nat>, ids: nat) {
    && origin.Some? && span.correlationId == span.eventId + 1 < ids
    && span.startedOffsetMs <= OffsetMs(origin.value, now)
    && (span.eventId in finished || (span.correlationId in p.open && OpenedBy(span, p.open[span.correlationId])))
  }

  /** Time passing, ids being issued and spans being noted as finished lose no span. */
  lemma RecorderStill(p: Pairing, first: Option<real>, origin: Option<real>, earlier: real, now: real,
                      before: set<nat>, after: set<nat>, issued: nat, ids: nat)
    requires Keeps(p, first, earlier, before, issued) && earlier <= now && issued <= ids
    requires origin.Some? && origin.value <= now && (first.Some? ==> origin == first)
    requires before <= after && forall id :: id in after ==> id < ids
    ensures Keeps(p, origin, now, after, ids)
    ensures forall s :: Traces(s, p, first, earlier, before, issued) ==> Traces(s, p, origin, now, after, ids)
  {
    hide OpenedBy, RoundHalfEven;
    RoundMonotone((earlier - origin.value) * 1000.0, (now - origin.value) * 1000.0);
  }

  lemma Begun(p: Pairing, origin: Option<real>, now: real, finished: set<nat>, ids: nat)
    requires Keeps(p, origin, now, finished, ids)
    ensures origin.Some? ==> origin.value <= now
    ensures forall id :: id in finished ==> id < ids
  {
  }

  lemma Traced(span: TraceSpan, p: Pairing, origin: Option<real>, now: real, finished: set<nat>, ids: nat)
    requires Traces(span, p, origin, now, finished, ids)
    ensures origin.Some? && span.eventId < ids && span.startedOffsetMs <= OffsetMs(origin.value, now)
  {
  }

  /** Opening a span under the next two ids keeps the ledger paired, and loses no span. */
  lemma RecorderOpens(span: TraceSpan, event: RunEvent, p: Pairing, origin: Option<real>, now: real,
                      finished: set<nat>, ids: nat)
    requires Keeps(p, origin, now, finished, ids) && origin.Some? && ValidBase(span.base)
    requires span.eventId == ids && span.correlationId == ids + 1
    requires OpenedBy(span, event) && span.startedOffsetMs == OffsetMs(origin.value, now)
    ensures Keeps(NextPairing(p, event), origin, now, finished, ids + 2)
    ensures Traces(span, NextPairing(p, event), origin, now, finished, ids + 2) && span.eventId !in finished
    ensures forall s :: Traces(s, p, origin, now, finished, ids) ==>
      Traces(s, NextPairing(p, event), origin, now, finished, ids + 2)
  {
    hide ValidBase, OffsetMs;
  }

  /** Closing a traced span with the time it took keeps the ledger paired, and loses no span. */
  lemma RecorderCloses(span: TraceSpan, event: RunEvent, p: Pairing, origin: Option<real>, now: real,
                       before: set<nat>, after: set<nat>, ids: nat)
    requires Keeps(p, origin, now, before, ids) && Traces(span, p, origin, now, before, ids)
    requires span.eventId !in before && after == before + {span.eventId}
    requires ClosedBy(span, event) && event.offsetMs == Some(OffsetMs(origin.value, now))
    ensures Keeps(NextPairing(p, event), origin, now, after, ids)
    ensures forall s :: Traces(s, p, origin, now, before, ids) ==>
      Traces(s, NextPairing(p, event), origin, now, after, ids)
  {
    hide ValidBase, OffsetMs;
  }

  /** The event closes the span and measures what passed since it started. */
  predicate ClosedBy(span: TraceSpan, event: RunEvent) {
    && !Opens(event) && Closes(event)
    && event.correlationId == Some(span.correlationId) && event.eventType.value.base == span.base
    && event.durationMs.value == event.offsetMs.value - span.startedOffsetMs
  }

  lemma CloseIsClosing(sequence: nat, span: TraceSpan, status: EventStatus, payload: Payload, usage: Option<Usage>,
                       eventId: nat, offset: int)
    requires status != Started
    ensures var event := CloseEvent(sequence, span, status, payload, usage, eventId, offset);
      ClosedBy(span, event) && event.offsetMs == Some(offset)
  {
    hide Strip;
  }

  class TraceRecorder {
    const bundle: RunBundle
    var origin: Option<real>
    var finished: set<nat>
    /** The last reading of the monotonic clock. */
    var now: real

    constructor (bundle: RunBundle)
      requires bundle.events == []
      ensures this.bundle == bundle && origin == None && finished == {} && Valid()
    {
      this.bundle := bundle;
      origin := None;
      finished := {};
      now := *;
    }

    ghost predicate Valid()
      reads this, bundle
    {
      Keeps(PairingOf(bundle.events), origin, now, finished, bundle.issuedIds)
    }

    /** A span this recorder opened: still open in the ledger, or on record as finished. */
    ghost predicate Issued(span: TraceSpan)
      reads this, bundle
    {
      Traces(span, PairingOf(bundle.events), origin, now, finished, bundle.issuedIds)
    }

    /** Read the clock; the first reading becomes the origin. */
    method CurrentOffsetMs() returns (offset: int)
      requires origin.Some? ==> origin.value <= now
      modifies `origin, `now
      ensures now >= old(now) && origin.Some? && origin.value <= now
      ensures old(origin).Some? ==> origin == old(origin)
      ensures offset == OffsetMs(origin.value, now) && offset >= 0
      ensures old(origin).None? ==> offset == 0
      ensures old(origin).Some? ==> OffsetMs(origin.value, old(now)) <= offset
    {
      var reading: real := *;
      if reading >= now {
        now := reading;
      }
      if origin.None? {
        origin := Some(now);
      }
      offset := OffsetMs(origin.value, now);
      RoundMonotone(0.0, (now - origin.value) * 1000.0);
      if old(origin).Some? {
        RoundMonotone((old(now) - origin.value) * 1000.0, (now - origin.value) * 1000.0);
      }
    }

    /** Append `<base>.started` and return the open span. */
    method Start(base: Base, phase: string, payload: Payload) returns (r: Outcome<TraceSpan>)
      requires Valid()
      modifies this`origin, this`now, bundle`sequence, bundle`events, bundle`issuedIds
      ensures Valid() && now >= old(now) && (old(origin).Some? ==> origin == old(origin))
      ensures bundle.issuedIds >= old(bundle.issuedIds)
      ensures r.Ok? <==>
        ValidBase(base) && !bundle.finalized && PhaseFits(phase) && TypeFits(SpanEvent(base, Started))
      ensures bundle.sequence == old(bundle.sequence) + Count(ValidBase(base) && !bundle.finalized)
      ensures r.Raised? ==> bundle.events == old(bundle.events)
      ensures r.Ok? ==>
        && r.value.base == base && r.value.phase == phase && r.value.startedOffsetMs >= 0
        && bundle.events == old(bundle.events) + [StartEvent(bundle.sequence, r.value, payload)]
        && AuditOf(bundle.events)
           == NextAudit(old(AuditOf(bundle.events)), StartEvent(bundle.sequence, r.value, payload))
        && Issued(r.value) && r.value.eventId !in finished
      ensures forall s :: old(Issued(s)) ==> Issued(s)
    {
      hide AuditOf, PairingOf, NextAudit, OffsetMs, ValidBase, PhaseFits, TypeFits, Strip, Keeps, Traces;
      if !ValidBase(base) {
        return Raised(Raise(OtherFailure));
      }
      ghost var pairing, ids := PairingOf(bundle.events), bundle.issuedIds;
      Begun(pairing, origin, now, finished, ids);
      var offset := CurrentOffsetMs();
      RecorderStill(pairing, old(origin), origin, old(now), now, finished, finished, ids, ids);
      r := Open(base, phase, payload, offset);
    }

    /** Append the event that opens a span at the offset just read. */
    method Open(base: Base, phase: string, payload: Payload, offset: int) returns (r: Outcome<TraceSpan>)
      requires Valid() && ValidBase(base) && origin.Some? && offset == OffsetMs(origin.value, now)
      modifies bundle`sequence, bundle`events, bundle`issuedIds
      ensures Valid() && bundle.issuedIds >= old(bundle.issuedIds)
      ensures r.Ok? <==> !bundle.finalized && PhaseFits(phase) && TypeFits(SpanEvent(base, Started)) && offset >= 0
      ensures bundle.sequence == old(bundle.sequence) + Count(!bundle.finalized)
      ensures r.Raised? ==> bundle.events == old(bundle.events)
      ensures r.Ok? ==>
        && r.value.base == base && r.value.phase == phase && r.value.startedOffsetMs == offset
        && bundle.events == old(bundle.events) + [StartEvent(bundle.sequence, r.value, payload)]
        && AuditOf(bundle.events)
           == NextAudit(old(AuditOf(bundle.events)), StartEvent(bundle.sequence, r.value, payload))
        && Issued(r.value) && r.value.eventId !in finished
      ensures forall s :: old(Issued(s)) ==> Issued(s)
    {
      hide AuditOf, PairingOf, NextAudit, NextPairing, OffsetMs, ValidBase, PhaseFits, TypeFits, Strip, Opens;
      hide OpenedBy, Keeps, Traces;
      ghost var pairing, ids := PairingOf(bundle.events), bundle.issuedIds;
      Begun(pairing, origin, now, finished, ids);
      var eventId := bundle.FreshId();
      var correlationId := bundle.FreshId();
      var appended := bundle.AppendEvent(phase, payload, eventId, SpanEvent(base, Started), Some(correlationId),
                                         Some(offset), Started, None, None);
      if appended.Raised? {
        RecorderStill(pairing, origin, origin, now, now, finished, finished, ids, ids + 2);
        return Raised(appended.exn);
      }
      r := Ok(TraceSpan(base, phase, eventId, correlationId, offset));
      assert appended.value == StartEvent(bundle.sequence, r.value, payload);
      StartIsOpening(bundle.sequence, r.value, payload);
      RecorderOpens(r.value, appended.value, pairing, origin, now, finished, ids);
    }

    /** The offset read last, less the one the span started with. */
    function Elapsed(span: TraceSpan): int
      requires origin.Some?
      reads `origin, `now
    {
      OffsetMs(origin.value, now) - span.startedOffsetMs
    }

    /**
     Append the paired terminal event with its measured duration. Any span not finished here before is
     closed, even another recorder's; the ledger stays paired when the span is one of this recorder's.
     */
    method Finish(span: TraceSpan, status: EventStatus, payload: Payload, usage: Option<Usage>)
      returns (r: Outcome<RunEvent>)
      requires Valid()
      modifies this`origin, this`now, this`finished, bundle`sequence, bundle`events, bundle`issuedIds
      ensures now >= old(now) && (old(origin).Some? ==> origin == old(origin))
      ensures bundle.issuedIds >= old(bundle.issuedIds)
      ensures r.Ok? <==>
        && status != Started && span.eventId !in old(finished) && !bundle.finalized
        && PhaseFits(span.phase) && TypeFits(SpanEvent(span.base, status)) && origin.Some? && Elapsed(span) >= 0
      ensures finished == old(finished) + if status != Started then {span.eventId} else {}
      ensures r.Raised? ==> bundle.events == old(bundle.events)
      ensures r.Ok? ==>
        && bundle.sequence == old(bundle.sequence) + 1
        && r.value.offsetMs == Some(OffsetMs(origin.value, now)) && r.value.eventId.Some?
        && r.value == CloseEvent(bundle.sequence, span, status, payload, usage, r.value.eventId.value,
                                 r.value.offsetMs.value)
        && bundle.events == old(bundle.events) + [r.value]
        && AuditOf(bundle.events) == NextAudit(old(AuditOf(bundle.events)), r.value)
      // This recorder's own spans always measure a duration, and the ledger stays paired.
      ensures old(Issued(span)) ==>
        && origin == old(origin) && Elapsed(span) >= 0 && Valid()
        && forall s :: old(Issued(s)) ==> Issued(s)
    {
      hide AuditOf, PairingOf, NextPairing, NextAudit, PhaseFits, TypeFits, Strip, OffsetMs, Keeps, Traces;
      hide CloseEvent;
      ghost var pairing, ids := PairingOf(bundle.events), bundle.issuedIds;
      Begun(pairing, origin, now, finished, ids);
      ghost var traced := Traces(span, pairing, origin, now, finished, ids);
      if traced {
        Traced(span, pairing, origin, now, finished, ids);
      }
      if status == Started || span.eventId in finished {
        return Raised(Raise(OtherFailure));
      }
      finished := finished + {span.eventId};
      var offset := CurrentOffsetMs();
      r := Close(span, status, payload, usage, offset);
      if traced {
        RecorderStill(pairing, origin, origin, old(now), now, old(finished), old(finished), ids, ids + 1);
        Traced(span, pairing, origin, now, old(finished), ids + 1);
        if r.Raised? {
          RecorderStill(pairing, origin, origin, now, now, old(finished), finished, ids + 1, ids + 1);
        } else {
          CloseIsClosing(bundle.sequence, span, status, payload, usage, r.value.eventId.value, offset);
          RecorderCloses(span, r.value, pairing, origin, now, old(finished), finished, ids + 1);
        }
      }
    }

    /** Append the event that closes a span at the offset just read. */
    method Close(span: TraceSpan, status: EventStatus, payload: Payload, usage: Option<Usage>, offset: int)
      returns (r: Outcome<RunEvent>)
      requires status != Started && offset >= 0
      modifies bundle`sequence, bundle`events, bundle`issuedIds
      ensures bundle.issuedIds == old(bundle.issuedIds) + 1
      ensures r.Ok? <==>
        && !bundle.finalized && PhaseFits(span.phase) && TypeFits(SpanEvent(span.base, status))
        && offset >= span.startedOffsetMs
      ensures r.Raised? ==> bundle.events == old(bundle.events)
      ensures r.Ok? ==>
        && bundle.sequence == old(bundle.sequence) + 1 && r.value.eventId.Some? && r.value.offsetMs == Some(offset)
        && r.value == CloseEvent(bundle.sequence, span, status, payload, usage, r.value.eventId.value, offset)
        && bundle.events == old(bundle.events) + [r.value]
        && AuditOf(bundle.events) == NextAudit(old(AuditOf(bundle.events)), r.value)
        && PairingOf(bundle.events) == NextPairing(old(PairingOf(bundle.events)), r.value)
    {
      hide AuditOf, PairingOf, NextPairing, NextAudit, PhaseFits, TypeFits, Strip;
      var eventId := bundle.FreshId();
      r := bundle.AppendEvent(span.phase, payload, eventId, SpanEvent(span.base, status), Some(span.correlationId),
                              Some(offset), status, usage, Some(offset - span.startedOffsetMs));
    }
  }
}
