/** The reader that projects a recorded ledger: span durations, lanes and total usage. */
module TraceReading {
  import opened Contracts
  import opened EventText
  import opened Ledger

  datatype TraceItem = TraceItem(
    sequence: nat,
    phase: string,
    eventType: string,
    lane: Lane,
    offsetMs: Option<int>,
    durationMs: Option<int>,
    status: Option<EventStatus>,
    usage: Option<Usage>)

  /** What the reader has gathered from the events so far. */
  datatype Reading = Reading(
    pending: map<(string, nat), RunEvent>,
    items: seq<TraceItem>,
    usage: Option<Usage>,
    runDurationMs: Option<int>)

  function AddUsage(total: Option<Usage>, usage: Option<Usage>): Option<Usage> {
    if usage.None? then total else if total.None? then usage else Some(total.value.Plus(usage.value))
  }

  function Difference(close: RunEvent, start: RunEvent): Option<int> {
    if close.offsetMs.Some? && start.offsetMs.Some? then Some(close.offsetMs.value - start.offsetMs.value) else None
  }

  function ItemOf(event: RunEvent, lane: Lane, duration: Option<int>): TraceItem
    requires event.eventType.Some?
  {
    TraceItem(event.sequence, event.phase, Text(event.eventType.value), lane, event.offsetMs,
              if duration.Some? && duration.value >= 0 then duration else None, event.status, event.usage)
  }

  /** One turn of the reader's loop. */
  function Next(r: Reading, event: RunEvent): Reading {
    var usage := AddUsage(r.usage, event.usage);
    if event.eventType.None? then r.(usage := usage)
    else
      var text := Text(event.eventType.value);
      var lane := LaneFor(text);
      if lane.None? then r.(usage := usage)
      else if event.correlationId.None? then
        r.(usage := usage, items := r.items + [ItemOf(event, lane.value, None)])
      else
        var key := (BaseType(text), event.correlationId.value);
        if event.status == Some(Started) then
          r.(usage := usage, items := r.items + [ItemOf(event, lane.value, None)], pending := r.pending[key := event])
        else
          var duration := if key in r.pending then Difference(event, r.pending[key]) else None;
          Reading(r.pending - {key}, r.items + [ItemOf(event, lane.value, duration)], usage,
                  if duration.Some? && BaseType(text) == "run" then duration else r.runDurationMs)
  }

  const NOTHING := Reading(map[], [], None, None)

  function ReadingOf(events: seq<RunEvent>): Reading {
    if |events| == 0 then NOTHING
    else Next(ReadingOf(events[..|events| - 1]), events[|events| - 1])
  }

  /** The reader itself: it updates its locals event by event. */
  method ReadStepEvents(events: seq<RunEvent>)
    returns (items: seq<TraceItem>, usageTotal: Option<Usage>, runDurationMs: Option<int>)
    ensures items == ReadingOf(events).items
    ensures usageTotal == ReadingOf(events).usage && runDurationMs == ReadingOf(events).runDurationMs
  {
    var pending: map<(string, nat), RunEvent> := map[];
    items, usageTotal, runDurationMs := [], None, None;
    for k := 0 to |events|
      invariant Reading(pending, items, usageTotal, runDurationMs) == ReadingOf(events[..k])
    {
      assert events[..k + 1][..k] == events[..k];
      var event := events[k];
      usageTotal := AddUsage(usageTotal, event.usage);
      if event.eventType.None? {
        continue;
      }
      var text := Text(event.eventType.value);
      var lane := LaneFor(text);
      if lane.None? {
        continue;
      }
      var duration: Option<int> := None;
      if event.correlationId.Some? {
        var key := (BaseType(text), event.correlationId.value);
        if event.status == Some(Started) {
          pending := pending[key := event];
        } else {
          if key in pending {
            duration := Difference(event, pending[key]);
            if duration.Some? && BaseType(text) == "run" {
              runDurationMs := duration;
            }
          }
          pending := pending - {key};
        }
      }
      items := items + [ItemOf(event, lane.value, duration)];
    }
    assert events[..|events|] == events;
  }

  /** An item exactly as the recorder meant it: a close carries the duration the recorder wrote. */
  function Faithful(event: RunEvent): seq<TraceItem> {
    if event.eventType.None? || LaneFor(Text(event.eventType.value)).None? then []
    else
      [TraceItem(event.sequence, event.phase, Text(event.eventType.value), LaneFor(Text(event.eventType.value)).value,
                 event.offsetMs, if Closes(event) then event.durationMs else None, event.status, event.usage)]
  }

  function FaithfulItems(events: seq<RunEvent>): seq<TraceItem> {
    if |events| == 0 then []
    else FaithfulItems(events[..|events| - 1]) + Faithful(events[|events| - 1])
  }

  /** The key the reader files an open span under. */
  function KeyOf(start: RunEvent): (string, nat)
    requires Opens(start)
  {
    (BaseText(start.eventType.value.base), start.correlationId.value)
  }

  predicate IsRead(start: RunEvent) {
    Opens(start) && LaneFor(Text(start.eventType.value)).Some?
  }

  /** The reader's pending table is the recorder's set of open spans, restricted to the lanes it reads. */
  ghost predicate Mirrors(pending: map<(string, nat), RunEvent>, open: map<nat, RunEvent>) {
    && (forall id :: id in open && IsRead(open[id]) ==>
          KeyOf(open[id]) in pending && pending[KeyOf(open[id])] == open[id])
    && (forall key :: key in pending ==> key.1 in open && IsRead(open[key.1]) && key == KeyOf(open[key.1]))
  }

  /** Open spans are filed under their own correlation id and have a valid base type. */
  ghost predicate Filed(open: map<nat, RunEvent>) {
    forall id :: id in open ==>
      Opens(open[id]) && open[id].correlationId == Some(id) && ValidBase(open[id].eventType.value.base)
  }

  lemma {:induction false} OpenIsFiled(events: seq<RunEvent>)
    requires PairingOf(events).good
    ensures Filed(PairingOf(events).open)
    ensures forall id :: id in PairingOf(events).open ==> id in PairingOf(events).seen
  {
    if |events| > 0 {
      OpenIsFiled(events[..|events| - 1]);
    }
  }

  lemma MirrorsStart(p: Pairing, event: RunEvent, r: Reading)
    requires Opens(event) && NextPairing(p, event).good && Mirrors(r.pending, p.open) && Filed(p.open)
    requires forall id :: id in p.open ==> id in p.seen
    ensures Mirrors(Next(r, event).pending, NextPairing(p, event).open)
    ensures Next(r, event).items == r.items + Faithful(event)
  {
    BaseTypeOfSpan(event.eventType.value.base, Started);
  }

  /** Keys are distinct: each carries the correlation id its span is filed under. */
  lemma KeysApart(pending: map<(string, nat), RunEvent>, open: map<nat, RunEvent>, id: nat, key: (string, nat))
    requires Mirrors(pending, open) && Filed(open) && id in open && key in pending
    ensures key == KeyOf(open[id]) <==> key.1 == id
  {
    hide LaneFor, Text, ValidBase;
  }

  /** Closing a span in a lane the reader reads removes one entry on both sides. */
  lemma MirrorsDropRead(pending: map<(string, nat), RunEvent>, open: map<nat, RunEvent>, id: nat)
    requires Mirrors(pending, open) && Filed(open) && id in open && IsRead(open[id])
    ensures Mirrors(pending - {KeyOf(open[id])}, open - {id})
  {
    hide LaneFor, Text, ValidBase, Opens, BaseText;
    var left, rest := pending - {KeyOf(open[id])}, open - {id};
    forall other | other in rest && IsRead(rest[other])
      ensures KeyOf(rest[other]) in left && left[KeyOf(rest[other])] == rest[other]
    {
      KeysApart(pending, open, other, KeyOf(open[id]));
    }
    forall key | key in left ensures key.1 in rest && IsRead(rest[key.1]) && key == KeyOf(rest[key.1]) {
      KeysApart(pending, open, id, key);
    }
  }

  /** Closing any other span leaves the pending table as it was. */
  lemma MirrorsDropUnread(pending: map<(string, nat), RunEvent>, open: map<nat, RunEvent>, id: nat)
    requires Mirrors(pending, open) && Filed(open) && id in open && !IsRead(open[id])
    ensures Mirrors(pending, open - {id})
  {
    hide LaneFor, Text, ValidBase, Opens, BaseText;
  }

  /** A closing event finds the very event that opened its span. */
  lemma CloseFindsStart(start: RunEvent, event: RunEvent)
    requires Measures(start, event) && ValidBase(start.eventType.value.base)
    ensures BaseType(Text(event.eventType.value)) == BaseText(start.eventType.value.base)
    ensures LaneFor(Text(event.eventType.value)) == LaneFor(Text(start.eventType.value))
  {
    var base, status := start.eventType.value.base, event.eventType.value.status;
    assert event.eventType.value == SpanEvent(base, status) && start.eventType.value == SpanEvent(base, Started);
    BaseTypeOfSpan(base, status);
    LaneIgnoresStatus(base, Started, status);
  }

  lemma MirrorsClose(p: Pairing, event: RunEvent, r: Reading)
    requires event.correlationId.Some? && !Opens(event) && NextPairing(p, event).good
    requires Mirrors(r.pending, p.open) && Filed(p.open)
    ensures Mirrors(Next(r, event).pending, NextPairing(p, event).open)
    ensures Next(r, event).items == r.items + Faithful(event)
  {
    hide Text, BaseType, LaneFor, BaseText;
    var id := event.correlationId.value;
    CloseFindsStart(p.open[id], event);
    if IsRead(p.open[id]) {
      MirrorsDropRead(r.pending, p.open, id);
    } else {
      MirrorsDropUnread(r.pending, p.open, id);
    }
    var key := (BaseType(Text(event.eventType.value)), id);
    assert key == KeyOf(p.open[id]);
    if LaneFor(Text(event.eventType.value)).Some? {
      assert key in r.pending && r.pending[key] == p.open[id];
      assert Difference(event, p.open[id]) == event.durationMs;
    }
  }

  /** Reading a recorded ledger yields, item for item, what the recorder wrote. */
  lemma {:induction false} ReadingUndoesRecording(events: seq<RunEvent>)
    requires PairingOf(events).good
    ensures Mirrors(ReadingOf(events).pending, PairingOf(events).open)
    ensures ReadingOf(events).items == FaithfulItems(events)
  {
    if |events| > 0 {
      var front, last := events[..|events| - 1], events[|events| - 1];
      ReadingUndoesRecording(front);
      OpenIsFiled(front);
      if last.correlationId.Some? {
        if Opens(last) {
          MirrorsStart(PairingOf(front), last, ReadingOf(front));
        } else {
          MirrorsClose(PairingOf(front), last, ReadingOf(front));
        }
      }
    }
  }

  /** When the last event closes the run span, the duration the reader reports for the run is its own. */
  lemma RunDurationRead(events: seq<RunEvent>)
    requires PairingOf(events).good && |events| > 0
    requires Closes(events[|events| - 1]) && events[|events| - 1].eventType.value.base.RunBase?
    ensures ReadingOf(events).runDurationMs == events[|events| - 1].durationMs
  {
    var front := events[..|events| - 1];
    ReadingUndoesRecording(front);
    OpenIsFiled(front);
    RunCloses(PairingOf(front), events[|events| - 1], ReadingOf(front));
  }

  lemma RunCloses(p: Pairing, event: RunEvent, r: Reading)
    requires Closes(event) && NextPairing(p, event).good && Mirrors(r.pending, p.open) && Filed(p.open)
    requires event.eventType.value.base.RunBase?
    ensures Next(r, event).runDurationMs == event.durationMs
  {
    hide Text, BaseType, LaneFor;
    var start := p.open[event.correlationId.value];
    CloseFindsStart(start, event);
    RunIsRead();
    assert start.eventType.value == SpanEvent(RunBase, Started);
    assert KeyOf(start) in r.pending && r.pending[KeyOf(start)] == start;
  }

  lemma RunIsRead()
    ensures LaneFor(Text(SpanEvent(RunBase, Started))).Some?
  {
    var text := Text(SpanEvent(RunBase, Started));
    assert text == "run" + "." + "started";
    assert "run" + "." <= text;
  }

  /** The sum of one counter over all events. */
  function SumOf(events: seq<RunEvent>, counter: Usage -> nat): nat {
    if |events| == 0 then 0
    else
      var last := events[|events| - 1];
      SumOf(events[..|events| - 1], counter) + (if last.usage.Some? then counter(last.usage.value) else 0)
  }

  lemma NextAddsUsage(r: Reading, event: RunEvent)
    ensures Next(r, event).usage == AddUsage(r.usage, event.usage)
  {
    hide LaneFor, Text, BaseType;
  }

  /** The total is the sum, counter by counter, over every event that carries usage. */
  lemma {:induction false} UsageIsSum(events: seq<RunEvent>)
    ensures ReadingOf(events).usage.None? <==> forall i :: 0 <= i < |events| ==> events[i].usage.None?
    ensures
      var total := if ReadingOf(events).usage.Some? then ReadingOf(events).usage.value else ZERO_USAGE;
      && total.modelCalls == SumOf(events, (u: Usage) => u.modelCalls)
      && total.inputBytes == SumOf(events, (u: Usage) => u.inputBytes)
      && total.inputTokens == SumOf(events, (u: Usage) => u.inputTokens)
      && total.outputTokens == SumOf(events, (u: Usage) => u.outputTokens)
    ensures ReadingOf(events).usage.Some? ==>
      (ReadingOf(events).usage.value.reported <==>
        forall i :: 0 <= i < |events| && events[i].usage.Some? ==> events[i].usage.value.reported)
  {
    hide Next;
    if |events| > 0 {
      UsageIsSum(events[..|events| - 1]);
      NextAddsUsage(ReadingOf(events[..|events| - 1]), events[|events| - 1]);
    }
  }
}
