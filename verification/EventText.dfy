/** The text of event types in the ledger file, and how readers take it apart again. */
module EventText {
  import opened Contracts
  import opened Ledger

  /** What precedes the last dot; the whole text when there is no dot or nothing before it. */
  function BaseType(text: string): string {
    var dot := LastDot(text);
    if dot <= 0 then text else text[..dot]
  }

  function LastDot(text: string): (dot: int)
    ensures -1 <= dot < |text|
  {
    if |text| == 0 then -1
    else if text[|text| - 1] == '.' then |text| - 1
    else LastDot(text[..|text| - 1])
  }

  lemma {:induction false} LastDotOfSuffix(head: string, tail: string)
    requires '.' !in tail
    ensures LastDot(head + "." + tail) == |head|
  {
    var text := head + "." + tail;
    if |tail| == 0 {
      assert text == head + ".";
    } else {
      var shorter := tail[..|tail| - 1];
      LastDotOfSuffix(head, shorter);
      assert text[|text| - 1] == tail[|tail| - 1];
      assert tail[|tail| - 1] in tail;
      assert text[..|text| - 1] == head + "." + shorter;
    }
  }

  lemma StatusHasNoDot(status: EventStatus)
    ensures '.' !in StatusText(status) && StatusText(status) != ""
  {
  }

  /** The reader recovers exactly the base type the recorder wrote. */
  lemma BaseTypeOfSpan(base: Base, status: EventStatus)
    requires ValidBase(base)
    ensures BaseType(Text(SpanEvent(base, status))) == BaseText(base)
  {
    StatusHasNoDot(status);
    LastDotOfSuffix(BaseText(base), StatusText(status));
    var text := Text(SpanEvent(base, status));
    assert text[..|BaseText(base)|] == BaseText(base);
  }

  datatype Lane = InputLane | ModelLane | ToolsLane | VerifierLane

  /** The text is the prefix itself or continues it after a dot. */
  predicate Under(text: string, prefix: string) {
    text == prefix || prefix + "." <= text
  }

  function LaneFor(text: string): Option<Lane> {
    if Under(text, "model.request") then Some(ModelLane)
    else if Under(text, "agent.decision") then Some(ModelLane)
    else if Under(text, "tool.call") then Some(ToolsLane)
    else if Under(text, "evidence.added") then Some(ToolsLane)
    else if Under(text, "verifier") then Some(VerifierLane)
    else if Under(text, "repair") then Some(VerifierLane)
    else if Under(text, "terminal") then Some(VerifierLane)
    else if Under(text, "run") then Some(InputLane)
    else if Under(text, "probe") then Some(InputLane)
    else None
  }

  /** A span's text stays under a prefix whatever its status, unless the prefix itself ends in one. */
  lemma UnderIgnoresStatus(base: string, prefix: string, s: EventStatus)
    requires prefix != base + "." + StatusText(s)
    ensures Under(base + "." + StatusText(s), prefix) <==> prefix + "." <= base + "."
  {
    StatusHasNoDot(s);
    var text := base + "." + StatusText(s);
    if prefix + "." <= text {
      assert text[|prefix|] == '.';
      assert forall i :: 0 <= i < |StatusText(s)| ==> text[|base| + 1 + i] == StatusText(s)[i];
      assert (prefix + ".")[..] == text[..|prefix| + 1];
      assert (base + ".")[..|prefix| + 1] == text[..|prefix| + 1];
    }
    if prefix + "." <= base + "." {
      assert base + "." <= text;
    }
  }

  /** No lane prefix ends in a span status. */
  lemma PrefixNotStatus(prefix: string, base: string, s: EventStatus)
    requires (|prefix| > 0 && prefix[|prefix| - 1] != 'd') || prefix == "evidence.added"
    ensures prefix != base + "." + StatusText(s)
  {
    var text := base + "." + StatusText(s);
    assert text[|text| - 1] == StatusText(s)[|StatusText(s)| - 1] == 'd';
    assert text[|text| - |StatusText(s)| - 1] == '.';
    if prefix == "evidence.added" {
      assert prefix[7] == 'e' && prefix[6] == 'c' && prefix[4] == 'e';
    }
  }

  /** Both events of a span fall in the same lane, so a reader keeps both or neither. */
  lemma LaneIgnoresStatus(base: Base, s: EventStatus, t: EventStatus)
    ensures LaneFor(Text(SpanEvent(base, s))) == LaneFor(Text(SpanEvent(base, t)))
  {
    SamePrefix("model.request", base, s, t);
    SamePrefix("agent.decision", base, s, t);
    SamePrefix("tool.call", base, s, t);
    SamePrefix("evidence.added", base, s, t);
    SamePrefix("verifier", base, s, t);
    SamePrefix("repair", base, s, t);
    SamePrefix("terminal", base, s, t);
    SamePrefix("run", base, s, t);
    SamePrefix("probe", base, s, t);
  }

  lemma SamePrefix(prefix: string, base: Base, s: EventStatus, t: EventStatus)
    requires (|prefix| > 0 && prefix[|prefix| - 1] != 'd') || prefix == "evidence.added"
    ensures Under(Text(SpanEvent(base, s)), prefix) <==> Under(Text(SpanEvent(base, t)), prefix)
  {
    PrefixNotStatus(prefix, BaseText(base), s);
    PrefixNotStatus(prefix, BaseText(base), t);
    UnderIgnoresStatus(BaseText(base), prefix, s);
    UnderIgnoresStatus(BaseText(base), prefix, t);
  }
}
