/** The append-only run index: one JSON line per record, in a file that a crash may have cut anywhere. */
module IndexFiles {
  import opened Bytes
  import opened Characters
  import opened Contracts

  type Code = nat

  type Text = seq<Code>

  const REPLACEMENT: Code := 0xFFFD
  const LF: Byte := 10

  // Decoding UTF-8, with one replacement character for each undecodable part.

  /** How many continuation bytes a lead byte announces; none for an invalid lead. */
  function Announced(lead: Byte): Option<nat> {
    if lead < 0x80 then Some(0)
    else if 0xC2 <= lead <= 0xDF then Some(1)
    else if 0xE0 <= lead <= 0xEF then Some(2)
    else if 0xF0 <= lead <= 0xF4 then Some(3)
    else None
  }

  /** Whether byte `k` after the lead continues its sequence; the second byte's range depends on the lead. */
  predicate Continues(lead: Byte, k: nat, b: Byte) {
    if k > 1 then 0x80 <= b <= 0xBF
    else (if lead == 0xE0 then 0xA0 else if lead == 0xF0 then 0x90 else 0x80) <= b
      <= (if lead == 0xED then 0x9F else if lead == 0xF4 then 0x8F else 0xBF)
  }

  /** How many of `need` continuation bytes from position `k` on are there. */
  function Matched(bytes: seq<Byte>, k: nat, need: nat): (m: nat)
    requires |bytes| > 0 && 1 <= k <= need + 1
    ensures k - 1 <= m <= need && (m < |bytes| || m == k - 1)
    decreases need + 1 - k
  {
    if k <= need && k < |bytes| && Continues(bytes[0], k, bytes[k]) then Matched(bytes, k + 1, need) else k - 1
  }

  function Payload(lead: Byte, need: nat): nat {
    if need == 0 then lead else if need == 1 then lead % 32 else if need == 2 then lead % 16 else lead % 8
  }

  function Assemble(bytes: seq<Byte>, k: nat, need: nat, code: nat): Code
    requires 1 <= k <= need + 1 && need < |bytes|
    decreases need + 1 - k
  {
    if k > need then code else Assemble(bytes, k + 1, need, code * 64 + bytes[k] % 64)
  }

  /** How many bytes the first character takes: a whole sequence, or its longest valid start. */
  function Used(bytes: seq<Byte>): (n: nat)
    requires |bytes| > 0
    ensures 1 <= n <= |bytes|
  {
    var need := Announced(bytes[0]);
    if need.None? then 1 else Matched(bytes, 1, need.value) + 1
  }

  function First(bytes: seq<Byte>): Code
    requires |bytes| > 0
  {
    var need := Announced(bytes[0]);
    if need.None? || Matched(bytes, 1, need.value) < need.value then REPLACEMENT
    else Assemble(bytes, 1, need.value, Payload(bytes[0], need.value))
  }

  function Decode(bytes: seq<Byte>): Text {
    if |bytes| == 0 then [] else [First(bytes)] + Decode(bytes[Used(bytes)..])
  }

  lemma {:induction false} MatchedLocal(a: seq<Byte>, c: Byte, b: seq<Byte>, k: nat, need: nat)
    requires |a| > 0 && c < 0x80 && 1 <= k <= need + 1 && k <= |a|
    ensures Matched(a + [c] + b, k, need) == Matched(a, k, need)
    decreases need + 1 - k
  {
    var all := a + [c] + b;
    assert all[0] == a[0];
    if k <= need {
      if k < |a| {
        assert all[k] == a[k];
        if Continues(a[0], k, a[k]) {
          MatchedLocal(a, c, b, k + 1, need);
        }
      } else {
        assert all[k] == c;
      }
    }
  }

  lemma {:induction false} AssembleLocal(a: seq<Byte>, rest: seq<Byte>, k: nat, need: nat, code: nat)
    requires 1 <= k <= need + 1 && need < |a|
    ensures Assemble(a + rest, k, need, code) == Assemble(a, k, need, code)
    decreases need + 1 - k
  {
    if k <= need {
      AssembleLocal(a, rest, k + 1, need, code * 64 + a[k] % 64);
    }
  }

  /** A plain byte ends any unfinished sequence ahead of it: the text splits there. */
  lemma {:induction false} DecodeSplits(a: seq<Byte>, c: Byte, b: seq<Byte>)
    requires c < 0x80
    ensures Decode(a + [c] + b) == Decode(a) + [c] + Decode(b)
    decreases |a|
  {
    hide Continues;
    var all := a + [c] + b;
    if |a| == 0 {
      assert all == [c] + b;
      assert Used(all) == 1 && First(all) == c;
      assert all[1..] == b;
    } else {
      FirstLocal(a, c, b);
      var n := Used(a);
      assert all[n..] == a[n..] + [c] + b;
      DecodeSplits(a[n..], c, b);
    }
  }

  lemma FirstLocal(a: seq<Byte>, c: Byte, b: seq<Byte>)
    requires |a| > 0 && c < 0x80
    ensures First(a + [c] + b) == First(a) && Used(a + [c] + b) == Used(a)
  {
    var all, need := a + [c] + b, Announced(a[0]);
    assert all[0] == a[0];
    if need.Some? {
      MatchedLocal(a, c, b, 1, need.value);
      if Matched(a, 1, need.value) == need.value {
        assert all == a + ([c] + b);
        AssembleLocal(a, [c] + b, 1, need.value, Payload(a[0], need.value));
      }
    }
  }

  predicate IsAscii(bytes: seq<Byte>) {
    forall i :: 0 <= i < |bytes| ==> bytes[i] < 0x80
  }

  function Codes(bytes: seq<Byte>): (text: Text)
    ensures |text| == |bytes| && forall i :: 0 <= i < |text| ==> text[i] == bytes[i]
  {
    seq(|bytes|, i requires 0 <= i < |bytes| => bytes[i])
  }

  lemma {:induction false} DecodeAscii(bytes: seq<Byte>)
    requires IsAscii(bytes)
    ensures Decode(bytes) == Codes(bytes)
  {
    if |bytes| > 0 {
      var n := |bytes| - 1;
      DecodeAscii(bytes[..n]);
      assert bytes == bytes[..n] + [bytes[n]] + [];
      DecodeSplits(bytes[..n], bytes[n], []);
    }
  }

  // Lines.

  predicate IsBreak(c: Code) {
    0x0A <= c <= 0x0D || 0x1C <= c <= 0x1E || c == 0x85 || c == 0x2028 || c == 0x2029
  }

  /** The lines of a text, with `current` already read; a carriage return and line feed are one break. */
  function LinesFrom(current: Text, text: Text): seq<Text>
    decreases |text|
  {
    if |text| == 0 then if current == [] then [] else [current]
    else if !IsBreak(text[0]) then LinesFrom(current + [text[0]], text[1..])
    else if text[0] == 0x0D && |text| > 1 && text[1] == 0x0A then [current] + LinesFrom([], text[2..])
    else [current] + LinesFrom([], text[1..])
  }

  function SplitLines(text: Text): seq<Text> {
    LinesFrom([], text)
  }

  predicate IsBlankLine(line: Text) {
    forall i :: 0 <= i < |line| ==> IsSpaceCode(line[i])
  }

  // Records.

  datatype IndexRecord = IndexRecord(currentSchema: bool, knownKind: bool, runId: Option<string>, rest: nat)
  {
    /** What the reader asks of a record. */
    predicate Usable() {
      currentSchema && knownKind && runId.Some?
    }
  }

  datatype Json = Object(record: IndexRecord) | OtherValue

  /**
   What parsing one line comes to: a value, the error for malformed JSON, or another exception, as for
   nesting too deep or an integer too long.
   */
  datatype Parse = Value(json: Json) | Malformed | ParseFails

  /** The JSON library: `render` writes one record compactly, `parse` reads one line or raises. */
  datatype Codec = Codec(render: IndexRecord -> seq<Byte>, parse: Text -> Parse)
  {
    /**
     A rendered record is printable ASCII starting with a brace, reads back as itself, and is
     malformed, but nothing worse, when cut short.
     */
    ghost predicate Faithful() {
      forall r ::
        && |render(r)| > 0 && render(r)[0] == 0x7B
        && (forall i :: 0 <= i < |render(r)| ==> 0x20 <= render(r)[i] < 0x80)
        && parse(Codes(render(r))) == Value(Object(r))
        && (forall k :: 0 < k < |render(r)| ==> parse(Codes(render(r)[..k])) == Malformed)
    }
  }

  // A codec of this kind: numbers in unary, closed by a brace that appears nowhere else.

  function Ones(n: nat): (bytes: seq<Byte>)
    ensures |bytes| == n && forall i :: 0 <= i < |bytes| ==> bytes[i] == 0x31
  {
    if n == 0 then [] else Ones(n - 1) + [0x31]
  }

  function Tally(numbers: seq<nat>): (bytes: seq<Byte>)
    ensures forall i :: 0 <= i < |bytes| ==> bytes[i] == 0x31 || bytes[i] == 0x2C
  {
    if |numbers| == 0 then [] else Ones(numbers[0]) + [0x2C] + Tally(numbers[1..])
  }

  lemma {:induction false} TallyInjective(a: seq<nat>, b: seq<nat>)
    requires Tally(a) == Tally(b)
    ensures a == b
    decreases |a|
  {
    if |a| == 0 || |b| == 0 {
      assert |a| > 0 ==> |Tally(a)| > 0;
      assert |b| > 0 ==> |Tally(b)| > 0;
    } else {
      var s := Tally(a);
      assert s[a[0]] == 0x2C && forall i :: 0 <= i < a[0] ==> s[i] == 0x31;
      assert s[b[0]] == 0x2C && forall i :: 0 <= i < b[0] ==> s[i] == 0x31;
      assert a[0] == b[0];
      assert s[a[0] + 1..] == Tally(a[1..]) && s[a[0] + 1..] == Tally(b[1..]);
      TallyInjective(a[1..], b[1..]);
      assert a == [a[0]] + a[1..] && b == [b[0]] + b[1..];
    }
  }

  function Flag(b: bool): nat {
    if b then 1 else 0
  }

  function NumbersOf(r: IndexRecord): seq<nat> {
    [Flag(r.currentSchema), Flag(r.knownKind), Flag(r.runId.Some?), r.rest]
    + if r.runId.None? then [] else seq(|r.runId.value|, i requires 0 <= i < |r.runId.value| => r.runId.value[i] as nat)
  }

  lemma NumbersInjective(r: IndexRecord, q: IndexRecord)
    requires NumbersOf(r) == NumbersOf(q)
    ensures r == q
  {
    var a, b := NumbersOf(r), NumbersOf(q);
    assert a[0] == b[0] && a[1] == b[1] && a[2] == b[2] && a[3] == b[3];
    if r.runId.Some? {
      var s, t := r.runId.value, q.runId.value;
      assert |s| == |a| - 4 && |t| == |b| - 4;
      forall i | 0 <= i < |s| ensures s[i] == t[i] {
        assert a[i + 4] == s[i] as nat && b[i + 4] == t[i] as nat;
      }
      assert s == t;
    }
  }

  function UnaryRender(r: IndexRecord): seq<Byte> {
    [0x7B] + Tally(NumbersOf(r)) + [0x7D]
  }

  /** A line of `n` opening brackets. */
  function Brackets(n: nat): (line: seq<Byte>)
    ensures |line| == n && forall i :: 0 <= i < |line| ==> line[i] == 0x5B
  {
    if n == 0 then [] else Brackets(n - 1) + [0x5B]
  }

  /** Nesting beyond this depth fails to parse; nothing else does. */
  const DEEP := 1000

  ghost function UnaryParse(text: Text): Parse {
    if |text| > DEEP && forall i :: 0 <= i < |text| ==> text[i] == 0x5B then ParseFails
    else if exists r :: Codes(UnaryRender(r)) == text then
      var r :| Codes(UnaryRender(r)) == text;
      Value(Object(r))
    else Malformed
  }

  /** A rendering starts no other rendering. */
  lemma UnaryPrefixFree(r: IndexRecord, q: IndexRecord, k: nat)
    requires k <= |UnaryRender(q)| && Codes(UnaryRender(r)) == Codes(UnaryRender(q)[..k])
    ensures k == |UnaryRender(q)| && r == q
  {
    var s, t := UnaryRender(r), UnaryRender(q);
    assert |s| == k;
    assert forall i :: 0 <= i < k ==> s[i] == t[i] by {
      assert forall i :: 0 <= i < k ==> Codes(s)[i] == Codes(t[..k])[i];
    }
    assert s[k - 1] == 0x7D;
    assert forall i :: 0 < i < |t| - 1 ==> t[i] == Tally(NumbersOf(q))[i - 1];
    assert k == |t|;
    assert s[1..k - 1] == Tally(NumbersOf(r)) && t[1..k - 1] == Tally(NumbersOf(q));
    TallyInjective(NumbersOf(r), NumbersOf(q));
    NumbersInjective(r, q);
  }

  /** There is a faithful codec that fails on deep nesting, so the theorems about them are about some. */
  lemma FaithfulCodecExists()
    ensures exists codec: Codec ::
      codec.Faithful() && forall n :: n > DEEP ==> codec.parse(Codes(Brackets(n))) == ParseFails
  {
    var codec := Codec(UnaryRender, UnaryParse);
    forall r
      ensures |UnaryRender(r)| > 0 && UnaryRender(r)[0] == 0x7B
      ensures forall i :: 0 <= i < |UnaryRender(r)| ==> 0x20 <= UnaryRender(r)[i] < 0x80
      ensures UnaryParse(Codes(UnaryRender(r))) == Value(Object(r))
      ensures forall k :: 0 < k < |UnaryRender(r)| ==> UnaryParse(Codes(UnaryRender(r)[..k])) == Malformed
    {
      UnaryReads(r);
      forall k | 0 < k < |UnaryRender(r)| ensures UnaryParse(Codes(UnaryRender(r)[..k])) == Malformed {
        UnaryCut(r, k);
      }
    }
    assert codec.Faithful();
    forall n: nat | n > DEEP ensures codec.parse(Codes(Brackets(n))) == ParseFails {
    }
  }

  lemma UnaryReads(r: IndexRecord)
    ensures UnaryParse(Codes(UnaryRender(r))) == Value(Object(r))
  {
    assert Codes(UnaryRender(r))[0] == 0x7B;
    forall q | Codes(UnaryRender(q)) == Codes(UnaryRender(r)) ensures q == r {
      assert UnaryRender(r)[..|UnaryRender(r)|] == UnaryRender(r);
      UnaryPrefixFree(q, r, |UnaryRender(r)|);
    }
  }

  lemma UnaryCut(r: IndexRecord, k: nat)
    requires 0 < k < |UnaryRender(r)|
    ensures UnaryParse(Codes(UnaryRender(r)[..k])) == Malformed
  {
    assert Codes(UnaryRender(r)[..k])[0] == 0x7B;
    if q :| Codes(UnaryRender(q)) == Codes(UnaryRender(r)[..k]) {
      UnaryPrefixFree(q, r, k);
    }
  }

  /** What reading comes to: the records and the number of invalid lines, or an exception. */
  datatype Reading = Contents(records: seq<IndexRecord>, invalidLines: nat) | ReadRaises
  {
    function Plus(other: Reading): Reading {
      if ReadRaises? || other.ReadRaises? then ReadRaises
      else Contents(records + other.records, invalidLines + other.invalidLines)
    }
  }

  const NOTHING := Contents([], 0)

  /** A line that gets as far as the JSON library. */
  predicate IsParsed(line: Text) {
    !IsBlankLine(line) && REPLACEMENT !in line
  }

  /** It gets there, and fails other than as malformed. */
  predicate FailsToParse(codec: Codec, line: Text) {
    IsParsed(line) && codec.parse(line).ParseFails?
  }

  /** What one line adds: nothing when blank, a usable record, one more invalid line, or an exception. */
  function ReadLine(codec: Codec, line: Text): Reading {
    if IsBlankLine(line) then NOTHING
    else if REPLACEMENT in line then Contents([], 1)
    else
      match codec.parse(line)
      case ParseFails => ReadRaises
      case Value(Object(r)) => if r.Usable() then Contents([r], 0) else Contents([], 1)
      case _ => Contents([], 1)
  }

  function ReadLines(codec: Codec, lines: seq<Text>): Reading {
    if |lines| == 0 then NOTHING else ReadLine(codec, lines[0]).Plus(ReadLines(codec, lines[1..]))
  }

  function ReadBytes(codec: Codec, bytes: seq<Byte>): Reading {
    ReadLines(codec, SplitLines(Decode(bytes)))
  }

  lemma PlusAssociates(a: Reading, b: Reading, c: Reading)
    ensures a.Plus(b).Plus(c) == a.Plus(b.Plus(c))
    ensures a.Plus(NOTHING) == a && NOTHING.Plus(a) == a
  {
  }

  /** Reading goes on after one line from what was read with it. */
  lemma ReadStep(codec: Codec, lines: seq<Text>, k: nat, before: Reading)
    requires k < |lines|
    ensures before.Plus(ReadLines(codec, lines[k..]))
         == before.Plus(ReadLine(codec, lines[k])).Plus(ReadLines(codec, lines[k + 1..]))
    ensures before.Plus(NOTHING) == before
    ensures ReadRaises.Plus(ReadLines(codec, lines[k + 1..])) == ReadRaises
  {
    hide ReadLine, Reading.Plus;
    assert lines[k..][1..] == lines[k + 1..];
    PlusAssociates(before, ReadLine(codec, lines[k]), ReadLines(codec, lines[k + 1..]));
    RaisesStays(ReadLines(codec, lines[k + 1..]));
  }

  lemma RaisesStays(other: Reading)
    ensures ReadRaises.Plus(other) == ReadRaises
  {
  }

  lemma ReadNone(codec: Codec, before: Reading)
    ensures before.Plus(ReadLines(codec, [])) == before
  {
  }

  predicate AnyFails(codec: Codec, lines: seq<Text>) {
    exists line :: line in lines && FailsToParse(codec, line)
  }

  /** Reading raises exactly when some line that reaches the JSON library fails there other than as malformed. */
  lemma ReadRaisesIff(codec: Codec, bytes: seq<Byte>)
    ensures ReadBytes(codec, bytes).ReadRaises? <==> AnyFails(codec, SplitLines(Decode(bytes)))
  {
    hide AnyFails;
    LinesRaiseIff(codec, SplitLines(Decode(bytes)));
  }

  lemma {:induction false} LinesRaiseIff(codec: Codec, lines: seq<Text>)
    ensures ReadLines(codec, lines).ReadRaises? <==> AnyFails(codec, lines)
  {
    if |lines| > 0 {
      hide AnyFails, FailsToParse, IsParsed;
      LinesRaiseIff(codec, lines[1..]);
      FailsHere(codec, lines[0]);
      assert lines == [lines[0]] + lines[1..];
      FailsMore(codec, lines[0], lines[1..]);
    }
  }

  lemma FailsHere(codec: Codec, line: Text)
    ensures ReadLine(codec, line).ReadRaises? <==> FailsToParse(codec, line)
  {
  }

  lemma FailsMore(codec: Codec, line: Text, lines: seq<Text>)
    ensures AnyFails(codec, [line] + lines) <==> FailsToParse(codec, line) || AnyFails(codec, lines)
  {
    hide FailsToParse;
    assert line in [line] + lines;
  }

  /** The length of the line break a text starts with. */
  function BreakLength(text: Text): (n: nat)
    requires |text| > 0
    ensures 1 <= n <= |text|
  {
    if text[0] == 0x0D && |text| > 1 && text[1] == LF then 2 else 1
  }

  lemma ReadBreak(codec: Codec, current: Text, text: Text)
    requires |text| > 0 && IsBreak(text[0])
    ensures ReadLines(codec, LinesFrom(current, text))
         == ReadLine(codec, current).Plus(ReadLines(codec, LinesFrom([], text[BreakLength(text)..])))
  {
    LineThen(codec, current, LinesFrom([], text[BreakLength(text)..]));
  }

  lemma ReadOn(codec: Codec, current: Text, text: Text)
    requires |text| > 0 && !IsBreak(text[0])
    ensures LinesFrom(current, text) == LinesFrom(current + [text[0]], text[1..])
  {
  }

  /** A break that a line feed completes ends there; any other stays as long as it was. */
  lemma BreakAhead(s: Text, t: Text)
    requires |s| > 0
    ensures var all := s + [LF] + t;
      if s == [0x0D] then all[BreakLength(all)..] == t
      else BreakLength(all) == BreakLength(s) && all[BreakLength(all)..] == s[BreakLength(s)..] + [LF] + t
  {
  }

  lemma {:induction false} LinesSplit(codec: Codec, current: Text, s: Text, t: Text)
    ensures ReadLines(codec, LinesFrom(current, s + [LF] + t))
         == ReadLines(codec, LinesFrom(current, s)).Plus(ReadLines(codec, LinesFrom([], t)))
    decreases |s|
  {
    hide ReadLine, ReadLines, LinesFrom, IsBreak, BreakLength, Reading.Plus;
    var all, rest := s + [LF] + t, ReadLines(codec, LinesFrom([], t));
    OneLine(codec, current);
    OneLine(codec, []);
    if |s| == 0 {
      assert all == [LF] + t && s == [];
      FeedIsBreak(t);
      ReadBreak(codec, current, all);
    } else if !IsBreak(s[0]) {
      ReadOn(codec, current, s);
      ReadOn(codec, current, all);
      assert all[1..] == s[1..] + [LF] + t;
      LinesSplit(codec, current + [s[0]], s[1..], t);
    } else {
      BreakAhead(s, t);
      ReadBreak(codec, current, s);
      ReadBreak(codec, current, all);
      var after := s[BreakLength(s)..];
      if s == [0x0D] {
        assert after == [];
        BlankReads(codec);
        PlusAssociates(ReadLine(codec, current), NOTHING, NOTHING);
      } else {
        LinesSplit(codec, [], after, t);
        PlusAssociates(ReadLine(codec, current), ReadLines(codec, LinesFrom([], after)), rest);
      }
    }
  }

  lemma FeedIsBreak(t: Text)
    ensures IsBreak(LF) && BreakLength([LF] + t) == 1 && ([LF] + t)[1..] == t
  {
  }

  lemma BlankReads(codec: Codec)
    ensures ReadLine(codec, []) == NOTHING
  {
  }

  lemma LineThen(codec: Codec, line: Text, lines: seq<Text>)
    ensures ReadLines(codec, [line] + lines) == ReadLine(codec, line).Plus(ReadLines(codec, lines))
  {
    assert ([line] + lines)[1..] == lines;
  }

  lemma OneLine(codec: Codec, current: Text)
    ensures ReadLines(codec, LinesFrom(current, [])) == ReadLine(codec, current)
  {
    if current != [] {
      LineThen(codec, current, []);
      assert [current] + [] == [current];
      PlusAssociates(ReadLine(codec, current), NOTHING, NOTHING);
    }
  }

  /** A line feed separates what is read ahead of it from what is read after it, whatever the bytes. */
  lemma ReadSplits(codec: Codec, a: seq<Byte>, b: seq<Byte>)
    ensures ReadBytes(codec, a + [LF] + b) == ReadBytes(codec, a).Plus(ReadBytes(codec, b))
  {
    DecodeSplits(a, LF, b);
    LinesSplit(codec, [], Decode(a), Decode(b));
  }

  lemma ReadEmpty(codec: Codec)
    ensures ReadBytes(codec, []) == NOTHING
  {
  }

  lemma {:induction false} NoBreakIsOneLine(current: Text, text: Text)
    requires forall i :: 0 <= i < |text| ==> !IsBreak(text[i])
    ensures LinesFrom(current, text) == if current + text == [] then [] else [current + text]
    decreases |text|
  {
    if |text| > 0 {
      NoBreakIsOneLine(current + [text[0]], text[1..]);
      assert current + [text[0]] + text[1..] == current + text;
    } else {
      assert current + text == current;
    }
  }

  /** What a record's own line reads as. */
  function RecordContents(r: IndexRecord): Reading {
    if r.Usable() then Contents([r], 0) else Contents([], 1)
  }

  /** Reading a rendered record cut after `k` bytes. */
  lemma ReadRendered(codec: Codec, r: IndexRecord, k: nat)
    requires codec.Faithful() && 0 < k <= |codec.render(r)|
    ensures ReadBytes(codec, codec.render(r)[..k])
         == if k == |codec.render(r)| then RecordContents(r) else Contents([], 1)
  {
    var line := codec.render(r);
    var cut := line[..k];
    assert line[..|line|] == line;
    DecodeAscii(cut);
    NoBreakIsOneLine([], Codes(cut));
    assert [] + Codes(cut) == Codes(cut);
    assert LinesFrom([], Codes(cut)) == [Codes(cut)];
    LineThen(codec, Codes(cut), []);
    assert [Codes(cut)] + [] == [Codes(cut)];
    assert !IsSpaceCode(Codes(cut)[0]) && REPLACEMENT !in Codes(cut);
    PlusAssociates(ReadLine(codec, Codes(cut)), NOTHING, NOTHING);
  }

  /** The bytes one append writes: a line feed first when the file ends in the middle of a line. */
  function Appended(codec: Codec, bytes: seq<Byte>, r: IndexRecord): seq<Byte> {
    (if |bytes| > 0 && bytes[|bytes| - 1] != LF then [LF] else []) + codec.render(r) + [LF]
  }

  /** The end of a file does not matter to what is read, when a line feed follows or stands there. */
  lemma ReadAfter(codec: Codec, bytes: seq<Byte>, line: seq<Byte>)
    requires |bytes| > 0
    ensures var joint := if bytes[|bytes| - 1] != LF then [LF] else [];
      ReadBytes(codec, bytes + joint + line) == ReadBytes(codec, bytes).Plus(ReadBytes(codec, line))
  {
    hide ReadBytes;
    var n := |bytes| - 1;
    if bytes[n] == LF {
      assert bytes == bytes[..n] + [LF] + [];
      ReadSplits(codec, bytes[..n], []);
      ReadEmpty(codec);
      ReadSplits(codec, bytes[..n], line);
      assert bytes + [] + line == bytes[..n] + [LF] + line;
      PlusAssociates(ReadBytes(codec, bytes[..n]), NOTHING, NOTHING);
    } else {
      ReadSplits(codec, bytes, line);
    }
  }

  lemma ReadTerminated(codec: Codec, line: seq<Byte>)
    ensures ReadBytes(codec, line + [LF]) == ReadBytes(codec, line)
  {
    hide ReadBytes;
    assert line + [LF] == line + [LF] + [];
    ReadSplits(codec, line, []);
    ReadEmpty(codec);
    PlusAssociates(ReadBytes(codec, line), NOTHING, NOTHING);
  }

  /** Reading after an append gives what was read before, then the record. */
  lemma AppendIsExact(codec: Codec, bytes: seq<Byte>, r: IndexRecord)
    requires codec.Faithful()
    ensures ReadBytes(codec, bytes + Appended(codec, bytes, r)) == ReadBytes(codec, bytes).Plus(RecordContents(r))
  {
    hide ReadBytes, Codec.Faithful;
    var line := codec.render(r);
    AppendedWhole(codec, r);
    if |bytes| == 0 {
      ReadEmpty(codec);
      assert bytes + Appended(codec, bytes, r) == line + [LF];
      PlusAssociates(RecordContents(r), NOTHING, NOTHING);
    } else {
      ReadAfter(codec, bytes, line + [LF]);
      var joint := if bytes[|bytes| - 1] != LF then [LF] else [];
      assert bytes + Appended(codec, bytes, r) == bytes + joint + (line + [LF]);
    }
  }

  lemma AppendedWhole(codec: Codec, r: IndexRecord)
    requires codec.Faithful()
    ensures ReadBytes(codec, codec.render(r)) == RecordContents(r)
    ensures ReadBytes(codec, codec.render(r) + [LF]) == RecordContents(r)
  {
    hide ReadBytes;
    var line := codec.render(r);
    assert line[..|line|] == line;
    assert |line| > 0;
    ReadRendered(codec, r, |line|);
    ReadTerminated(codec, line);
  }

  /**
   A file that raises still raises after an append. Otherwise the new record is read back exactly when
   it is usable, after all that was read before; an unusable one costs an invalid line.
   */
  lemma AppendReadsBackIff(codec: Codec, bytes: seq<Byte>, r: IndexRecord)
    requires codec.Faithful()
    ensures var before, after := ReadBytes(codec, bytes), ReadBytes(codec, bytes + Appended(codec, bytes, r));
      && (after.ReadRaises? <==> before.ReadRaises?)
      && (after.Contents? && before.Contents? && after.records == before.records + [r]
          <==> before.Contents? && r.currentSchema && r.knownKind && r.runId.Some?)
      && (before.Contents? ==> before.records <= after.records)
  {
    hide ReadBytes, Codec.Faithful;
    AppendIsExact(codec, bytes, r);
    if ReadBytes(codec, bytes).Contents? {
      var before := ReadBytes(codec, bytes).records;
      assert before + [] == before;
      assert |before + [r]| == |before| + 1;
    }
  }

  lemma NestedLineAlone(codec: Codec, n: nat)
    requires n > 0 && codec.parse(Codes(Brackets(n))) == ParseFails
    ensures ReadBytes(codec, Brackets(n)) == ReadRaises
  {
    hide LinesFrom, Decode;
    var line := Brackets(n);
    DecodeAscii(line);
    NoBreakIsOneLine([], Codes(line));
    assert [] + Codes(line) == Codes(line);
    assert !IsSpaceCode(Codes(line)[0]) && REPLACEMENT !in Codes(line);
    LineThen(codec, Codes(line), []);
    assert [Codes(line)] + [] == [Codes(line)];
  }

  /** A line nested too deep for the library makes every read raise, before any append and after every one. */
  lemma {:induction false} NestedLineRaises(codec: Codec, n: nat, records: seq<IndexRecord>)
    requires codec.Faithful() && n > 0 && codec.parse(Codes(Brackets(n))) == ParseFails
    ensures ReadBytes(codec, Brackets(n)) == ReadRaises
    ensures ReadBytes(codec, AppendTo(codec, Brackets(n), records)) == ReadRaises
    decreases |records|
  {
    hide ReadBytes, Codec.Faithful;
    NestedLineAlone(codec, n);
    if |records| > 0 {
      var front := records[..|records| - 1];
      NestedLineRaises(codec, n, front);
      AppendIsExact(codec, AppendTo(codec, Brackets(n), front), records[|records| - 1]);
    }
  }

  /** A record without a run id is written, and then counted as an invalid line. */
  lemma NamelessRecordIsLost(codec: Codec)
    requires codec.Faithful()
    ensures var r := IndexRecord(true, true, None, 0);
      ReadBytes(codec, [] + Appended(codec, [], r)) == Contents([], 1)
  {
    hide ReadBytes, Codec.Faithful;
    AppendIsExact(codec, [], IndexRecord(true, true, None, 0));
    ReadEmpty(codec);
  }

  /** What an append cut after `k` bytes leaves to be read besides the earlier contents. */
  function CutContents(codec: Codec, bytes: seq<Byte>, r: IndexRecord, k: nat): Reading {
    var joint := if |bytes| > 0 && bytes[|bytes| - 1] != LF then 1 else 0;
    if k <= joint then NOTHING
    else if k - joint < |codec.render(r)| then Contents([], 1)
    else RecordContents(r)
  }

  /** An append cut at any byte loses no earlier record; a torn line is at most one more invalid line. */
  lemma CutAppendLosesNothing(codec: Codec, bytes: seq<Byte>, r: IndexRecord, k: nat)
    requires codec.Faithful() && k <= |Appended(codec, bytes, r)|
    ensures ReadBytes(codec, bytes + Appended(codec, bytes, r)[..k])
         == ReadBytes(codec, bytes).Plus(CutContents(codec, bytes, r, k))
  {
    hide ReadBytes, Codec.Faithful;
    var added := Appended(codec, bytes, r);
    var joint := if |bytes| > 0 && bytes[|bytes| - 1] != LF then 1 else 0;
    if k <= joint {
      PlusAssociates(ReadBytes(codec, bytes), NOTHING, NOTHING);
      if k == 0 {
        assert bytes + added[..0] == bytes;
      } else {
        assert added[..1] == [LF];
        ReadTerminated(codec, bytes);
      }
    } else {
      CutParts(codec, bytes, r, k);
      CutLine(codec, bytes, r, k - joint);
    }
  }

  lemma CutParts(codec: Codec, bytes: seq<Byte>, r: IndexRecord, k: nat)
    requires var joint := if |bytes| > 0 && bytes[|bytes| - 1] != LF then 1 else 0;
      joint < k <= |Appended(codec, bytes, r)|
    ensures var joint := if |bytes| > 0 && bytes[|bytes| - 1] != LF then [LF] else [];
      bytes + Appended(codec, bytes, r)[..k] == bytes + joint + (codec.render(r) + [LF])[..k - |joint|]
  {
    var joint := if |bytes| > 0 && bytes[|bytes| - 1] != LF then [LF] else [];
    assert Appended(codec, bytes, r) == joint + (codec.render(r) + [LF]);
  }

  lemma CutLine(codec: Codec, bytes: seq<Byte>, r: IndexRecord, k: nat)
    requires codec.Faithful() && 0 < k <= |codec.render(r)| + 1
    ensures var joint := if |bytes| > 0 && bytes[|bytes| - 1] != LF then [LF] else [];
      ReadBytes(codec, bytes + joint + (codec.render(r) + [LF])[..k])
        == ReadBytes(codec, bytes).Plus(if k < |codec.render(r)| then Contents([], 1) else RecordContents(r))
  {
    hide ReadBytes, Codec.Faithful;
    var part := (codec.render(r) + [LF])[..k];
    ReadPart(codec, r, k);
    if |bytes| == 0 {
      ReadEmpty(codec);
      assert bytes + [] + part == part;
      PlusAssociates(ReadBytes(codec, part), NOTHING, NOTHING);
    } else {
      ReadAfter(codec, bytes, part);
    }
  }

  lemma ReadPart(codec: Codec, r: IndexRecord, k: nat)
    requires codec.Faithful() && 0 < k <= |codec.render(r)| + 1
    ensures ReadBytes(codec, (codec.render(r) + [LF])[..k])
         == if k < |codec.render(r)| then Contents([], 1) else RecordContents(r)
  {
    hide ReadBytes, Codec.Faithful;
    var line := codec.render(r);
    AppendedWhole(codec, r);
    if k <= |line| {
      assert (line + [LF])[..k] == line[..k];
      ReadRendered(codec, r, k);
    } else {
      assert (line + [LF])[..k] == line + [LF];
    }
  }

  /** A crash during one append leaves the next one exact. */
  lemma AppendAfterCut(codec: Codec, bytes: seq<Byte>, torn: IndexRecord, k: nat, r: IndexRecord)
    requires codec.Faithful() && k <= |Appended(codec, bytes, torn)|
    ensures var left := bytes + Appended(codec, bytes, torn)[..k];
      ReadBytes(codec, left + Appended(codec, left, r))
        == ReadBytes(codec, bytes).Plus(CutContents(codec, bytes, torn, k)).Plus(RecordContents(r))
  {
    hide ReadBytes, Codec.Faithful;
    CutAppendLosesNothing(codec, bytes, torn, k);
    AppendIsExact(codec, bytes + Appended(codec, bytes, torn)[..k], r);
  }

  /** The file after a series of appends to some bytes. */
  function AppendTo(codec: Codec, bytes: seq<Byte>, records: seq<IndexRecord>): seq<Byte> {
    if |records| == 0 then bytes
    else
      var before := AppendTo(codec, bytes, records[..|records| - 1]);
      before + Appended(codec, before, records[|records| - 1])
  }

  /** An index written only by appends reads back as its usable records, in order. */
  lemma {:induction false} IndexRoundTrip(codec: Codec, records: seq<IndexRecord>)
    requires codec.Faithful() && forall i :: 0 <= i < |records| ==> records[i].Usable()
    ensures ReadBytes(codec, AppendTo(codec, [], records)) == Contents(records, 0)
  {
    hide ReadBytes, Codec.Faithful;
    if |records| == 0 {
      ReadEmpty(codec);
    } else {
      var front, last := records[..|records| - 1], records[|records| - 1];
      IndexRoundTrip(codec, front);
      AppendIsExact(codec, AppendTo(codec, [], front), last);
      assert front + [last] == records;
    }
  }

  /** The index file; absent until the first append. */
  class IndexFile {
    var bytes: Option<seq<Byte>>

    constructor ()
      ensures bytes.None?
    {
      bytes := None;
    }

    function Stored(): seq<Byte>
      reads this
    {
      if bytes.Some? then bytes.value else []
    }

    /** Append exactly one JSON line, on a line of its own. */
    method AppendIndexRecord(codec: Codec, r: IndexRecord)
      requires codec.Faithful()
      modifies this
      ensures bytes == Some(old(Stored()) + Appended(codec, old(Stored()), r))
      ensures ReadBytes(codec, Stored()) == ReadBytes(codec, old(Stored())).Plus(RecordContents(r))
    {
      hide ReadBytes, Codec.Faithful;
      var stored := Stored();
      var prefix: seq<Byte> := [];
      if |stored| > 0 && stored[|stored| - 1] != LF {
        prefix := [LF];
      }
      AppendIsExact(codec, stored, r);
      bytes := Some(stored + (prefix + codec.render(r) + [LF]));
    }

    /** Read every usable record in file order and count the lines that are not, or raise. */
    method ReadIndex(codec: Codec) returns (reading: Reading)
      ensures reading == ReadBytes(codec, Stored())
    {
      if bytes.None? {
        ReadEmpty(codec);
        return NOTHING;
      }
      hide ReadLines, SplitLines, Decode, IndexRecord.Usable, IsBlankLine;
      var lines := SplitLines(Decode(bytes.value));
      var records: seq<IndexRecord>, invalid := [], 0;
      assert lines[0..] == lines;
      for k := 0 to |lines|
        invariant Contents(records, invalid).Plus(ReadLines(codec, lines[k..])) == ReadLines(codec, lines)
      {
        var line := lines[k];
        ReadStep(codec, lines, k, Contents(records, invalid));
        if IsBlankLine(line) {
          continue;
        }
        if REPLACEMENT in line {
          invalid := invalid + 1;
          continue;
        }
        var parsed := codec.parse(line);
        if parsed.ParseFails? {
          return ReadRaises;
        }
        if parsed.Malformed? {
          invalid := invalid + 1;
          continue;
        }
        if !parsed.json.Object? || !parsed.json.record.Usable() {
          invalid := invalid + 1;
          continue;
        }
        records := records + [parsed.json.record];
      }
      ReadNone(codec, Contents(records, invalid));
      assert lines[|lines|..] == [];
      reading := Contents(records, invalid);
    }
  }
}
