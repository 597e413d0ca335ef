/** Sequential evidence ids such as `frame-007`: no two allocations ever yield the same text. */
module EvidenceIds {
  datatype IdPrefix = FramePrefix | TranscriptPrefix
  {
    function Text(): string {
      match this
      case FramePrefix => "frame-"
      case TranscriptPrefix => "transcript-"
    }
  }

  function Digit(n: nat): (c: char)
    requires n < 10
    ensures '0' <= c <= '9' && c as int - '0' as int == n
  {
    '0' + n as char
  }

  function Decimal(n: nat): (text: string)
    ensures |text| > 0 && forall i :: 0 <= i < |text| ==> '0' <= text[i] <= '9'
  {
    if n < 10 then [Digit(n)] else Decimal(n / 10) + [Digit(n % 10)]
  }

  /** `{n:03d}`: at least three digits. */
  function Padded(n: nat): (text: string)
    ensures |text| >= 3 && forall i :: 0 <= i < |text| ==> '0' <= text[i] <= '9'
  {
    var text := Decimal(n);
    if |text| == 1 then "00" + text else if |text| == 2 then "0" + text else text
  }

  function FormatId(prefix: IdPrefix, n: nat): (id: string)
    ensures |id| > 2 && '/' !in id
  {
    prefix.Text() + Padded(n)
  }

  /** The number a digit string denotes. */
  function Denoted(text: string): int {
    if |text| == 0 then 0
    else 10 * Denoted(text[..|text| - 1]) + (text[|text| - 1] as int - '0' as int)
  }

  lemma {:induction false} DecimalDenotes(n: nat)
    ensures Denoted(Decimal(n)) == n
  {
    if n < 10 {
      assert Denoted([Digit(n)]) == 10 * Denoted([]) + n;
    } else {
      DecimalDenotes(n / 10);
      assert Decimal(n)[..|Decimal(n)| - 1] == Decimal(n / 10);
    }
  }

  lemma {:induction false} LeadingZero(text: string)
    ensures Denoted("0" + text) == Denoted(text)
  {
    if |text| == 0 {
      assert Denoted("0") == 10 * Denoted("0"[..0]) + 0;
    } else {
      LeadingZero(text[..|text| - 1]);
      assert ("0" + text)[..|text|] == "0" + text[..|text| - 1];
    }
  }

  lemma PaddedDenotes(n: nat)
    ensures Denoted(Padded(n)) == n
  {
    DecimalDenotes(n);
    LeadingZero(Decimal(n));
    LeadingZero("0" + Decimal(n));
    assert "00" + Decimal(n) == "0" + ("0" + Decimal(n));
  }

  /** Distinct allocations have distinct ids, whatever the counter's width. */
  lemma FormatIdInjective(p: IdPrefix, m: nat, q: IdPrefix, n: nat)
    requires FormatId(p, m) == FormatId(q, n)
    ensures p == q && m == n
  {
    var text := FormatId(p, m);
    assert text[0] == p.Text()[0] == q.Text()[0];
    assert p == q;
    assert text[|p.Text()|..] == Padded(m) == Padded(n);
    PaddedDenotes(m);
    PaddedDenotes(n);
  }

  /** Every id of the set was allocated while the counters ran up to their present values. */
  ghost predicate AllFrom(ids: set<string>, counters: map<IdPrefix, nat>) {
    forall id :: id in ids ==> exists p, k: nat :: p in counters && k <= counters[p] && id == FormatId(p, k)
  }

  lemma NextIdFresh(ids: set<string>, counters: map<IdPrefix, nat>, prefix: IdPrefix, next: nat)
    requires AllFrom(ids, counters)
    requires next == (if prefix in counters then counters[prefix] else 0) + 1
    ensures FormatId(prefix, next) !in ids
    ensures AllFrom(ids + {FormatId(prefix, next)}, counters[prefix := next])
  {
    var newId := FormatId(prefix, next);
    var later := counters[prefix := next];
    forall id | id in ids ensures exists p, k: nat :: p in later && k <= later[p] && id == FormatId(p, k) {
      var p, k: nat :| p in counters && k <= counters[p] && id == FormatId(p, k);
      assert p in later && k <= later[p];
    }
    assert prefix in later && next <= later[prefix] && newId == FormatId(prefix, next);
    if newId in ids {
      var p, k: nat :| p in counters && k <= counters[p] && newId == FormatId(p, k);
      FormatIdInjective(prefix, next, p, k);
      assert false;
    }
  }
}
