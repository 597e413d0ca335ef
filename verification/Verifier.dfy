/** Deterministic evidence gates and the task adapters that run them. */
module Verifier {
  import opened Characters
  import opened Contracts

  /** Evidence ids as the verifier's dictionary sees them: repeats collapse. */
  function Ids(evidence: seq<Evidence>): set<string> {
    set i | 0 <= i < |evidence| :: evidence[i].id
  }

  ghost predicate DistinctIds(evidence: seq<Evidence>) {
    forall i, j :: 0 <= i < j < |evidence| ==> evidence[i].id != evidence[j].id
  }

  predicate InBounds(item: Evidence, duration: real) {
    0.0 <= item.startSeconds && item.endSeconds <= duration
  }

  predicate Supported(claim: Claim, ids: set<string>) {
    forall r :: 0 <= r < |claim.evidence| ==> claim.evidence[r] in ids
  }

  predicate Covered(result: AnalysisResult, section: string) {
    section in result.requiredSections && Strip(result.requiredSections[section]) != ""
  }

  function Clamp(item: Evidence, duration: real): Window {
    var end := if duration < item.endSeconds then duration else item.endSeconds;
    Window(if item.startSeconds < 0.0 then 0.0 else item.startSeconds, if end < 0.0 then 0.0 else end)
  }

  function EscapingWindows(evidence: seq<Evidence>, duration: real): seq<Window> {
    if |evidence| == 0 then []
    else (if InBounds(evidence[0], duration) then [] else [Clamp(evidence[0], duration)])
         + EscapingWindows(evidence[1..], duration)
  }

  /** First occurrences only, in order: the keys of a dictionary built from the sequence. */
  function Unique<T(==)>(items: seq<T>): seq<T> {
    if |items| == 0 then []
    else
      var rest := Unique(items[..|items| - 1]);
      var last := items[|items| - 1];
      if last in rest then rest else rest + [last]
  }

  /** The gates of the checks that fail, in the order the checks run, repeats included. */
  function FailedGates(checks: seq<(bool, Gate)>): seq<Gate> {
    if |checks| == 0 then []
    else (if checks[0].0 then [checks[0].1] else []) + FailedGates(checks[1..])
  }

  predicate AnyEscapes(evidence: seq<Evidence>, duration: real) {
    exists i :: 0 <= i < |evidence| && !InBounds(evidence[i], duration)
  }

  predicate AnyUnsupported(claims: seq<Claim>, ids: set<string>) {
    exists c :: 0 <= c < |claims| && !Supported(claims[c], ids)
  }

  predicate AnyUncovered(result: AnalysisResult, requiredSections: seq<string>) {
    exists s :: 0 <= s < |requiredSections| && !Covered(result, requiredSections[s])
  }

  function Checks(result: AnalysisResult, evidence: seq<Evidence>, duration: real, requiredSections: seq<string>)
    : seq<(bool, Gate)>
  {
    var missing := AnyUnsupported(result.claims, Ids(evidence));
    [ (duration < 0.0, SchemaValid),
      (|Ids(evidence)| != |evidence|, SchemaValid),
      (AnyEscapes(evidence, duration), TimestampsInBounds),
      (missing, EvidenceExists),
      (|result.claims| == 0 || missing, ClaimsSupported),
      (Strip(result.summary) == "", SchemaValid),
      (AnyUncovered(result, requiredSections), SectionsCovered) ]
  }

  function VerifyClaims(result: AnalysisResult, evidence: seq<Evidence>, duration: real,
                        requiredSections: seq<string>): Verification
  {
    var failed := Unique(FailedGates(Checks(result, evidence, duration, requiredSections)));
    Verification(failed == [], failed, Unique(EscapingWindows(evidence, duration)))
  }

  lemma {:induction false} UniqueMembers<T>(items: seq<T>, x: T)
    ensures x in Unique(items) <==> x in items
  {
    if |items| > 0 {
      var front := items[..|items| - 1];
      UniqueMembers(front, x);
      UniqueMembers(front, items[|items| - 1]);
      assert items == front + [items[|items| - 1]];
    }
  }

  lemma {:induction false} UniqueDistinct<T>(items: seq<T>)
    ensures forall i, j :: 0 <= i < j < |Unique(items)| ==> Unique(items)[i] != Unique(items)[j]
  {
    if |items| > 0 {
      UniqueDistinct(items[..|items| - 1]);
    }
  }

  /** The dictionary keeps as many entries as there are items exactly when no id repeats. */
  lemma {:induction false} IdsCountDistinct(evidence: seq<Evidence>)
    ensures |Ids(evidence)| <= |evidence|
    ensures |Ids(evidence)| == |evidence| <==> DistinctIds(evidence)
  {
    if |evidence| > 0 {
      var front := evidence[..|evidence| - 1];
      var last := evidence[|evidence| - 1];
      IdsCountDistinct(front);
      assert Ids(evidence) == Ids(front) + {last.id};
      if last.id in Ids(front) {
        assert Ids(evidence) == Ids(front);
        var i :| 0 <= i < |front| && front[i].id == last.id;
        assert evidence[i].id == evidence[|evidence| - 1].id;
      } else {
        assert |Ids(evidence)| == |Ids(front)| + 1;
        if DistinctIds(front) {
          forall i, j | 0 <= i < j < |evidence| ensures evidence[i].id != evidence[j].id {
            assert evidence[i] == front[i];
            assert front[i].id in Ids(front);
            if j < |front| { assert evidence[j] == front[j]; }
          }
        }
      }
      if DistinctIds(evidence) {
        assert forall i :: 0 <= i < |front| ==> front[i] == evidence[i];
        assert DistinctIds(front);
      }
    }
  }

  ghost predicate Resolves(id: string, evidence: seq<Evidence>) {
    exists i :: 0 <= i < |evidence| && evidence[i].id == id
  }

  /** Every reference of every claim names a stored evidence item. */
  ghost predicate AllResolve(claims: seq<Claim>, evidence: seq<Evidence>) {
    forall c, r :: 0 <= c < |claims| && 0 <= r < |claims[c].evidence| ==> Resolves(claims[c].evidence[r], evidence)
  }

  /** The section is there and says something. */
  predicate HasText(result: AnalysisResult, section: string) {
    section in result.requiredSections && !IsBlank(result.requiredSections[section])
  }

  lemma CoveredExact(result: AnalysisResult, section: string)
    ensures Covered(result, section) <==> HasText(result, section)
  {
    if section in result.requiredSections {
      StripBlank(result.requiredSections[section]);
    }
  }

  /** What a passing verdict certifies about a result and its evidence. */
  ghost predicate Grounded(result: AnalysisResult, evidence: seq<Evidence>, duration: real,
                           requiredSections: seq<string>)
  {
    && 0.0 <= duration
    && !IsBlank(result.summary)
    && DistinctIds(evidence)
    && (forall i :: 0 <= i < |evidence| ==> InBounds(evidence[i], duration))
    && |result.claims| > 0
    && AllResolve(result.claims, evidence)
    && (forall s :: 0 <= s < |requiredSections| ==> HasText(result, requiredSections[s]))
  }

  lemma {:induction false} FailedGatesMembers(checks: seq<(bool, Gate)>, gate: Gate)
    ensures gate in FailedGates(checks) <==> exists i :: 0 <= i < |checks| && checks[i] == (true, gate)
  {
    if |checks| > 0 {
      FailedGatesMembers(checks[1..], gate);
      if i :| 0 <= i < |checks| && checks[i] == (true, gate) {
        if i > 0 { assert checks[1..][i - 1] == checks[i]; }
      }
      if i :| 0 <= i < |checks[1..]| && checks[1..][i] == (true, gate) {
        assert checks[i + 1] == (true, gate);
      }
    }
  }

  /** The verifier passes exactly the grounded results. */
  lemma VerifyClaimsExact(result: AnalysisResult, evidence: seq<Evidence>, duration: real,
                          requiredSections: seq<string>)
    ensures VerifyClaims(result, evidence, duration, requiredSections).passed
       <==> Grounded(result, evidence, duration, requiredSections)
  {
    hide Strip, IsBlank, Covered, HasText;
    StripBlank(result.summary);
    forall s | 0 <= s < |requiredSections|
      ensures Covered(result, requiredSections[s]) <==> HasText(result, requiredSections[s])
    {
      CoveredExact(result, requiredSections[s]);
    }
    var checks := Checks(result, evidence, duration, requiredSections);
    var failed := Unique(FailedGates(checks));
    if failed == [] {
      forall i | 0 <= i < |checks| ensures !checks[i].0 {
        FailedGatesMembers(checks, checks[i].1);
        UniqueMembers(FailedGates(checks), checks[i].1);
      }
      assert !checks[0].0 && !checks[1].0 && !checks[2].0 && !checks[4].0 && !checks[5].0 && !checks[6].0;
    } else {
      UniqueMembers(FailedGates(checks), failed[0]);
      FailedGatesMembers(checks, failed[0]);
    }
    IdsCountDistinct(evidence);
    ClaimsSupportedExact(result.claims, evidence);
  }

  lemma ClaimsSupportedExact(claims: seq<Claim>, evidence: seq<Evidence>)
    ensures AnyUnsupported(claims, Ids(evidence)) <==> !AllResolve(claims, evidence)
  {
    var ids := Ids(evidence);
    if AllResolve(claims, evidence) {
      forall c | 0 <= c < |claims| ensures Supported(claims[c], ids) {
        forall r | 0 <= r < |claims[c].evidence| ensures claims[c].evidence[r] in ids {
          assert Resolves(claims[c].evidence[r], evidence);
        }
      }
    } else {
      var c, r :| 0 <= c < |claims| && 0 <= r < |claims[c].evidence| && !Resolves(claims[c].evidence[r], evidence);
      assert !Supported(claims[c], ids);
    }
  }

  /** Targeted windows come from evidence outside the media, one for each distinct clamped span. */
  lemma {:induction false} EscapingWindowsMembers(evidence: seq<Evidence>, duration: real, w: Window)
    ensures w in EscapingWindows(evidence, duration) <==>
      exists i :: 0 <= i < |evidence| && !InBounds(evidence[i], duration) && Clamp(evidence[i], duration) == w
  {
    if |evidence| > 0 {
      EscapingWindowsMembers(evidence[1..], duration, w);
      forall i | 0 <= i < |evidence[1..]| ensures evidence[1..][i] == evidence[i + 1] { }
      if i :| 0 <= i < |evidence| && !InBounds(evidence[i], duration) && Clamp(evidence[i], duration) == w {
        if i > 0 { assert evidence[1..][i - 1] == evidence[i]; }
      }
    }
  }

  lemma TargetedWindowsExact(result: AnalysisResult, evidence: seq<Evidence>, duration: real,
                             requiredSections: seq<string>, w: Window)
    ensures w in VerifyClaims(result, evidence, duration, requiredSections).targetedWindows <==>
      exists i :: 0 <= i < |evidence| && !InBounds(evidence[i], duration) && Clamp(evidence[i], duration) == w
    ensures var windows := VerifyClaims(result, evidence, duration, requiredSections).targetedWindows;
      forall i, j :: 0 <= i < j < |windows| ==> windows[i] != windows[j]
  {
    UniqueDistinct(EscapingWindows(evidence, duration));
    UniqueMembers(EscapingWindows(evidence, duration), w);
    EscapingWindowsMembers(evidence, duration, w);
  }

  datatype VerifyOutcome = Verdict(verification: Verification) | VerifierRaises(kind: Kind)

  datatype ParseOutcome = Accepted(output: Output) | ParseRaises(kind: Kind)

  /** The ordinary exceptions a task's own code may raise. */
  function Ordinary(kind: Kind): (k: Kind)
    ensures k.IsOrdinary() && IsForeign(k) && (kind.IsOrdinary() && IsForeign(kind) ==> k == kind)
  {
    if kind.IsOrdinary() && IsForeign(kind) then kind else OtherFailure
  }

  /**
   How a task parses and checks an output. Other tasks are arbitrary deterministic functions, which may
   raise any ordinary exception.
   */
  datatype TaskAdapter =
    | VideoAnalysis(requiredSections: seq<string>, parseAnalysis: nat -> Option<AnalysisResult>)
    | OtherTask(check: (Output, seq<Evidence>, MediaProbe) -> VerifyOutcome, parseOther: nat -> ParseOutcome,
                outputSchema: Schema)
  {
    /** The task's parse of an agent's final payload; the analysis schema rejects with a validation error. */
    function Parse(payload: nat): (r: ParseOutcome)
      ensures r.ParseRaises? ==> r.kind.IsOrdinary() && IsForeign(r.kind)
    {
      match this
      case VideoAnalysis(_, parse) =>
        var result := parse(payload);
        if result.Some? then Accepted(Analysis(result.value)) else ParseRaises(ValidationFailure)
      case OtherTask(_, parse, _) =>
        match parse(payload)
        case Accepted(output) => Accepted(output)
        case ParseRaises(kind) => ParseRaises(Ordinary(kind))
    }

    /** Whether the output model's schema can be generated; the analysis model's always can. */
    function OutputSchema(): Schema {
      if VideoAnalysis? then Generates else outputSchema
    }

    function Verify(output: Output, evidence: seq<Evidence>, probe: MediaProbe): (r: VerifyOutcome)
      ensures r.VerifierRaises? ==> r.kind.IsOrdinary() && IsForeign(r.kind)
    {
      match this
      case VideoAnalysis(sections, _) =>
        if output.Analysis? then
          Verdict(VerifyClaims(output.result, evidence, probe.durationSeconds, sections))
        else
          VerifierRaises(OtherFailure)
      case OtherTask(check, _, _) =>
        match check(output, evidence, probe)
        case Verdict(v) => Verdict(v)
        case VerifierRaises(kind) =>
          VerifierRaises(Ordinary(kind))
    }
  }
}
