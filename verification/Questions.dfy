/** Greedy matching of predicted wrong questions to reference questions. */
module Questions {
  import opened Contracts

  /** Which predicted question fits which reference, by position; text matching is not modelled. */
  datatype Checks = Checks(
    stem: (nat, nat) -> bool,
    answer: (nat, nat) -> bool,
    mistake: (nat, nat) -> bool,
    time: (nat, nat) -> bool)

  datatype Grade = Missing | Found(answer: bool, mistake: bool, time: bool)

  datatype Report = Report(matched: nat, answers: nat, mistakes: nat, timed: nat, perQuestion: map<string, Grade>)

  /** A matching: reference to predicted question, each prediction used once. */
  ghost predicate Matching(m: map<nat, nat>, references: nat, predicted: nat, stem: (nat, nat) -> bool) {
    && (forall r :: r in m ==> r < references && m[r] < predicted && stem(r, m[r]))
    && (forall r, q :: r in m && q in m && m[r] == m[q] ==> r == q)
  }

  /** Nothing can be added: an unmatched reference has no unused prediction that fits it. */
  ghost predicate Maximal(m: map<nat, nat>, references: nat, predicted: nat, stem: (nat, nat) -> bool) {
    forall r, i :: 0 <= r < references && 0 <= i < predicted && r !in m && stem(r, i) ==> i in m.Values
  }

  /** The unused prediction taken for each reference is the first that fits. */
  ghost predicate TakesFirst(m: map<nat, nat>, stem: (nat, nat) -> bool) {
    forall r, i :: r in m && 0 <= i < m[r] && stem(r, i) ==> exists q :: 0 <= q < r && q in m && m[q] == i
  }

  function Passing(m: map<nat, nat>, check: (nat, nat) -> bool): set<nat> {
    set r | r in m && check(r, m[r])
  }

  function GradeOf(m: map<nat, nat>, r: nat, checks: Checks): Grade {
    if r in m then Found(checks.answer(r, m[r]), checks.mistake(r, m[r]), checks.time(r, m[r])) else Missing
  }

  /** The grades of the first `k` references, by id; a repeated id keeps its last grade. */
  function Graded(ids: seq<string>, m: map<nat, nat>, k: nat, checks: Checks): map<string, Grade>
    requires k <= |ids|
  {
    if k == 0 then map[] else Graded(ids, m, k - 1, checks)[ids[k - 1] := GradeOf(m, k - 1, checks)]
  }

  /** The report counts exactly the matching, and grades the first `k` references by it. */
  ghost predicate Reports(report: Report, m: map<nat, nat>, ids: seq<string>, k: nat, checks: Checks) {
    && k <= |ids|
    && report.matched == |m|
    && report.answers == |Passing(m, checks.answer)|
    && report.mistakes == |Passing(m, checks.mistake)|
    && report.timed == |Passing(m, checks.time)|
    && report.perQuestion == Graded(ids, m, k, checks)
  }

  /** The predictions still free, in their own order. */
  ghost predicate IsUnused(unused: seq<nat>, m: map<nat, nat>, predicted: nat) {
    && (forall i, j :: 0 <= i < j < |unused| ==> unused[i] < unused[j])
    && (forall i :: i in unused <==> 0 <= i < predicted && i !in m.Values)
  }

  /** Everything the loop has settled for the first `k` references. */
  ghost predicate Settled(m: map<nat, nat>, unused: seq<nat>, k: nat, predicted: nat, stem: (nat, nat) -> bool) {
    && Matching(m, k, predicted, stem) && Maximal(m, k, predicted, stem) && TakesFirst(m, stem)
    && IsUnused(unused, m, predicted)
  }

  lemma SettledMeans(m: map<nat, nat>, unused: seq<nat>, k: nat, predicted: nat, stem: (nat, nat) -> bool)
    requires Settled(m, unused, k, predicted, stem)
    ensures Matching(m, k, predicted, stem) && Maximal(m, k, predicted, stem) && TakesFirst(m, stem)
  {
  }

  lemma SettledBelow(m: map<nat, nat>, unused: seq<nat>, k: nat, predicted: nat, stem: (nat, nat) -> bool)
    requires Settled(m, unused, k, predicted, stem)
    ensures k !in m
  {
  }

  function Without(unused: seq<nat>, at: nat): seq<nat>
    requires at < |unused|
  {
    unused[..at] + unused[at + 1..]
  }

  lemma WithoutOne(unused: seq<nat>, at: nat, m: map<nat, nat>, r: nat, predicted: nat)
    requires IsUnused(unused, m, predicted) && at < |unused| && r !in m
    ensures IsUnused(Without(unused, at), m[r := unused[at]], predicted)
  {
    var rest, n := Without(unused, at), m[r := unused[at]];
    assert n.Values == m.Values + {unused[at]} by {
      assert forall q :: q in m ==> n[q] == m[q];
      assert n[r] == unused[at];
      forall v | v in m.Values ensures v in n.Values {
        var q :| q in m && m[q] == v;
        assert n[q] == v;
      }
    }
    forall i ensures i in rest <==> i in unused && i != unused[at] {
      if i in unused && i != unused[at] {
        var j :| 0 <= j < |unused| && unused[j] == i;
        assert rest[if j < at then j else j - 1] == i;
      }
    }
  }

  lemma SettledTake(m: map<nat, nat>, unused: seq<nat>, k: nat, predicted: nat, stem: (nat, nat) -> bool, at: nat)
    requires Settled(m, unused, k, predicted, stem) && at < |unused| && stem(k, unused[at])
    requires forall j :: 0 <= j < at ==> !stem(k, unused[j])
    ensures Settled(m[k := unused[at]], Without(unused, at), k + 1, predicted, stem)
  {
    hide IsUnused;
    var n, i := m[k := unused[at]], unused[at];
    WithoutOne(unused, at, m, k, predicted);
    FreeIs(unused, m, predicted, i);
    forall r, q | r in n && q in n && n[r] == n[q] ensures r == q {
      assert r != k ==> m[r] in m.Values;
      assert q != k ==> m[q] in m.Values;
    }
    forall v | v in m.Values ensures v in n.Values {
      var q :| q in m && m[q] == v;
      assert n[q] == v;
    }
    assert n[k] == i;
    forall r, p | r in n && 0 <= p < n[r] && stem(r, p) ensures exists q :: 0 <= q < r && q in n && n[q] == p {
      if r == k {
        FirstFree(unused, m, predicted, at, p, stem, k);
        var q :| q in m && m[q] == p;
        assert n[q] == p;
      } else {
        var q :| 0 <= q < r && q in m && m[q] == p;
        assert n[q] == p;
      }
    }
  }

  lemma FreeIs(unused: seq<nat>, m: map<nat, nat>, predicted: nat, i: nat)
    requires IsUnused(unused, m, predicted) && i in unused
    ensures i < predicted && i !in m.Values
  {
  }

  lemma FirstFree(unused: seq<nat>, m: map<nat, nat>, predicted: nat, at: nat, p: nat, stem: (nat, nat) -> bool, k: nat)
    requires IsUnused(unused, m, predicted) && at < |unused| && p < unused[at] && stem(k, p)
    requires forall j :: 0 <= j < at ==> !stem(k, unused[j])
    ensures p in m.Values
  {
    FreeIs(unused, m, predicted, unused[at]);
  }

  lemma SettledSkip(m: map<nat, nat>, unused: seq<nat>, k: nat, predicted: nat, stem: (nat, nat) -> bool)
    requires Settled(m, unused, k, predicted, stem) && forall j :: 0 <= j < |unused| ==> !stem(k, unused[j])
    ensures Settled(m, unused, k + 1, predicted, stem)
  {
    forall r, i | 0 <= r < k + 1 && 0 <= i < predicted && r !in m && stem(r, i) ensures i in m.Values {
      if r == k {
        assert i !in unused;
      }
    }
  }

  lemma PassingTake(m: map<nat, nat>, r: nat, i: nat, check: (nat, nat) -> bool)
    requires r !in m
    ensures |Passing(m[r := i], check)| == |Passing(m, check)| + if check(r, i) then 1 else 0
  {
    assert Passing(m[r := i], check) == Passing(m, check) + if check(r, i) then {r} else {};
  }

  lemma {:induction false} GradedAgree(ids: seq<string>, m: map<nat, nat>, n: map<nat, nat>, k: nat, checks: Checks)
    requires k <= |ids| && forall r :: 0 <= r < k ==> (r in m <==> r in n) && (r in m ==> m[r] == n[r])
    ensures Graded(ids, m, k, checks) == Graded(ids, n, k, checks)
  {
    if k > 0 {
      GradedAgree(ids, m, n, k - 1, checks);
    }
  }

  /** Reference `r` is the last of the first `k` that carries this id. */
  predicate LastOf(ids: seq<string>, k: nat, id: string, r: nat) {
    r < k <= |ids| && ids[r] == id && forall q :: r < q < k ==> ids[q] != id
  }

  /** Every reference id is graded, by the last reference that carries it. */
  lemma {:induction false} GradedLast(ids: seq<string>, m: map<nat, nat>, k: nat, checks: Checks, r: nat, id: string)
    requires LastOf(ids, k, id, r)
    ensures id in Graded(ids, m, k, checks) && Graded(ids, m, k, checks)[id] == GradeOf(m, r, checks)
  {
    if r < k - 1 {
      GradedLast(ids, m, k - 1, checks, r, id);
    }
  }

  /** The totals once reference `r` took prediction `i`. */
  function Taken(totals: Report, id: string, r: nat, i: nat, checks: Checks): Report {
    var answer, mistake, time := checks.answer(r, i), checks.mistake(r, i), checks.time(r, i);
    Report(totals.matched + 1, totals.answers + Count(answer), totals.mistakes + Count(mistake),
           totals.timed + Count(time), totals.perQuestion[id := Found(answer, mistake, time)])
  }

  function Missed(totals: Report, id: string): Report {
    totals.(perQuestion := totals.perQuestion[id := Missing])
  }

  /** Match each reference to the first unused prediction that fits, and grade the match. */
  method GradeQuestions(ids: seq<string>, predicted: nat, checks: Checks)
    returns (report: Option<Report>, ghost m: map<nat, nat>)
    ensures report.None? <==> ids == []
    ensures report.Some? ==>
      && Matching(m, |ids|, predicted, checks.stem) && Maximal(m, |ids|, predicted, checks.stem)
      && TakesFirst(m, checks.stem)
      && Reports(report.value, m, ids, |ids|, checks)
  {
    hide Settled, Reports, Matching, Maximal, TakesFirst;
    m := map[];
    if ids == [] {
      return None, m;
    }
    var unused: seq<nat> := seq(predicted, i => i);
    var totals := Report(0, 0, 0, 0, map[]);
    NothingSettled(ids, predicted, checks);
    for k := 0 to |ids|
      invariant Settled(m, unused, k, predicted, checks.stem) && Reports(totals, m, ids, k, checks)
    {
      unused, totals, m := GradeOne(ids, k, predicted, checks, unused, totals, m);
    }
    SettledMeans(m, unused, |ids|, predicted, checks.stem);
    report := Some(totals);
  }

  /** Match and grade one reference. */
  method GradeOne(ids: seq<string>, k: nat, predicted: nat, checks: Checks, unused: seq<nat>, totals: Report,
                  ghost m: map<nat, nat>)
    returns (rest: seq<nat>, next: Report, ghost n: map<nat, nat>)
    requires k < |ids| && Settled(m, unused, k, predicted, checks.stem) && Reports(totals, m, ids, k, checks)
    ensures Settled(n, rest, k + 1, predicted, checks.stem) && Reports(next, n, ids, k + 1, checks)
  {
    hide Settled, Reports, Taken, Missed, Without;
    SettledBelow(m, unused, k, predicted, checks.stem);
    var at := FirstFit(unused, k, checks.stem);
    if at == |unused| {
      ReportMiss(totals, m, ids, k, checks);
      SettledSkip(m, unused, k, predicted, checks.stem);
      return unused, Missed(totals, ids[k]), m;
    }
    SettledTake(m, unused, k, predicted, checks.stem, at);
    ReportTake(totals, m, ids, k, unused[at], checks);
    return Without(unused, at), Taken(totals, ids[k], k, unused[at], checks), m[k := unused[at]];
  }

  lemma ReportMiss(report: Report, m: map<nat, nat>, ids: seq<string>, k: nat, checks: Checks)
    requires k < |ids| && k !in m && Reports(report, m, ids, k, checks)
    ensures Reports(Missed(report, ids[k]), m, ids, k + 1, checks)
  {
  }

  lemma ReportTake(report: Report, m: map<nat, nat>, ids: seq<string>, k: nat, i: nat, checks: Checks)
    requires k < |ids| && k !in m && Reports(report, m, ids, k, checks)
    ensures Reports(Taken(report, ids[k], k, i, checks), m[k := i], ids, k + 1, checks)
  {
    hide Passing, Graded;
    PassingTake(m, k, i, checks.answer);
    PassingTake(m, k, i, checks.mistake);
    PassingTake(m, k, i, checks.time);
    GradedTake(ids, m, k, i, checks);
    OneMore(m, k, i);
  }

  lemma OneMore(m: map<nat, nat>, k: nat, i: nat)
    requires k !in m
    ensures |m[k := i]| == |m| + 1
  {
    assert m[k := i].Keys == m.Keys + {k};
    assert |m[k := i]| == |m[k := i].Keys| == |m.Keys| + 1;
  }

  lemma GradedTake(ids: seq<string>, m: map<nat, nat>, k: nat, i: nat, checks: Checks)
    requires k < |ids| && k !in m
    ensures Graded(ids, m[k := i], k + 1, checks) == Graded(ids, m, k, checks)[
      ids[k] := Found(checks.answer(k, i), checks.mistake(k, i), checks.time(k, i))]
  {
    GradedAgree(ids, m, m[k := i], k, checks);
  }

  lemma NothingSettled(ids: seq<string>, predicted: nat, checks: Checks)
    ensures Settled(map[], seq(predicted, i => i), 0, predicted, checks.stem)
    ensures Reports(Report(0, 0, 0, 0, map[]), map[], ids, 0, checks)
  {
    var unused := seq(predicted, i => i);
    forall i: nat | i < predicted ensures i in unused {
      assert unused[i] == i;
    }
    assert Passing(map[], checks.answer) == {} && Passing(map[], checks.mistake) == {};
    assert Passing(map[], checks.time) == {};
  }

  /** The position of the first unused prediction that fits reference `k`, or their number. */
  method FirstFit(unused: seq<nat>, k: nat, stem: (nat, nat) -> bool) returns (at: nat)
    ensures at <= |unused| && forall j :: 0 <= j < at ==> !stem(k, unused[j])
    ensures at < |unused| ==> stem(k, unused[at])
  {
    at := 0;
    while at < |unused| && !stem(k, unused[at])
      invariant at <= |unused| && forall j :: 0 <= j < at ==> !stem(k, unused[j])
    {
      at := at + 1;
    }
  }

  // How good the matching is.

  lemma {:induction false} InjectionCounts(s: set<nat>, f: map<nat, nat>, t: set<nat>)
    requires s <= f.Keys && (forall r :: r in s ==> f[r] in t)
    requires forall r, q :: r in s && q in s && f[r] == f[q] ==> r == q
    ensures |s| <= |t|
    decreases |s|
  {
    if s != {} {
      var r :| r in s;
      InjectionCounts(s - {r}, f, t - {f[r]});
    }
  }

  lemma ValuesCount(m: map<nat, nat>, references: nat, predicted: nat, stem: (nat, nat) -> bool)
    requires Matching(m, references, predicted, stem)
    ensures |m.Values| <= |m|
  {
    var back := map v | v in m.Values :: Owner(m, v);
    InjectionCounts(m.Values, back, m.Keys);
  }

  ghost function Owner(m: map<nat, nat>, v: nat): (r: nat)
    requires v in m.Values
    ensures r in m && m[r] == v
  {
    var r :| r in m && m[r] == v;
    r
  }

  /** A maximal matching has at least half the pairs of any matching. */
  lemma MaximalIsHalf(m: map<nat, nat>, any: map<nat, nat>, references: nat, predicted: nat, stem: (nat, nat) -> bool)
    requires Matching(m, references, predicted, stem) && Maximal(m, references, predicted, stem)
    requires Matching(any, references, predicted, stem)
    ensures |any| <= 2 * |m|
  {
    var shared := any.Keys * m.Keys;
    var blocked := any.Keys - m.Keys;
    assert any.Keys == shared + blocked;
    InjectionCounts(blocked, any, m.Values);
    ValuesCount(m, references, predicted, stem);
    SubsetCounts(shared, m.Keys);
  }

  lemma {:induction false} SubsetCounts(s: set<nat>, t: set<nat>)
    requires s <= t
    ensures |s| <= |t|
  {
    InjectionCounts(s, map r | r in s :: r, t);
  }

  /** Answers, mistakes and times are counted among the matched questions only. */
  lemma CountsWithinMatched(report: Report, m: map<nat, nat>, ids: seq<string>, checks: Checks)
    requires Reports(report, m, ids, |ids|, checks)
    ensures report.answers <= report.matched && report.mistakes <= report.matched && report.timed <= report.matched
  {
    SubsetCounts(Passing(m, checks.answer), m.Keys);
    SubsetCounts(Passing(m, checks.mistake), m.Keys);
    SubsetCounts(Passing(m, checks.time), m.Keys);
  }

  /** No match is counted beyond either list, so recall and precision are at most one. */
  lemma MatchedWithinBoth(m: map<nat, nat>, references: nat, predicted: nat, stem: (nat, nat) -> bool)
    requires Matching(m, references, predicted, stem)
    ensures |m| <= references && |m| <= predicted
  {
    RangeCounts(references);
    RangeCounts(predicted);
    SubsetCounts(m.Keys, Range(references));
    InjectionCounts(m.Keys, m, Range(predicted));
  }

  ghost function Range(n: nat): set<nat> {
    if n == 0 then {} else Range(n - 1) + {n - 1}
  }

  lemma {:induction false} RangeCounts(n: nat)
    ensures |Range(n)| == n && forall i: nat :: i in Range(n) <==> i < n
  {
    if n > 0 {
      RangeCounts(n - 1);
    }
  }

  predicate EitherFirst(r: nat, i: nat) {
    r == 0 || i == 0
  }

  lemma FirstFitsBoth()
    ensures Matching(map[0 := 0], 2, 2, EitherFirst) && Maximal(map[0 := 0], 2, 2, EitherFirst)
    ensures TakesFirst(map[0 := 0], EitherFirst) && Matching(map[0 := 1, 1 := 0], 2, 2, EitherFirst)
  {
    var m: map<nat, nat> := map[0 := 0];
    assert 0 in m.Values by { assert m[0] == 0; }
  }

  /** The bound is tight: first-fit can lose half the pairs. */
  lemma HalfIsReached()
    ensures exists stem: (nat, nat) -> bool, m: map<nat, nat>, any: map<nat, nat> ::
      && Matching(m, 2, 2, stem) && Maximal(m, 2, 2, stem) && TakesFirst(m, stem)
      && Matching(any, 2, 2, stem) && |any| == 2 * |m| == 2
  {
    hide Matching, Maximal, TakesFirst;
    var m, any := map[0 := 0], map[0 := 1, 1 := 0];
    FirstFitsBoth();
    var stem: (nat, nat) -> bool := EitherFirst;
    assert any.Keys == {0, 1} && m.Keys == {0};
    assert |any| == |any.Keys| == 2 && |m| == |m.Keys| == 1;
  }
}
