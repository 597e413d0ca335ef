/** Half-second windows around high-motion candidates, merged. */
module MotionWindowing {
  import opened Sampling
  import opened Sorting

  type Span = (real, real)

  function Max(a: real, b: real): real {
    if a >= b then a else b
  }

  function Min(a: real, b: real): real {
    if a <= b then a else b
  }

  predicate Qualifies(c: FrameCandidate, threshold: real) {
    c.source.Motion? && c.score >= threshold
  }

  function WindowOf(c: FrameCandidate, duration: real): Span {
    (Max(0.0, c.timestamp - 0.5), Min(duration, c.timestamp + 0.5))
  }

  /** The windows before merging, in the order of the candidates. */
  function WindowsOf(candidates: seq<FrameCandidate>, duration: real, threshold: real): (windows: seq<Span>)
    ensures forall w :: w in windows <==>
      exists i :: 0 <= i < |candidates| && Qualifies(candidates[i], threshold) && w == WindowOf(candidates[i], duration)
  {
    if |candidates| == 0 then []
    else
      var n := |candidates| - 1;
      var front := WindowsOf(candidates[..n], duration, threshold);
      if Qualifies(candidates[n], threshold) then front + [WindowOf(candidates[n], duration)] else front
  }

  predicate SpanLe(a: Span, b: Span) {
    a.0 < b.0 || (a.0 == b.0 && a.1 <= b.1)
  }

  /** Take one more window into a merged list. */
  function Absorb(merged: seq<Span>, w: Span): seq<Span> {
    var n := |merged|;
    if n > 0 && w.0 <= merged[n - 1].1 then merged[..n - 1] + [(merged[n - 1].0, Max(merged[n - 1].1, w.1))]
    else merged + [w]
  }

  function Merge(windows: seq<Span>): seq<Span> {
    if |windows| == 0 then [] else Absorb(Merge(windows[..|windows| - 1]), windows[|windows| - 1])
  }

  function Merged(candidates: seq<FrameCandidate>, duration: real, threshold: real): seq<Span> {
    Merge(Sort(WindowsOf(candidates, duration, threshold), SpanLe))
  }

  method MotionWindows(candidates: seq<FrameCandidate>, duration: real, threshold: real) returns (merged: seq<Span>)
    ensures merged == Merged(candidates, duration, threshold)
  {
    var windows := Sort(WindowsOf(candidates, duration, threshold), SpanLe);
    merged := [];
    for k := 0 to |windows|
      invariant merged == Merge(windows[..k])
    {
      assert windows[..k + 1][..k] == windows[..k];
      var start, end := windows[k].0, windows[k].1;
      if merged != [] && start <= merged[|merged| - 1].1 {
        var last := merged[|merged| - 1];
        merged := merged[..|merged| - 1] + [(last.0, Max(last.1, end))];
      } else {
        merged := merged + [(start, end)];
      }
    }
    assert windows[..|windows|] == windows;
  }

  // What the merged list is.

  predicate Ordered(w: Span) {
    w.0 <= w.1
  }

  predicate Contains(spans: seq<Span>, x: real) {
    exists i :: 0 <= i < |spans| && spans[i].0 <= x <= spans[i].1
  }

  /** Sorted, strictly separated, proper intervals. */
  predicate Canonical(spans: seq<Span>) {
    && (forall i :: 0 <= i < |spans| ==> Ordered(spans[i]))
    && (forall i, j :: 0 <= i < j < |spans| ==> spans[i].1 < spans[j].0)
  }

  predicate Rising(windows: seq<Span>) {
    forall i, j :: 0 <= i < j < |windows| ==> SpanLe(windows[i], windows[j])
  }

  predicate HasStart(windows: seq<Span>, x: real) {
    exists i :: 0 <= i < |windows| && windows[i].0 == x
  }

  predicate HasEnd(windows: seq<Span>, x: real) {
    exists i :: 0 <= i < |windows| && windows[i].1 == x
  }

  lemma BoundsAppend(front: seq<Span>, w: Span, x: real)
    ensures HasStart(front + [w], x) <==> HasStart(front, x) || w.0 == x
    ensures HasEnd(front + [w], x) <==> HasEnd(front, x) || w.1 == x
  {
    var all := front + [w];
    assert all[|front|] == w && forall i :: 0 <= i < |front| ==> all[i] == front[i];
  }

  /** A merged list starts and ends only where some window does. */
  lemma {:induction false} MergeKeeps(windows: seq<Span>)
    ensures forall k :: 0 <= k < |Merge(windows)| ==>
      HasStart(windows, Merge(windows)[k].0) && HasEnd(windows, Merge(windows)[k].1)
  {
    hide HasStart, HasEnd;
    if |windows| > 0 {
      var n := |windows| - 1;
      var front, w := windows[..n], windows[n];
      assert windows == front + [w];
      MergeKeeps(front);
      var before, after := Merge(front), Merge(windows);
      forall k | 0 <= k < |after| ensures HasStart(windows, after[k].0) && HasEnd(windows, after[k].1) {
        BoundsAppend(front, w, after[k].0);
        BoundsAppend(front, w, after[k].1);
      }
    }
  }

  /** When every window is a proper interval, merging keeps exactly the points and yields a canonical list. */
  lemma {:induction false} MergeIsUnion(windows: seq<Span>)
    requires Rising(windows) && forall i :: 0 <= i < |windows| ==> Ordered(windows[i])
    ensures Canonical(Merge(windows))
    ensures forall x :: Contains(Merge(windows), x) <==> Contains(windows, x)
  {
    if |windows| > 0 {
      var n := |windows| - 1;
      var front, w := windows[..n], windows[n];
      MergeIsUnion(front);
      MergeKeeps(front);
      var before := Merge(front);
      if before != [] {
        assert HasStart(front, before[|before| - 1].0);
        var i :| 0 <= i < |front| && front[i].0 == before[|before| - 1].0;
        assert SpanLe(windows[i], windows[n]);
      }
      AbsorbUnion(before, w);
      assert windows == front + [w];
      forall x ensures Contains(Merge(windows), x) <==> Contains(windows, x) {
        ContainsAppend(front, w, x);
      }
    }
  }

  lemma ContainsAppend(spans: seq<Span>, w: Span, x: real)
    ensures Contains(spans + [w], x) <==> Contains(spans, x) || w.0 <= x <= w.1
  {
    var all := spans + [w];
    assert all[|spans|] == w;
    assert forall i :: 0 <= i < |spans| ==> all[i] == spans[i];
  }

  lemma AbsorbUnion(merged: seq<Span>, w: Span)
    requires Canonical(merged) && Ordered(w) && (merged != [] ==> merged[|merged| - 1].0 <= w.0)
    ensures Canonical(Absorb(merged, w))
    ensures forall x :: Contains(Absorb(merged, w), x) <==> Contains(merged, x) || w.0 <= x <= w.1
  {
    var n := |merged|;
    if n > 0 && w.0 <= merged[n - 1].1 {
      var front, last := merged[..n - 1], merged[n - 1];
      assert merged == front + [last];
      forall x ensures Contains(Absorb(merged, w), x) <==> Contains(merged, x) || w.0 <= x <= w.1 {
        ContainsAppend(front, last, x);
        ContainsAppend(front, (last.0, Max(last.1, w.1)), x);
      }
    } else {
      forall x ensures Contains(Absorb(merged, w), x) <==> Contains(merged, x) || w.0 <= x <= w.1 {
        ContainsAppend(merged, w, x);
      }
    }
  }

  /** A set of points has one canonical list. */
  lemma {:induction false} CanonicalUnique(a: seq<Span>, b: seq<Span>)
    requires Canonical(a) && Canonical(b) && forall x :: Contains(a, x) <==> Contains(b, x)
    ensures a == b
    decreases |a|
  {
    hide Contains, Canonical;
    if a == [] || b == [] {
      EmptyPoints(a);
      EmptyPoints(b);
    } else {
      FirstNotLater(a, b);
      FirstNotLater(b, a);
      FirstNotLonger(a, b);
      FirstNotLonger(b, a);
      assert a[0] == b[0];
      forall x ensures Contains(a[1..], x) <==> Contains(b[1..], x) {
        TailPoints(a, x);
        TailPoints(b, x);
        assert Contains(a, x) <==> Contains(b, x);
      }
      TailPoints(a, 0.0);
      TailPoints(b, 0.0);
      CanonicalUnique(a[1..], b[1..]);
      assert a == [a[0]] + a[1..] && b == [b[0]] + b[1..];
    }
  }

  lemma EmptyPoints(a: seq<Span>)
    requires Canonical(a)
    ensures a == [] ==> forall x :: !Contains(a, x)
    ensures a != [] ==> Contains(a, a[0].0)
  {
  }

  lemma TailPoints(a: seq<Span>, x: real)
    requires Canonical(a) && a != []
    ensures Canonical(a[1..])
    ensures Contains(a[1..], x) <==> Contains(a, x) && x > a[0].1
  {
    if Contains(a[1..], x) {
      var i :| 0 <= i < |a[1..]| && a[1..][i].0 <= x <= a[1..][i].1;
      assert a[i + 1] == a[1..][i];
    }
    if Contains(a, x) && x > a[0].1 {
      var i :| 0 <= i < |a| && a[i].0 <= x <= a[i].1;
      assert a[1..][i - 1] == a[i];
    }
  }

  lemma FirstNotLater(a: seq<Span>, b: seq<Span>)
    requires Canonical(a) && Canonical(b) && a != [] && b != []
    requires forall x :: Contains(a, x) <==> Contains(b, x)
    ensures a[0].0 <= b[0].0
  {
    assert Contains(b, b[0].0);
    var i :| 0 <= i < |a| && a[i].0 <= b[0].0 <= a[i].1;
    assert a[0].0 <= a[i].0;
  }

  lemma FirstNotLonger(a: seq<Span>, b: seq<Span>)
    requires Canonical(a) && Canonical(b) && a != [] && b != [] && a[0].0 == b[0].0
    requires forall x :: Contains(a, x) <==> Contains(b, x)
    ensures b[0].1 <= a[0].1
  {
    if b[0].1 > a[0].1 {
      // A point just past the first interval of `a`, still inside the first of `b`.
      var reach := if |a| > 1 then Min(b[0].1, a[1].0) else b[0].1;
      var x := (a[0].1 + reach) / 2.0;
      assert a[0].1 < x < reach;
      assert Contains(b, x);
    }
  }

  // Every candidate, every order.

  lemma SortedWindows(candidates: seq<FrameCandidate>, duration: real, threshold: real)
    ensures Rising(Sort(WindowsOf(candidates, duration, threshold), SpanLe))
    ensures forall w :: w in Sort(WindowsOf(candidates, duration, threshold), SpanLe) <==>
      exists i :: 0 <= i < |candidates| && Qualifies(candidates[i], threshold) && w == WindowOf(candidates[i], duration)
  {
    var windows := WindowsOf(candidates, duration, threshold);
    SortSorted(windows, SpanLe);
    forall w ensures w in Sort(windows, SpanLe) <==> w in windows {
      SortMembers(windows, SpanLe, w);
    }
  }

  /** A candidate whose window is a proper interval. */
  predicate InRange(c: FrameCandidate, duration: real) {
    0.0 <= duration && -0.5 <= c.timestamp <= duration + 0.5
  }

  predicate AllInRange(candidates: seq<FrameCandidate>, duration: real, threshold: real) {
    forall i :: 0 <= i < |candidates| && Qualifies(candidates[i], threshold) ==> InRange(candidates[i], duration)
  }

  predicate Near(candidates: seq<FrameCandidate>, duration: real, threshold: real, x: real) {
    exists i :: 0 <= i < |candidates| && Qualifies(candidates[i], threshold)
                && WindowOf(candidates[i], duration).0 <= x <= WindowOf(candidates[i], duration).1
  }

  /** The merged list is inside the video, canonical, and covers exactly the windows' points. */
  lemma MotionUnion(candidates: seq<FrameCandidate>, duration: real, threshold: real)
    requires AllInRange(candidates, duration, threshold)
    ensures var merged := Merged(candidates, duration, threshold);
      && Canonical(merged)
      && (forall k :: 0 <= k < |merged| ==> 0.0 <= merged[k].0 && merged[k].1 <= duration)
      && forall x :: Contains(merged, x) <==> Near(candidates, duration, threshold, x)
  {
    hide Merge, Canonical, Sort;
    var windows := Sort(WindowsOf(candidates, duration, threshold), SpanLe);
    SortedWindows(candidates, duration, threshold);
    forall k | 0 <= k < |windows| ensures Ordered(windows[k]) && 0.0 <= windows[k].0 && windows[k].1 <= duration {
      assert windows[k] in windows;
    }
    MergeIsUnion(windows);
    MergeKeeps(windows);
    forall x ensures Contains(windows, x) <==> Near(candidates, duration, threshold, x) {
      if Contains(windows, x) {
        var k :| 0 <= k < |windows| && windows[k].0 <= x <= windows[k].1;
        assert windows[k] in windows;
      }
      if Near(candidates, duration, threshold, x) {
        var i :| 0 <= i < |candidates| && Qualifies(candidates[i], threshold)
                 && WindowOf(candidates[i], duration).0 <= x <= WindowOf(candidates[i], duration).1;
        assert WindowOf(candidates[i], duration) in windows;
      }
    }
  }

  /** The same candidates in any order, with any repetitions, give the same list. */
  lemma MotionOrderFree(a: seq<FrameCandidate>, b: seq<FrameCandidate>, duration: real, threshold: real)
    requires AllInRange(a, duration, threshold) && AllInRange(b, duration, threshold)
    requires forall c :: c in a <==> c in b
    ensures Merged(a, duration, threshold) == Merged(b, duration, threshold)
  {
    hide Merged, Canonical;
    MotionUnion(a, duration, threshold);
    MotionUnion(b, duration, threshold);
    forall x ensures Near(a, duration, threshold, x) <==> Near(b, duration, threshold, x) {
      assert forall i :: 0 <= i < |a| ==> a[i] in b;
      assert forall i :: 0 <= i < |b| ==> b[i] in a;
    }
    CanonicalUnique(Merged(a, duration, threshold), Merged(b, duration, threshold));
  }

  /** An inverted window stays in the merged list as it is. */
  lemma {:induction false} InvertedStays(windows: seq<Span>, k: nat)
    requires Rising(windows) && k < |windows| && !Ordered(windows[k])
    requires forall i :: 0 <= i < k ==> windows[i].1 < windows[k].0
    ensures windows[k] in Merge(windows)
    decreases |windows|
  {
    var n := |windows| - 1;
    var front, w := windows[..n], windows[n];
    var before := Merge(front);
    if k == n {
      MergeKeeps(front);
      if before != [] {
        assert HasEnd(front, before[|before| - 1].1);
      }
    } else {
      InvertedStays(front, k);
      assert SpanLe(windows[k], w);
      AbsorbSpares(before, windows[k], w);
    }
  }

  lemma AbsorbSpares(merged: seq<Span>, kept: Span, w: Span)
    requires kept in merged && kept.1 < w.0
    ensures kept in Absorb(merged, w)
  {
    var j :| 0 <= j < |merged| && merged[j] == kept;
    assert Absorb(merged, w)[j] == kept;
  }

  /** The list consists of proper intervals exactly when every qualifying candidate is in range. */
  lemma MotionWellFormedIff(candidates: seq<FrameCandidate>, duration: real, threshold: real)
    ensures (forall k :: 0 <= k < |Merged(candidates, duration, threshold)| ==>
               Ordered(Merged(candidates, duration, threshold)[k]))
      <==> AllInRange(candidates, duration, threshold)
  {
    hide Merge, Canonical, Sort;
    if AllInRange(candidates, duration, threshold) {
      MotionUnion(candidates, duration, threshold);
      assert Canonical(Merged(candidates, duration, threshold));
      CanonicalOrdered(Merged(candidates, duration, threshold));
    } else {
      var windows := Sort(WindowsOf(candidates, duration, threshold), SpanLe);
      SortedWindows(candidates, duration, threshold);
      var i :| 0 <= i < |candidates| && Qualifies(candidates[i], threshold) && !InRange(candidates[i], duration);
      var w := WindowOf(candidates[i], duration);
      assert w in windows && !Ordered(w);
      var k :| 0 <= k < |windows| && windows[k] == w;
      forall j | 0 <= j < k ensures windows[j].1 < w.0 {
        assert windows[j] in windows;
        assert SpanLe(windows[j], w);
      }
      InvertedStays(windows, k);
      assert w in Merged(candidates, duration, threshold);
    }
  }

  /** One qualifying candidate a second past a ten-second video gives the window from 10.5 to 10. */
  lemma InvertedInput()
    ensures Merged([FrameCandidate(11.0, 1.0, "", Sampling.Motion)], 10.0, 0.5) == [(10.5, 10.0)]
  {
    var c := FrameCandidate(11.0, 1.0, "", Sampling.Motion);
    assert [c][..0] == [];
    assert WindowsOf([], 10.0, 0.5) == [];
    assert WindowsOf([c], 10.0, 0.5) == [] + [WindowOf(c, 10.0)] == [(10.5, 10.0)];
    var windows := [(10.5, 10.0)];
    assert windows[..0] == [];
    assert Sort(windows, SpanLe) == Insert((10.5, 10.0), Sort([], SpanLe), SpanLe) == windows;
    assert Merge(windows) == Absorb(Merge([]), (10.5, 10.0));
  }

  lemma CanonicalOrdered(spans: seq<Span>)
    requires Canonical(spans)
    ensures forall k :: 0 <= k < |spans| ==> Ordered(spans[k])
  {
  }
}
