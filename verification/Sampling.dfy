/** Deterministic selection of a compact, grounded set of evidence frames. */
module Sampling {
  import opened Contracts
  import opened Sorting

  datatype Source = Uniform | Scene | Motion | Ocr | Asr

  datatype VideoKind = Static | Talking | Screencast | Action | Unknown

  datatype FrameCandidate = FrameCandidate(timestamp: real, score: real, perceptualHash: string, source: Source)

  function Weight(kind: VideoKind, source: Source): real {
    match kind
    case Static =>
      (match source
       case Uniform => 0.8 case Scene => 1.2 case Motion => 0.6 case Ocr => 1.5 case Asr => 0.9)
    case Talking =>
      (match source
       case Uniform => 0.8 case Scene => 0.8 case Motion => 0.6 case Ocr => 0.8 case Asr => 1.5)
    case Screencast =>
      (match source
       case Uniform => 0.8 case Scene => 1.1 case Motion => 1.3 case Ocr => 1.4 case Asr => 1.0)
    case Action =>
      (match source
       case Uniform => 0.8 case Scene => 1.1 case Motion => 1.5 case Ocr => 0.6 case Asr => 0.8)
    case Unknown => (match source case Uniform => 1.0 case _ => 1.1)
  }

  /** A candidate's priority: weighted score, then earlier first. Compared as a tuple. */
  datatype Priority = Priority(score: real, negatedTime: real)
  {
    predicate Above(other: Priority) {
      score > other.score || (score == other.score && negatedTime > other.negatedTime)
    }
  }

  function PriorityOf(kind: VideoKind, c: FrameCandidate): Priority {
    Priority(c.score * Weight(kind, c.source), -c.timestamp)
  }

  predicate Outranks(kind: VideoKind, c: FrameCandidate, d: FrameCandidate) {
    PriorityOf(kind, c).Above(PriorityOf(kind, d))
  }

  function Hashes(candidates: seq<FrameCandidate>): set<string> {
    set i | 0 <= i < |candidates| :: candidates[i].perceptualHash
  }

  ghost predicate DistinctHashes(candidates: seq<FrameCandidate>) {
    forall i, j :: 0 <= i < j < |candidates| ==> candidates[i].perceptualHash != candidates[j].perceptualHash
  }

  /** No candidate with the same hash outranks `c`. */
  ghost predicate IsBest(kind: VideoKind, candidates: seq<FrameCandidate>, c: FrameCandidate) {
    c in candidates
    && forall i :: 0 <= i < |candidates| && candidates[i].perceptualHash == c.perceptualHash ==>
         !Outranks(kind, candidates[i], c)
  }

  ghost predicate ByTime(candidates: seq<FrameCandidate>) {
    forall i, j :: 0 <= i < j < |candidates| ==> candidates[i].timestamp <= candidates[j].timestamp
  }

  /** One best candidate for each hash. */
  ghost predicate Deduplicates(kind: VideoKind, candidates: seq<FrameCandidate>, unique: seq<FrameCandidate>) {
    && DistinctHashes(unique)
    && Hashes(unique) == Hashes(candidates)
    && forall c :: c in unique ==> IsBest(kind, candidates, c)
  }

  lemma HashesAppend(candidates: seq<FrameCandidate>, c: FrameCandidate)
    ensures Hashes(candidates + [c]) == Hashes(candidates) + {c.perceptualHash}
  {
    var longer := candidates + [c];
    assert longer[|candidates|] == c;
    forall h | h in Hashes(candidates) ensures h in Hashes(longer) {
      var i :| 0 <= i < |candidates| && candidates[i].perceptualHash == h;
      assert longer[i] == candidates[i];
    }
  }

  lemma {:induction false} DistinctHashesCount(candidates: seq<FrameCandidate>)
    requires DistinctHashes(candidates)
    ensures |Hashes(candidates)| == |candidates|
  {
    if |candidates| > 0 {
      var front, last := candidates[..|candidates| - 1], candidates[|candidates| - 1];
      DistinctHashesCount(front);
      assert Hashes(candidates) == Hashes(front) + {last.perceptualHash};
    }
  }

  predicate NoLater(c: FrameCandidate, d: FrameCandidate) {
    c.timestamp <= d.timestamp
  }

  lemma HashesPermute(a: seq<FrameCandidate>, b: seq<FrameCandidate>)
    requires multiset(a) == multiset(b)
    ensures Hashes(a) == Hashes(b)
  {
    forall h ensures h in Hashes(a) <==> h in Hashes(b) {
      if h in Hashes(a) {
        var i :| 0 <= i < |a| && a[i].perceptualHash == h;
        assert a[i] in multiset(b);
      }
      if h in Hashes(b) {
        var i :| 0 <= i < |b| && b[i].perceptualHash == h;
        assert b[i] in multiset(a);
      }
    }
  }

  lemma {:induction false} HashesCount(candidates: seq<FrameCandidate>)
    ensures |Hashes(candidates)| <= |candidates|
    ensures |Hashes(candidates)| == |candidates| ==> DistinctHashes(candidates)
  {
    if |candidates| > 0 {
      var front, last := candidates[..|candidates| - 1], candidates[|candidates| - 1];
      HashesCount(front);
      assert Hashes(candidates) == Hashes(front) + {last.perceptualHash};
      if |Hashes(candidates)| == |candidates| {
        assert last.perceptualHash !in Hashes(front);
      }
    }
  }

  lemma DistinctHashesPermute(a: seq<FrameCandidate>, b: seq<FrameCandidate>)
    requires multiset(a) == multiset(b) && DistinctHashes(a)
    ensures DistinctHashes(b)
  {
    HashesPermute(a, b);
    DistinctHashesCount(a);
    assert |a| == |multiset(a)| == |multiset(b)| == |b|;
    HashesCount(b);
  }

  lemma IsBestExtend(kind: VideoKind, seen: seq<FrameCandidate>, c: FrameCandidate, b: FrameCandidate)
    requires IsBest(kind, seen, b)
    requires b.perceptualHash == c.perceptualHash ==> !Outranks(kind, c, b)
    ensures IsBest(kind, seen + [c], b)
  {
    assert b in seen + [c];
  }

  lemma IsBestReplace(kind: VideoKind, seen: seq<FrameCandidate>, c: FrameCandidate, b: FrameCandidate)
    requires IsBest(kind, seen, b) && b.perceptualHash == c.perceptualHash && Outranks(kind, c, b)
    ensures IsBest(kind, seen + [c], c)
  {
    var all := seen + [c];
    assert c == all[|seen|];
    forall i | 0 <= i < |all| && all[i].perceptualHash == c.perceptualHash ensures !Outranks(kind, all[i], c) {
      if i < |seen| { assert !Outranks(kind, seen[i], b); }
    }
  }

  lemma IsBestNew(kind: VideoKind, seen: seq<FrameCandidate>, c: FrameCandidate)
    requires c.perceptualHash !in Hashes(seen)
    ensures IsBest(kind, seen + [c], c)
  {
    var all := seen + [c];
    assert c == all[|seen|];
    assert forall i :: 0 <= i < |seen| ==> seen[i].perceptualHash in Hashes(seen);
  }

  /** One more candidate: kept when its hash is new, or when it outranks the one kept for that hash. */
  method KeepBest(kind: VideoKind, ghost seen: seq<FrameCandidate>, c: FrameCandidate, before: seq<FrameCandidate>)
    returns (best: seq<FrameCandidate>)
    requires Deduplicates(kind, seen, before)
    ensures Deduplicates(kind, seen + [c], best)
  {
    HashesAppend(seen, c);
    if j :| 0 <= j < |before| && before[j].perceptualHash == c.perceptualHash {
      if Outranks(kind, c, before[j]) {
        ReplaceBest(kind, seen, c, before, j);
        return before[j := c];
      }
      SameBest(kind, seen, c, before, j);
      return before;
    }
    NewBest(kind, seen, c, before);
    return before + [c];
  }

  lemma ReplaceBest(kind: VideoKind, seen: seq<FrameCandidate>, c: FrameCandidate, before: seq<FrameCandidate>, j: nat)
    requires Deduplicates(kind, seen, before) && j < |before|
    requires before[j].perceptualHash == c.perceptualHash && Outranks(kind, c, before[j])
    ensures Deduplicates(kind, seen + [c], before[j := c])
  {
    hide Outranks;
    var best := before[j := c];
    IsBestReplace(kind, seen, c, before[j]);
    HashesAppend(seen, c);
    assert forall i :: 0 <= i < |best| ==> best[i].perceptualHash == before[i].perceptualHash;
    assert Hashes(best) == Hashes(before);
    assert before[j].perceptualHash in Hashes(before);
    forall b | b in best ensures IsBest(kind, seen + [c], b) {
      var i :| 0 <= i < |best| && best[i] == b;
      if i != j {
        IsBestExtend(kind, seen, c, b);
      }
    }
  }

  lemma SameBest(kind: VideoKind, seen: seq<FrameCandidate>, c: FrameCandidate, before: seq<FrameCandidate>, j: nat)
    requires Deduplicates(kind, seen, before) && j < |before|
    requires before[j].perceptualHash == c.perceptualHash && !Outranks(kind, c, before[j])
    ensures Deduplicates(kind, seen + [c], before)
  {
    hide Outranks;
    HashesAppend(seen, c);
    assert before[j].perceptualHash in Hashes(before);
    forall b | b in before ensures IsBest(kind, seen + [c], b) {
      var i :| 0 <= i < |before| && before[i] == b;
      IsBestExtend(kind, seen, c, b);
    }
  }

  lemma NewBest(kind: VideoKind, seen: seq<FrameCandidate>, c: FrameCandidate, before: seq<FrameCandidate>)
    requires Deduplicates(kind, seen, before)
    requires forall j :: 0 <= j < |before| ==> before[j].perceptualHash != c.perceptualHash
    ensures Deduplicates(kind, seen + [c], before + [c])
  {
    hide Outranks;
    HashesAppend(seen, c);
    HashesAppend(before, c);
    IsBestNew(kind, seen, c);
    forall b | b in before ensures IsBest(kind, seen + [c], b) {
      IsBestExtend(kind, seen, c, b);
    }
  }

  /** Ordering the survivors by time keeps them. */
  lemma SortedDeduplicates(kind: VideoKind, candidates: seq<FrameCandidate>, best: seq<FrameCandidate>)
    requires Deduplicates(kind, candidates, best)
    ensures Deduplicates(kind, candidates, Sort(best, NoLater)) && ByTime(Sort(best, NoLater))
  {
    hide Sort, IsBest;
    var unique := Sort(best, NoLater);
    SortSorted(best, NoLater);
    HashesPermute(best, unique);
    DistinctHashesPermute(best, unique);
    forall c | c in unique ensures IsBest(kind, candidates, c) { SortMembers(best, NoLater, c); }
  }

  /** Keep the best candidate for every hash, then order the survivors by time. */
  method Deduplicate(kind: VideoKind, candidates: seq<FrameCandidate>) returns (unique: seq<FrameCandidate>)
    ensures Deduplicates(kind, candidates, unique) && ByTime(unique)
  {
    hide Deduplicates, Sort;
    var best: seq<FrameCandidate> := [];
    NothingKept(kind);
    assert candidates[..0] == [];
    for k := 0 to |candidates|
      invariant Deduplicates(kind, candidates[..k], best)
    {
      assert candidates[..k + 1] == candidates[..k] + [candidates[k]];
      best := KeepBest(kind, candidates[..k], candidates[k], best);
    }
    assert candidates[..|candidates|] == candidates;
    SortedDeduplicates(kind, candidates, best);
    unique := Sort(best, NoLater);
  }

  lemma NothingKept(kind: VideoKind)
    ensures Deduplicates(kind, [], [])
  {
  }

  /** The first candidate no other outranks. */
  method Highest(kind: VideoKind, candidates: seq<FrameCandidate>) returns (c: FrameCandidate)
    requires |candidates| > 0
    ensures c in candidates && forall i :: 0 <= i < |candidates| ==> !Outranks(kind, candidates[i], c)
  {
    c := candidates[0];
    for k := 1 to |candidates|
      invariant c in candidates && forall i :: 0 <= i < k ==> !Outranks(kind, candidates[i], c)
    {
      if Outranks(kind, candidates[k], c) {
        c := candidates[k];
      }
    }
  }

  function Excluding(candidates: seq<FrameCandidate>, hashes: set<string>): seq<FrameCandidate> {
    if |candidates| == 0 then []
    else (if candidates[0].perceptualHash in hashes then [] else [candidates[0]]) + Excluding(candidates[1..], hashes)
  }

  lemma {:induction false} ExcludingNone(candidates: seq<FrameCandidate>, hashes: set<string>)
    requires forall i :: 0 <= i < |candidates| ==> candidates[i].perceptualHash !in hashes
    ensures Excluding(candidates, hashes) == candidates
  {
    if |candidates| > 0 {
      ExcludingNone(candidates[1..], hashes);
    }
  }

  lemma {:induction false} ExcludingLast(candidates: seq<FrameCandidate>, hashes: set<string>)
    requires |candidates| > 0 && candidates[|candidates| - 1].perceptualHash in hashes
    requires forall i :: 0 <= i < |candidates| - 1 ==> candidates[i].perceptualHash !in hashes
    ensures Excluding(candidates, hashes) == candidates[..|candidates| - 1]
  {
    if |candidates| > 1 {
      ExcludingLast(candidates[1..], hashes);
      assert candidates[..|candidates| - 1] == [candidates[0]] + candidates[1..][..|candidates| - 2];
    }
  }

  lemma ExcludingHead(candidates: seq<FrameCandidate>, hashes: set<string>)
    requires |candidates| > 0 && candidates[0].perceptualHash in hashes
    ensures Excluding(candidates, hashes) == Excluding(candidates[1..], hashes)
  {
  }

  /** Without the hashes of its two ends, a duplicate-free list is its interior. */
  lemma ExcludingEnds(unique: seq<FrameCandidate>)
    requires DistinctHashes(unique) && |unique| >= 2
    ensures Excluding(unique, {unique[0].perceptualHash, unique[|unique| - 1].perceptualHash})
         == unique[1..|unique| - 1]
  {
    hide Excluding;
    var hashes := {unique[0].perceptualHash, unique[|unique| - 1].perceptualHash};
    var tail := unique[1..];
    assert tail[|tail| - 1] == unique[|unique| - 1];
    forall i | 0 <= i < |tail| - 1 ensures tail[i].perceptualHash !in hashes {
      assert tail[i] == unique[i + 1];
    }
    ExcludingLast(tail, hashes);
    ExcludingHead(unique, hashes);
    assert tail[..|tail| - 1] == unique[1..|unique| - 1];
  }

  /** A best candidate whose hash was not selected. */
  ghost predicate Dropped(kind: VideoKind, candidates: seq<FrameCandidate>, selected: seq<FrameCandidate>,
                          d: FrameCandidate)
  {
    IsBest(kind, candidates, d) && d.perceptualHash !in Hashes(selected)
  }

  /** `first` and `last` are selected and enclose the whole timeline. */
  ghost predicate Ends(kind: VideoKind, candidates: seq<FrameCandidate>, selected: seq<FrameCandidate>,
                       first: FrameCandidate, last: FrameCandidate)
  {
    && first in selected && last in selected
    && forall d :: IsBest(kind, candidates, d) ==> first.timestamp <= d.timestamp <= last.timestamp
  }

  ghost predicate InteriorStrongest(kind: VideoKind, candidates: seq<FrameCandidate>, selected: seq<FrameCandidate>,
                                    first: FrameCandidate, last: FrameCandidate)
  {
    forall d, k :: Dropped(kind, candidates, selected, d) && k in selected && k != first && k != last ==>
      !Outranks(kind, d, k)
  }

  /** The same for a duplicate-free list and its own two ends. */
  ghost predicate InteriorOutranksRest(kind: VideoKind, unique: seq<FrameCandidate>, selected: seq<FrameCandidate>)
    requires |unique| > 0
  {
    forall d, k :: d in unique && d !in selected && k in selected ==>
      k == unique[0] || k == unique[|unique| - 1] || !Outranks(kind, d, k)
  }

  /** Apart from the two reserved ends, nothing dropped outranks anything kept. */
  ghost predicate KeepsStrongest(kind: VideoKind, candidates: seq<FrameCandidate>, limit: int,
                                 selected: seq<FrameCandidate>)
  {
    if limit == 1 then
      forall d, k :: Dropped(kind, candidates, selected, d) && k in selected ==> !Outranks(kind, d, k)
    else
      |selected| > 0 ==>
        exists first, last ::
          Ends(kind, candidates, selected, first, last) && InteriorStrongest(kind, candidates, selected, first, last)
  }

  /** Best candidates of one hash tie, so the one kept for a hash stands for all of them. */
  lemma BestRepresented(kind: VideoKind, candidates: seq<FrameCandidate>, unique: seq<FrameCandidate>,
                        d: FrameCandidate)
    returns (u: FrameCandidate)
    requires Deduplicates(kind, candidates, unique) && IsBest(kind, candidates, d)
    ensures u in unique && u.perceptualHash == d.perceptualHash
    ensures PriorityOf(kind, u) == PriorityOf(kind, d) && u.timestamp == d.timestamp
  {
    var j :| 0 <= j < |candidates| && candidates[j] == d;
    assert d.perceptualHash in Hashes(candidates);
    var i :| 0 <= i < |unique| && unique[i].perceptualHash == d.perceptualHash;
    u := unique[i];
    assert IsBest(kind, candidates, u);
    var m :| 0 <= m < |candidates| && candidates[m] == u;
    assert !Outranks(kind, candidates[j], u) && !Outranks(kind, candidates[m], d);
  }

  lemma PriorityOrder(kind: VideoKind)
    ensures TotalPreorder((a: FrameCandidate, b: FrameCandidate) => !Outranks(kind, b, a))
    ensures TotalPreorder(NoLater)
  {
  }

  /** The ends of the deduplicated timeline, then the highest-ranked interior candidates. */
  method KeepEndsAndStrongest(kind: VideoKind, unique: seq<FrameCandidate>, limit: int)
    returns (selected: seq<FrameCandidate>)
    requires DistinctHashes(unique) && 2 <= limit < |unique|
    ensures |selected| == limit && DistinctHashes(selected)
    ensures forall c :: c in selected ==> c in unique
    ensures unique[0] in selected && unique[|unique| - 1] in selected
    ensures InteriorOutranksRest(kind, unique, selected)
  {
    hide Excluding, Sort;
    var n := |unique|;
    selected := [unique[0], unique[n - 1]];
    var remaining := Excluding(unique, {unique[0].perceptualHash, unique[n - 1].perceptualHash});
    ExcludingEnds(unique);
    var ranked := Sort(remaining, (a: FrameCandidate, b: FrameCandidate) => !Outranks(kind, b, a));
    InteriorRanked(kind, unique, ranked);
    selected := selected + ranked[..limit - 2];
    JoinDistinct(unique, ranked, limit - 2);
    RankedPrefixStrongest(kind, unique, ranked, limit - 2);
  }

  lemma RankedPrefixStrongest(kind: VideoKind, unique: seq<FrameCandidate>, ranked: seq<FrameCandidate>, m: nat)
    requires |unique| >= 2 && m <= |ranked|
    requires forall i, j :: 0 <= i < j < |ranked| ==> !Outranks(kind, ranked[j], ranked[i])
    requires forall i :: 0 < i < |unique| - 1 ==> unique[i] in ranked
    ensures InteriorOutranksRest(kind, unique, [unique[0], unique[|unique| - 1]] + ranked[..m])
  {
    var selected := [unique[0], unique[|unique| - 1]] + ranked[..m];
    assert forall j :: 0 <= j < m ==> selected[j + 2] == ranked[j];
    assert selected[0] == unique[0] && selected[1] == unique[|unique| - 1];
    forall d, k | d in unique && d !in selected && k in selected && k != unique[0] && k != unique[|unique| - 1]
      ensures !Outranks(kind, d, k)
    {
      var s :| 0 <= s < |selected| && selected[s] == k;
      var u :| 0 <= u < |unique| && unique[u] == d;
      var j :| 0 <= j < |ranked| && ranked[j] == d;
      assert m <= j;
    }
  }

  /** The interior in rank order: the same candidates, no repeated hash, best first. */
  lemma InteriorRanked(kind: VideoKind, unique: seq<FrameCandidate>, ranked: seq<FrameCandidate>)
    requires DistinctHashes(unique) && |unique| >= 2
    requires ranked == Sort(unique[1..|unique| - 1], (a: FrameCandidate, b: FrameCandidate) => !Outranks(kind, b, a))
    ensures |ranked| == |unique| - 2 && DistinctHashes(ranked)
    ensures forall i, j :: 0 <= i < j < |ranked| ==> !Outranks(kind, ranked[j], ranked[i])
    ensures forall i :: 0 <= i < |ranked| ==> ranked[i] in unique[1..|unique| - 1]
    ensures forall i :: 0 < i < |unique| - 1 ==> unique[i] in ranked
  {
    hide Outranks, DistinctHashes, Sort;
    var inner := unique[1..|unique| - 1];
    InnerDistinct(unique);
    DistinctHashesPermute(inner, ranked);
    RankSorted(kind, inner);
    forall i | 0 <= i < |ranked| ensures ranked[i] in inner {
      assert ranked[i] in multiset(inner);
    }
    forall i | 0 < i < |unique| - 1 ensures unique[i] in ranked {
      assert inner[i - 1] == unique[i];
      assert unique[i] in multiset(inner);
      assert unique[i] in multiset(ranked);
    }
  }

  lemma InnerDistinct(unique: seq<FrameCandidate>)
    requires DistinctHashes(unique) && |unique| >= 2
    ensures DistinctHashes(unique[1..|unique| - 1])
  {
  }

  lemma RankSorted(kind: VideoKind, inner: seq<FrameCandidate>)
    ensures var ranked := Sort(inner, (a: FrameCandidate, b: FrameCandidate) => !Outranks(kind, b, a));
      forall i, j :: 0 <= i < j < |ranked| ==> !Outranks(kind, ranked[j], ranked[i])
  {
    PriorityOrder(kind);
    hide Outranks, Sort;
    var le := (a: FrameCandidate, b: FrameCandidate) => !Outranks(kind, b, a);
    SortSorted(inner, le);
    assert forall i, j :: 0 <= i < j < |inner| ==> le(Sort(inner, le)[i], Sort(inner, le)[j]);
  }

  lemma JoinDistinct(unique: seq<FrameCandidate>, ranked: seq<FrameCandidate>, m: nat)
    requires DistinctHashes(unique) && DistinctHashes(ranked) && |unique| >= 2 && m <= |ranked|
    requires forall i :: 0 <= i < |ranked| ==> ranked[i] in unique[1..|unique| - 1]
    ensures DistinctHashes([unique[0], unique[|unique| - 1]] + ranked[..m])
    ensures forall c :: c in [unique[0], unique[|unique| - 1]] + ranked[..m] ==> c in unique
  {
    var joined := [unique[0], unique[|unique| - 1]] + ranked[..m];
    forall j | 2 <= j < |joined|
      ensures joined[j] in unique
      ensures joined[j].perceptualHash != joined[0].perceptualHash
      ensures joined[j].perceptualHash != joined[1].perceptualHash
    {
      assert joined[j] == ranked[j - 2];
      var i :| 0 <= i < |unique| - 2 && unique[1..|unique| - 1][i] == joined[j];
      assert joined[j] == unique[i + 1];
    }
  }

  /** Choose at most `limit` frames, or report that the limit is not positive. */
  method Select(kind: VideoKind, candidates: seq<FrameCandidate>, limit: int) returns (r: Option<seq<FrameCandidate>>)
    ensures r.None? <==> limit < 1
    ensures r.Some? ==>
      && |r.value| == (if limit < |Hashes(candidates)| then limit else |Hashes(candidates)|)
      && DistinctHashes(r.value) && ByTime(r.value)
      && (forall c :: c in r.value ==> IsBest(kind, candidates, c))
      && KeepsStrongest(kind, candidates, limit, r.value)
  {
    if limit < 1 {
      return None;
    }
    var unique := Deduplicate(kind, candidates);
    DistinctHashesCount(unique);
    if |unique| <= limit {
      NothingDropped(kind, candidates, unique, limit);
      return Some(unique);
    }
    if limit == 1 {
      var top := Highest(kind, unique);
      OneStrongest(kind, candidates, unique, top);
      return Some([top]);
    }
    var selected := KeepEndsAndStrongest(kind, unique, limit);
    var ordered := Sort(selected, NoLater);
    PriorityOrder(kind);
    SortSorted(selected, NoLater);
    DistinctHashesPermute(selected, ordered);
    forall c ensures c in ordered <==> c in selected { SortMembers(selected, NoLater, c); }
    EndsAndStrongest(kind, candidates, unique, ordered, limit);
    return Some(ordered);
  }

  lemma NothingDropped(kind: VideoKind, candidates: seq<FrameCandidate>, unique: seq<FrameCandidate>, limit: int)
    requires Deduplicates(kind, candidates, unique) && ByTime(unique)
    ensures KeepsStrongest(kind, candidates, limit, unique)
  {
    forall d | IsBest(kind, candidates, d) ensures d.perceptualHash in Hashes(unique) {
      var u := BestRepresented(kind, candidates, unique, d);
    }
    if |unique| > 0 {
      var first, last := unique[0], unique[|unique| - 1];
      forall d | IsBest(kind, candidates, d) ensures first.timestamp <= d.timestamp <= last.timestamp {
        var u := BestRepresented(kind, candidates, unique, d);
      }
      assert Ends(kind, candidates, unique, first, last);
    }
  }

  lemma OneStrongest(kind: VideoKind, candidates: seq<FrameCandidate>, unique: seq<FrameCandidate>, top: FrameCandidate)
    requires Deduplicates(kind, candidates, unique) && top in unique
    requires forall i :: 0 <= i < |unique| ==> !Outranks(kind, unique[i], top)
    ensures KeepsStrongest(kind, candidates, 1, [top])
  {
    forall d | Dropped(kind, candidates, [top], d) ensures !Outranks(kind, d, top) {
      var u := BestRepresented(kind, candidates, unique, d);
    }
  }

  lemma EndsAndStrongest(kind: VideoKind, candidates: seq<FrameCandidate>, unique: seq<FrameCandidate>,
                         selected: seq<FrameCandidate>, limit: int)
    requires Deduplicates(kind, candidates, unique) && ByTime(unique) && 2 <= limit < |unique|
    requires unique[0] in selected && unique[|unique| - 1] in selected
    requires InteriorOutranksRest(kind, unique, selected)
    ensures KeepsStrongest(kind, candidates, limit, selected)
  {
    var first, last := unique[0], unique[|unique| - 1];
    forall d | IsBest(kind, candidates, d) ensures first.timestamp <= d.timestamp <= last.timestamp {
      var u := BestRepresented(kind, candidates, unique, d);
    }
    assert Ends(kind, candidates, selected, first, last);
    forall d, k | Dropped(kind, candidates, selected, d) && k in selected && k != first && k != last
      ensures !Outranks(kind, d, k)
    {
      var u := BestRepresented(kind, candidates, unique, d);
      assert forall i :: 0 <= i < |selected| ==> selected[i].perceptualHash in Hashes(selected);
    }
  }
}
