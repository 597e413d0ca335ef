/** The two-row edit distance behind error rates, and why it is a shortest script and a metric. */
module Levenshtein {
  import opened Contracts

  /** A character or a word. */
  datatype Token = Token(text: string)

  /** One step of an edit script. */
  datatype Edit =
    | Keep(kept: Token) | Substitute(was: Token, becomes: Token) | Delete(gone: Token) | Insert(added: Token)
  {
    function Cost(): nat {
      if Keep? then 0 else 1
    }

    function From(): seq<Token> {
      match this
      case Keep(x) => [x]
      case Substitute(x, _) => [x]
      case Delete(x) => [x]
      case Insert(_) => []
    }

    function To(): seq<Token> {
      match this
      case Keep(x) => [x]
      case Substitute(_, y) => [y]
      case Delete(_) => []
      case Insert(y) => [y]
    }
  }

  lemma OneTokenAtMost(e: Edit)
    ensures |e.From()| <= 1 && |e.To()| <= 1
  {
  }

  function Source(script: seq<Edit>): seq<Token> {
    if |script| == 0 then [] else Source(script[..|script| - 1]) + script[|script| - 1].From()
  }

  function Target(script: seq<Edit>): seq<Token> {
    if |script| == 0 then [] else Target(script[..|script| - 1]) + script[|script| - 1].To()
  }

  function Cost(script: seq<Edit>): nat {
    if |script| == 0 then 0 else Cost(script[..|script| - 1]) + script[|script| - 1].Cost()
  }

  /** The script turns `a` into `b`. */
  ghost predicate Edits(script: seq<Edit>, a: seq<Token>, b: seq<Token>) {
    Source(script) == a && Target(script) == b
  }

  /** `d` is the length of a shortest edit script from `a` to `b`. */
  ghost predicate IsDistance(d: nat, a: seq<Token>, b: seq<Token>) {
    && (exists script: seq<Edit> :: Edits(script, a, b) && Cost(script) == d)
    && (forall script: seq<Edit> :: Edits(script, a, b) ==> d <= Cost(script))
  }

  function Min3(x: nat, y: nat, z: nat): nat {
    if x <= y && x <= z then x else if y <= z then y else z
  }

  function Mismatch(x: Token, y: Token): nat {
    if x == y then 0 else 1
  }

  /** The recurrence the table is filled by, on the prefixes of length `i` and `j`. */
  function Table(a: seq<Token>, b: seq<Token>, i: nat, j: nat): nat
    requires i <= |a| && j <= |b|
  {
    if i == 0 then j
    else if j == 0 then i
    else Min3(Table(a, b, i - 1, j) + 1, Table(a, b, i, j - 1) + 1,
              Table(a, b, i - 1, j - 1) + Mismatch(a[i - 1], b[j - 1]))
  }

  /** One entry of the table, from its three neighbours. */
  lemma TableEntry(a: seq<Token>, b: seq<Token>, i: nat, j: nat)
    requires i <= |a| && j <= |b|
    ensures i == 0 ==> Table(a, b, i, j) == j
    ensures j == 0 ==> Table(a, b, i, j) == i
    ensures i > 0 && j > 0 ==>
      Table(a, b, i, j) == Min3(Table(a, b, i - 1, j) + 1, Table(a, b, i, j - 1) + 1,
                                Table(a, b, i - 1, j - 1) + Mismatch(a[i - 1], b[j - 1]))
  {
  }

  lemma Extend(script: seq<Edit>, e: Edit)
    ensures Source(script + [e]) == Source(script) + e.From()
    ensures Target(script + [e]) == Target(script) + e.To()
    ensures Cost(script + [e]) == Cost(script) + e.Cost()
  {
    assert (script + [e])[..|script|] == script;
  }

  lemma StretchDelete(script: seq<Edit>, a: seq<Token>, b: seq<Token>, i: nat, j: nat)
    requires i < |a| && j <= |b| && Edits(script, a[..i], b[..j])
    ensures Edits(script + [Delete(a[i])], a[..i + 1], b[..j])
    ensures Cost(script + [Delete(a[i])]) == Cost(script) + 1
  {
    Extend(script, Delete(a[i]));
  }

  lemma StretchInsert(script: seq<Edit>, a: seq<Token>, b: seq<Token>, i: nat, j: nat)
    requires i <= |a| && j < |b| && Edits(script, a[..i], b[..j])
    ensures Edits(script + [Insert(b[j])], a[..i], b[..j + 1])
    ensures Cost(script + [Insert(b[j])]) == Cost(script) + 1
  {
    Extend(script, Insert(b[j]));
  }

  lemma StretchBoth(script: seq<Edit>, a: seq<Token>, b: seq<Token>, i: nat, j: nat) returns (e: Edit)
    requires i < |a| && j < |b| && Edits(script, a[..i], b[..j])
    ensures Edits(script + [e], a[..i + 1], b[..j + 1])
    ensures Cost(script + [e]) == Cost(script) + Mismatch(a[i], b[j])
  {
    e := if a[i] == b[j] then Keep(a[i]) else Substitute(a[i], b[j]);
    Extend(script, e);
  }

  /** The table entry is reached by some script. */
  lemma {:induction false} TableReached(a: seq<Token>, b: seq<Token>, i: nat, j: nat) returns (script: seq<Edit>)
    requires i <= |a| && j <= |b|
    ensures Edits(script, a[..i], b[..j]) && Cost(script) == Table(a, b, i, j)
  {
    hide Edits, Cost, Table, Mismatch;
    TableEntry(a, b, i, j);
    if i == 0 && j == 0 {
      script := [];
      EmptyScript(a, b);
    } else if j == 0 || (i > 0 && Table(a, b, i, j) == Table(a, b, i - 1, j) + 1) {
      TableEntry(a, b, i - 1, j);
      script := TableReached(a, b, i - 1, j);
      StretchDelete(script, a, b, i - 1, j);
      script := script + [Delete(a[i - 1])];
    } else if i == 0 || Table(a, b, i, j) == Table(a, b, i, j - 1) + 1 {
      TableEntry(a, b, i, j - 1);
      script := TableReached(a, b, i, j - 1);
      StretchInsert(script, a, b, i, j - 1);
      script := script + [Insert(b[j - 1])];
    } else {
      script := TableReached(a, b, i - 1, j - 1);
      var e := StretchBoth(script, a, b, i - 1, j - 1);
      script := script + [e];
    }
  }

  lemma EmptyScript(a: seq<Token>, b: seq<Token>)
    ensures Edits([], a[..0], b[..0]) && Cost([]) == 0
  {
  }

  /** One edit moves to a table entry at most its cost higher. */
  lemma TableStep(e: Edit, a: seq<Token>, b: seq<Token>, i: nat, j: nat)
    requires |e.From()| <= i <= |a| && |e.To()| <= j <= |b|
    requires e.From() != [] ==> e.From()[0] == a[i - 1]
    requires e.To() != [] ==> e.To()[0] == b[j - 1]
    ensures Table(a, b, i, j) <= Table(a, b, i - |e.From()|, j - |e.To()|) + e.Cost()
  {
    hide Table;
    TableEntry(a, b, i, j);
    TableEntry(a, b, i - |e.From()|, j - |e.To()|);
  }

  /** No script is cheaper than the table entry. */
  lemma {:induction false} TableIsLeast(script: seq<Edit>, a: seq<Token>, b: seq<Token>, i: nat, j: nat)
    requires i <= |a| && j <= |b| && Edits(script, a[..i], b[..j])
    ensures Table(a, b, i, j) <= Cost(script)
    decreases |script|
  {
    if |script| == 0 {
      assert i == |a[..i]| && j == |b[..j]|;
    } else {
      var front, e := script[..|script| - 1], script[|script| - 1];
      assert script == front + [e];
      hide Source, Target, Cost, Table, Edit.From, Edit.To, Edit.Cost;
      Extend(front, e);
      OneTokenAtMost(e);
      PrefixSplits(a, i, Source(front), e.From());
      PrefixSplits(b, j, Target(front), e.To());
      TableIsLeast(front, a, b, i - |e.From()|, j - |e.To()|);
      TableStep(e, a, b, i, j);
    }
  }

  lemma PrefixSplits(a: seq<Token>, i: nat, front: seq<Token>, back: seq<Token>)
    requires i <= |a| && a[..i] == front + back && |back| <= 1
    ensures |back| <= i && a[..i - |back|] == front && (back != [] ==> back[0] == a[i - 1])
  {
    assert a[..i][..|front|] == front;
    assert back != [] ==> a[..i][i - 1] == back[0];
  }

  function Distance(a: seq<Token>, b: seq<Token>): nat {
    Table(a, b, |a|, |b|)
  }

  lemma DistanceIsShortest(a: seq<Token>, b: seq<Token>)
    ensures IsDistance(Distance(a, b), a, b)
  {
    assert a[..|a|] == a && b[..|b|] == b;
    var best := TableReached(a, b, |a|, |b|);
    forall script: seq<Edit> | Edits(script, a, b) ensures Distance(a, b) <= Cost(script) {
      TableIsLeast(script, a, b, |a|, |b|);
    }
  }

  /** Fill the table row by row, keeping only the row above. */
  method EditDistance(hypothesis: seq<Token>, reference: seq<Token>) returns (d: nat)
    ensures d == Distance(hypothesis, reference)
    ensures IsDistance(d, hypothesis, reference)
  {
    hide IsDistance, Table;
    DistanceIsShortest(hypothesis, reference);
    TableEntry(hypothesis, reference, |hypothesis|, 0);
    if |reference| == 0 {
      return |hypothesis|;
    }
    var n := |reference|;
    var previous := new nat[n + 1](i => i);
    forall j | 0 <= j <= n ensures previous[j] == Table(hypothesis, reference, 0, j) {
      TableEntry(hypothesis, reference, 0, j);
    }
    for index := 1 to |hypothesis| + 1
      invariant previous.Length == n + 1
      invariant forall j :: 0 <= j <= n ==> previous[j] == Table(hypothesis, reference, index - 1, j)
    {
      var current := new nat[n + 1](i => if i == 0 then index else 0);
      TableEntry(hypothesis, reference, index, 0);
      for position := 1 to n + 1
        invariant forall j :: 0 <= j <= n ==> previous[j] == Table(hypothesis, reference, index - 1, j)
        invariant forall j :: 0 <= j < position ==> current[j] == Table(hypothesis, reference, index, j)
      {
        TableEntry(hypothesis, reference, index, position);
        current[position] := Min3(previous[position] + 1, current[position - 1] + 1,
                                  previous[position - 1] + Mismatch(hypothesis[index - 1], reference[position - 1]));
      }
      previous := current;
    }
    d := previous[n];
  }

  // The distance is a metric.

  /** The same script read backwards. */
  function Reverse(script: seq<Edit>): seq<Edit> {
    if |script| == 0 then []
    else
      var e := script[|script| - 1];
      Reverse(script[..|script| - 1]) + [
        match e
        case Keep(x) => e
        case Substitute(x, y) => Substitute(y, x)
        case Delete(x) => Insert(x)
        case Insert(y) => Delete(y)]
  }

  lemma {:induction false} ReverseEdits(script: seq<Edit>)
    ensures Edits(Reverse(script), Target(script), Source(script)) && Cost(Reverse(script)) == Cost(script)
  {
    if |script| > 0 {
      var front := script[..|script| - 1];
      ReverseEdits(front);
      var r := Reverse(script);
      Extend(Reverse(front), r[|r| - 1]);
      assert r == Reverse(front) + [r[|r| - 1]];
    }
  }

  lemma DistanceSymmetric(a: seq<Token>, b: seq<Token>)
    ensures Distance(a, b) == Distance(b, a)
  {
    DistanceAtMost(a, b);
    DistanceAtMost(b, a);
  }

  lemma DistanceAtMost(a: seq<Token>, b: seq<Token>)
    ensures Distance(a, b) <= Distance(b, a)
  {
    DistanceIsShortest(b, a);
    DistanceIsShortest(a, b);
    var script: seq<Edit> :| Edits(script, b, a) && Cost(script) == Distance(b, a);
    ReverseEdits(script);
    assert Edits(Reverse(script), a, b);
  }

  /** The edit that takes what `s` started from to what `t` ends with, if anything is left of the two. */
  function Fuse(s: Edit, t: Edit): seq<Edit> {
    if s.From() == [] && t.To() == [] then []
    else if s.From() == [] then [Insert(t.To()[0])]
    else if t.To() == [] then [Delete(s.From()[0])]
    else if s.From()[0] == t.To()[0] then [Keep(s.From()[0])]
    else [Substitute(s.From()[0], t.To()[0])]
  }

  /** One script that does the work of two. */
  function Compose(s: seq<Edit>, t: seq<Edit>): seq<Edit>
    decreases |s| + |t|
  {
    if |s| > 0 && s[|s| - 1].Delete? then Compose(s[..|s| - 1], t) + [s[|s| - 1]]
    else if |t| > 0 && t[|t| - 1].Insert? then Compose(s, t[..|t| - 1]) + [t[|t| - 1]]
    else if |s| == 0 || |t| == 0 then []
    else Compose(s[..|s| - 1], t[..|t| - 1]) + Fuse(s[|s| - 1], t[|t| - 1])
  }

  lemma {:induction false} ComposeEdits(s: seq<Edit>, t: seq<Edit>)
    requires Target(s) == Source(t)
    ensures Edits(Compose(s, t), Source(s), Target(t)) && Cost(Compose(s, t)) <= Cost(s) + Cost(t)
    decreases |s| + |t|
  {
    if |s| > 0 && s[|s| - 1].Delete? {
      ComposeEdits(s[..|s| - 1], t);
      Extend(Compose(s[..|s| - 1], t), s[|s| - 1]);
    } else if |t| > 0 && t[|t| - 1].Insert? {
      ComposeEdits(s, t[..|t| - 1]);
      Extend(Compose(s, t[..|t| - 1]), t[|t| - 1]);
    } else if |s| > 0 && |t| > 0 {
      var s', t', e, f := s[..|s| - 1], t[..|t| - 1], s[|s| - 1], t[|t| - 1];
      assert Target(s) == Target(s') + e.To() && Source(t) == Source(t') + f.From();
      assert |e.To()| == 1 && |f.From()| == 1;
      assert Target(s)[..|Target(s)| - 1] == Target(s') && Source(t)[..|Source(t)| - 1] == Source(t');
      assert e.To()[0] == Target(s)[|Target(s)| - 1] == f.From()[0];
      ComposeEdits(s', t');
      FuseEdits(Compose(s', t'), e, f);
    }
  }

  lemma FuseEdits(script: seq<Edit>, e: Edit, f: Edit)
    requires |e.To()| == 1 && e.To() == f.From()
    ensures Source(script + Fuse(e, f)) == Source(script) + e.From()
    ensures Target(script + Fuse(e, f)) == Target(script) + f.To()
    ensures Cost(script + Fuse(e, f)) <= Cost(script) + e.Cost() + f.Cost()
  {
    hide Source, Target, Cost;
    if Fuse(e, f) == [] {
      assert script + Fuse(e, f) == script;
    } else {
      assert Fuse(e, f) == [Fuse(e, f)[0]];
      Extend(script, Fuse(e, f)[0]);
    }
  }

  lemma TriangleInequality(a: seq<Token>, b: seq<Token>, c: seq<Token>)
    ensures Distance(a, c) <= Distance(a, b) + Distance(b, c)
  {
    DistanceIsShortest(a, b);
    DistanceIsShortest(b, c);
    DistanceIsShortest(a, c);
    var s: seq<Edit> :| Edits(s, a, b) && Cost(s) == Distance(a, b);
    var t: seq<Edit> :| Edits(t, b, c) && Cost(t) == Distance(b, c);
    ComposeEdits(s, t);
    assert Edits(Compose(s, t), a, c);
  }

  lemma {:induction false} FreeScriptKeeps(script: seq<Edit>)
    requires Cost(script) == 0
    ensures Source(script) == Target(script)
  {
    if |script| > 0 {
      FreeScriptKeeps(script[..|script| - 1]);
    }
  }

  lemma {:induction false} SameIsFree(a: seq<Token>, i: nat)
    requires i <= |a|
    ensures Table(a, a, i, i) == 0
  {
    if i > 0 {
      SameIsFree(a, i - 1);
    }
  }

  lemma ZeroIffEqual(a: seq<Token>, b: seq<Token>)
    ensures Distance(a, b) == 0 <==> a == b
  {
    DistanceIsShortest(a, b);
    if Distance(a, b) == 0 {
      var script: seq<Edit> :| Edits(script, a, b) && Cost(script) == 0;
      FreeScriptKeeps(script);
    }
    if a == b {
      SameIsFree(a, |a|);
    }
  }

  lemma {:induction false} CostCoversLengths(script: seq<Edit>)
    ensures |Source(script)| <= |Target(script)| + Cost(script)
    ensures |Target(script)| <= |Source(script)| + Cost(script)
  {
    if |script| > 0 {
      CostCoversLengths(script[..|script| - 1]);
    }
  }

  lemma {:induction false} TableAtMost(a: seq<Token>, b: seq<Token>, i: nat, j: nat)
    requires i <= |a| && j <= |b|
    ensures Table(a, b, i, j) <= if i <= j then j else i
  {
    if i > 0 && j > 0 {
      TableAtMost(a, b, i - 1, j - 1);
    }
  }

  /** The distance lies between the difference of the lengths and the longer length. */
  lemma DistanceBounds(a: seq<Token>, b: seq<Token>)
    ensures |a| <= |b| + Distance(a, b) && |b| <= |a| + Distance(a, b)
    ensures Distance(a, b) <= if |a| <= |b| then |b| else |a|
  {
    DistanceIsShortest(a, b);
    var script: seq<Edit> :| Edits(script, a, b) && Cost(script) == Distance(a, b);
    CostCoversLengths(script);
    TableAtMost(a, b, |a|, |b|);
  }

  // Error rates.

  const MAX_ALIGN_TOKENS := 4000

  function Aligned(tokens: seq<Token>): seq<Token> {
    if |tokens| <= MAX_ALIGN_TOKENS then tokens else tokens[..MAX_ALIGN_TOKENS]
  }

  lemma RatioBounds(d: nat, n: nat)
    requires n > 0
    ensures d as real / n as real * n as real == d as real
    ensures d as real / n as real == 0.0 <==> d == 0
    ensures d <= n ==> 0.0 <= d as real / n as real <= 1.0
  {
  }

  /** The error rate of a hypothesis before rounding; the flag marks a truncated alignment. */
  method ErrorRate(hypothesis: seq<Token>, reference: seq<Token>) returns (rate: Option<real>, truncated: bool)
    ensures rate.None? <==> reference == []
    ensures truncated <==> reference != [] && (|hypothesis| > MAX_ALIGN_TOKENS || |reference| > MAX_ALIGN_TOKENS)
    ensures rate.Some? ==>
      && exists d: nat :: IsDistance(d, Aligned(hypothesis), Aligned(reference))
                          && rate.value * |Aligned(reference)| as real == d as real
    ensures rate.Some? ==> (rate.value == 0.0 <==> Aligned(hypothesis) == Aligned(reference))
    ensures rate.Some? && |hypothesis| <= |reference| ==> 0.0 <= rate.value <= 1.0
  {
    hide IsDistance, Distance;
    if reference == [] {
      return None, false;
    }
    truncated := |reference| > MAX_ALIGN_TOKENS || |hypothesis| > MAX_ALIGN_TOKENS;
    var d := EditDistance(Aligned(hypothesis), Aligned(reference));
    ZeroIffEqual(Aligned(hypothesis), Aligned(reference));
    DistanceBounds(Aligned(hypothesis), Aligned(reference));
    RatioBounds(d, |Aligned(reference)|);
    rate := Some(d as real / |Aligned(reference)| as real);
  }
}
