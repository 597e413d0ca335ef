/** Editorial tokens, and the check that a rendering only removes tokens from its source. */
module Editorial {

  /** A character by the class the tokenizer branches on; `code` tells characters of one class apart. */
  datatype Character =
    | Delimiter(code: nat) | Mark(code: nat) | Cjk(code: nat) | Word(code: nat) | Other(code: nat)

  type Text = seq<Character>

  /** Case folding of one word; Unicode's tables are not modelled. */
  type Folding = Text -> Text

  /** The word collected so far, as a token. */
  function Flushed(current: Text, fold: Folding): seq<Text> {
    if current == [] then [] else [fold(current)]
  }

  /** The tokens one character completes. */
  function Emitted(current: Text, c: Character, fold: Folding): seq<Text> {
    if c.Mark? || c.Word? then [] else if c.Cjk? then Flushed(current, fold) + [[c]] else Flushed(current, fold)
  }

  /** The word being collected after one more character. */
  function Collected(current: Text, c: Character): Text {
    if c.Word? || (c.Mark? && current != []) then current + [c] else []
  }

  /** The tokens of a text read while `current` is being collected. */
  function TokensFrom(current: Text, text: Text, fold: Folding): seq<Text>
    decreases |text|
  {
    if |text| == 0 then Flushed(current, fold)
    else Emitted(current, text[0], fold) + TokensFrom(Collected(current, text[0]), text[1..], fold)
  }

  function Tokens(text: Text, fold: Folding): seq<Text> {
    TokensFrom([], text, fold)
  }

  lemma TokensFirst(current: Text, text: Text, fold: Folding)
    requires |text| > 0
    ensures TokensFrom(current, text, fold)
         == Emitted(current, text[0], fold) + TokensFrom(Collected(current, text[0]), text[1..], fold)
  {
  }

  lemma TokensStep(current: Text, text: Text, k: nat, fold: Folding)
    requires k < |text|
    ensures TokensFrom(current, text[k..], fold)
         == Emitted(current, text[k], fold) + TokensFrom(Collected(current, text[k]), text[k + 1..], fold)
  {
    assert text[k..][1..] == text[k + 1..];
  }

  lemma TokensCarried(before: seq<Text>, tokens: seq<Text>, held: Text, current: Text, text: Text, k: nat,
                      fold: Folding)
    requires k < |text| && tokens == before + Emitted(held, text[k], fold) && current == Collected(held, text[k])
    ensures tokens + TokensFrom(current, text[k + 1..], fold) == before + TokensFrom(held, text[k..], fold)
  {
    hide TokensFrom, Emitted, Collected;
    TokensStep(held, text, k, fold);
    var done, rest := Emitted(held, text[k], fold), TokensFrom(current, text[k + 1..], fold);
    assert (before + done) + rest == before + (done + rest);
  }

  method EditorialTokens(text: Text, fold: Folding) returns (tokens: seq<Text>)
    ensures tokens == Tokens(text, fold)
  {
    hide TokensFrom;
    tokens := [];
    var current: Text := [];
    assert text[0..] == text;
    for k := 0 to |text|
      invariant tokens + TokensFrom(current, text[k..], fold) == Tokens(text, fold)
    {
      ghost var before, held := tokens, current;
      if text[k].Mark? {
        if current != [] {
          current := current + [text[k]];
        }
      } else if text[k].Cjk? {
        if current != [] {
          tokens := tokens + [fold(current)];
          current := [];
        }
        tokens := tokens + [[text[k]]];
      } else if text[k].Word? {
        current := current + [text[k]];
      } else if current != [] {
        tokens := tokens + [fold(current)];
        current := [];
      }
      TokensCarried(before, tokens, held, current, text, k, fold);
    }
    TokensEnd(current, fold);
    assert text[|text|..] == [];
    if current != [] {
      tokens := tokens + [fold(current)];
    }
  }

  lemma TokensEnd(current: Text, fold: Folding)
    ensures TokensFrom(current, [], fold) == Flushed(current, fold)
  {
  }

  /** Characters that end a word and stand for nothing. */
  predicate Separates(c: Character) {
    c.Delimiter? || c.Other?
  }

  lemma {:induction false} SeparatorEndsWord(current: Text, s: Text, c: Character, t: Text, fold: Folding)
    requires Separates(c)
    ensures TokensFrom(current, s + [c] + t, fold) == TokensFrom(current, s, fold) + Tokens(t, fold)
    decreases |s|
  {
    hide TokensFrom;
    if |s| == 0 {
      assert s + [c] + t == [c] + t && ([c] + t)[1..] == t;
      TokensFirst(current, [c] + t, fold);
      TokensEnd(current, fold);
    } else {
      var whole := s + [c] + t;
      assert whole[1..] == s[1..] + [c] + t;
      TokensFirst(current, whole, fold);
      TokensFirst(current, s, fold);
      SeparatorEndsWord(Collected(current, s[0]), s[1..], c, t, fold);
    }
  }

  lemma {:induction false} SeparatorsVanish(gap: Text, t: Text, fold: Folding)
    requires forall i :: 0 <= i < |gap| ==> Separates(gap[i])
    ensures Tokens(gap + t, fold) == Tokens(t, fold)
  {
    if |gap| == 0 {
      assert gap + t == t;
    } else {
      assert (gap + t)[1..] == gap[1..] + t;
      SeparatorsVanish(gap[1..], t, fold);
    }
  }

  /** Tokenising two texts joined by separators gives the concatenation of their tokens. */
  lemma JoinedTokens(s: Text, gap: Text, t: Text, fold: Folding)
    requires gap != [] && forall i :: 0 <= i < |gap| ==> Separates(gap[i])
    ensures Tokens(s + gap + t, fold) == Tokens(s, fold) + Tokens(t, fold)
  {
    assert s + gap + t == s + [gap[0]] + (gap[1..] + t);
    SeparatorEndsWord([], s, gap[0], gap[1..] + t, fold);
    SeparatorsVanish(gap[1..], t, fold);
  }

  /** A word with its combining marks is one token; marks ahead of a word are dropped. */
  lemma {:induction false} RunIsOneToken(current: Text, run: Text, fold: Folding)
    requires current != [] && forall i :: 0 <= i < |run| ==> run[i].Word? || run[i].Mark?
    ensures TokensFrom(current, run, fold) == [fold(current + run)]
    decreases |run|
  {
    if |run| == 0 {
      assert current + run == current;
    } else {
      assert current + [run[0]] + run[1..] == current + run;
      RunIsOneToken(current + [run[0]], run[1..], fold);
    }
  }

  // Removal-only edits.

  /** `at` places `part` inside `whole`, in order. */
  ghost predicate Places(at: seq<nat>, part: seq<Text>, whole: seq<Text>) {
    && |at| == |part|
    && (forall k :: 0 <= k < |at| ==> at[k] < |whole| && whole[at[k]] == part[k])
    && (forall j, k :: 0 <= j < k < |at| ==> at[j] < at[k])
  }

  ghost predicate Embeds(part: seq<Text>, whole: seq<Text>) {
    exists at :: Places(at, part, whole)
  }

  ghost predicate RemovalOnly(source: Text, rendered: Text, fold: Folding) {
    Tokens(rendered, fold) != [] && Embeds(Tokens(rendered, fold), Tokens(source, fold))
  }

  lemma {:induction false} PlacesClimb(at: seq<nat>, part: seq<Text>, whole: seq<Text>, k: nat)
    requires Places(at, part, whole) && k < |at|
    ensures k <= at[k]
  {
    if k > 0 {
      PlacesClimb(at, part, whole, k - 1);
    }
  }

  /** No placement has used anything before `index` for the token after the first `k`. */
  ghost predicate Ahead(part: seq<Text>, whole: seq<Text>, k: nat, index: nat) {
    k < |part| ==> forall at :: Places(at, part, whole) ==> index <= at[k]
  }

  lemma AheadTakes(part: seq<Text>, whole: seq<Text>, k: nat, index: nat)
    requires k < |part| && Ahead(part, whole, k, index)
    ensures Ahead(part, whole, k + 1, index + 1)
  {
    if k + 1 < |part| {
      forall at | Places(at, part, whole) ensures index + 1 <= at[k + 1] {
        assert at[k] < at[k + 1];
      }
    }
  }

  lemma AheadSkips(part: seq<Text>, whole: seq<Text>, k: nat, index: nat)
    requires k < |part| && index < |whole| && whole[index] != part[k] && Ahead(part, whole, k, index)
    ensures Ahead(part, whole, k, index + 1)
  {
    forall at | Places(at, part, whole) ensures index + 1 <= at[k] {
      assert whole[at[k]] == part[k];
    }
  }

  lemma AheadRunsOut(part: seq<Text>, whole: seq<Text>, k: nat, index: nat)
    requires k < |part| && index >= |whole| && Ahead(part, whole, k, index)
    ensures !Embeds(part, whole)
  {
  }

  /** The tokens placed so far all lie before `index`. */
  ghost predicate Placed(at: seq<nat>, part: seq<Text>, whole: seq<Text>, k: nat, index: nat) {
    k <= |part| && Places(at, part[..k], whole) && forall j :: 0 <= j < |at| ==> at[j] < index
  }

  lemma PlacesNext(at: seq<nat>, part: seq<Text>, whole: seq<Text>, k: nat, index: nat)
    requires Placed(at, part, whole, k, index) && k < |part| && index < |whole| && whole[index] == part[k]
    ensures Placed(at + [index], part, whole, k + 1, index + 1)
  {
  }

  lemma PlacedAll(at: seq<nat>, part: seq<Text>, whole: seq<Text>, index: nat)
    requires Placed(at, part, whole, |part|, index)
    ensures Embeds(part, whole)
  {
    assert part[..|part|] == part;
  }

  lemma LongerNeverEmbeds(part: seq<Text>, whole: seq<Text>)
    requires |part| > |whole|
    ensures !Embeds(part, whole)
  {
    forall at | Places(at, part, whole) ensures false {
      PlacesShorter(at, part, whole);
    }
  }

  /** The greedy scan accepts exactly the renderings that embed. */
  method IsRemovalOnlyEdit(source: Text, rendered: Text, fold: Folding) returns (ok: bool)
    ensures ok <==> RemovalOnly(source, rendered, fold)
  {
    var whole := EditorialTokens(source, fold);
    var part := EditorialTokens(rendered, fold);
    if part == [] || |part| > |whole| {
      if part != [] {
        LongerNeverEmbeds(part, whole);
      }
      return false;
    }
    hide Places, Ahead, Embeds, Placed;
    var index := 0;
    ghost var at: seq<nat> := [];
    ScanStarts(part, whole);
    for k := 0 to |part|
      invariant 0 <= index <= |whole| && Placed(at, part, whole, k, index) && Ahead(part, whole, k, index)
    {
      while index < |whole| && whole[index] != part[k]
        invariant 0 <= index <= |whole| && Placed(at, part, whole, k, index) && Ahead(part, whole, k, index)
      {
        AheadSkips(part, whole, k, index);
        PlacedStays(at, part, whole, k, index);
        index := index + 1;
      }
      if index >= |whole| {
        AheadRunsOut(part, whole, k, index);
        return false;
      }
      AheadTakes(part, whole, k, index);
      PlacesNext(at, part, whole, k, index);
      at := at + [index];
      index := index + 1;
    }
    PlacedAll(at, part, whole, index);
    return true;
  }

  lemma ScanStarts(part: seq<Text>, whole: seq<Text>)
    ensures Placed([], part, whole, 0, 0) && Ahead(part, whole, 0, 0)
  {
  }

  lemma PlacedStays(at: seq<nat>, part: seq<Text>, whole: seq<Text>, k: nat, index: nat)
    requires Placed(at, part, whole, k, index)
    ensures Placed(at, part, whole, k, index + 1)
  {
  }

  /** Removing from what was already cut is removing from the source. */
  lemma RemovalComposes(source: Text, middle: Text, rendered: Text, fold: Folding)
    requires RemovalOnly(source, middle, fold) && RemovalOnly(middle, rendered, fold)
    ensures RemovalOnly(source, rendered, fold)
  {
    var a, b, c := Tokens(source, fold), Tokens(middle, fold), Tokens(rendered, fold);
    var outer :| Places(outer, b, a);
    var inner :| Places(inner, c, b);
    var at := seq(|inner|, k requires 0 <= k < |inner| => outer[inner[k]]);
    assert Places(at, c, a);
  }

  /** Two texts that are removal-only edits of each other have the same tokens. */
  lemma RemovalAntisymmetric(s: Text, t: Text, fold: Folding)
    requires RemovalOnly(s, t, fold) && RemovalOnly(t, s, fold)
    ensures Tokens(s, fold) == Tokens(t, fold)
  {
    var a, b := Tokens(s, fold), Tokens(t, fold);
    var there :| Places(there, b, a);
    var back :| Places(back, a, b);
    PlacesShorter(there, b, a);
    PlacesShorter(back, a, b);
    PlacesFull(there, b, a);
  }

  lemma PlacesShorter(at: seq<nat>, part: seq<Text>, whole: seq<Text>)
    requires Places(at, part, whole)
    ensures |part| <= |whole|
  {
    if |at| > 0 {
      PlacesClimb(at, part, whole, |at| - 1);
    }
  }

  lemma PlacesFull(at: seq<nat>, part: seq<Text>, whole: seq<Text>)
    requires Places(at, part, whole) && |part| == |whole|
    ensures part == whole
  {
    forall k | 0 <= k < |at| ensures at[k] == k {
      PlacesClimb(at, part, whole, k);
      StaysBelow(at, part, whole, k);
    }
  }

  lemma {:induction false} StaysBelow(at: seq<nat>, part: seq<Text>, whole: seq<Text>, k: nat)
    requires Places(at, part, whole) && k < |at|
    ensures at[k] + (|at| - 1 - k) < |whole|
    decreases |at| - k
  {
    if k < |at| - 1 {
      StaysBelow(at, part, whole, k + 1);
    }
  }

  /** Removal-only edits of two passages, joined, are a removal-only edit of the joined passages. */
  lemma RemovalJoins(s: Text, t: Text, r: Text, q: Text, gap: Text, fold: Folding)
    requires gap != [] && forall i :: 0 <= i < |gap| ==> Separates(gap[i])
    requires RemovalOnly(s, r, fold) && RemovalOnly(t, q, fold)
    ensures RemovalOnly(s + gap + t, r + gap + q, fold)
  {
    JoinedTokens(s, gap, t, fold);
    JoinedTokens(r, gap, q, fold);
    var a, b, c, d := Tokens(s, fold), Tokens(t, fold), Tokens(r, fold), Tokens(q, fold);
    var left :| Places(left, c, a);
    var right :| Places(right, d, b);
    PlacesJoin(left, c, a, right, d, b);
  }

  lemma PlacesJoin(left: seq<nat>, c: seq<Text>, a: seq<Text>, right: seq<nat>, d: seq<Text>, b: seq<Text>)
    requires Places(left, c, a) && Places(right, d, b)
    ensures Embeds(c + d, a + b)
  {
    var at := left + seq(|right|, k requires 0 <= k < |right| => right[k] + |a|);
    assert Places(at, c + d, a + b);
  }
}
