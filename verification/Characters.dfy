/** Unicode white space, and Python's `strip`. */
module Characters {

  predicate IsSpaceCode(code: nat) {
    || 0x09 <= code <= 0x0D || 0x1C <= code <= 0x20 || code == 0x85 || code == 0xA0 || code == 0x1680
    || 0x2000 <= code <= 0x200A || code == 0x2028 || code == 0x2029 || code == 0x202F || code == 0x205F
    || code == 0x3000
  }

  predicate IsSpace(c: char) {
    IsSpaceCode(c as int)
  }

  /** Nothing is left of the text once white space is stripped. */
  predicate IsBlank(text: string) {
    forall i :: 0 <= i < |text| ==> IsSpace(text[i])
  }

  function StripLeft(text: string): string {
    if |text| > 0 && IsSpace(text[0]) then StripLeft(text[1..]) else text
  }

  function StripRight(text: string): string {
    if |text| > 0 && IsSpace(text[|text| - 1]) then StripRight(text[..|text| - 1]) else text
  }

  /** The text without white space at its ends. */
  function Strip(text: string): string {
    StripRight(StripLeft(text))
  }

  lemma {:induction false} StripLeftBlank(text: string)
    ensures StripLeft(text) == "" <==> IsBlank(text)
    ensures |StripLeft(text)| <= |text|
    ensures StripLeft(text) != "" ==> !IsSpace(StripLeft(text)[0])
  {
    if |text| > 0 && IsSpace(text[0]) {
      StripLeftBlank(text[1..]);
      assert forall i :: 0 < i < |text| ==> text[i] == text[1..][i - 1];
    }
  }

  lemma {:induction false} StripRightKeepsHead(text: string)
    requires text != "" && !IsSpace(text[0])
    ensures StripRight(text) != "" && StripRight(text)[0] == text[0]
  {
    if IsSpace(text[|text| - 1]) {
      StripRightKeepsHead(text[..|text| - 1]);
    }
  }

  /** Stripping leaves nothing exactly of blank texts. */
  lemma StripBlank(text: string)
    ensures Strip(text) == "" <==> IsBlank(text)
  {
    StripLeftBlank(text);
    if StripLeft(text) != "" {
      StripRightKeepsHead(StripLeft(text));
    }
  }
}
