/** The string operations that several components share. */
module Text {

  // The characters that separate words: Unicode white space.
  predicate IsSpace(c: char) {
    c in {'\t', '\n', '\U{0B}', '\U{0C}', '\r', ' ', '\U{85}', '\U{A0}', '\U{1680}', '\U{2028}', '\U{2029}',
          '\U{202F}', '\U{205F}', '\U{3000}'}
    || '\U{2000}' <= c <= '\U{200A}'
  }

  // strings.TrimSpace(text) == ""
  predicate IsBlank(text: string) {
    forall i | 0 <= i < |text| :: IsSpace(text[i])
  }

  function TrimLeft(text: string): string {
    if text != "" && IsSpace(text[0]) then TrimLeft(text[1..]) else text
  }

  function TrimRight(text: string): string {
    if text != "" && IsSpace(text[|text| - 1]) then TrimRight(text[..|text| - 1]) else text
  }

  // strings.TrimSpace
  function Trim(text: string): string {
    TrimRight(TrimLeft(text))
  }

  predicate HasAt(text: string, part: string, i: nat) {
    i + |part| <= |text| && text[i..i + |part|] == part
  }

  // strings.Contains
  predicate Contains(text: string, part: string) {
    exists i: nat :: i <= |text| && HasAt(text, part, i)
  }

  function CountOf(text: string, c: char): nat {
    if text == "" then 0
    else CountOf(text[..|text| - 1], c) + if text[|text| - 1] == c then 1 else 0
  }

  // The number of bytes of the text in UTF-8.
  function Utf8Length(text: string): nat {
    if text == "" then 0
    else Utf8Length(text[..|text| - 1]) + Utf8Width(text[|text| - 1])
  }

  function Utf8Width(c: char): nat {
    if c < '\U{80}' then 1 else if c < '\U{800}' then 2 else if c < '\U{10000}' then 3 else 4
  }

  lemma {:induction false} TrimLeftSkips(before: string, text: string)
    requires IsBlank(before)
    ensures TrimLeft(before + text) == TrimLeft(text)
  {
    if before == "" {
      assert before + text == text;
    } else {
      TrimLeftSkips(before[1..], text);
      assert (before + text)[1..] == before[1..] + text;
    }
  }

  lemma {:induction false} TrimRightSkips(text: string, after: string)
    requires IsBlank(after)
    ensures TrimRight(text + after) == TrimRight(text)
  {
    if after == "" {
      assert text + after == text;
    } else {
      TrimRightSkips(text, after[..|after| - 1]);
      assert (text + after)[..|text + after| - 1] == text + after[..|after| - 1];
    }
  }

  lemma {:induction false} TrimLeftKeeps(text: string, after: string)
    requires !IsBlank(text)
    ensures TrimLeft(text + after) == TrimLeft(text) + after
  {
    if IsSpace(text[0]) {
      TrimLeftKeeps(text[1..], after);
      assert (text + after)[1..] == text[1..] + after;
    }
  }

  lemma {:induction false} TrimLeftFinds(text: string)
    ensures if IsBlank(text) then TrimLeft(text) == "" else TrimLeft(text) != "" && !IsSpace(TrimLeft(text)[0])
  {
    if text != "" && IsSpace(text[0]) {
      TrimLeftFinds(text[1..]);
    }
  }

  lemma {:induction false} TrimRightKeepsFirst(text: string)
    requires text != "" && !IsSpace(text[0])
    ensures TrimRight(text) != "" && TrimRight(text)[0] == text[0]
  {
    if IsSpace(text[|text| - 1]) {
      TrimRightKeepsFirst(text[..|text| - 1]);
    }
  }

  // A text is blank exactly if nothing is left of it when it is trimmed.
  lemma BlankIffTrimmedAway(text: string)
    ensures IsBlank(text) <==> Trim(text) == ""
    ensures IsBlank(" ") && !IsBlank("a")
  {
    TrimLeftFinds(text);
    if !IsBlank(text) {
      TrimRightKeepsFirst(TrimLeft(text));
    }
    assert "a"[0] == 'a';
  }

  // White space around a text does not matter to its trimmed form.
  lemma PaddingIsTrimmed(before: string, text: string, after: string)
    requires IsBlank(before) && IsBlank(after)
    ensures Trim(before + text + after) == Trim(text)
  {
    assert before + text + after == before + (text + after);
    TrimLeftSkips(before, text + after);
    if IsBlank(text) {
      TrimLeftSkips(text + after, "");
      TrimLeftSkips(text, "");
      assert text + after + "" == text + after && text + "" == text;
    } else {
      TrimLeftKeeps(text, after);
      TrimRightSkips(TrimLeft(text), after);
    }
  }
}
