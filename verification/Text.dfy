/** Python's `strip`, `lower` and `title` on ASCII text.

    Characters outside ASCII are passed through unchanged and count as uncased, which is not what
    Python does with them: every law that depends on case therefore asks for `Ascii`.
 */
module Text {

  predicate Ascii(s: string) {
    forall i :: 0 <= i < |s| ==> s[i] as int < 128
  }

  /** `str.isspace` on ASCII: tab to carriage return, the four separators 0x1C to 0x1F, and space. */
  predicate IsSpace(c: char) {
    var n := c as int;
    n == 32 || 9 <= n <= 13 || 28 <= n <= 31
  }

  predicate IsUpper(c: char) { 'A' <= c <= 'Z' }

  predicate IsLower(c: char) { 'a' <= c <= 'z' }

  predicate IsCased(c: char) { IsUpper(c) || IsLower(c) }

  function LowerChar(c: char): (r: char)
    ensures IsSpace(r) == IsSpace(c) && IsCased(r) == IsCased(c) && !IsUpper(r)
  {
    if IsUpper(c) then (c as int + 32) as char else c
  }

  function UpperChar(c: char): (r: char)
    ensures LowerChar(r) == LowerChar(c) && IsSpace(r) == IsSpace(c) && !IsLower(r)
  {
    if IsLower(c) then (c as int - 32) as char else c
  }

  function StripLeft(s: string): string {
    if s == "" || !IsSpace(s[0]) then s else StripLeft(s[1..])
  }

  function StripRight(s: string): string {
    if s == "" || !IsSpace(s[|s| - 1]) then s else StripRight(s[..|s| - 1])
  }

  function Strip(s: string): string {
    StripRight(StripLeft(s))
  }

  /** No white space at either end. */
  predicate Trimmed(s: string) {
    s == "" || (!IsSpace(s[0]) && !IsSpace(s[|s| - 1]))
  }

  function Lower(s: string): string {
    if s == "" then "" else [LowerChar(s[0])] + Lower(s[1..])
  }

  /** `str.title` from the middle of a string: `afterCased` says whether the character before was cased. */
  function TitleFrom(afterCased: bool, s: string): string
    decreases s
  {
    if s == "" then ""
    else
      [if afterCased then LowerChar(s[0]) else UpperChar(s[0])] + TitleFrom(IsCased(s[0]), s[1..])
  }

  function Title(s: string): string {
    TitleFrom(false, s)
  }

  // ---- stripping ------------------------------------------------------------------------------

  lemma {:induction false} StripLeftTrims(s: string)
    ensures var t := StripLeft(s); t == "" || !IsSpace(t[0])
    ensures StripLeft(s) != "" ==> StripLeft(s)[|StripLeft(s)| - 1] == s[|s| - 1]
  {
    if s != "" && IsSpace(s[0]) {
      StripLeftTrims(s[1..]);
    }
  }

  lemma {:induction false} StripRightTrims(s: string)
    ensures var t := StripRight(s); t == "" || (!IsSpace(t[|t| - 1]) && t[0] == s[0])
  {
    if s != "" && IsSpace(s[|s| - 1]) {
      StripRightTrims(s[..|s| - 1]);
    }
  }

  lemma {:induction false} StripLeftKeepsAscii(s: string)
    requires Ascii(s)
    ensures Ascii(StripLeft(s))
  {
    if s != "" && IsSpace(s[0]) {
      StripLeftKeepsAscii(s[1..]);
    }
  }

  lemma {:induction false} StripRightKeepsAscii(s: string)
    requires Ascii(s)
    ensures Ascii(StripRight(s))
  {
    if s != "" && IsSpace(s[|s| - 1]) {
      StripRightKeepsAscii(s[..|s| - 1]);
    }
  }

  lemma TitleKeepsAscii(s: string)
    requires Ascii(s)
    ensures Ascii(Title(Strip(s)))
  {
    StripLeftKeepsAscii(s);
    StripRightKeepsAscii(StripLeft(s));
    TitleKeepsLetters(false, Strip(s));
    forall i | 0 <= i < |Title(Strip(s))| ensures Title(Strip(s))[i] as int < 128 {
      assert LowerChar(Title(Strip(s))[i]) == LowerChar(Strip(s)[i]);
    }
  }

  /** Stripping trims, and changes nothing but text that was not trimmed. */
  lemma StripTrims(s: string)
    ensures Trimmed(Strip(s))
    ensures Trimmed(s) <==> Strip(s) == s
  {
    StripLeftTrims(s);
    StripRightTrims(StripLeft(s));
  }

  /** Stripping drops exactly the white space around `middle`. */
  lemma {:induction false} StripPadding(before: string, middle: string, after: string)
    requires forall c :: c in before + after ==> IsSpace(c)
    requires Trimmed(middle)
    ensures Strip(before + middle + after) == middle
  {
    StripLeftPadding(before, middle + after);
    assert before + middle + after == before + (middle + after);
    if middle == "" {
      StripLeftPadding(after, "");
      assert after == after + "" && middle + after == after;
    } else {
      assert StripLeft(middle + after) == middle + after;
      StripRightPadding(middle, after);
    }
  }

  lemma {:induction false} StripLeftPadding(before: string, rest: string)
    requires forall c :: c in before ==> IsSpace(c)
    ensures StripLeft(before + rest) == StripLeft(rest)
  {
    if before == "" {
      assert before + rest == rest;
    } else {
      assert (before + rest)[1..] == before[1..] + rest;
      StripLeftPadding(before[1..], rest);
    }
  }

  lemma {:induction false} StripRightPadding(rest: string, after: string)
    requires forall c :: c in after ==> IsSpace(c)
    ensures StripRight(rest + after) == StripRight(rest)
  {
    if after == "" {
      assert rest + after == rest;
    } else {
      var init := after[..|after| - 1];
      assert (rest + after)[..|rest + after| - 1] == rest + init;
      StripRightPadding(rest, init);
    }
  }

  // ---- case -----------------------------------------------------------------------------------

  lemma {:induction false} LowerPointwise(s: string)
    ensures |Lower(s)| == |s|
    ensures forall i :: 0 <= i < |s| ==> Lower(s)[i] == LowerChar(s[i])
  {
    if s != "" {
      LowerPointwise(s[1..]);
    }
  }

  lemma {:induction false} TitleKeepsLetters(afterCased: bool, s: string)
    ensures |TitleFrom(afterCased, s)| == |s|
    ensures forall i :: 0 <= i < |s| ==> LowerChar(TitleFrom(afterCased, s)[i]) == LowerChar(s[i])
    decreases s
  {
    if s != "" {
      TitleKeepsLetters(IsCased(s[0]), s[1..]);
    }
  }

  /** A letter is lower-cased after a letter and upper-cased otherwise. */
  lemma {:induction false} TitleAt(afterCased: bool, s: string, i: nat)
    requires i < |s|
    ensures |TitleFrom(afterCased, s)| == |s|
    ensures TitleFrom(afterCased, s)[i]
         == if (if i == 0 then afterCased else IsCased(s[i - 1])) then LowerChar(s[i]) else UpperChar(s[i])
    decreases s
  {
    if i > 0 {
      TitleAt(IsCased(s[0]), s[1..], i - 1);
    } else {
      TitleKeepsLetters(IsCased(s[0]), s[1..]);
    }
  }

  /** Lower-casing forgets title case. */
  lemma LowerOfTitle(s: string)
    ensures Lower(Title(s)) == Lower(s)
  {
    TitleKeepsLetters(false, s);
    LowerPointwise(s);
    LowerPointwise(Title(s));
  }

  /** Title case is computed from the letters alone, whatever their case was. */
  lemma {:induction false} TitleOfLower(afterCased: bool, s: string)
    ensures TitleFrom(afterCased, Lower(s)) == TitleFrom(afterCased, s)
    decreases s
  {
    if s != "" {
      TitleOfLower(IsCased(s[0]), s[1..]);
      assert Lower(s)[1..] == Lower(s[1..]);
    }
  }

  lemma TitleIsIdempotent(s: string)
    ensures Title(Title(s)) == Title(s)
  {
    TitleOfLower(false, Title(s));
    LowerOfTitle(s);
    TitleOfLower(false, s);
  }

  lemma TitleIsTrimmed(s: string)
    requires Trimmed(s)
    ensures Trimmed(Title(s))
  {
    TitleKeepsLetters(false, s);
    if s != "" {
      assert LowerChar(Title(s)[0]) == LowerChar(s[0]);
      assert LowerChar(Title(s)[|s| - 1]) == LowerChar(s[|s| - 1]);
    }
  }
}
