/**
 * The express-validator checks and sanitisers the handlers chain on request
 * fields. A missing field reads as the empty string.
 */
module Validators {
  import opened Text

  /** `notEmpty()`. */
  predicate NotEmpty(s: string) {
    s != ""
  }

  /** `isLength({ min, max })`. */
  predicate IsLength(s: string, min: nat, max: nat) {
    min <= |s| <= max
  }

  /** `isIn(options)`. */
  predicate IsIn(s: string, options: seq<string>) {
    s in options
  }

  predicate HasLower(s: string) {
    exists i :: 0 <= i < |s| && 'a' <= s[i] <= 'z'
  }

  predicate HasUpper(s: string) {
    exists i :: 0 <= i < |s| && 'A' <= s[i] <= 'Z'
  }

  predicate HasDigit(s: string) {
    exists i :: 0 <= i < |s| && '0' <= s[i] <= '9'
  }

  /**
   * The length of `s` as JavaScript counts it, in UTF-16 code units: a
   * character outside the Basic Multilingual Plane takes two.
   */
  function Utf16Length(s: string): nat {
    if s == [] then 0 else (if s[0] as int > 0xFFFF then 2 else 1) + Utf16Length(s[1..])
  }

  /**
   * `isStrongPassword({ minSymbols: 0 })`: the library's other thresholds are
   * at their defaults, a length of at least 8 (counted in UTF-16 code units)
   * with one lower-case letter, one upper-case letter and one digit.
   */
  predicate IsStrongPassword(s: string) {
    Utf16Length(s) >= 8 && HasLower(s) && HasUpper(s) && HasDigit(s)
  }

  /** Each character counts once or twice, so the UTF-16 length lies between the length and twice the length. */
  lemma {:induction false} Utf16LengthBounds(s: string)
    ensures |s| <= Utf16Length(s) <= 2 * |s|
    ensures (forall i :: 0 <= i < |s| ==> s[i] as int <= 0xFFFF) ==> Utf16Length(s) == |s|
  {
    if s != [] {
      Utf16LengthBounds(s[1..]);
      assert forall i :: 1 <= i < |s| ==> s[1..][i - 1] == s[i];
    }
  }

  /** Characters outside the Basic Multilingual Plane count twice: six characters can make a strong password. */
  lemma AstralCharactersCountTwice()
    ensures |"Aa1\U{1F600}\U{1F600}\U{1F600}"| == 6
    ensures IsStrongPassword("Aa1\U{1F600}\U{1F600}\U{1F600}")
  {
    var s := "Aa1\U{1F600}\U{1F600}\U{1F600}";
    assert 'a' <= s[1] <= 'z' && 'A' <= s[0] <= 'Z' && '0' <= s[2] <= '9';
    assert Utf16Length(s[5..]) == 2;
    assert Utf16Length(s[4..]) == 4;
    assert Utf16Length(s[3..]) == 6;
  }

  /** The HTML entity `escape()` writes for one character. */
  function EscapeChar(c: char): (r: string)
    ensures |r| >= 1
    ensures r == [c] <==> !IsMarkupChar(c) && c != '&'
    ensures forall i :: 0 <= i < |r| ==> !IsMarkupChar(r[i])
  {
    if c == '&' then "&amp;"
    else if c == '"' then "&quot;"
    else if c == '\'' then "&#x27;"
    else if c == '<' then "&lt;"
    else if c == '>' then "&gt;"
    else if c == '/' then "&#x2F;"
    else if c == '\\' then "&#x5C;"
    else if c == '`' then "&#96;"
    else [c]
  }

  /** `escape()`: every markup character replaced by its entity. */
  function Escape(s: string): string {
    if s == [] then [] else EscapeChar(s[0]) + Escape(s[1..])
  }

  predicate IsMarkupChar(c: char) {
    c == '<' || c == '>' || c == '"' || c == '\'' || c == '`' || c == '/' || c == '\\'
  }

  /** Escaping keeps a non-empty string non-empty and an empty one empty, so `notEmpty` before `escape` still holds after. */
  lemma {:induction false} EscapeKeepsEmptiness(s: string)
    ensures |Escape(s)| >= |s|
    ensures Escape(s) == "" <==> s == ""
  {
    if s != [] {
      EscapeKeepsEmptiness(s[1..]);
    }
  }

  /** An escaped string holds no markup character. */
  lemma {:induction false} EscapeRemovesMarkup(s: string)
    ensures forall i :: 0 <= i < |Escape(s)| ==> !IsMarkupChar(Escape(s)[i])
  {
    if s != [] {
      EscapeRemovesMarkup(s[1..]);
      var head, tail := EscapeChar(s[0]), Escape(s[1..]);
      assert Escape(s) == head + tail;
      forall i | 0 <= i < |head + tail| ensures !IsMarkupChar((head + tail)[i]) {
        if i >= |head| {
          assert (head + tail)[i] == tail[i - |head|];
        }
      }
    }
  }

  /** A string without markup or `&` is left as it is. */
  lemma {:induction false} EscapeFixesPlainText(s: string)
    requires forall i :: 0 <= i < |s| ==> !IsMarkupChar(s[i]) && s[i] != '&'
    ensures Escape(s) == s
  {
    if s != [] {
      EscapeFixesPlainText(s[1..]);
    }
  }
}
