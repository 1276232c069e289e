/** Option type shared by the whole model (a missing record, a failed verification). */
module Wrappers {
  datatype Option<+T> = None | Some(value: T)
}

/**
 * Character-level helpers shared by the validators and the schema.
 * Only ASCII letters are case-folded; other characters are left as they are.
 */
module Text {

  predicate IsAlnumChar(c: char) {
    'a' <= c <= 'z' || 'A' <= c <= 'Z' || '0' <= c <= '9'
  }

  predicate IsUpperChar(c: char) {
    'A' <= c <= 'Z'
  }

  /** The pattern `^[a-zA-Z0-9]+$`: non-empty, ASCII letters and digits only. */
  predicate IsAlphanumeric(s: string) {
    |s| > 0 && forall i :: 0 <= i < |s| ==> IsAlnumChar(s[i])
  }

  /** No upper-case ASCII letter anywhere in `s`. */
  predicate IsLowerCase(s: string) {
    forall i :: 0 <= i < |s| ==> !IsUpperChar(s[i])
  }

  function LowerChar(c: char): (d: char)
    ensures !IsUpperChar(d)
    ensures IsAlnumChar(c) <==> IsAlnumChar(d)
    ensures !IsUpperChar(c) ==> d == c
    ensures IsUpperChar(c) ==> 'a' <= d <= 'z' && d as int - 'a' as int == c as int - 'A' as int
  {
    if IsUpperChar(c) then (c as int + 32) as char else c
  }

  /** String `toLowerCase`, restricted to ASCII letters. */
  function ToLower(s: string): string {
    if s == [] then [] else [LowerChar(s[0])] + ToLower(s[1..])
  }

  lemma {:induction false} ToLowerAt(s: string, i: nat)
    requires i < |s|
    ensures |ToLower(s)| == |s| && ToLower(s)[i] == LowerChar(s[i])
  {
    if i > 0 {
      ToLowerAt(s[1..], i - 1);
    } else if |s| > 1 {
      ToLowerAt(s[1..], 0);
    }
  }

  lemma {:induction false} ToLowerLength(s: string)
    ensures |ToLower(s)| == |s|
  {
    if s != [] {
      ToLowerLength(s[1..]);
    }
  }

  /** Lower-casing yields a lower-case string of the same length and keeps alphanumeric strings alphanumeric. */
  lemma ToLowerProperties(s: string)
    ensures |ToLower(s)| == |s|
    ensures IsLowerCase(ToLower(s))
    ensures IsAlphanumeric(s) <==> IsAlphanumeric(ToLower(s))
  {
    ToLowerLength(s);
    forall i | 0 <= i < |s|
      ensures ToLower(s)[i] == LowerChar(s[i])
    {
      ToLowerAt(s, i);
    }
  }

  /** A string that is already lower case is a fixed point of the case fold, so the fold is idempotent. */
  lemma {:induction false} ToLowerFixesLowerCase(s: string)
    requires IsLowerCase(s)
    ensures ToLower(s) == s
  {
    if s != [] {
      assert IsLowerCase(s[1..]) by {
        forall i | 0 <= i < |s[1..]| ensures !IsUpperChar(s[1..][i]) {
          assert s[1..][i] == s[i + 1];
        }
      }
      ToLowerFixesLowerCase(s[1..]);
      assert !IsUpperChar(s[0]);
    }
  }

  /** Two characters that are equal once ASCII case is ignored. */
  predicate SameUpToCase(c: char, d: char) {
    c == d
    || ('A' <= c <= 'Z' && d as int == c as int + 32)
    || ('A' <= d <= 'Z' && c as int == d as int + 32)
  }

  /** Two characters fold alike exactly when they differ at most in ASCII case. */
  lemma LowerCharAlike(c: char, d: char)
    ensures LowerChar(c) == LowerChar(d) <==> SameUpToCase(c, d)
  {
  }

  /** Two strings fold alike exactly when they have the same length and differ at most in ASCII case, position by position. */
  lemma FoldsAlike(s: string, t: string)
    ensures ToLower(s) == ToLower(t) <==> |s| == |t| && forall i :: 0 <= i < |s| ==> SameUpToCase(s[i], t[i])
  {
    ToLowerLength(s);
    ToLowerLength(t);
    forall i | 0 <= i < |s| && |s| == |t|
      ensures ToLower(s)[i] == ToLower(t)[i] <==> SameUpToCase(s[i], t[i])
    {
      ToLowerAt(s, i);
      ToLowerAt(t, i);
      LowerCharAlike(s[i], t[i]);
    }
    if |s| == |t| && forall i :: 0 <= i < |s| ==> SameUpToCase(s[i], t[i]) {
      assert forall i :: 0 <= i < |s| ==> ToLower(s)[i] == ToLower(t)[i];
    }
  }

  lemma ToLowerIdempotent(s: string)
    ensures ToLower(ToLower(s)) == ToLower(s)
  {
    ToLowerProperties(s);
    ToLowerFixesLowerCase(ToLower(s));
  }

  /** A string with an upper-case letter is never the case fold of anything. */
  lemma UpperCaseIsNoFold(s: string, t: string)
    requires !IsLowerCase(s)
    ensures ToLower(t) != s
  {
    ToLowerProperties(t);
  }

  /**
   * Binary (code-point) order on strings, the order a database without a
   * collation uses to sort string fields: a proper prefix sorts first.
   */
  predicate LexLe(a: string, b: string) {
    a == [] || (b != [] && (a[0] < b[0] || (a[0] == b[0] && LexLe(a[1..], b[1..]))))
  }

  lemma {:induction false} LexLeTotal(a: string, b: string)
    ensures LexLe(a, b) || LexLe(b, a)
  {
    if a != [] && b != [] && a[0] == b[0] {
      LexLeTotal(a[1..], b[1..]);
    }
  }

  lemma {:induction false} LexLeTransitive(a: string, b: string, c: string)
    requires LexLe(a, b) && LexLe(b, c)
    ensures LexLe(a, c)
  {
    if a != [] && b != [] && c != [] && a[0] == b[0] && b[0] == c[0] {
      LexLeTransitive(a[1..], b[1..], c[1..]);
    }
  }

  lemma {:induction false} LexLeReflexive(a: string)
    ensures LexLe(a, a)
  {
    if a != [] {
      LexLeReflexive(a[1..]);
    }
  }
}
