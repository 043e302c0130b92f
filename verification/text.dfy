/** The JavaScript string operations the pages rely on: `trim`,
    `toLowerCase`, `includes` and the UTF-16 `length`. */
module Text {
  import Seqs

  /** The ECMAScript WhiteSpace and LineTerminator code points, the set
      that `String.prototype.trim` strips from both ends. */
  predicate IsJsWhitespace(c: char) {
    || c == '\t' || c == '\n' || c == '\U{000B}' || c == '\U{000C}' || c == '\r'
    || c == ' ' || c == '\U{00A0}' || c == '\U{1680}'
    || ('\U{2000}' <= c <= '\U{200A}')
    || c == '\U{2028}' || c == '\U{2029}' || c == '\U{202F}' || c == '\U{205F}'
    || c == '\U{3000}' || c == '\U{FEFF}'
  }

  /** Every character is whitespace (this includes the empty string). */
  predicate Blank(s: string) {
    forall k :: 0 <= k < |s| ==> IsJsWhitespace(s[k])
  }

  /** `trimStart`: drops the leading whitespace run. */
  function TrimStart(s: string): (r: string)
    ensures |r| <= |s| && r == s[|s| - |r|..]
    ensures Blank(s[..|s| - |r|])
    ensures |r| > 0 ==> !IsJsWhitespace(r[0])
    decreases |s|
  {
    if |s| > 0 && IsJsWhitespace(s[0]) then
      var r := TrimStart(s[1..]);
      assert s[..|s| - |r|] == [s[0]] + s[1..][..|s| - 1 - |r|];
      r
    else s
  }

  /** `trimEnd`: drops the trailing whitespace run. */
  function TrimEnd(s: string): (r: string)
    ensures |r| <= |s| && r == s[..|r|]
    ensures Blank(s[|r|..])
    ensures |r| > 0 ==> !IsJsWhitespace(r[|r| - 1])
    decreases |s|
  {
    if |s| > 0 && IsJsWhitespace(s[|s| - 1]) then
      var r := TrimEnd(s[..|s| - 1]);
      assert s[|r|..] == s[..|s| - 1][|r|..] + [s[|s| - 1]];
      r
    else s
  }

  /** `r` is the piece of `s` at position `i` with only whitespace before
      and after it. */
  predicate TrimmedAt(s: string, r: string, i: int) {
    0 <= i <= |s| - |r| && r == s[i..i + |r|] && Blank(s[..i]) && Blank(s[i + |r|..])
  }

  /** `String.prototype.trim`: the text between a leading and a trailing
      run of white space, with no white space left at either end. */
  function Trim(s: string): (r: string)
    ensures exists i :: TrimmedAt(s, r, i)
    ensures |r| > 0 ==> !IsJsWhitespace(r[0]) && !IsJsWhitespace(r[|r| - 1])
  {
    var t := TrimStart(s);
    var r := TrimEnd(t);
    TrimEndOfSuffix(s, t, r);
    r
  }

  lemma TrimEndOfSuffix(s: string, t: string, r: string)
    requires |t| <= |s| && t == s[|s| - |t|..] && Blank(s[..|s| - |t|])
    requires |r| <= |t| && r == t[..|r|] && Blank(t[|r|..])
    ensures TrimmedAt(s, r, |s| - |t|)
  {
    var i := |s| - |t|;
    assert s[i + |r|..] == t[|r|..];
  }

  lemma {:induction false} BlankTrimStart(s: string)
    requires Blank(s)
    ensures TrimStart(s) == ""
    decreases |s|
  {
    if |s| > 0 {
      BlankTrimStart(s[1..]);
    }
  }

  /** A string trims to "" exactly when it consists of whitespace only. */
  lemma TrimEmptyIffBlank(s: string)
    ensures Trim(s) == "" <==> Blank(s)
  {
    var a := TrimStart(s);
    if Blank(s) {
      BlankTrimStart(s);
    }
    if Trim(s) == "" {
      assert Blank(a[0..]);
      assert s == s[..|s| - |a|] + a;
    }
  }

  /** ASCII case folding of one character. */
  function LowerChar(c: char): char {
    if 'A' <= c <= 'Z' then (c as int + 32) as char else c
  }

  /** `toLowerCase`, with the case mapping restricted to ASCII letters. */
  function Lower(s: string): (r: string)
    ensures |r| == |s|
    ensures forall k :: 0 <= k < |s| ==> r[k] == LowerChar(s[k])
  {
    seq(|s|, k requires 0 <= k < |s| => LowerChar(s[k]))
  }

  /** Lower-casing twice is lower-casing once. */
  lemma LowerIdempotent(s: string)
    ensures Lower(Lower(s)) == Lower(s)
  {
  }

  /** `needle` occurs in `hay` starting at position `i`. */
  ghost predicate OccursAt(hay: string, needle: string, i: int) {
    0 <= i && i + |needle| <= |hay| && hay[i..i + |needle|] == needle
  }

  /** `needle` is a substring of `hay`. */
  ghost predicate Contains(hay: string, needle: string) {
    exists i :: OccursAt(hay, needle, i)
  }

  /** `String.prototype.includes`: a left-to-right scan for `needle`. */
  function Includes(hay: string, needle: string): bool
    decreases |hay|
  {
    needle <= hay || (|hay| > 0 && Includes(hay[1..], needle))
  }

  /** The scan finds `needle` exactly when it occurs somewhere in `hay`. */
  lemma {:induction false} IncludesIffContains(hay: string, needle: string)
    ensures Includes(hay, needle) <==> Contains(hay, needle)
    decreases |hay|
  {
    if needle <= hay {
      assert OccursAt(hay, needle, 0);
    } else if |hay| > 0 {
      IncludesIffContains(hay[1..], needle);
      if Includes(hay[1..], needle) {
        var i :| OccursAt(hay[1..], needle, i);
        assert OccursAt(hay, needle, i + 1);
      }
      if Contains(hay, needle) {
        var i :| OccursAt(hay, needle, i);
        assert i != 0;
        assert OccursAt(hay[1..], needle, i - 1);
      }
    }
  }

  /** Every string includes the empty string. */
  lemma IncludesEmpty(hay: string)
    ensures Includes(hay, "")
  {
  }

  /** The JavaScript `length` of a string: UTF-16 code units, two for a
      character outside the Basic Multilingual Plane. */
  function Utf16Length(s: string): (n: nat)
    ensures n == |s| + |Seqs.Filter(IsSupplementary, s)|
    ensures |s| <= n <= 2 * |s|
    decreases |s|
  {
    if |s| == 0 then 0
    else (if s[0] as int >= 0x1_0000 then 2 else 1) + Utf16Length(s[1..])
  }

  /** A character outside the Basic Multilingual Plane: a surrogate pair in UTF-16. */
  predicate IsSupplementary(c: char) {
    c as int >= 0x1_0000
  }

  /** The UTF-16 length of a concatenation is the sum of the lengths. */
  lemma {:induction false} Utf16LengthAppend(a: string, b: string)
    ensures Utf16Length(a + b) == Utf16Length(a) + Utf16Length(b)
    decreases |a|
  {
    if |a| > 0 {
      assert (a + b)[1..] == a[1..] + b;
      Utf16LengthAppend(a[1..], b);
    } else {
      assert a + b == b;
    }
  }

  /** Text made only of Basic Multilingual Plane characters is as long in
      UTF-16 as it has characters. */
  lemma {:induction false} Utf16LengthBmp(s: string)
    requires forall k :: 0 <= k < |s| ==> s[k] as int < 0x1_0000
    ensures Utf16Length(s) == |s|
    decreases |s|
  {
    if |s| > 0 {
      Utf16LengthBmp(s[1..]);
    }
  }
}
