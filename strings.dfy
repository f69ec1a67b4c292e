/**
 * The JavaScript string operations the widgets rely on: indexOf, substring,
 * split, trim, startsWith, replace with a string pattern and
 * integer-to-string. A string here is a sequence of Unicode characters;
 * where JavaScript counts or orders UTF-16 code units (`length`, `slice`,
 * the default sort order) the code units are computed by `Units`.
 */
module Strings {

  /** Concatenation of a sequence of strings, in order. */
  function Concat(ss: seq<string>): string {
    if ss == [] then "" else ss[0] + Concat(ss[1..])
  }

  lemma {:induction false} ConcatAppend(a: seq<string>, b: seq<string>)
    ensures Concat(a + b) == Concat(a) + Concat(b)
  {
    if a == [] {
      assert a + b == b;
    } else {
      assert (a + b)[1..] == a[1..] + b;
      ConcatAppend(a[1..], b);
    }
  }

  lemma ConcatSnoc(a: seq<string>, s: string)
    ensures Concat(a + [s]) == Concat(a) + s
  {
    ConcatAppend(a, [s]);
    assert Concat([s]) == s + Concat([]);
  }

  /** `pat` occurs in `s` at index `i`. */
  predicate OccursAt(s: string, pat: string, i: int) {
    0 <= i && i + |pat| <= |s| && s[i..i + |pat|] == pat
  }

  /** JavaScript `s.indexOf(pat, from)` for 0 <= from: the first occurrence at or after `from`, or -1. */
  function IndexFrom(s: string, pat: string, from: nat): (r: int)
    ensures r == -1 || (from <= r && OccursAt(s, pat, r))
    decreases |s| + 1 - from
  {
    if from + |pat| > |s| then -1
    else if s[from..from + |pat|] == pat then from
    else IndexFrom(s, pat, from + 1)
  }

  /** IndexFrom skips no occurrence. */
  lemma {:induction false} IndexFromFirst(s: string, pat: string, from: nat)
    ensures var r := IndexFrom(s, pat, from);
      forall j :: from <= j < (if r == -1 then |s| + 1 else r) ==> !OccursAt(s, pat, j)
    decreases |s| + 1 - from
  {
    if from + |pat| <= |s| && s[from..from + |pat|] != pat {
      IndexFromFirst(s, pat, from + 1);
    }
  }

  /** JavaScript `s.indexOf(pat)`. */
  function IndexOf(s: string, pat: string): (r: int)
    ensures r == -1 || OccursAt(s, pat, r)
  {
    IndexFrom(s, pat, 0)
  }

  /** IndexOf finds the first occurrence, and -1 exactly when there is none. */
  lemma IndexOfFirst(s: string, pat: string)
    ensures IndexOf(s, pat) == -1 <==> forall j :: 0 <= j ==> !OccursAt(s, pat, j)
    ensures IndexOf(s, pat) != -1 ==> forall j :: 0 <= j < IndexOf(s, pat) ==> !OccursAt(s, pat, j)
  {
    IndexFromFirst(s, pat, 0);
  }

  /** A one-character pattern absent from `pre` is first found where `rest` begins. */
  lemma IndexOfAfterFree(pre: string, rest: string, pat: string)
    requires IndexOf(pre, pat) == -1 && |pat| == 1 && |pat| <= |rest| && rest[..1] == pat
    ensures IndexOf(pre + rest, pat) == |pre|
  {
    var s := pre + rest;
    assert s[|pre|..|pre| + 1] == rest[..1];
    assert OccursAt(s, pat, |pre|);
    IndexOfFirst(pre, pat);
    IndexOfFirst(s, pat);
    var r := IndexOf(s, pat);
    assert OccursAt(s, pat, r);
    if r < |pre| {
      assert s[r..r + 1] == pre[r..r + 1];
      assert OccursAt(pre, pat, r);
      assert false;
    }
  }

  /** JavaScript `s.substring(a, b)`: both ends clamped into [0, |s|], swapped when a > b. */
  function Substring(s: string, a: int, b: int): (r: string)
    ensures |r| <= |s|
  {
    var lo := if a < 0 then 0 else if a > |s| then |s| else a;
    var hi := if b < 0 then 0 else if b > |s| then |s| else b;
    if lo <= hi then s[lo..hi] else s[hi..lo]
  }

  lemma SubstringInRange(s: string, a: int, b: int)
    requires 0 <= a <= b <= |s|
    ensures Substring(s, a, b) == s[a..b]
  {
  }

  lemma SubstringToEnd(s: string, a: int)
    requires 0 <= a <= |s|
    ensures Substring(s, a, |s|) == s[a..]
  {
    assert s[a..|s|] == s[a..];
  }

  /** JavaScript `s.startsWith(p)`. */
  predicate StartsWith(s: string, p: string) {
    |p| <= |s| && s[..|p|] == p
  }

  /** JavaScript `parts.join(sep)`. */
  function Join(parts: seq<string>, sep: string): string {
    if |parts| == 0 then ""
    else if |parts| == 1 then parts[0]
    else parts[0] + sep + Join(parts[1..], sep)
  }

  /** JavaScript `s.split(sep)` for a non-empty string separator. */
  function Split(s: string, sep: string): (parts: seq<string>)
    requires |sep| > 0
    ensures |parts| >= 1
    decreases |s|
  {
    var i := IndexOf(s, sep);
    if i == -1 then [s] else [s[..i]] + Split(s[i + |sep|..], sep)
  }

  /** Splitting and joining with the same separator gives the string back. */
  lemma {:induction false} SplitJoin(s: string, sep: string)
    requires |sep| > 0
    ensures Join(Split(s, sep), sep) == s
    decreases |s|
  {
    var i := IndexOf(s, sep);
    if i != -1 {
      assert s[i..i + |sep|] == sep;
      var rest := s[i + |sep|..];
      calc {
        Join(Split(s, sep), sep);
        Join([s[..i]] + Split(rest, sep), sep);
        { JoinCons(s[..i], Split(rest, sep), sep); }
        s[..i] + sep + Join(Split(rest, sep), sep);
        { SplitJoin(rest, sep); }
        s[..i] + sep + rest;
        { SplitAround(s, i, |sep|); }
        s;
      }
    }
  }

  lemma SplitAround(s: string, i: nat, n: nat)
    requires i + n <= |s|
    ensures s == s[..i] + s[i..i + n] + s[i + n..]
  {
  }

  lemma JoinCons(h: string, tail: seq<string>, sep: string)
    requires |tail| >= 1
    ensures Join([h] + tail, sep) == h + sep + Join(tail, sep)
  {
    assert ([h] + tail)[1..] == tail;
  }

  /** No piece of a split contains the separator, and there is one piece more than separators removed. */
  lemma {:induction false} SplitPiecesFree(s: string, sep: string)
    requires |sep| > 0
    ensures forall k :: 0 <= k < |Split(s, sep)| ==> IndexOf(Split(s, sep)[k], sep) == -1
    decreases |s|
  {
    var i := IndexOf(s, sep);
    if i != -1 {
      var rest := s[i + |sep|..];
      SplitPiecesFree(rest, sep);
      var head := s[..i];
      IndexOfFirst(s, sep);
      IndexOfFirst(head, sep);
      forall j | 0 <= j
        ensures !OccursAt(head, sep, j)
      {
        if OccursAt(head, sep, j) {
          assert s[j..j + |sep|] == head[j..j + |sep|];
          assert OccursAt(s, sep, j);
        }
      }
    }
  }

  /** Whitespace as JavaScript's `trim` removes it: white space and line terminators. */
  predicate IsJsWhitespace(c: char) {
    c == ' ' || c == '\t' || c == '\n' || c == '\r' || c == '\U{000B}' || c == '\U{000C}'
    || c == '\U{00A0}' || c == '\U{FEFF}' || c == '\U{1680}'
    || ('\U{2000}' <= c <= '\U{200A}')
    || c == '\U{2028}' || c == '\U{2029}' || c == '\U{202F}' || c == '\U{205F}' || c == '\U{3000}'
  }

  function TrimStart(s: string): (r: string)
    ensures |r| <= |s| && r == s[|s| - |r|..]
    ensures r != [] ==> !IsJsWhitespace(r[0])
  {
    if s != [] && IsJsWhitespace(s[0]) then TrimStart(s[1..]) else s
  }

  function TrimEnd(s: string): (r: string)
    ensures |r| <= |s| && r == s[..|r|]
    ensures r != [] ==> !IsJsWhitespace(r[|r| - 1])
  {
    if s != [] && IsJsWhitespace(s[|s| - 1]) then TrimEnd(s[..|s| - 1]) else s
  }

  /** JavaScript `s.trim()`. */
  function Trim(s: string): (r: string)
    ensures r != [] ==> !IsJsWhitespace(r[0]) && !IsJsWhitespace(r[|r| - 1])
  {
    TrimEnd(TrimStart(s))
  }

  function DigitChar(d: nat): char
    requires d < 10
  {
    "0123456789"[d]
  }

  /** The decimal text of an integer, as JavaScript's `String(n)` writes it. */
  function IntToString(n: int): (r: string)
    ensures |r| >= 1
    ensures n >= 0 ==> '0' <= r[0] <= '9'
    decreases if n < 0 then -n + 1 else n
  {
    if n < 0 then "-" + IntToString(-n)
    else if n < 10 then [DigitChar(n)]
    else IntToString(n / 10) + [DigitChar(n % 10)]
  }

  /**
   * GetSubstitution of String.prototype.replace for a string pattern: in the
   * replacement, "$$" is "$", "$&" the matched text, "$`" the text before the
   * match and "$'" the text after it; every other "$" stays as it is.
   */
  function Substitute(replacement: string, matched: string, before: string, after: string): string
    decreases |replacement|
  {
    if |replacement| >= 2 && replacement[0] == '$' then
      var c := replacement[1];
      if c == '$' then "$" + Substitute(replacement[2..], matched, before, after)
      else if c == '&' then matched + Substitute(replacement[2..], matched, before, after)
      else if c == '`' then before + Substitute(replacement[2..], matched, before, after)
      else if c == '\'' then after + Substitute(replacement[2..], matched, before, after)
      else "$" + Substitute(replacement[1..], matched, before, after)
    else if replacement == [] then ""
    else [replacement[0]] + Substitute(replacement[1..], matched, before, after)
  }

  /** JavaScript `s.replace(pat, replacement)` with a string pattern: only the first occurrence is replaced. */
  function ReplaceFirst(s: string, pat: string, replacement: string): string {
    var i := IndexOf(s, pat);
    if i == -1 then s
    else s[..i] + Substitute(replacement, pat, s[..i], s[i + |pat|..]) + s[i + |pat|..]
  }

  /** A replacement without "$" is inserted literally. */
  lemma {:induction false} SubstituteLiteral(replacement: string, matched: string, before: string, after: string)
    requires forall k :: 0 <= k < |replacement| ==> replacement[k] != '$'
    ensures Substitute(replacement, matched, before, after) == replacement
    decreases |replacement|
  {
    if replacement != [] {
      SubstituteLiteral(replacement[1..], matched, before, after);
    }
  }

  // ----- UTF-16 code units -----

  /** The UTF-16 code units of a character: the character itself below U+10000, otherwise a surrogate pair. */
  function CharUnits(c: char): (r: seq<int>)
    ensures |r| == (if c as int < 0x1_0000 then 1 else 2)
  {
    if c as int < 0x1_0000 then [c as int]
    else
      var v := c as int - 0x1_0000;
      [0xD800 + v / 0x400, 0xDC00 + v % 0x400]
  }

  /** A string as JavaScript stores it: its UTF-16 code units, in order. */
  function Units(s: string): seq<int> {
    if s == [] then [] else CharUnits(s[0]) + Units(s[1..])
  }

  /** JavaScript's `s.length`: the number of code units. */
  function Utf16Length(s: string): nat {
    |Units(s)|
  }

  lemma {:induction false} UnitsAppend(a: string, b: string)
    ensures Units(a + b) == Units(a) + Units(b)
  {
    if a == [] {
      assert a + b == b;
    } else {
      assert (a + b)[0] == a[0];
      assert (a + b)[1..] == a[1..] + b;
      UnitsAppend(a[1..], b);
    }
  }

  /** Every character takes one or two code units. */
  lemma {:induction false} Utf16LengthBounds(s: string)
    ensures |s| <= Utf16Length(s) <= 2 * |s|
  {
    if s != [] {
      Utf16LengthBounds(s[1..]);
    }
  }

  /** Every character lies in the Basic Multilingual Plane. */
  predicate Bmp(s: string) {
    forall i :: 0 <= i < |s| ==> s[i] as int < 0x1_0000
  }

  /** Without characters beyond U+FFFF, `length` counts characters. */
  lemma {:induction false} Utf16LengthBmp(s: string)
    requires Bmp(s)
    ensures Utf16Length(s) == |s|
  {
    if s != [] {
      assert Bmp(s[1..]) by {
        forall i | 0 <= i < |s| - 1 ensures s[1..][i] as int < 0x1_0000 {
          assert s[1..][i] == s[i + 1];
        }
      }
      Utf16LengthBmp(s[1..]);
    }
  }

  /**
   * `s.slice(0, n)` where it ends between two characters: the longest prefix
   * of whole characters that has at most n code units.
   */
  function Utf16Prefix(s: string, n: nat): (r: string)
    ensures r <= s
  {
    if s == [] || |CharUnits(s[0])| > n then []
    else [s[0]] + Utf16Prefix(s[1..], n - |CharUnits(s[0])|)
  }

  /** The prefix has at most n code units, the whole string when it fits, and falls short of n by at most the half of a pair. */
  lemma {:induction false} Utf16PrefixLength(s: string, n: nat)
    ensures Utf16Length(Utf16Prefix(s, n)) <= n
    ensures Utf16Length(s) <= n ==> Utf16Prefix(s, n) == s
    ensures Utf16Length(s) > n ==> Utf16Length(Utf16Prefix(s, n)) + 1 >= n
  {
    if s != [] && |CharUnits(s[0])| <= n {
      var p := Utf16Prefix(s[1..], n - |CharUnits(s[0])|);
      Utf16PrefixLength(s[1..], n - |CharUnits(s[0])|);
      assert ([s[0]] + p)[0] == s[0] && ([s[0]] + p)[1..] == p;
      if Utf16Length(s[1..]) <= n - |CharUnits(s[0])| {
        assert s == [s[0]] + s[1..];
      }
    }
  }

  /** Without characters beyond U+FFFF the prefix is the first n characters. */
  lemma {:induction false} Utf16PrefixBmp(s: string, n: nat)
    requires Bmp(s) && n <= |s|
    ensures Utf16Prefix(s, n) == s[..n]
  {
    if n > 0 {
      assert Bmp(s[1..]) by {
        forall i | 0 <= i < |s| - 1 ensures s[1..][i] as int < 0x1_0000 {
          assert s[1..][i] == s[i + 1];
        }
      }
      Utf16PrefixBmp(s[1..], n - 1);
      assert s[..n] == [s[0]] + s[1..][..n - 1];
    }
  }

  /** JavaScript's string comparison: code units compared lexicographically, a proper prefix first; -1, 0 or 1. */
  function CompareUnits(a: seq<int>, b: seq<int>): (r: int)
    ensures -1 <= r <= 1
  {
    if a == [] && b == [] then 0
    else if a == [] then -1
    else if b == [] then 1
    else if a[0] < b[0] then -1
    else if a[0] > b[0] then 1
    else CompareUnits(a[1..], b[1..])
  }

  /** Comparing the other way round flips the sign, and only equal sequences compare as 0. */
  lemma {:induction false} CompareUnitsAntisymmetric(a: seq<int>, b: seq<int>)
    ensures CompareUnits(a, b) == -CompareUnits(b, a)
    ensures CompareUnits(a, b) == 0 <==> a == b
  {
    if a != [] && b != [] && a[0] == b[0] {
      CompareUnitsAntisymmetric(a[1..], b[1..]);
      if a[1..] == b[1..] {
        assert a == [a[0]] + a[1..] && b == [b[0]] + b[1..];
      }
    }
  }

  /** "At most" in this order is transitive. */
  lemma {:induction false} CompareUnitsTransitive(a: seq<int>, b: seq<int>, c: seq<int>)
    requires CompareUnits(a, b) <= 0 && CompareUnits(b, c) <= 0
    ensures CompareUnits(a, c) <= 0
  {
    if a != [] && b != [] && c != [] && a[0] == b[0] == c[0] {
      CompareUnitsTransitive(a[1..], b[1..], c[1..]);
    }
  }
}
