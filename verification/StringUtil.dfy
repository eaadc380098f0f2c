/** ASCII case folding and trimming (src/shared/StringUtil.cpp). */
module StringUtil {

  predicate IsAsciiWhitespace(c: char) {
    c == ' ' || c == '\t' || c == '\n' || c == '\r' || c == '\U{0C}' || c == '\U{0B}'
  }

  function UpperChar(c: char): char {
    if 'a' <= c <= 'z' then ((c as int) - ('a' as int) + ('A' as int)) as char else c
  }

  function Upper(s: string): (r: string)
    ensures |r| == |s|
    ensures forall i :: 0 <= i < |s| ==> r[i] == UpperChar(s[i])
  {
    if s == [] then [] else [UpperChar(s[0])] + Upper(s[1..])
  }

  function TrimLeft(s: string): string {
    if s != [] && IsAsciiWhitespace(s[0]) then TrimLeft(s[1..]) else s
  }

  function TrimRight(s: string): string {
    if s != [] && IsAsciiWhitespace(s[|s| - 1]) then TrimRight(s[..|s| - 1]) else s
  }

  function Trim(s: string): string {
    TrimRight(TrimLeft(s))
  }

  // ----- In place -----

  /** The characters are rewritten one by one. */
  method ToUpperAscii(s: string) returns (r: string)
    ensures r == Upper(s)
    ensures |r| == |s|
    ensures forall i :: 0 <= i < |s| ==> r[i] as int == if 97 <= s[i] as int <= 122 then s[i] as int - 32 else s[i] as int
  {
    r := s;
    var i := 0;
    while i < |r|
      invariant 0 <= i <= |r| == |s|
      invariant forall k :: 0 <= k < |s| ==> r[k] == if k < i then UpperChar(s[k]) else s[k]
    {
      if 'a' <= r[i] <= 'z' {
        r := r[i := ((r[i] as int) - ('a' as int) + ('A' as int)) as char];
      }
      i := i + 1;
    }
  }

  /** The last character of a slice, and what is in front of it. */
  lemma SliceInit(s: string, i: nat, j: nat)
    requires i < j <= |s|
    ensures s[i..j][|s[i..j]| - 1] == s[j - 1]
    ensures s[i..j][..|s[i..j]| - 1] == s[i..j - 1]
  {
  }

  method TrimAscii(s: string) returns (r: string)
    ensures r == Trim(s)
  {
    var begin, end := 0, |s|;
    assert s[0..] == s;
    while begin < end && IsAsciiWhitespace(s[begin])
      invariant 0 <= begin <= end == |s|
      invariant TrimLeft(s[begin..]) == TrimLeft(s)
    {
      assert s[begin..][1..] == s[begin + 1..];
      begin := begin + 1;
    }
    assert s[begin..end] == s[begin..] == TrimLeft(s);
    while end > begin && IsAsciiWhitespace(s[end - 1])
      invariant begin <= end <= |s|
      invariant TrimRight(s[begin..end]) == Trim(s)
    {
      SliceInit(s, begin, end);
      end := end - 1;
    }
    r := s[begin..end];
  }

  // ----- Case, spelled out -----

  /** The same character, or the same ASCII letter in the other case: the codes of the two cases are 32 apart. */
  predicate SameLetter(c: char, d: char) {
    || c == d
    || (65 <= c as int <= 90 && d as int == c as int + 32)
    || (65 <= d as int <= 90 && c as int == d as int + 32)
  }

  /** Equal at every position up to the case of ASCII letters. */
  predicate SameSpelling(a: string, b: string) {
    |a| == |b| && forall i :: 0 <= i < |a| ==> SameLetter(a[i], b[i])
  }

  lemma SameLetterSameUpper(c: char, d: char)
    ensures SameLetter(c, d) <==> UpperChar(c) == UpperChar(d)
  {
  }

  /** Two texts have one upper-case form exactly if they differ in the case of ASCII letters only. */
  lemma SameSpellingSameUpper(a: string, b: string)
    ensures SameSpelling(a, b) <==> Upper(a) == Upper(b)
  {
    forall i | 0 <= i < |a| && i < |b|
      ensures SameLetter(a[i], b[i]) <==> Upper(a)[i] == Upper(b)[i]
    {
      SameLetterSameUpper(a[i], b[i]);
    }
  }

  // ----- Properties -----

  /** Whitespace is the blank and the codes 9 to 13: tab, line feed, vertical tab, form feed and carriage return. */
  lemma WhitespaceCodes(c: char)
    ensures IsAsciiWhitespace(c) <==> c as int == 32 || 9 <= c as int <= 13
  {
  }

  predicate AllWhitespace(s: string) {
    forall i :: 0 <= i < |s| ==> IsAsciiWhitespace(s[i])
  }

  /** Starts and ends with something other than whitespace, or is empty. */
  predicate Trimmed(s: string) {
    s != [] ==> !IsAsciiWhitespace(s[0]) && !IsAsciiWhitespace(s[|s| - 1])
  }

  lemma {:induction false} TrimLeftSplits(s: string) returns (space: string)
    ensures AllWhitespace(space) && s == space + TrimLeft(s)
    ensures TrimLeft(s) != [] ==> !IsAsciiWhitespace(TrimLeft(s)[0])
  {
    if s != [] && IsAsciiWhitespace(s[0]) {
      var rest := TrimLeftSplits(s[1..]);
      space := [s[0]] + rest;
    } else {
      space := [];
    }
  }

  lemma {:induction false} TrimRightSplits(s: string) returns (space: string)
    ensures AllWhitespace(space) && s == TrimRight(s) + space
    ensures TrimRight(s) != [] ==> !IsAsciiWhitespace(TrimRight(s)[|TrimRight(s)| - 1])
  {
    if s != [] && IsAsciiWhitespace(s[|s| - 1]) {
      var rest := TrimRightSplits(s[..|s| - 1]);
      space := rest + [s[|s| - 1]];
    } else {
      space := [];
    }
  }

  /** Trimming cuts whitespace from both ends and nothing else. */
  lemma TrimCutsWhitespace(s: string) returns (before: string, after: string)
    ensures s == before + Trim(s) + after && AllWhitespace(before) && AllWhitespace(after) && Trimmed(Trim(s))
  {
    before := TrimLeftSplits(s);
    after := TrimRightSplits(TrimLeft(s));
    if Trim(s) != [] {
      assert Trim(s)[0] == TrimLeft(s)[0];
    }
  }

  lemma {:induction false} TrimLeftAppend(s: string, t: string)
    requires TrimLeft(s) != []
    ensures TrimLeft(s + t) == TrimLeft(s) + t
  {
    if s != [] && IsAsciiWhitespace(s[0]) {
      TrimLeftAppend(s[1..], t);
      assert (s + t)[1..] == s[1..] + t;
    }
  }

  lemma {:induction false} TrimLeftOfSpace(space: string, t: string)
    requires AllWhitespace(space)
    ensures TrimLeft(space + t) == TrimLeft(t)
  {
    if space == [] {
      assert space + t == t;
    } else {
      assert (space + t)[1..] == space[1..] + t;
      TrimLeftOfSpace(space[1..], t);
    }
  }

  lemma {:induction false} TrimRightOfSpace(t: string, space: string)
    requires AllWhitespace(space)
    ensures TrimRight(t + space) == TrimRight(t)
  {
    if space == [] {
      assert t + space == t;
    } else {
      assert (t + space)[..|t + space| - 1] == t + space[..|space| - 1];
      TrimRightOfSpace(t, space[..|space| - 1]);
    }
  }

  /** A prefix that does not end in whitespace survives trimming on the right. */
  lemma {:induction false} TrimRightKeepsPrefix(p: string, s: string)
    requires p <= s && (p != [] ==> !IsAsciiWhitespace(p[|p| - 1]))
    ensures p <= TrimRight(s) <= s
  {
    if s != [] && IsAsciiWhitespace(s[|s| - 1]) {
      assert |p| == |s| ==> p == s;
      TrimRightKeepsPrefix(p, s[..|s| - 1]);
    }
  }

  lemma {:induction false} UpperAppend(s: string, t: string)
    ensures Upper(s + t) == Upper(s) + Upper(t)
  {
  }

  lemma UpperIsIdempotent(s: string)
    ensures Upper(Upper(s)) == Upper(s)
  {
  }

  lemma {:induction false} TrimLeftUpper(s: string)
    ensures TrimLeft(Upper(s)) == Upper(TrimLeft(s))
  {
    if s != [] && IsAsciiWhitespace(s[0]) {
      TrimLeftUpper(s[1..]);
      assert Upper(s)[1..] == Upper(s[1..]);
    }
  }

  lemma {:induction false} TrimRightUpper(s: string)
    ensures TrimRight(Upper(s)) == Upper(TrimRight(s))
  {
    if s != [] && IsAsciiWhitespace(s[|s| - 1]) {
      TrimRightUpper(s[..|s| - 1]);
      assert Upper(s)[..|s| - 1] == Upper(s[..|s| - 1]);
    }
  }

  /** Trimming commutes with upper-casing. */
  lemma TrimUpper(s: string)
    ensures Trim(Upper(s)) == Upper(Trim(s))
  {
    TrimLeftUpper(s);
    TrimRightUpper(TrimLeft(s));
  }
}
