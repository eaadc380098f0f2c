/** Which registry keys may be excluded (src/core/RegistryExclusionPolicy.cpp, src/core/UwfConstraints.h). */
module RegistryExclusionPolicy {
  import opened Options
  import opened StringUtil
  import opened RegistryPath

  datatype RegExclusionClass = Allowed | MachineAccount | Container | OutOfScope

  const LOCAL_MACHINE: string := "HKEY_LOCAL_MACHINE"

  const ALLOWED_ROOT_PREFIXES: seq<string> := [
    "HKEY_LOCAL_MACHINE\\BCD00000000\\", "HKEY_LOCAL_MACHINE\\SYSTEM\\", "HKEY_LOCAL_MACHINE\\SOFTWARE\\",
    "HKEY_LOCAL_MACHINE\\SAM\\", "HKEY_LOCAL_MACHINE\\SECURITY\\", "HKEY_LOCAL_MACHINE\\COMPONENTS\\"
  ]

  const MACHINE_ACCOUNT_KEY: string := "HKEY_LOCAL_MACHINE\\SECURITY\\POLICY\\SECRETS\\$MACHINE.ACC"

  /** A true subkey of an allowed root. */
  predicate BelowRoot(upper: string) {
    exists i :: 0 <= i < |ALLOWED_ROOT_PREFIXES| && |upper| > |ALLOWED_ROOT_PREFIXES[i]| && ALLOWED_ROOT_PREFIXES[i] <= upper
  }

  /** With its separator, the key and an allowed root's prefix agree as far as both go. */
  predicate TouchesRoot(upper: string) {
    exists i :: 0 <= i < |ALLOWED_ROOT_PREFIXES| &&
      (upper + "\\" <= ALLOWED_ROOT_PREFIXES[i] || ALLOWED_ROOT_PREFIXES[i] <= upper + "\\")
  }

  function ClassifyUpper(upper: string): RegExclusionClass {
    if upper == [] then OutOfScope
    else if upper == MACHINE_ACCOUNT_KEY then MachineAccount
    else if BelowRoot(upper) then Allowed
    else if TouchesRoot(upper) then Container
    else OutOfScope
  }

  function ClassifyRegistryExclusion(key: string): RegExclusionClass {
    ClassifyUpper(Upper(Normalize(key)))
  }

  predicate Inside(c: RegExclusionClass) {
    c.Allowed? || c.MachineAccount?
  }

  // ----- Presentation does not matter -----

  /** The class ignores case. */
  lemma ClassIgnoresCase(a: string, b: string)
    requires Upper(a) == Upper(b)
    ensures ClassifyRegistryExclusion(a) == ClassifyRegistryExclusion(b)
  {
    NormalizeUpper(a);
    NormalizeUpper(b);
  }

  /** The class ignores whitespace around the key. */
  lemma ClassIgnoresOuterWhitespace(before: string, key: string, after: string)
    requires AllWhitespace(before) && AllWhitespace(after)
    ensures ClassifyRegistryExclusion(before + key + after) == ClassifyRegistryExclusion(key)
  {
    assert before + key + after == before + (key + after);
    TrimLeftOfSpace(before, key + after);
    if TrimLeft(key) == [] {
      var space := TrimLeftSplits(key);
      assert key == space && AllWhitespace(key + after);
      TrimLeftOfSpace(key + after, "");
      assert (key + after) + "" == key + after;
    } else {
      TrimLeftAppend(key, after);
      TrimRightOfSpace(TrimLeft(key), after);
    }
  }

  /** The class ignores whether a known hive is spelled short or long. */
  lemma ClassIgnoresHiveSpelling(hive: string, rest: string)
    requires LongForm(hive).Some? && (rest != [] ==> rest[0] == '\\')
    ensures ClassifyRegistryExclusion(hive + rest) == ClassifyRegistryExclusion(LongForm(hive).value + rest)
  {
    KnownHive(hive);
    StrippedHive(hive, rest);
    StrippedHive(LongForm(hive).value, rest);
    var tail := StrippedRest(rest);
    ExpandHive(hive, tail);
  }

  /** What trimming and stripping leave behind a hive name. */
  function StrippedRest(rest: string): string {
    StripBackslashes(TrimRight(rest))
  }

  lemma {:induction false} StripAppend(p: string, s: string)
    requires p != [] && p[|p| - 1] != '\\'
    ensures StripBackslashes(p + s) == p + StripBackslashes(s)
  {
    if s == [] {
      assert p + s == p;
    } else if s[|s| - 1] == '\\' {
      assert (p + s)[..|p + s| - 1] == p + s[..|s| - 1];
      StripAppend(p, s[..|s| - 1]);
    }
  }

  lemma {:induction false} TrimRightAppend(p: string, s: string)
    requires p != [] && !IsAsciiWhitespace(p[|p| - 1])
    ensures TrimRight(p + s) == p + TrimRight(s)
  {
    if s == [] {
      assert p + s == p;
    } else if IsAsciiWhitespace(s[|s| - 1]) {
      assert (p + s)[..|p + s| - 1] == p + s[..|s| - 1];
      TrimRightAppend(p, s[..|s| - 1]);
    }
  }

  lemma StrippedHive(hive: string, rest: string)
    requires HiveShape(Upper(hive)) && (rest != [] ==> rest[0] == '\\')
    ensures Stripped(hive + rest) == hive + StrippedRest(rest)
    ensures StrippedRest(rest) != [] ==> StrippedRest(rest)[0] == '\\'
  {
    UpperOfUpperChars(hive);
    assert Upper(hive)[0] == UpperChar(hive[0]) && Upper(hive)[|hive| - 1] == UpperChar(hive[|hive| - 1]);
    assert TrimLeft(hive + rest) == hive + rest;
    TrimRightAppend(hive, rest);
    StripAppend(hive, TrimRight(rest));
    StripEnds(TrimRight(rest));
    TrimRightKeepsPrefix("", rest);
  }

  // ----- The tree of allowed roots -----

  /** The names of the allowed roots below the local machine hive. */
  const ROOT_NAMES: seq<string> := ["BCD00000000", "SYSTEM", "SOFTWARE", "SAM", "SECURITY", "COMPONENTS"]

  function RootKey(i: nat): string
    requires i < |ROOT_NAMES|
  {
    LOCAL_MACHINE + "\\" + ROOT_NAMES[i]
  }

  lemma PrefixIsRoot(i: nat)
    requires i < |ROOT_NAMES|
    ensures |ALLOWED_ROOT_PREFIXES| == |ROOT_NAMES| && ALLOWED_ROOT_PREFIXES[i] == RootKey(i) + "\\"
  {
    assert "HKEY_LOCAL_MACHINE" + "\\" + "BCD00000000" + "\\" == "HKEY_LOCAL_MACHINE\\BCD00000000\\";
    assert "HKEY_LOCAL_MACHINE" + "\\" + "SYSTEM" + "\\" == "HKEY_LOCAL_MACHINE\\SYSTEM\\";
    assert "HKEY_LOCAL_MACHINE" + "\\" + "SOFTWARE" + "\\" == "HKEY_LOCAL_MACHINE\\SOFTWARE\\";
    assert "HKEY_LOCAL_MACHINE" + "\\" + "SAM" + "\\" == "HKEY_LOCAL_MACHINE\\SAM\\";
    assert "HKEY_LOCAL_MACHINE" + "\\" + "SECURITY" + "\\" == "HKEY_LOCAL_MACHINE\\SECURITY\\";
    assert "HKEY_LOCAL_MACHINE" + "\\" + "COMPONENTS" + "\\" == "HKEY_LOCAL_MACHINE\\COMPONENTS\\";
  }

  /** A root name has no backslash and does not end in whitespace. */
  lemma RootNameShape(i: nat)
    requires i < |ROOT_NAMES|
    ensures var x := ROOT_NAMES[i]; x != [] && '\\' !in x && !IsAsciiWhitespace(x[|x| - 1])
  {
  }

  lemma MachineAccountBelowSecurity()
    ensures BelowRoot(MACHINE_ACCOUNT_KEY)
  {
    assert ALLOWED_ROOT_PREFIXES[4] <= MACHINE_ACCOUNT_KEY;
  }

  lemma LocalMachineHive(hive: string)
    ensures Upper(hive) == LOCAL_MACHINE ==> LongForm(hive) == Some(LOCAL_MACHINE)
    ensures HiveShape(LOCAL_MACHINE) && LongForm(LOCAL_MACHINE) == Some(LOCAL_MACHINE)
  {
    EntryShapes(0);
    LongFormIsOwn(0);
  }

  /** The class is Allowed or MachineAccount exactly for the true subkeys of the allowed roots. */
  lemma InsideIffBelowRoot(upper: string)
    ensures Inside(ClassifyUpper(upper)) <==> BelowRoot(upper)
  {
    MachineAccountBelowSecurity();
  }

  /** The part of a path behind its hive goes on, in any case, with the segment `x` and more below it. */
  ghost predicate Under(rest: string, x: string) {
    |rest| > |x| + 2 && "\\" + x + "\\" <= Upper(rest)
  }

  /** A path whose hive is the local machine and that continues below root `i`. */
  ghost predicate UnderRoot(path: string, i: nat)
    requires i < |ROOT_NAMES|
  {
    LongForm(HiveOf(path)) == Some(LOCAL_MACHINE) && Under(RestOf(path), ROOT_NAMES[i])
  }

  /** In a text that starts with a hive name and a backslash, that is where the first backslash is. */
  lemma HivePrefix(long: string, text: string)
    requires '\\' !in long && long + "\\" <= text
    ensures FirstSlash(text) == |long|
  {
    assert text[|long|] == (long + "\\")[|long|] == '\\';
    forall k | 0 <= k < |long|
      ensures text[k] != '\\'
    {
      assert text[k] == (long + "\\")[k] == long[k];
    }
    FirstSlashUnique(text, |long|);
  }

  /** A known hive whose expanded path starts with `long` and a backslash, in any case, has that long form. */
  lemma ExpandedKnownHive(found: string, rest: string, long: string)
    requires HiveShape(found) && HiveShape(long) && (rest != [] ==> rest[0] == '\\')
    requires long + "\\" <= Upper(found + rest)
    ensures found == long
  {
    HivePrefix(long, Upper(found + rest));
    FirstSlashUpper(found + rest);
    FirstSlashUnique(found + rest, |found|);
    StartsWith(long, Upper(found + rest));
    UpperStart(found, rest);
  }

  lemma StartsWith(long: string, text: string)
    requires long + "\\" <= text
    ensures |long| < |text| && text[..|long|] == long
  {
    assert text[..|long|] == (long + "\\")[..|long|];
  }

  lemma UpperStart(found: string, rest: string)
    requires Upper(found) == found
    ensures Upper(found + rest)[..|found|] == found
  {
    UpperAppend(found, rest);
  }

  /** A path that starts, in any case, with a long form and a backslash has that hive. */
  lemma UnexpandedHive(path: string, long: string)
    ensures LongHive(long) && long + "\\" <= Upper(path) ==> LongForm(HiveOf(path)) == Some(long)
  {
    if LongHive(long) && long + "\\" <= Upper(path) {
      HivePrefix(long, Upper(path));
      FirstSlashUpper(path);
      assert Upper(HiveOf(path)) == Upper(path)[..|long|] == long;
    }
  }

  /** If the expanded path starts with a long form and a backslash, in any case, its hive has that long form. */
  lemma ExpandedHive(path: string, long: string)
    ensures LongHive(long) && long + "\\" <= Upper(Expand(path)) ==> LongForm(HiveOf(path)) == Some(long)
  {
    var hive, rest := HiveOf(path), RestOf(path);
    if LongHive(long) && long + "\\" <= Upper(Expand(path)) {
      if LongForm(hive).Some? {
        KnownHive(hive);
        ExpandedKnownHive(LongForm(hive).value, rest, long);
      }
      UnexpandedHive(path, long);
    }
  }

  /** A hive name that is its own long form. */
  predicate LongHive(long: string) {
    HiveShape(long) && LongForm(long) == Some(long)
  }

  /** Taking the hive off both sides. */
  lemma BehindHive(long: string, rest: string, x: string)
    requires HiveShape(long)
    ensures long + ("\\" + x + "\\") <= Upper(long + rest) && |long + rest| > |long| + |x| + 2 <==> Under(rest, x)
  {
    UpperAppend(long, rest);
    var tail := "\\" + x + "\\";
    if long + tail <= long + Upper(rest) {
      assert (long + Upper(rest))[|long|..] == Upper(rest);
      assert (long + tail)[|long|..] == tail;
    }
  }

  lemma RootPrefix(i: nat)
    requires i < |ROOT_NAMES|
    ensures |ALLOWED_ROOT_PREFIXES| == |ROOT_NAMES|
    ensures ALLOWED_ROOT_PREFIXES[i] == LOCAL_MACHINE + ("\\" + ROOT_NAMES[i] + "\\")
    ensures |ALLOWED_ROOT_PREFIXES[i]| == |LOCAL_MACHINE| + |ROOT_NAMES[i]| + 2
    ensures LOCAL_MACHINE + "\\" <= ALLOWED_ROOT_PREFIXES[i]
  {
    PrefixIsRoot(i);
    assert RootKey(i) + "\\" == LOCAL_MACHINE + ("\\" + ROOT_NAMES[i] + "\\");
  }

  /** A prefix and the path it belongs to, in general. */
  lemma PrefixMeansUnder(path: string, long: string, x: string, prefix: string)
    requires prefix == long + ("\\" + x + "\\") && long + "\\" <= prefix && |prefix| == |long| + |x| + 2
    ensures LongHive(long) ==>
              (prefix <= Upper(Expand(path)) && |Expand(path)| > |prefix| <==>
               LongForm(HiveOf(path)) == Some(long) && Under(RestOf(path), x))
  {
    ExpandedHive(path, long);
    if LongHive(long) && LongForm(HiveOf(path)) == Some(long) {
      BehindHive(long, RestOf(path), x);
    }
  }

  /** The upper-case expanded path lies below an allowed root exactly when the path lies under one of the roots. */
  lemma BelowRootIffUnder(path: string, i: nat)
    requires i < |ROOT_NAMES|
    ensures |ALLOWED_ROOT_PREFIXES| == |ROOT_NAMES|
    ensures ALLOWED_ROOT_PREFIXES[i] <= Upper(Expand(path)) && |Upper(Expand(path))| > |ALLOWED_ROOT_PREFIXES[i]| <==> UnderRoot(path, i)
  {
    RootPrefix(i);
    LocalMachineHive("");
    PrefixMeansUnder(path, LOCAL_MACHINE, ROOT_NAMES[i], ALLOWED_ROOT_PREFIXES[i]);
  }

  /** The stripped form of a key inside the policy lies below one of the roots. */
  lemma InsideIsUnderRoot(key: string) returns (i: nat)
    requires Inside(ClassifyRegistryExclusion(key))
    ensures i < |ROOT_NAMES| && UnderRoot(Stripped(key), i)
  {
    var upper := Upper(Expand(Stripped(key)));
    InsideIffBelowRoot(upper);
    i :| 0 <= i < |ALLOWED_ROOT_PREFIXES| && |upper| > |ALLOWED_ROOT_PREFIXES[i]| && ALLOWED_ROOT_PREFIXES[i] <= upper;
    BelowRootIffUnder(Stripped(key), i);
  }

  /** And the other way round. */
  lemma UnderRootIsBelow(path: string, i: nat)
    requires i < |ROOT_NAMES| && UnderRoot(path, i)
    ensures Inside(ClassifyUpper(Upper(Expand(path))))
  {
    BelowRootIffUnder(path, i);
    InsideIffBelowRoot(Upper(Expand(path)));
  }

  // ----- Appending -----

  /** The stripped form of a key is a prefix of the stripped form of the key with a separator and more text. */
  lemma StrippedExtends(key: string, text: string)
    requires Stripped(key) != []
    ensures Stripped(key) <= Stripped(key + "\\" + text)
  {
    var path, left := Stripped(key), TrimLeft(key);
    StrippedShape(key);
    StripEnds(TrimRight(left));
    TrimRightKeepsPrefix("", left);
    assert left != [];
    assert key + "\\" + text == key + ("\\" + text);
    TrimLeftAppend(key, "\\" + text);
    var whole := left + ("\\" + text);
    assert left + "\\" <= whole;
    TrimRightKeepsPrefix(left + "\\", whole);
    assert path <= TrimRight(left) <= left <= left + "\\" <= TrimRight(whole);
    StripKeepsPrefix(path, TrimRight(whole));
  }

  lemma UnderExtends(rest: string, longer: string, x: string)
    requires Under(rest, x) && rest <= longer
    ensures Under(longer, x)
  {
    assert longer == rest + longer[|rest|..];
    UpperAppend(rest, longer[|rest|..]);
  }

  lemma UnderRootExtends(path: string, longer: string, i: nat)
    requires i < |ROOT_NAMES| && UnderRoot(path, i) && path <= longer
    ensures UnderRoot(longer, i)
  {
    FirstSlashUnique(longer, FirstSlash(path));
    assert HiveOf(longer) == HiveOf(path);
    assert RestOf(path) <= RestOf(longer);
    UnderExtends(RestOf(path), RestOf(longer), ROOT_NAMES[i]);
  }

  /** Appending a backslash and any text to a key inside the policy stays inside: allowed subtrees are whole. */
  lemma AppendStaysInside(key: string, text: string)
    requires Inside(ClassifyRegistryExclusion(key))
    ensures Inside(ClassifyRegistryExclusion(key + "\\" + text))
  {
    var i := InsideIsUnderRoot(key);
    EmptyHive();
    assert Stripped(key) != [];
    StrippedExtends(key, text);
    UnderRootExtends(Stripped(key), Stripped(key + "\\" + text), i);
    UnderRootIsBelow(Stripped(key + "\\" + text), i);
  }

  // ----- Cutting -----

  lemma HiveIsContainer()
    ensures !ClassifyUpper(LOCAL_MACHINE).OutOfScope?
  {
    assert LOCAL_MACHINE + "\\" <= ALLOWED_ROOT_PREFIXES[0];
  }

  /** A key that is a root or lies below one is in scope. */
  lemma RootIsInScope(upper: string, i: nat)
    requires i < |ROOT_NAMES| && RootKey(i) + "\\" <= upper + "\\"
    ensures !ClassifyUpper(upper).OutOfScope?
  {
    PrefixIsRoot(i);
    assert |RootKey(i)| > 0;
  }

  /** What follows the hive of a path under a root: the root's segment, in any case, and the rest. */
  lemma UnderSplits(rest: string, x: string) returns (segment: string, more: string)
    requires Under(rest, x) && '\\' !in x
    ensures rest == "\\" + segment + ("\\" + more) && Upper(segment) == x && '\\' !in segment
  {
    var tail := "\\" + x + "\\";
    var n := |x| + 1;
    segment, more := rest[1..n], rest[n + 1..];
    assert Upper(rest)[0] == tail[0] == '\\' && Upper(rest)[n] == tail[n] == '\\';
    assert rest[0] == '\\' && rest[n] == '\\';
    assert rest == [rest[0]] + segment + ([rest[n]] + more);
    UpperSlice(rest, 1, n);
    PrefixSlice(tail, Upper(rest), 1, n);
    assert tail[1..n] == x;
    NoBackslash(segment);
  }

  lemma UpperSlice(s: string, i: nat, j: nat)
    requires i <= j <= |s|
    ensures Upper(s[i..j]) == Upper(s)[i..j]
  {
    forall k | 0 <= k < j - i
      ensures Upper(s[i..j])[k] == Upper(s)[i..j][k]
    {
      SliceAt(s, i, j, k);
      SliceAt(Upper(s), i, j, k);
    }
    SameText(Upper(s[i..j]), Upper(s)[i..j]);
  }

  lemma SliceAt(s: string, i: nat, j: nat, k: nat)
    requires i <= j <= |s| && k < j - i
    ensures |s[i..j]| == j - i && s[i..j][k] == s[i + k]
  {
  }

  lemma SameText(a: string, b: string)
    requires |a| == |b| && forall k :: 0 <= k < |a| ==> a[k] == b[k]
    ensures a == b
  {
  }

  lemma PrefixSlice(prefix: string, u: string, i: nat, j: nat)
    requires prefix <= u && i <= j <= |prefix|
    ensures prefix[i..j] == u[i..j]
  {
  }

  lemma NoBackslash(segment: string)
    ensures '\\' !in Upper(segment) <==> '\\' !in segment
  {
    if '\\' in segment {
      var i :| 0 <= i < |segment| && segment[i] == '\\';
      assert Upper(segment)[i] == '\\';
    }
  }

  /** Where a key under a root can be cut at a backslash: behind the hive, or behind the root or further down. */
  lemma CutCases(hive: string, segment: string, tail: string, j: nat) returns (t: string)
    requires '\\' !in hive && '\\' !in segment
    requires var left := hive + ("\\" + segment + ("\\" + tail)); j < |left| && left[j] == '\\'
    ensures var left := hive + ("\\" + segment + ("\\" + tail));
            && (t != [] ==> t[0] == '\\')
            && (left[..j] == hive || left[..j] == hive + ("\\" + segment) + t)
  {
    var left := hive + ("\\" + segment + ("\\" + tail));
    var root := hive + ("\\" + segment);
    assert left == root + ("\\" + tail);
    t := [];
    forall k | 0 <= k < |hive|
      ensures left[k] != '\\'
    {
      assert left[k] == hive[k];
    }
    forall k | |hive| < k < |root|
      ensures left[k] != '\\'
    {
      assert left[k] == segment[k - |hive| - 1];
    }
    if j == |hive| {
      assert left[..j] == hive;
    } else {
      t := left[|root|..j];
      assert left[..j] == root + t;
      assert t != [] ==> t[0] == left[|root|] == '\\';
    }
  }

  /** Trimming and stripping a text that goes on behind a name ending in neither whitespace nor backslash. */
  lemma TrimStripAppend(p: string, s: string)
    requires p != [] && !IsAsciiWhitespace(p[|p| - 1]) && p[|p| - 1] != '\\'
    ensures StripBackslashes(TrimRight(p + s)) == p + StrippedRest(s) && StrippedRest(s) <= s
  {
    TrimRightAppend(p, s);
    StripAppend(p, TrimRight(s));
    StripEnds(TrimRight(s));
    TrimRightKeepsPrefix("", s);
  }

  /** The last character of a text is whitespace or a backslash exactly if that of its upper-case form is. */
  lemma LastCharacter(s: string)
    requires s != []
    ensures IsAsciiWhitespace(s[|s| - 1]) <==> IsAsciiWhitespace(Upper(s)[|s| - 1])
    ensures s[|s| - 1] == '\\' <==> Upper(s)[|s| - 1] == '\\'
  {
  }

  lemma HiveAlone(hive: string)
    requires LongForm(hive).Some?
    ensures StripBackslashes(TrimRight(hive)) == hive && Expand(hive) == LongForm(hive).value
  {
    KnownHive(hive);
    LastCharacter(hive);
    UpperOfUpperChars(hive);
    TrimStripAppend(hive, "");
    ExpandHive(hive, "");
    assert hive + "" == hive && LongForm(hive).value + "" == LongForm(hive).value;
  }

  lemma HiveInScope(hive: string)
    requires LongForm(hive) == Some(LOCAL_MACHINE)
    ensures !ClassifyUpper(Upper(Expand(StripBackslashes(TrimRight(hive))))).OutOfScope?
  {
    KnownHive(hive);
    HiveAlone(hive);
    LocalMachineHive("");
    HiveIsContainer();
  }

  /** The expansion of a hive, a segment and what follows, in upper case. */
  lemma ExpandedSegment(hive: string, long: string, segment: string, q: string)
    requires LongForm(hive) == Some(long)
    ensures Upper(Expand(hive + ("\\" + segment) + q)) == long + "\\" + Upper(segment) + Upper(q)
  {
    Reassociate(hive, "\\", segment, q);
    Reassociate(long, "\\", Upper(segment), Upper(q));
    ExpandedRest(hive, long, "\\" + segment + q);
    UpperSegment(segment, q);
  }

  lemma Reassociate(a: string, b: string, c: string, d: string)
    ensures a + (b + c) + d == a + (b + c + d) == a + b + c + d
  {
  }

  lemma ExpandedRest(hive: string, long: string, rest: string)
    requires LongForm(hive) == Some(long) && rest != [] && rest[0] == '\\'
    ensures Upper(Expand(hive + rest)) == long + Upper(rest)
  {
    KnownHive(hive);
    ExpandHive(hive, rest);
    UpperAppend(long, rest);
  }

  lemma UpperSegment(segment: string, q: string)
    ensures Upper("\\" + segment + q) == "\\" + Upper(segment) + Upper(q)
  {
    UpperAppend("\\" + segment, q);
    UpperAppend("\\", segment);
    assert Upper("\\") == "\\";
  }

  lemma RootInScope(hive: string, segment: string, t: string, i: nat)
    requires i < |ROOT_NAMES| && LongForm(hive) == Some(LOCAL_MACHINE) && Upper(segment) == ROOT_NAMES[i] && (t != [] ==> t[0] == '\\')
    ensures !ClassifyUpper(Upper(Expand(StripBackslashes(TrimRight(hive + ("\\" + segment) + t))))).OutOfScope?
  {
    RootNameShape(i);
    LastCharacter(segment);
    var root, q := hive + ("\\" + segment), StrippedRest(t);
    assert root[|root| - 1] == segment[|segment| - 1];
    TrimStripAppend(root, t);
    ExpandedSegment(hive, LOCAL_MACHINE, segment, q);
    assert Upper(Expand(root + q)) == RootKey(i) + Upper(q);
    assert q != [] ==> Upper(q)[0] == '\\';
    assert RootKey(i) + "\\" <= RootKey(i) + Upper(q) + "\\";
    RootIsInScope(Upper(Expand(root + q)), i);
  }

  /** Cutting the left-trimmed key `left`, whose stripped form is `path`. */
  lemma CutLeft(path: string, left: string, j: nat, i: nat)
    requires i < |ROOT_NAMES| && UnderRoot(path, i) && path <= left && j < |left| && left[j] == '\\'
    ensures !ClassifyUpper(Upper(Expand(StripBackslashes(TrimRight(left[..j]))))).OutOfScope?
  {
    var hive := HiveOf(path);
    RootNameShape(i);
    var segment, more := UnderSplits(RestOf(path), ROOT_NAMES[i]);
    var tail := more + left[|path|..];
    assert path == hive + RestOf(path);
    assert left == hive + ("\\" + segment + ("\\" + tail));
    HiveHasNoBackslash(path);
    var t := CutCases(hive, segment, tail, j);
    if left[..j] == hive {
      HiveInScope(hive);
    } else {
      RootInScope(hive, segment, t, i);
    }
  }

  lemma HiveHasNoBackslash(path: string)
    ensures '\\' !in HiveOf(path)
  {
  }

  /** The first backslash of a left-trimmed key under a root is not its first character. */
  lemma CutIsNotEmpty(path: string, left: string, j: nat)
    requires path <= left && LongForm(HiveOf(path)).Some? && j < |left| && left[j] == '\\'
    ensures j > 0
  {
    KnownHive(HiveOf(path));
    assert left[0] == path[0] != '\\';
  }

  /** Cutting commutes with trimming on the left. */
  lemma TrimLeftCut(key: string, at: nat) returns (j: nat)
    requires at < |key| && key[at] == '\\'
    ensures j < |TrimLeft(key)| && TrimLeft(key)[j] == '\\' && j <= at
    ensures j > 0 ==> TrimLeft(key[..at]) == TrimLeft(key)[..j]
  {
    var space := TrimLeftSplits(key);
    var left := TrimLeft(key);
    assert forall k :: 0 <= k < |space| ==> key[k] == space[k] && IsAsciiWhitespace(space[k]);
    j := at - |space|;
    assert left[j] == key[at];
    assert key[..at] == space + left[..j];
    TrimLeftOfSpace(space, left[..j]);
    if j > 0 {
      assert left[..j][0] == left[0];
    }
  }

  lemma StrippedIsPrefix(key: string)
    ensures Stripped(key) <= TrimLeft(key)
  {
    StripEnds(Trim(key));
    TrimRightKeepsPrefix("", TrimLeft(key));
  }

  /**
    Cutting a key inside the policy at any of its backslashes leaves a key in scope: every ancestor of an
    allowed key can be expanded on the way to it.
   */
  lemma CutStaysInScope(key: string, at: nat)
    requires at < |key| && key[at] == '\\' && Inside(ClassifyRegistryExclusion(key))
    ensures !ClassifyRegistryExclusion(key[..at]).OutOfScope?
  {
    var i := InsideIsUnderRoot(key);
    var j := TrimLeftCut(key, at);
    StrippedIsPrefix(key);
    CutIsNotEmpty(Stripped(key), TrimLeft(key), j);
    CutLeft(Stripped(key), TrimLeft(key), j, i);
  }

  // ----- Containers -----

  lemma BelowHasDeepBackslash(upper: string, i: nat)
    requires i < |ALLOWED_ROOT_PREFIXES| && |upper| > |ALLOWED_ROOT_PREFIXES[i]| && ALLOWED_ROOT_PREFIXES[i] <= upper
    ensures exists k :: |LOCAL_MACHINE| < k < |upper| && upper[k] == '\\'
  {
    PrefixIsRoot(0);
    PrefixIsRoot(i);
    var prefix := ALLOWED_ROOT_PREFIXES[i];
    var k := |prefix| - 1;
    assert upper[k] == prefix[k] == '\\';
  }

  /** A key with no backslash behind the first segment is not below a root. */
  lemma ShallowIsNotBelow(upper: string)
    requires forall k :: |LOCAL_MACHINE| < k < |upper| ==> upper[k] != '\\'
    ensures !Inside(ClassifyUpper(upper))
  {
    InsideIffBelowRoot(upper);
    if BelowRoot(upper) {
      var i :| 0 <= i < |ALLOWED_ROOT_PREFIXES| && |upper| > |ALLOWED_ROOT_PREFIXES[i]| && ALLOWED_ROOT_PREFIXES[i] <= upper;
      BelowHasDeepBackslash(upper, i);
    }
  }

  /** A text that, with a separator, touches a prefix but does not lie below it, ends with its separator inside the prefix. */
  lemma SeparatorInside(upper: string, prefix: string)
    requires upper != [] && upper[|upper| - 1] != '\\' && prefix != [] && prefix[|prefix| - 1] == '\\'
    requires upper + "\\" <= prefix || prefix <= upper + "\\"
    requires !(prefix <= upper && |upper| > |prefix|)
    ensures upper + "\\" <= prefix
  {
    var whole, n := upper + "\\", |upper|;
    assert whole[..n] == upper;
    if prefix <= whole {
      var m := if |prefix| < n then |prefix| else n;
      assert prefix[..m] == whole[..m] == upper[..m];
      assert prefix == whole[..|prefix|];
    }
  }

  /** A text that ends in front of a backslash of a hive's root key is the hive or the root. */
  lemma ContainerOf(upper: string, long: string, x: string)
    requires '\\' !in long && '\\' !in x
    requires upper + "\\" <= long + ("\\" + x) + "\\"
    ensures upper == long || upper == long + ("\\" + x)
  {
    var root, n := long + ("\\" + x), |upper|;
    assert (upper + "\\")[n] == (root + "\\")[n] == '\\' && (upper + "\\")[..n] == upper;
    assert upper == (root + "\\")[..n] == root[..n];
    forall k | 0 <= k < |root| && k != |long|
      ensures root[k] != '\\'
    {
      assert root[k] == if k < |long| then long[k] else x[k - |long| - 1];
    }
    assert root[..|long|] == long && root[..|root|] == root;
  }

  /** The containers are exactly the local machine hive and the roots; a normalised key never ends in a backslash. */
  lemma ContainersAreHiveAndRoots(upper: string)
    requires upper != [] && upper[|upper| - 1] != '\\'
    ensures ClassifyUpper(upper).Container? <==> upper == LOCAL_MACHINE || exists i :: 0 <= i < |ROOT_NAMES| && upper == RootKey(i)
  {
    if ClassifyUpper(upper).Container? {
      ContainerIsHiveOrRoot(upper);
    }
    if upper == LOCAL_MACHINE {
      HiveIsContainer();
      ShallowIsNotBelow(upper);
    }
    if exists i :: 0 <= i < |ROOT_NAMES| && upper == RootKey(i) {
      var i :| 0 <= i < |ROOT_NAMES| && upper == RootKey(i);
      RootIsInScope(upper, i);
      RootIsShallow(i);
      ShallowIsNotBelow(upper);
    }
  }

  lemma RootIsShallow(i: nat)
    requires i < |ROOT_NAMES|
    ensures forall k :: |LOCAL_MACHINE| < k < |RootKey(i)| ==> RootKey(i)[k] != '\\'
  {
    RootNameShape(i);
    forall k | |LOCAL_MACHINE| < k < |RootKey(i)|
      ensures RootKey(i)[k] != '\\'
    {
      assert RootKey(i)[k] == ROOT_NAMES[i][k - |LOCAL_MACHINE| - 1];
    }
  }

  lemma ContainerIsHiveOrRoot(upper: string)
    requires upper != [] && upper[|upper| - 1] != '\\' && ClassifyUpper(upper).Container?
    ensures upper == LOCAL_MACHINE || exists i :: 0 <= i < |ROOT_NAMES| && upper == RootKey(i)
  {
    var i :| 0 <= i < |ALLOWED_ROOT_PREFIXES| &&
      (upper + "\\" <= ALLOWED_ROOT_PREFIXES[i] || ALLOWED_ROOT_PREFIXES[i] <= upper + "\\");
    assert !(ALLOWED_ROOT_PREFIXES[i] <= upper && |upper| > |ALLOWED_ROOT_PREFIXES[i]|);
    ContainerAt(upper, i);
  }

  lemma LocalMachineHasNoBackslash()
    ensures '\\' !in LOCAL_MACHINE
  {
    forall k | 0 <= k < |LOCAL_MACHINE|
      ensures LOCAL_MACHINE[k] != '\\'
    {
    }
  }

  lemma RootKeySplits(i: nat)
    requires i < |ROOT_NAMES|
    ensures RootKey(i) == LOCAL_MACHINE + ("\\" + ROOT_NAMES[i])
  {
  }

  lemma ContainerAt(upper: string, i: nat)
    requires i < |ALLOWED_ROOT_PREFIXES| && upper != [] && upper[|upper| - 1] != '\\'
    requires upper + "\\" <= ALLOWED_ROOT_PREFIXES[i] || ALLOWED_ROOT_PREFIXES[i] <= upper + "\\"
    requires !(ALLOWED_ROOT_PREFIXES[i] <= upper && |upper| > |ALLOWED_ROOT_PREFIXES[i]|)
    ensures i < |ROOT_NAMES| && (upper == LOCAL_MACHINE || upper == RootKey(i))
  {
    PrefixIsRoot(0);
    PrefixIsRoot(i);
    SeparatorInside(upper, ALLOWED_ROOT_PREFIXES[i]);
    AncestorIsHiveOrRoot(upper, i);
  }

  lemma AncestorIsHiveOrRoot(upper: string, i: nat)
    requires i < |ROOT_NAMES| && upper + "\\" <= RootKey(i) + "\\"
    ensures upper == LOCAL_MACHINE || upper == RootKey(i)
  {
    RootNameShape(i);
    LocalMachineHasNoBackslash();
    RootKeySplits(i);
    ContainerOf(upper, LOCAL_MACHINE, ROOT_NAMES[i]);
  }

  // ----- The whole policy -----

  /** A normalised key never ends in a backslash. */
  lemma NormalizedEnd(key: string)
    ensures var r := Upper(Normalize(key)); r != [] ==> r[|r| - 1] != '\\'
  {
    StripEnds(Trim(key));
    ExpandedEnd(Stripped(key));
    if Normalize(key) != [] {
      LastCharacter(Normalize(key));
    }
  }

  lemma ExpandedEnd(path: string)
    requires path != [] ==> path[|path| - 1] != '\\'
    ensures Expand(path) != [] ==> Expand(path)[|Expand(path)| - 1] != '\\'
  {
    var long, rest := LongForm(HiveOf(path)), RestOf(path);
    if long.Some? {
      KnownHive(HiveOf(path));
      EndOfJoin(long.value, rest);
      assert rest != [] ==> rest[|rest| - 1] == path[|path| - 1];
    }
  }

  lemma EndOfJoin(a: string, b: string)
    requires a != []
    ensures (a + b)[|a + b| - 1] == if b == [] then a[|a| - 1] else b[|b| - 1]
  {
  }

  lemma BelowRootBySplit(upper: string)
    ensures BelowRoot(upper) <==> exists i, name :: 0 <= i < |ROOT_NAMES| && name != "" && upper == RootKey(i) + "\\" + name
  {
    PrefixIsRoot(0);
    if BelowRoot(upper) {
      var i :| 0 <= i < |ALLOWED_ROOT_PREFIXES| && |upper| > |ALLOWED_ROOT_PREFIXES[i]| && ALLOWED_ROOT_PREFIXES[i] <= upper;
      PrefixIsRoot(i);
      var name := upper[|ALLOWED_ROOT_PREFIXES[i]|..];
      assert upper == RootKey(i) + "\\" + name;
    }
    if exists i, name :: 0 <= i < |ROOT_NAMES| && name != "" && upper == RootKey(i) + "\\" + name {
      var i, name :| 0 <= i < |ROOT_NAMES| && name != "" && upper == RootKey(i) + "\\" + name;
      PrefixIsRoot(i);
    }
  }

  /**
    The whole policy as a tree: the containers are the hive and its allowed roots, everything strictly below a root
    is allowed but for the machine account's own key, and all other keys are out of scope.
   */
  lemma ClassesByTree(key: string)
    ensures var upper, c := Upper(Normalize(key)), ClassifyRegistryExclusion(key);
            && (c.Container? <==> upper == LOCAL_MACHINE || exists i :: 0 <= i < |ROOT_NAMES| && upper == RootKey(i))
            && (Inside(c) <==> exists i, name :: 0 <= i < |ROOT_NAMES| && name != "" && upper == RootKey(i) + "\\" + name)
            && (c.MachineAccount? <==> upper == MACHINE_ACCOUNT_KEY)
  {
    var upper := Upper(Normalize(key));
    InsideIffBelowRoot(upper);
    BelowRootBySplit(upper);
    if upper != [] {
      NormalizedEnd(key);
      ContainersAreHiveAndRoots(upper);
    }
  }
}
