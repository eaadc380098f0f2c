/** Normalisation of registry keys (src/shared/RegistryPath.cpp). */
module RegistryPath {
  import opened Options
  import opened StringUtil

  datatype HiveName = HiveName(shortForm: string, longForm: string)

  const HIVE_NAMES: seq<HiveName> := [
    HiveName("HKLM", "HKEY_LOCAL_MACHINE"), HiveName("HKCU", "HKEY_CURRENT_USER"), HiveName("HKCR", "HKEY_CLASSES_ROOT"),
    HiveName("HKU", "HKEY_USERS"), HiveName("HKCC", "HKEY_CURRENT_CONFIG")
  ]

  /** The long form of the first table entry from `from` on that matches an upper-case hive name. */
  function LookUp(hive: string, from: nat): Option<string>
    requires from <= |HIVE_NAMES|
    decreases |HIVE_NAMES| - from
  {
    if from == |HIVE_NAMES| then None
    else if hive == HIVE_NAMES[from].shortForm || hive == HIVE_NAMES[from].longForm then Some(HIVE_NAMES[from].longForm)
    else LookUp(hive, from + 1)
  }

  function LongForm(hive: string): Option<string> {
    LookUp(Upper(hive), 0)
  }

  function StripBackslashes(path: string): string {
    if path != [] && path[|path| - 1] == '\\' then StripBackslashes(path[..|path| - 1]) else path
  }

  /** The position of the first backslash, or the length of the path. */
  function FirstSlash(path: string): (i: nat)
    ensures i <= |path|
    ensures forall k :: 0 <= k < i ==> path[k] != '\\'
    ensures i < |path| ==> path[i] == '\\'
  {
    if path == [] || path[0] == '\\' then 0 else 1 + FirstSlash(path[1..])
  }

  function HiveOf(path: string): string {
    path[..FirstSlash(path)]
  }

  function RestOf(path: string): string {
    path[FirstSlash(path)..]
  }

  /** The key without outer whitespace and trailing backslashes. */
  function Stripped(key: string): string {
    StripBackslashes(Trim(key))
  }

  /** Spells the hive of a path in full, where it is known. */
  function Expand(path: string): string {
    var long := LongForm(HiveOf(path));
    if long.Some? then long.value + RestOf(path) else path
  }

  function Normalize(key: string): string {
    Expand(Stripped(key))
  }

  // ----- The imperative form -----

  method FindHive(hiveUpper: string) returns (long: Option<string>)
    ensures long == LookUp(hiveUpper, 0)
  {
    var i := 0;
    while i < |HIVE_NAMES|
      invariant 0 <= i <= |HIVE_NAMES|
      invariant LookUp(hiveUpper, 0) == LookUp(hiveUpper, i)
    {
      if hiveUpper == HIVE_NAMES[i].shortForm || hiveUpper == HIVE_NAMES[i].longForm {
        return Some(HIVE_NAMES[i].longForm);
      }
      i := i + 1;
    }
    long := None;
  }

  method NormalizeKey(key: string) returns (r: string)
    ensures r == Normalize(key)
  {
    var path := TrimAscii(key);
    while path != [] && path[|path| - 1] == '\\'
      invariant StripBackslashes(path) == Stripped(key)
      decreases |path|
    {
      path := path[..|path| - 1];
    }
    if path == [] {
      EmptyHive();
      return [];
    }
    var slash := 0;
    while slash < |path| && path[slash] != '\\'
      invariant 0 <= slash <= FirstSlash(path)
    {
      slash := slash + 1;
    }
    assert slash == FirstSlash(path);
    var hive, rest := path[..slash], path[slash..];
    var hiveUpper := ToUpperAscii(hive);
    var long := FindHive(hiveUpper);
    r := if long.Some? then long.value + rest else path;
  }

  // ----- The hive table -----

  /** A hive name in upper case, without backslash, starting and ending with something other than whitespace. */
  predicate HiveShape(h: string) {
    && |h| > 0 && Upper(h) == h && '\\' !in h
    && !IsAsciiWhitespace(h[0]) && !IsAsciiWhitespace(h[|h| - 1])
  }

  lemma UpperOfUpper(h: string)
    requires forall i :: 0 <= i < |h| ==> !('a' <= h[i] <= 'z')
    ensures Upper(h) == h
  {
  }

  /** Capital letters and underscores only. */
  predicate Plain(h: string) {
    |h| > 0 && forall i :: 0 <= i < |h| ==> 'A' <= h[i] <= 'Z' || h[i] == '_'
  }

  lemma PlainShape(h: string)
    requires Plain(h)
    ensures HiveShape(h)
  {
    UpperOfUpper(h);
  }

  lemma ShortFormsArePlain()
    ensures Plain("HKLM") && Plain("HKCU") && Plain("HKCR") && Plain("HKU") && Plain("HKCC")
  {
  }

  lemma LocalMachineIsPlain()
    ensures Plain("HKEY_LOCAL_MACHINE")
  {
  }

  lemma UserHivesArePlain()
    ensures Plain("HKEY_CURRENT_USER") && Plain("HKEY_USERS")
  {
  }

  lemma OtherHivesArePlain()
    ensures Plain("HKEY_CLASSES_ROOT") && Plain("HKEY_CURRENT_CONFIG")
  {
  }

  lemma EntryShapes(i: nat)
    requires i < |HIVE_NAMES|
    ensures HiveShape(HIVE_NAMES[i].shortForm) && HiveShape(HIVE_NAMES[i].longForm)
  {
    ShortFormsArePlain();
    LocalMachineIsPlain();
    UserHivesArePlain();
    OtherHivesArePlain();
    PlainShape(HIVE_NAMES[i].shortForm);
    PlainShape(HIVE_NAMES[i].longForm);
  }

  /** A long form is itself found under its own entry: no earlier entry claims it. */
  lemma LongFormIsOwn(i: nat)
    requires i < |HIVE_NAMES|
    ensures LookUp(HIVE_NAMES[i].longForm, 0) == Some(HIVE_NAMES[i].longForm)
  {
    SearchOwn(i, 0);
  }

  lemma {:induction false} SearchOwn(i: nat, from: nat)
    requires from <= i < |HIVE_NAMES|
    ensures LookUp(HIVE_NAMES[i].longForm, from) == Some(HIVE_NAMES[i].longForm)
    decreases i - from
  {
    if from < i {
      Distinguished(i, from);
      SearchOwn(i, from + 1);
    }
  }

  lemma Distinguished(i: nat, j: nat)
    requires i < |HIVE_NAMES| && j < |HIVE_NAMES| && i != j
    ensures HIVE_NAMES[i].longForm != HIVE_NAMES[j].longForm && HIVE_NAMES[i].longForm != HIVE_NAMES[j].shortForm
  {
    assert |HIVE_NAMES[0].longForm| == 18;
    assert |HIVE_NAMES[1].longForm| == 17;
    assert |HIVE_NAMES[2].longForm| == 17;
    assert |HIVE_NAMES[3].longForm| == 10;
    assert |HIVE_NAMES[4].longForm| == 19;
    assert HIVE_NAMES[1].longForm[6] == 'U' && HIVE_NAMES[2].longForm[6] == 'L';
  }

  /** A search that succeeds returns the long form of an entry that the name matches. */
  lemma {:induction false} LookUpMatches(hive: string, from: nat) returns (i: nat)
    requires from <= |HIVE_NAMES| && LookUp(hive, from).Some?
    ensures i < |HIVE_NAMES| && LookUp(hive, from) == Some(HIVE_NAMES[i].longForm)
    ensures hive == HIVE_NAMES[i].shortForm || hive == HIVE_NAMES[i].longForm
    decreases |HIVE_NAMES| - from
  {
    if hive == HIVE_NAMES[from].shortForm || hive == HIVE_NAMES[from].longForm {
      i := from;
    } else {
      i := LookUpMatches(hive, from + 1);
    }
  }

  /** A known hive has the shape of a hive name, and so has its long form, which is its own long form. */
  lemma KnownHive(hive: string)
    requires LongForm(hive).Some?
    ensures HiveShape(Upper(hive)) && HiveShape(LongForm(hive).value)
    ensures LongForm(LongForm(hive).value) == LongForm(hive)
  {
    var i := LookUpMatches(Upper(hive), 0);
    EntryShapes(i);
    LongFormIsOwn(i);
  }

  lemma EmptyHive()
    ensures LongForm("") == None
  {
    if LongForm("").Some? {
      KnownHive("");
    }
  }

  // ----- Paths -----

  lemma {:induction false} StripKeepsPrefix(p: string, s: string)
    requires p <= s && (p != [] ==> p[|p| - 1] != '\\')
    ensures p <= StripBackslashes(s) <= s
  {
    if s != [] && s[|s| - 1] == '\\' {
      assert |p| == |s| ==> p == s;
      StripKeepsPrefix(p, s[..|s| - 1]);
    }
  }

  lemma {:induction false} StripEnds(s: string)
    ensures var r := StripBackslashes(s); r <= s && (r != [] ==> r[|r| - 1] != '\\')
  {
    if s != [] && s[|s| - 1] == '\\' {
      StripEnds(s[..|s| - 1]);
    }
  }

  lemma {:induction false} StripUpper(s: string)
    ensures StripBackslashes(Upper(s)) == Upper(StripBackslashes(s))
  {
    if s != [] && s[|s| - 1] == '\\' {
      StripUpper(s[..|s| - 1]);
      assert Upper(s)[..|s| - 1] == Upper(s[..|s| - 1]);
    }
  }

  /** The stripped key starts with something other than whitespace and does not end in a backslash. */
  lemma StrippedShape(key: string)
    ensures var p := Stripped(key);
            p != [] ==> !IsAsciiWhitespace(p[0]) && p[|p| - 1] != '\\'
  {
    var before, after := TrimCutsWhitespace(key);
    StripEnds(Trim(key));
  }

  lemma FirstSlashUnique(path: string, i: nat)
    requires i <= |path| && (forall k :: 0 <= k < i ==> path[k] != '\\') && (i < |path| ==> path[i] == '\\')
    ensures FirstSlash(path) == i
  {
  }

  lemma FirstSlashUpper(path: string)
    ensures FirstSlash(Upper(path)) == FirstSlash(path)
  {
    FirstSlashUnique(Upper(path), FirstSlash(path));
  }

  lemma ExpandUpper(path: string)
    ensures Expand(Upper(path)) == Upper(Expand(path))
  {
    FirstSlashUpper(path);
    var f := FirstSlash(path);
    assert Upper(path)[..f] == Upper(path[..f]) && Upper(path)[f..] == Upper(path[f..]);
    UpperIsIdempotent(path[..f]);
    if LongForm(path[..f]).Some? {
      KnownHive(path[..f]);
      UpperAppend(LongForm(path[..f]).value, path[f..]);
    }
  }

  /** Normalisation commutes with upper-casing, on every key. */
  lemma NormalizeUpper(key: string)
    ensures Normalize(Upper(key)) == Upper(Normalize(key))
  {
    TrimUpper(key);
    StripUpper(Trim(key));
    ExpandUpper(Stripped(key));
  }

  /** The long and the short spelling of a known hive are one. */
  lemma ExpandHive(hive: string, rest: string)
    requires LongForm(hive).Some? && (rest != [] ==> rest[0] == '\\')
    ensures Expand(hive + rest) == LongForm(hive).value + rest
    ensures Expand(LongForm(hive).value + rest) == LongForm(hive).value + rest
  {
    KnownHive(hive);
    var long := LongForm(hive).value;
    SplitHive(hive, rest);
    SplitHive(long, rest);
    UpperOfUpperChars(hive);
  }

  lemma UpperOfUpperChars(hive: string)
    requires HiveShape(Upper(hive))
    ensures '\\' !in hive
  {
    forall i | 0 <= i < |hive|
      ensures hive[i] != '\\'
    {
      assert Upper(hive)[i] != '\\';
    }
  }

  lemma SplitHive(hive: string, rest: string)
    requires HiveShape(Upper(hive)) && (rest != [] ==> rest[0] == '\\')
    ensures HiveOf(hive + rest) == hive && RestOf(hive + rest) == rest
  {
    UpperOfUpperChars(hive);
    FirstSlashUnique(hive + rest, |hive|);
  }

  /** A path that is stripped, trimmed and spelled out is left alone. */
  lemma NormalFormIsFixed(path: string)
    requires path != [] && Trimmed(path) && path[|path| - 1] != '\\' && Expand(path) == path
    ensures Normalize(path) == path
  {
    assert TrimLeft(path) == path && TrimRight(path) == path;
  }

  /**
    Normalising twice is the same as normalising once exactly when the key, trimmed and without trailing
    backslashes, does not end in whitespace.
   */
  lemma NormalizeIdempotentIff(key: string)
    ensures var p := Stripped(key);
            Normalize(Normalize(key)) == Normalize(key) <==> (p != [] ==> !IsAsciiWhitespace(p[|p| - 1]))
  {
    var p, n := Stripped(key), Normalize(key);
    StrippedShape(key);
    EmptyHive();
    if p == [] {
      assert n == [] && Normalize([]) == [];
    } else {
      NormalizedShape(p);
      if IsAsciiWhitespace(p[|p| - 1]) {
        var before, after := TrimCutsWhitespace(n);
        StripEnds(Trim(n));
        ShorterAfterTrim(n);
      } else {
        NormalFormIsFixed(n);
      }
    }
  }

  /**
    The condition is needed: normalising this key once leaves a blank at its end, which normalising again removes.
   */
  lemma NormalizeIsNotIdempotent()
    ensures Normalize("HKLM\\a \\") == "HKEY_LOCAL_MACHINE\\a "
    ensures Normalize("HKEY_LOCAL_MACHINE\\a ") == "HKEY_LOCAL_MACHINE\\a"
  {
    BlankStaysOnce();
    BlankGoesThen();
  }

  /** A path that begins with something other than whitespace and ends in neither whitespace nor a backslash. */
  predicate Solid(p: string) {
    p != [] && !IsAsciiWhitespace(p[0]) && !IsAsciiWhitespace(p[|p| - 1]) && p[|p| - 1] != '\\'
  }

  /** A backslash protects the blank in front of it from being trimmed. */
  lemma BlankProtected(p: string)
    requires Solid(p)
    ensures Stripped(p + " \\") == p + " "
  {
    var key := p + " \\";
    assert key[0] == p[0] && TrimLeft(key) == key && TrimRight(key) == key;
    assert key[..|key| - 1] == p + " ";
    assert StripBackslashes(p + " ") == p + " ";
  }

  lemma BlankTrimmed(p: string)
    requires Solid(p)
    ensures Stripped(p + " ") == p
  {
    var key := p + " ";
    assert key[0] == p[0] && TrimLeft(key) == key;
    assert key[..|key| - 1] == p;
    assert TrimRight(key) == TrimRight(p) == p;
  }

  lemma BlankStaysOnce()
    ensures Normalize("HKLM\\a \\") == "HKEY_LOCAL_MACHINE\\a "
  {
    assert "HKLM\\a \\" == "HKLM\\a" + " \\" && "HKLM\\a" + " " == "HKLM" + "\\a ";
    BlankProtected("HKLM\\a");
    SpelledOut("HKLM", "\\a ");
    assert "HKEY_LOCAL_MACHINE" + "\\a " == "HKEY_LOCAL_MACHINE\\a ";
  }

  lemma BlankGoesThen()
    ensures Normalize("HKEY_LOCAL_MACHINE\\a ") == "HKEY_LOCAL_MACHINE\\a"
  {
    assert "HKEY_LOCAL_MACHINE\\a " == "HKEY_LOCAL_MACHINE\\a" + " ";
    assert "HKEY_LOCAL_MACHINE\\a" == "HKEY_LOCAL_MACHINE" + "\\a";
    BlankTrimmed("HKEY_LOCAL_MACHINE\\a");
    SpelledOut("HKEY_LOCAL_MACHINE", "\\a");
  }

  lemma SpelledOut(hive: string, rest: string)
    requires hive == "HKLM" || hive == "HKEY_LOCAL_MACHINE"
    requires rest != [] && rest[0] == '\\'
    ensures Expand(hive + rest) == "HKEY_LOCAL_MACHINE" + rest
  {
    EntryShapes(0);
    assert LongForm(hive) == Some(HIVE_NAMES[0].longForm);
    ExpandHive(hive, rest);
  }

  /** The last characters of a path before and after its hive is spelled out agree in being whitespace or not. */
  lemma ExpandedEnds(hive: string, long: string, rest: string)
    requires HiveShape(Upper(hive)) && HiveShape(long)
    requires var p := hive + rest; p[|p| - 1] != '\\'
    ensures var p, n := hive + rest, long + rest;
            && n[|n| - 1] != '\\'
            && (IsAsciiWhitespace(n[|n| - 1]) <==> IsAsciiWhitespace(p[|p| - 1]))
  {
    if rest == [] {
      assert hive + rest == hive && long + rest == long;
      assert Upper(hive)[|hive| - 1] == UpperChar(hive[|hive| - 1]);
    } else {
      assert (hive + rest)[|hive + rest| - 1] == rest[|rest| - 1] == (long + rest)[|long + rest| - 1];
    }
  }

  /** Expanding a known hive keeps the outer characters in kind, and expanding again changes nothing. */
  lemma KnownHiveShape(hive: string, rest: string)
    requires LongForm(hive).Some? && (rest != [] ==> rest[0] == '\\' && rest[|rest| - 1] != '\\')
    ensures var p, n := hive + rest, LongForm(hive).value + rest;
            && Expand(p) == n && Expand(n) == n
            && p != [] && n != [] && !IsAsciiWhitespace(n[0]) && n[|n| - 1] != '\\'
            && (IsAsciiWhitespace(n[|n| - 1]) <==> IsAsciiWhitespace(p[|p| - 1]))
  {
    KnownHive(hive);
    UpperOfUpperChars(hive);
    ExpandHive(hive, rest);
    ExpandedEnds(hive, LongForm(hive).value, rest);
  }

  /** Expanding keeps the outer characters in kind, and expanding again changes nothing. */
  lemma NormalizedShape(p: string)
    requires p != [] && !IsAsciiWhitespace(p[0]) && p[|p| - 1] != '\\'
    ensures var n := Expand(p);
            && n != [] && !IsAsciiWhitespace(n[0]) && n[|n| - 1] != '\\'
            && (IsAsciiWhitespace(n[|n| - 1]) <==> IsAsciiWhitespace(p[|p| - 1]))
            && Expand(n) == n
  {
    var hive, rest := HiveOf(p), RestOf(p);
    if LongForm(hive).Some? {
      assert p == hive + rest;
      assert rest != [] ==> rest[|rest| - 1] == p[|p| - 1];
      KnownHiveShape(hive, rest);
    }
  }

  lemma ExpandLength(path: string)
    requires LongForm(HiveOf(path)).Some?
    ensures |Expand(path)| == |LongForm(HiveOf(path)).value| + |path| - |HiveOf(path)|
  {
  }

  /** Of a proper prefix of an expanded path, expanding makes something else than the path. */
  lemma ExpandOfPrefix(n: string, q: string)
    requires q <= n && |q| < |n| && Expand(n) == n && IsAsciiWhitespace(n[|n| - 1])
    ensures Expand(q) != n
  {
    if LongForm(HiveOf(q)).Some? {
      if FirstSlash(q) < |q| {
        FirstSlashUnique(n, FirstSlash(q));
        assert HiveOf(n) == HiveOf(q);
        ExpandLength(n);
        ExpandLength(q);
      } else {
        KnownHive(HiveOf(q));
        assert RestOf(q) == [];
      }
    }
  }

  /** A text that ends in whitespace is not what normalisation leaves of it. */
  lemma ShorterAfterTrim(n: string)
    requires n != [] && IsAsciiWhitespace(n[|n| - 1]) && !IsAsciiWhitespace(n[0]) && Expand(n) == n
    ensures Normalize(n) != n
  {
    StripEnds(Trim(n));
    TrimRightShorter(n);
    assert TrimLeft(n) == n;
    ExpandOfPrefix(n, Stripped(n));
  }

  lemma TrimRightShorter(n: string)
    requires n != [] && IsAsciiWhitespace(n[|n| - 1])
    ensures |TrimRight(n)| < |n| && TrimRight(n) <= n
  {
    TrimRightKeepsPrefix([], n[..|n| - 1]);
  }

  // ----- The hives, spelled out -----

  /** Spelled, in any case, like the short or the long form. */
  predicate Names(hive: string, shortForm: string, longForm: string) {
    SameSpelling(hive, shortForm) || SameSpelling(hive, longForm)
  }

  lemma EntryNames(i: nat, hive: string)
    requires i < |HIVE_NAMES|
    ensures Names(hive, HIVE_NAMES[i].shortForm, HIVE_NAMES[i].longForm)
       <==> Upper(hive) == HIVE_NAMES[i].shortForm || Upper(hive) == HIVE_NAMES[i].longForm
  {
    EntryShapes(i);
    SameSpellingSameUpper(hive, HIVE_NAMES[i].shortForm);
    SameSpellingSameUpper(hive, HIVE_NAMES[i].longForm);
  }

  lemma LookUpStep(hive: string, from: nat, entry: HiveName)
    requires from < |HIVE_NAMES| && HIVE_NAMES[from] == entry
    ensures LookUp(Upper(hive), from)
         == if Names(hive, entry.shortForm, entry.longForm) then Some(entry.longForm) else LookUp(Upper(hive), from + 1)
  {
    EntryNames(from, hive);
  }

  lemma LastHives(hive: string)
    ensures LookUp(Upper(hive), 3)
         == if Names(hive, "HKU", "HKEY_USERS") then Some("HKEY_USERS")
            else if Names(hive, "HKCC", "HKEY_CURRENT_CONFIG") then Some("HKEY_CURRENT_CONFIG")
            else None
  {
    LookUpStep(hive, 3, HiveName("HKU", "HKEY_USERS"));
    LookUpStep(hive, 4, HiveName("HKCC", "HKEY_CURRENT_CONFIG"));
  }

  lemma LaterHives(hive: string)
    ensures LookUp(Upper(hive), 1)
         == if Names(hive, "HKCU", "HKEY_CURRENT_USER") then Some("HKEY_CURRENT_USER")
            else if Names(hive, "HKCR", "HKEY_CLASSES_ROOT") then Some("HKEY_CLASSES_ROOT")
            else LookUp(Upper(hive), 3)
  {
    LookUpStep(hive, 1, HiveName("HKCU", "HKEY_CURRENT_USER"));
    LookUpStep(hive, 2, HiveName("HKCR", "HKEY_CLASSES_ROOT"));
  }

  /** Each of the five hives is known by two names in any case, and no other name is expanded. */
  lemma HivesSpelledOut(hive: string)
    ensures LongForm(hive)
         == if Names(hive, "HKLM", "HKEY_LOCAL_MACHINE") then Some("HKEY_LOCAL_MACHINE")
            else if Names(hive, "HKCU", "HKEY_CURRENT_USER") then Some("HKEY_CURRENT_USER")
            else if Names(hive, "HKCR", "HKEY_CLASSES_ROOT") then Some("HKEY_CLASSES_ROOT")
            else if Names(hive, "HKU", "HKEY_USERS") then Some("HKEY_USERS")
            else if Names(hive, "HKCC", "HKEY_CURRENT_CONFIG") then Some("HKEY_CURRENT_CONFIG")
            else None
  {
    LookUpStep(hive, 0, HiveName("HKLM", "HKEY_LOCAL_MACHINE"));
    LaterHives(hive);
    LastHives(hive);
  }

  /** Two keys that differ in the case of letters only have the same hive, or none, and normal forms that differ likewise. */
  lemma SpellingIsKept(a: string, b: string)
    requires SameSpelling(a, b)
    ensures SameSpelling(Normalize(a), Normalize(b))
    ensures LongForm(a) == LongForm(b)
  {
    SameSpellingSameUpper(a, b);
    NormalizeUpper(a);
    NormalizeUpper(b);
    SameSpellingSameUpper(Normalize(a), Normalize(b));
  }

  /** Stripping cuts trailing backslashes and nothing else. */
  lemma {:induction false} StripCutsBackslashes(s: string)
    ensures var r := StripBackslashes(s);
            && r <= s && (r != [] ==> r[|r| - 1] != '\\')
            && forall i :: |r| <= i < |s| ==> s[i] == '\\'
  {
    if s != [] && s[|s| - 1] == '\\' {
      StripCutsBackslashes(s[..|s| - 1]);
      var r := StripBackslashes(s);
      forall i | |r| <= i < |s|
        ensures s[i] == '\\'
      {
        if i < |s| - 1 {
          assert s[..|s| - 1][i] == s[i];
        }
      }
    }
  }

  lemma HiveOfUpper(path: string)
    ensures HiveOf(Upper(path)) == Upper(HiveOf(path))
  {
    FirstSlashUpper(path);
    assert path == HiveOf(path) + RestOf(path);
    UpperAppend(HiveOf(path), RestOf(path));
    assert Upper(path)[..FirstSlash(path)] == Upper(HiveOf(path));
  }

  lemma StrippedUpper(key: string)
    ensures Stripped(Upper(key)) == Upper(Stripped(key))
  {
    TrimUpper(key);
    StripUpper(Trim(key));
  }

  /** Keys that differ in the case of letters only name the same hive behind their outer whitespace, or no known one. */
  lemma SameHive(a: string, b: string)
    requires SameSpelling(a, b)
    ensures LongForm(HiveOf(Stripped(a))) == LongForm(HiveOf(Stripped(b)))
  {
    SameSpellingSameUpper(a, b);
    StrippedUpper(a);
    StrippedUpper(b);
    HiveOfUpper(Stripped(a));
    HiveOfUpper(Stripped(b));
  }
}
