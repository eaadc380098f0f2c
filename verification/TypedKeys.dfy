/** The registry policy on keys as they are typed, letter by letter. */
module TypedKeys {
  import opened Options
  import opened StringUtil
  import opened RegistryPath
  import opened RegistryExclusionPolicy

  /** Keys that agree at every position up to the case of an ASCII letter have the same class. */
  lemma SpellingDoesNotMatter(a: string, b: string)
    requires SameSpelling(a, b)
    ensures ClassifyRegistryExclusion(a) == ClassifyRegistryExclusion(b)
  {
    SameSpellingSameUpper(a, b);
    ClassIgnoresCase(a, b);
  }

  /** A root of the allowed tree, by its name. */
  predicate AllowedRoot(root: string) {
    || root == "BCD00000000" || root == "SYSTEM" || root == "SOFTWARE" || root == "SAM" || root == "SECURITY"
    || root == "COMPONENTS"
  }

  lemma RootByName(root: string) returns (i: nat)
    requires AllowedRoot(root)
    ensures i < |ROOT_NAMES| && ROOT_NAMES[i] == root
  {
    i := if root == "BCD00000000" then 0 else if root == "SYSTEM" then 1 else if root == "SOFTWARE" then 2
         else if root == "SAM" then 3 else if root == "SECURITY" then 4 else 5;
  }

  lemma NameOfRoot(i: nat)
    requires i < |ROOT_NAMES|
    ensures AllowedRoot(ROOT_NAMES[i]) && '\\' !in ROOT_NAMES[i]
  {
    RootNameShape(i);
  }

  /** The local machine hive under one of its names, in any case. */
  predicate LocalMachine(hive: string) {
    Names(hive, "HKLM", "HKEY_LOCAL_MACHINE")
  }

  /** A hive name, a backslash and a text that ends in neither whitespace nor a backslash are left as they are. */
  lemma SolidKey(hive: string, rest: string)
    requires LongForm(hive).Some? && rest != [] && rest[0] == '\\'
    requires !IsAsciiWhitespace(rest[|rest| - 1]) && rest[|rest| - 1] != '\\'
    ensures Normalize(hive + rest) == LongForm(hive).value + rest
  {
    KnownHive(hive);
    StrippedHive(hive, rest);
    assert TrimRight(rest) == rest && StripBackslashes(rest) == rest;
    ExpandHive(hive, rest);
  }

  lemma BackslashSpelling(c: char)
    requires SameLetter(c, '\\')
    ensures c == '\\'
  {
  }

  lemma KeyStart(segment: string, upper: string, name: string)
    requires SameSpelling(segment, upper) && upper != [] && upper[0] == '\\' && name != []
    ensures (segment + name)[0] == '\\' && (segment + name)[|segment + name| - 1] == name[|name| - 1]
  {
    assert SameLetter(segment[0], upper[0]);
    BackslashSpelling(segment[0]);
  }

  lemma UpperOfKey(long: string, segment: string, upper: string, name: string)
    requires SameSpelling(segment, upper) && Upper(long) == long && Upper(upper) == upper
    ensures Upper(long + (segment + name)) == long + (upper + Upper(name))
  {
    SameSpellingSameUpper(segment, upper);
    UpperAppend(long, segment + name);
    UpperAppend(segment, name);
  }

  /** The upper-case normal form of a key, given how its hive and its first segments are spelled. */
  lemma SpelledKey(hive: string, long: string, segment: string, upper: string, name: string)
    requires LongForm(hive) == Some(long) && SameSpelling(segment, upper) && Upper(upper) == upper
    requires upper != [] && upper[0] == '\\'
    requires name != "" && !IsAsciiWhitespace(name[|name| - 1]) && name[|name| - 1] != '\\'
    ensures Upper(Normalize(hive + (segment + name))) == long + (upper + Upper(name))
  {
    KnownHive(hive);
    KeyStart(segment, upper, name);
    SolidKey(hive, segment + name);
    UpperOfKey(long, segment, upper, name);
  }

  function RootSegment(root: string): string {
    "\\" + root + "\\"
  }

  lemma RootNameIsUpper(i: nat)
    requires i < |ROOT_NAMES|
    ensures Upper(RootSegment(ROOT_NAMES[i])) == RootSegment(ROOT_NAMES[i])
  {
    var segment := RootSegment(ROOT_NAMES[i]);
    NoLowerCase(i);
    UpperOfUpper(segment);
  }

  lemma NoLowerCase(i: nat)
    requires i < |ROOT_NAMES|
    ensures forall k :: 0 <= k < |ROOT_NAMES[i]| ==> !('a' <= ROOT_NAMES[i][k] <= 'z')
  {
  }

  /** Of two keys of the form hive, backslash, segment, backslash, name, equality is equality part by part. */
  lemma SegmentsAgree(a: string, b: string, x: string, y: string)
    requires '\\' !in a && '\\' !in b
    ensures RootSegment(a) + x == RootSegment(b) + y <==> a == b && x == y
  {
    if RootSegment(a) + x == RootSegment(b) + y {
      var p, q := a + ("\\" + x), b + ("\\" + y);
      assert RootSegment(a) + x == "\\" + p && RootSegment(b) + y == "\\" + q;
      assert p == ("\\" + p)[1..] == ("\\" + q)[1..] == q;
      FirstSlashAfter(a, x);
      FirstSlashAfter(b, y);
      assert a == p[..|a|] && b == q[..|b|];
      assert x == p[|a| + 1..] && y == q[|b| + 1..];
    }
  }

  lemma FirstSlashAfter(a: string, x: string)
    requires '\\' !in a
    ensures FirstSlash(a + ("\\" + x)) == |a|
  {
    FirstSlashUnique(a + ("\\" + x), |a|);
  }

  const MACHINE_ACCOUNT_NAME: string := "POLICY\\SECRETS\\$MACHINE.ACC"

  lemma RootPrefixSplits(i: nat, name: string)
    requires i < |ROOT_NAMES|
    ensures |ALLOWED_ROOT_PREFIXES| == |ROOT_NAMES|
    ensures LOCAL_MACHINE + (RootSegment(ROOT_NAMES[i]) + name) == ALLOWED_ROOT_PREFIXES[i] + name
  {
    PrefixIsRoot(i);
    assert LOCAL_MACHINE + (RootSegment(ROOT_NAMES[i]) + name) == RootKey(i) + "\\" + name;
  }

  lemma MachineAccountJoins()
    ensures ALLOWED_ROOT_PREFIXES[4] + MACHINE_ACCOUNT_NAME == MACHINE_ACCOUNT_KEY
  {
  }

  lemma MachineAccountSplits()
    ensures MACHINE_ACCOUNT_KEY == LOCAL_MACHINE + (RootSegment("SECURITY") + MACHINE_ACCOUNT_NAME)
  {
    MachineAccountJoins();
    RootPrefixSplits(4, MACHINE_ACCOUNT_NAME);
  }

  lemma MachineAccountIsUpper()
    ensures Upper(MACHINE_ACCOUNT_NAME) == MACHINE_ACCOUNT_NAME
  {
    AccountHasNoLowerCase();
    UpperOfUpper(MACHINE_ACCOUNT_NAME);
  }

  lemma AccountHasNoLowerCase()
    ensures forall k :: 0 <= k < |MACHINE_ACCOUNT_NAME| ==> !('a' <= MACHINE_ACCOUNT_NAME[k] <= 'z')
  {
  }

  lemma SameTail(long: string, a: string, b: string)
    ensures long + a == long + b <==> a == b
  {
    assert (long + a)[|long|..] == a && (long + b)[|long|..] == b;
  }

  /** Two keys under one hive, given by root and name, are equal in upper case exactly if root and spelling agree. */
  lemma KeysAgree(long: string, root: string, name: string, other: string, account: string)
    requires '\\' !in root && '\\' !in other && Upper(account) == account
    ensures long + (RootSegment(root) + Upper(name)) == long + (RootSegment(other) + account)
       <==> root == other && SameSpelling(name, account)
  {
    SameTail(long, RootSegment(root) + Upper(name), RootSegment(other) + account);
    SegmentsAgree(root, other, Upper(name), account);
    SameSpellingSameUpper(name, account);
  }

  lemma WhenMachineAccount(root: string, name: string)
    requires '\\' !in root
    ensures LOCAL_MACHINE + (RootSegment(root) + Upper(name)) == MACHINE_ACCOUNT_KEY
       <==> root == "SECURITY" && SameSpelling(name, MACHINE_ACCOUNT_NAME)
  {
    MachineAccountSplits();
    AccountKeys(LOCAL_MACHINE, root, name, "SECURITY");
  }

  lemma AccountKeys(long: string, root: string, name: string, other: string)
    requires '\\' !in root && other == "SECURITY"
    ensures long + (RootSegment(root) + Upper(name)) == long + (RootSegment(other) + MACHINE_ACCOUNT_NAME)
       <==> root == other && SameSpelling(name, MACHINE_ACCOUNT_NAME)
  {
    MachineAccountIsUpper();
    SecurityHasNoBackslash();
    KeysAgree(long, root, name, other, MACHINE_ACCOUNT_NAME);
  }

  lemma SecurityHasNoBackslash()
    ensures '\\' !in "SECURITY"
  {
  }

  lemma UnderRootIsInside(i: nat, name: string)
    requires i < |ROOT_NAMES| && name != ""
    ensures BelowRoot(LOCAL_MACHINE + (RootSegment(ROOT_NAMES[i]) + name))
  {
    RootPrefixSplits(i, name);
  }

  lemma HiveSpelledOut(hive: string)
    requires LocalMachine(hive)
    ensures LongForm(hive) == Some(LOCAL_MACHINE)
  {
    HivesSpelledOut(hive);
  }

  /**
    The policy on keys as they are typed: below each of the six roots of the local machine, with the hive in its short or
    long form and every letter in any case, a key is allowed, except for the machine account below SECURITY.
   */
  lemma TypedKeyIsAllowed(hive: string, segment: string, root: string, name: string)
    requires LocalMachine(hive) && AllowedRoot(root) && SameSpelling(segment, "\\" + root + "\\")
    requires name != "" && !IsAsciiWhitespace(name[|name| - 1]) && name[|name| - 1] != '\\'
    ensures ClassifyRegistryExclusion(hive + (segment + name))
         == if root == "SECURITY" && SameSpelling(name, "POLICY\\SECRETS\\$MACHINE.ACC") then MachineAccount else Allowed
  {
    var i := RootByName(root);
    HiveSpelledOut(hive);
    RootNameIsUpper(i);
    SpelledKey(hive, LOCAL_MACHINE, segment, RootSegment(root), name);
    NameOfRoot(i);
    WhenMachineAccount(root, name);
    UnderRootIsInside(i, Upper(name));
  }

  // ----- The containers, spelled out -----

  lemma RootKeysSpelledOut()
    ensures RootKey(0) == "HKEY_LOCAL_MACHINE\\BCD00000000" && RootKey(1) == "HKEY_LOCAL_MACHINE\\SYSTEM"
    ensures RootKey(2) == "HKEY_LOCAL_MACHINE\\SOFTWARE" && RootKey(3) == "HKEY_LOCAL_MACHINE\\SAM"
    ensures RootKey(4) == "HKEY_LOCAL_MACHINE\\SECURITY" && RootKey(5) == "HKEY_LOCAL_MACHINE\\COMPONENTS"
  {
  }

  /** The local machine hive or one of its six roots, in upper case. */
  predicate Expandable(upper: string) {
    || upper == "HKEY_LOCAL_MACHINE" || upper == "HKEY_LOCAL_MACHINE\\BCD00000000" || upper == "HKEY_LOCAL_MACHINE\\SYSTEM"
    || upper == "HKEY_LOCAL_MACHINE\\SOFTWARE" || upper == "HKEY_LOCAL_MACHINE\\SAM"
    || upper == "HKEY_LOCAL_MACHINE\\SECURITY" || upper == "HKEY_LOCAL_MACHINE\\COMPONENTS"
  }

  lemma ExpandableByIndex(upper: string)
    ensures Expandable(upper) <==> upper == LOCAL_MACHINE || exists i :: 0 <= i < |ROOT_NAMES| && upper == RootKey(i)
  {
    RootKeysSpelledOut();
  }

  /** The containers are the keys whose normal form, in upper case, is one of these seven. */
  lemma ContainersSpelledOut(key: string)
    ensures ClassifyRegistryExclusion(key).Container? <==> Expandable(Upper(Normalize(key)))
  {
    ClassesByTree(key);
    ExpandableByIndex(Upper(Normalize(key)));
  }
}
