/**
  The canonical form of exclusion lists (src/core/UwfModel.cpp): a stable sort under ASCII case folding followed by
  the removal of adjacent entries that are equal up to case.
 */
module Exclusions {
  import opened StringUtil

  // ----- Folding and comparison -----

  function FoldAscii(c: char): char {
    if 'A' <= c <= 'Z' then ((c as int) - ('A' as int) + ('a' as int)) as char else c
  }

  /** Lexicographic comparison of folded characters. */
  predicate CaseInsensitiveLess(left: string, right: string) {
    if right == [] then false
    else if left == [] then true
    else
      || FoldAscii(left[0]) < FoldAscii(right[0])
      || (FoldAscii(left[0]) == FoldAscii(right[0]) && CaseInsensitiveLess(left[1..], right[1..]))
  }

  predicate CaseInsensitiveEqual(left: string, right: string) {
    |left| == |right| && forall i :: 0 <= i < |left| ==> FoldAscii(left[i]) == FoldAscii(right[i])
  }

  lemma {:induction false} LessIrreflexive(a: string)
    ensures !CaseInsensitiveLess(a, a)
  {
    if a != [] {
      LessIrreflexive(a[1..]);
    }
  }

  lemma {:induction false} LessTransitive(a: string, b: string, c: string)
    requires CaseInsensitiveLess(a, b) && CaseInsensitiveLess(b, c)
    ensures CaseInsensitiveLess(a, c)
  {
    if a != [] && FoldAscii(a[0]) == FoldAscii(b[0]) == FoldAscii(c[0]) {
      LessTransitive(a[1..], b[1..], c[1..]);
    }
  }

  /** Two strings that neither precede the other are exactly those that the removal of duplicates calls equal. */
  lemma {:induction false} IncomparableIsEqual(a: string, b: string)
    ensures !CaseInsensitiveLess(a, b) && !CaseInsensitiveLess(b, a) <==> CaseInsensitiveEqual(a, b)
  {
    if a != [] && b != [] {
      IncomparableIsEqual(a[1..], b[1..]);
      if FoldAscii(a[0]) == FoldAscii(b[0]) && CaseInsensitiveEqual(a[1..], b[1..]) {
        forall i | 0 <= i < |a|
          ensures FoldAscii(a[i]) == FoldAscii(b[i])
        {
          if i > 0 {
            assert a[i] == a[1..][i - 1] && b[i] == b[1..][i - 1];
          }
        }
      }
      if CaseInsensitiveEqual(a, b) {
        assert forall i :: 0 <= i < |a| - 1 ==> a[1..][i] == a[i + 1] && b[1..][i] == b[i + 1];
      }
    }
  }

  /** Equal strings compare alike to every other string. */
  lemma {:induction false} EqualComparesAlike(a: string, b: string, c: string)
    requires CaseInsensitiveEqual(a, b)
    ensures CaseInsensitiveLess(a, c) <==> CaseInsensitiveLess(b, c)
    ensures CaseInsensitiveLess(c, a) <==> CaseInsensitiveLess(c, b)
  {
    if a != [] && c != [] {
      assert forall i :: 0 <= i < |a| - 1 ==> a[1..][i] == a[i + 1] && b[1..][i] == b[i + 1];
      EqualComparesAlike(a[1..], b[1..], c[1..]);
    }
  }

  // ----- Sorting -----

  /** Ascending: no entry precedes an earlier one. */
  ghost predicate Ascending(items: seq<string>) {
    forall i, j :: 0 <= i < j < |items| ==> !CaseInsensitiveLess(items[j], items[i])
  }

  ghost predicate StrictlyAscending(items: seq<string>) {
    forall i, j :: 0 <= i < j < |items| ==> CaseInsensitiveLess(items[i], items[j])
  }

  /** The entries that are equal to `key` up to case, in their order. */
  function ClassOf(items: seq<string>, key: string): seq<string> {
    if items == [] then []
    else (if CaseInsensitiveEqual(items[0], key) then [items[0]] else []) + ClassOf(items[1..], key)
  }

  /** What a stable sort promises: an ascending sequence in which every class keeps its entries in their order. */
  ghost predicate StablySorted(sorted: seq<string>, items: seq<string>) {
    Ascending(sorted) && forall key: string :: ClassOf(sorted, key) == ClassOf(items, key)
  }

  /** Inserts an entry before the first one that does not precede it, so before all of its class. */
  function Insert(item: string, sorted: seq<string>): seq<string> {
    if sorted == [] then [item]
    else if CaseInsensitiveLess(sorted[0], item) then [sorted[0]] + Insert(item, sorted[1..])
    else [item] + sorted
  }

  /** A stable sort. */
  function StableSort(items: seq<string>): seq<string> {
    if items == [] then [] else Insert(items[0], StableSort(items[1..]))
  }

  lemma {:induction false} AscendingCons(item: string, sorted: seq<string>)
    requires Ascending(sorted)
    requires sorted != [] ==> !CaseInsensitiveLess(sorted[0], item)
    ensures Ascending([item] + sorted)
  {
    var all := [item] + sorted;
    forall i, j | 0 <= i < j < |all|
      ensures !CaseInsensitiveLess(all[j], all[i])
    {
      if i == 0 && j > 1 {
        NotLessTransitive(sorted[j - 1], sorted[0], item);
      }
    }
  }

  lemma NotLessTransitive(a: string, b: string, c: string)
    requires !CaseInsensitiveLess(a, b) && !CaseInsensitiveLess(b, c)
    ensures !CaseInsensitiveLess(a, c)
  {
    if CaseInsensitiveLess(a, c) {
      if CaseInsensitiveLess(c, b) {
        LessTransitive(a, c, b);
      } else {
        IncomparableIsEqual(b, c);
        EqualComparesAlike(b, c, a);
      }
    }
  }

  lemma {:induction false} InsertAscends(item: string, sorted: seq<string>)
    requires Ascending(sorted)
    ensures Ascending(Insert(item, sorted))
    ensures Insert(item, sorted) != [] && (Insert(item, sorted)[0] == item || (sorted != [] && Insert(item, sorted)[0] == sorted[0]))
  {
    if sorted != [] && CaseInsensitiveLess(sorted[0], item) {
      var rest := sorted[1..];
      InsertAscends(item, rest);
      assert rest != [] ==> rest[0] == sorted[1];
      LessAsymmetric(sorted[0], item);
      AscendingCons(sorted[0], Insert(item, rest));
    } else {
      AscendingCons(item, sorted);
    }
  }

  lemma {:induction false} InsertKeepsClasses(item: string, sorted: seq<string>, key: string)
    ensures ClassOf(Insert(item, sorted), key) == ClassOf([item], key) + ClassOf(sorted, key)
  {
    if sorted != [] && CaseInsensitiveLess(sorted[0], item) {
      var rest := sorted[1..];
      InsertKeepsClasses(item, rest, key);
      ClassCons(sorted[0], Insert(item, rest), key);
      assert sorted == [sorted[0]] + rest;
      ClassCons(sorted[0], rest, key);
      DifferentClasses(sorted[0], item, key);
    } else {
      ClassCons(item, sorted, key);
    }
  }

  lemma ClassCons(item: string, items: seq<string>, key: string)
    ensures ClassOf([item] + items, key) == ClassOf([item], key) + ClassOf(items, key)
  {
    assert ([item] + items)[1..] == items;
  }

  lemma DifferentClasses(a: string, b: string, key: string)
    requires CaseInsensitiveLess(a, b)
    ensures !(CaseInsensitiveEqual(a, key) && CaseInsensitiveEqual(b, key))
  {
    if CaseInsensitiveEqual(a, key) && CaseInsensitiveEqual(b, key) {
      assert CaseInsensitiveEqual(a, b);
      IncomparableIsEqual(a, b);
    }
  }

  lemma {:induction false} StableSortClass(items: seq<string>, key: string)
    ensures Ascending(StableSort(items))
    ensures ClassOf(StableSort(items), key) == ClassOf(items, key)
  {
    if items != [] {
      StableSortClass(items[1..], key);
      InsertAscends(items[0], StableSort(items[1..]));
      InsertKeepsClasses(items[0], StableSort(items[1..]), key);
      ClassCons(items[0], items[1..], key);
      assert [items[0]] + items[1..] == items;
    }
  }

  lemma StableSortIsStable(items: seq<string>)
    ensures StablySorted(StableSort(items), items)
  {
    forall key: string
      ensures ClassOf(StableSort(items), key) == ClassOf(items, key) && Ascending(StableSort(items))
    {
      StableSortClass(items, key);
    }
    assert ClassOf(StableSort(items), "") == ClassOf(items, "");
  }

  // ----- Removing adjacent duplicates -----

  /** What follows the kept entry `last`. */
  function UniqueFrom(last: string, rest: seq<string>): seq<string>
    decreases rest
  {
    if rest == [] then []
    else if CaseInsensitiveEqual(last, rest[0]) then UniqueFrom(last, rest[1..])
    else [rest[0]] + UniqueFrom(rest[0], rest[1..])
  }

  function Unique(items: seq<string>): seq<string> {
    if items == [] then [] else [items[0]] + UniqueFrom(items[0], items[1..])
  }

  /** The list that `sortExclusions` leaves. */
  function Canonicalised(items: seq<string>): seq<string> {
    Unique(StableSort(items))
  }

  function FirstOnly(items: seq<string>): seq<string> {
    if items == [] then [] else [items[0]]
  }

  /** Strictly ascending, and every class of the input is represented by its earliest spelling and nothing else. */
  ghost predicate Canonical(result: seq<string>, items: seq<string>) {
    StrictlyAscending(result) && forall key: string :: ClassOf(result, key) == FirstOnly(ClassOf(items, key))
  }

  lemma EqualIsEquivalence(a: string, b: string, c: string)
    ensures CaseInsensitiveEqual(a, a)
    ensures CaseInsensitiveEqual(a, b) ==> CaseInsensitiveEqual(b, a)
    ensures CaseInsensitiveEqual(a, b) && CaseInsensitiveEqual(b, c) ==> CaseInsensitiveEqual(a, c)
  {
  }

  lemma AscendingTail(head: string, next: string, rest: seq<string>)
    requires Ascending([head, next] + rest)
    ensures Ascending([next] + rest) && Ascending([head] + rest)
    ensures !CaseInsensitiveLess(next, head)
  {
    var all := [head, next] + rest;
    assert all[0] == head && all[1] == next;
    assert [next] + rest == all[1..];
    AscendingWithoutSecond(all);
    assert [head] + rest == [all[0]] + all[2..];
  }

  lemma AscendingWithoutSecond(all: seq<string>)
    requires |all| >= 2 && Ascending(all)
    ensures Ascending([all[0]] + all[2..])
  {
    var less := [all[0]] + all[2..];
    forall i, j | 0 <= i < j < |less|
      ensures !CaseInsensitiveLess(less[j], less[i])
    {
      assert less[j] == all[j + 1] && less[i] == all[if i == 0 then 0 else i + 1];
    }
  }

  /** The kept entries after `last` ascend strictly from it. */
  lemma {:induction false} UniqueAscends(last: string, rest: seq<string>)
    requires Ascending([last] + rest)
    ensures StrictlyAscending([last] + UniqueFrom(last, rest))
    decreases |rest|
  {
    if rest != [] {
      var next, tail := rest[0], rest[1..];
      assert [last] + rest == [last, next] + tail;
      AscendingTail(last, next, tail);
      if CaseInsensitiveEqual(last, next) {
        UniqueAscends(last, tail);
      } else {
        UniqueAscends(next, tail);
        IncomparableIsEqual(last, next);
        StrictCons(last, next, UniqueFrom(next, tail));
      }
    }
  }

  lemma StrictCons(head: string, next: string, rest: seq<string>)
    requires CaseInsensitiveLess(head, next) && StrictlyAscending([next] + rest)
    ensures StrictlyAscending([head] + ([next] + rest))
  {
    var tail := [next] + rest;
    forall j | 0 <= j < |tail|
      ensures CaseInsensitiveLess(head, tail[j])
    {
      if j > 0 {
        LessTransitive(head, tail[0], tail[j]);
      }
    }
  }

  /** The class of `last` is over, and every later class keeps its first entry. */
  lemma {:induction false} UniqueKeepsFirst(last: string, rest: seq<string>, key: string)
    requires Ascending([last] + rest)
    ensures ClassOf(UniqueFrom(last, rest), key) == if CaseInsensitiveEqual(last, key) then [] else FirstOnly(ClassOf(rest, key))
    decreases |rest|
  {
    if rest != [] {
      var next, tail := rest[0], rest[1..];
      assert [last] + rest == [last, next] + tail;
      AscendingTail(last, next, tail);
      EqualIsEquivalence(last, next, key);
      EqualIsEquivalence(next, last, key);
      if CaseInsensitiveEqual(last, next) {
        UniqueKeepsFirst(last, tail, key);
      } else {
        UniqueKeepsFirst(next, tail, key);
        ClassCons(next, UniqueFrom(next, tail), key);
        if CaseInsensitiveEqual(last, key) {
          NoReturn(last, next, tail, key);
        }
      }
    }
  }

  /** In an ascending list a class does not come back once a different entry has followed. */
  lemma {:induction false} NoReturn(last: string, next: string, tail: seq<string>, key: string)
    requires Ascending([last, next] + tail) && !CaseInsensitiveEqual(last, next) && CaseInsensitiveEqual(last, key)
    ensures ClassOf(tail, key) == [] && !CaseInsensitiveEqual(next, key)
  {
    AscendingTail(last, next, tail);
    IncomparableIsEqual(last, next);
    EqualComparesAlike(last, key, next);
    if CaseInsensitiveEqual(next, key) {
      EqualComparesAlike(next, key, key);
      LessIrreflexive(key);
    }
    if tail != [] {
      assert [next] + tail == [next, tail[0]] + tail[1..];
      AscendingTail(next, tail[0], tail[1..]);
      assert [last, next] + tail[1..] == [last] + ([next] + tail[1..]);
      AscendingSkip(last, next, tail);
      NoReturn(last, next, tail[1..], key);
      if CaseInsensitiveEqual(tail[0], key) {
        EqualComparesAlike(tail[0], key, next);
      }
    }
  }

  lemma AscendingSkip(last: string, next: string, tail: seq<string>)
    requires tail != [] && Ascending([last, next] + tail)
    ensures Ascending([last, next] + tail[1..])
  {
    var all, less := [last, next] + tail, [last, next] + tail[1..];
    forall i, j | 0 <= i < j < |less|
      ensures !CaseInsensitiveLess(less[j], less[i])
    {
      assert less[j] == all[if j < 2 then j else j + 1] && less[i] == all[if i < 2 then i else i + 1];
    }
  }

  /** Whatever stable sort is used, removing adjacent duplicates of its result gives the canonical list. */
  lemma UniqueOfSortedIsCanonical(sorted: seq<string>, items: seq<string>)
    requires StablySorted(sorted, items)
    ensures Canonical(Unique(sorted), items)
  {
    if sorted == [] {
      forall key: string
        ensures ClassOf(Unique(sorted), key) == FirstOnly(ClassOf(items, key))
      {
        assert ClassOf(sorted, key) == ClassOf(items, key);
      }
    } else {
      var last, rest := sorted[0], sorted[1..];
      assert [last] + rest == sorted;
      UniqueAscends(last, rest);
      forall key: string
        ensures ClassOf(Unique(sorted), key) == FirstOnly(ClassOf(items, key))
      {
        assert ClassOf(sorted, key) == ClassOf(items, key);
        UniqueKeepsFirst(last, rest, key);
        ClassCons(last, UniqueFrom(last, rest), key);
        ClassCons(last, rest, key);
      }
    }
  }

  // ----- One canonical result -----

  lemma {:induction false} InClass(items: seq<string>, i: nat)
    requires i < |items|
    ensures ClassOf(items, items[i]) != []
  {
    if i > 0 {
      InClass(items[1..], i - 1);
    }
  }

  lemma {:induction false} ClassMember(items: seq<string>, key: string)
    requires ClassOf(items, key) != []
    ensures exists i :: 0 <= i < |items| && CaseInsensitiveEqual(items[i], key)
  {
    if !CaseInsensitiveEqual(items[0], key) {
      ClassMember(items[1..], key);
      var i :| 0 <= i < |items[1..]| && CaseInsensitiveEqual(items[1..][i], key);
      assert items[i + 1] == items[1..][i];
    }
  }

  /** Equal up to case, entry by entry. */
  ghost predicate SameUpToCase(a: seq<string>, b: seq<string>) {
    |a| == |b| && forall i :: 0 <= i < |a| ==> CaseInsensitiveEqual(a[i], b[i])
  }

  /** The two lists hold the same classes, in whatever order, number and spelling. */
  ghost predicate SameClasses(a: seq<string>, b: seq<string>) {
    forall key: string :: ClassOf(a, key) == [] <==> ClassOf(b, key) == []
  }

  lemma LessAsymmetric(a: string, b: string)
    requires CaseInsensitiveLess(a, b)
    ensures !CaseInsensitiveLess(b, a)
  {
    if CaseInsensitiveLess(b, a) {
      LessTransitive(a, b, a);
      LessIrreflexive(a);
    }
  }

  /** No class of a strictly ascending list lies before its first entry. */
  lemma HeadIsLeast(items: seq<string>, key: string)
    requires StrictlyAscending(items) && ClassOf(items, key) != []
    ensures items != [] && !CaseInsensitiveLess(key, items[0])
  {
    ClassMember(items, key);
    var i :| 0 <= i < |items| && CaseInsensitiveEqual(items[i], key);
    EqualComparesAlike(items[i], key, items[0]);
    if i == 0 {
      LessIrreflexive(items[0]);
    } else {
      LessAsymmetric(items[0], items[i]);
    }
  }

  /** The first entries of two strictly ascending lists with the same classes are equal up to case. */
  lemma HeadsAgree(a: seq<string>, b: seq<string>)
    requires StrictlyAscending(a) && StrictlyAscending(b) && SameClasses(a, b) && a != []
    ensures b != [] && CaseInsensitiveEqual(a[0], b[0])
  {
    InClass(a, 0);
    HeadIsLeast(b, a[0]);
    InClass(b, 0);
    HeadIsLeast(a, b[0]);
    IncomparableIsEqual(a[0], b[0]);
  }

  /** The class of the head of a strictly ascending list is not in its tail; other classes lose nothing. */
  lemma {:induction false} TailClasses(a: seq<string>, key: string)
    requires StrictlyAscending(a) && a != []
    ensures ClassOf(a[1..], key) == if CaseInsensitiveEqual(a[0], key) then [] else ClassOf(a, key)
  {
    if CaseInsensitiveEqual(a[0], key) && ClassOf(a[1..], key) != [] {
      ClassMember(a[1..], key);
      var i :| 0 <= i < |a[1..]| && CaseInsensitiveEqual(a[1..][i], key);
      assert a[1..][i] == a[i + 1];
      DifferentClasses(a[0], a[i + 1], key);
    }
  }

  lemma WithoutClasses(items: seq<string>)
    requires forall key: string :: ClassOf(items, key) == []
    ensures items == []
  {
    if items != [] {
      InClass(items, 0);
    }
  }

  lemma {:induction false} ClassesDetermineOrder(a: seq<string>, b: seq<string>)
    requires StrictlyAscending(a) && StrictlyAscending(b) && SameClasses(a, b)
    ensures SameUpToCase(a, b)
  {
    if a == [] {
      forall key: string
        ensures ClassOf(b, key) == []
      {
        assert ClassOf(a, key) == [];
      }
      WithoutClasses(b);
    } else {
      HeadsAgree(a, b);
      forall key: string
        ensures ClassOf(a[1..], key) == [] <==> ClassOf(b[1..], key) == []
      {
        assert ClassOf(a, key) == [] <==> ClassOf(b, key) == [];
        TailClasses(a, key);
        TailClasses(b, key);
        EqualIsEquivalence(a[0], b[0], key);
        EqualIsEquivalence(b[0], a[0], key);
      }
      ClassesDetermineOrder(a[1..], b[1..]);
      forall i | 0 <= i < |a|
        ensures CaseInsensitiveEqual(a[i], b[i])
      {
        if i > 0 {
          assert a[i] == a[1..][i - 1] && b[i] == b[1..][i - 1];
        }
      }
    }
  }

  lemma {:induction false} SingletonClass(a: seq<string>, i: nat)
    requires StrictlyAscending(a) && i < |a|
    ensures ClassOf(a, a[i]) == [a[i]]
  {
    TailClasses(a, a[i]);
    if i > 0 {
      DifferentClasses(a[0], a[i], a[i]);
      SingletonClass(a[1..], i - 1);
    }
  }

  /** A list has exactly one canonical form. */
  lemma CanonicalIsUnique(a: seq<string>, b: seq<string>, items: seq<string>)
    requires Canonical(a, items) && Canonical(b, items)
    ensures a == b
  {
    forall key: string
      ensures ClassOf(a, key) == [] <==> ClassOf(b, key) == []
    {
      assert ClassOf(a, key) == FirstOnly(ClassOf(items, key));
    }
    ClassesDetermineOrder(a, b);
    forall i | 0 <= i < |a|
      ensures a[i] == b[i]
    {
      SingletonClass(a, i);
      SingletonClass(b, i);
      assert ClassOf(b, a[i]) == FirstOnly(ClassOf(items, a[i])) == ClassOf(a, a[i]) == [a[i]];
      ClassAlike(b, a[i], b[i]);
    }
  }

  /** The class of a list depends on its key only up to case. */
  lemma {:induction false} ClassAlike(items: seq<string>, a: string, b: string)
    requires CaseInsensitiveEqual(a, b)
    ensures ClassOf(items, a) == ClassOf(items, b)
  {
    if items != [] {
      EqualIsEquivalence(items[0], a, b);
      EqualIsEquivalence(a, b, a);
      EqualIsEquivalence(items[0], b, a);
      ClassAlike(items[1..], a, b);
    }
  }

  /** `sortExclusions` yields the canonical form: the only strictly ascending list of the earliest spellings. */
  lemma CanonicalisedIsCanonical(items: seq<string>, other: seq<string>)
    ensures Canonical(Canonicalised(items), items)
    ensures Canonical(other, items) ==> other == Canonicalised(items)
  {
    StableSortIsStable(items);
    UniqueOfSortedIsCanonical(StableSort(items), items);
    if Canonical(other, items) {
      CanonicalIsUnique(other, Canonicalised(items), items);
    }
  }

  /** Canonicalising again changes nothing. */
  lemma CanonicalisedIsIdempotent(items: seq<string>)
    ensures Canonicalised(Canonicalised(items)) == Canonicalised(items)
  {
    var once := Canonicalised(items);
    CanonicalisedIsCanonical(items, once);
    forall key: string
      ensures ClassOf(once, key) == FirstOnly(ClassOf(once, key))
    {
      assert ClassOf(once, key) == FirstOnly(ClassOf(items, key));
    }
    CanonicalisedIsCanonical(once, once);
  }

  /** Lists that differ only in order, duplicates and case have canonical forms that differ only in case. */
  lemma CanonicalisedForgetsOrder(a: seq<string>, b: seq<string>)
    requires SameClasses(a, b)
    ensures SameUpToCase(Canonicalised(a), Canonicalised(b))
  {
    CanonicalisedIsCanonical(a, []);
    CanonicalisedIsCanonical(b, []);
    forall key: string
      ensures ClassOf(Canonicalised(a), key) == [] <==> ClassOf(Canonicalised(b), key) == []
    {
      assert ClassOf(Canonicalised(a), key) == FirstOnly(ClassOf(a, key));
      assert ClassOf(Canonicalised(b), key) == FirstOnly(ClassOf(b, key));
      assert ClassOf(a, key) == [] <==> ClassOf(b, key) == [];
    }
    ClassesDetermineOrder(Canonicalised(a), Canonicalised(b));
  }

  // ----- The result, spelled out -----

  /** The code of a character, with the lower-case code for an upper-case ASCII letter. */
  function LowerCode(c: char): int {
    if 65 <= c as int <= 90 then c as int + 32 else c as int
  }

  /** The two texts agree in the first `n` characters up to case, and there `a` ends or has the smaller character. */
  predicate PrecedesAt(a: string, b: string, n: nat) {
    && n <= |a| && n < |b| && SameSpelling(a[..n], b[..n])
    && (n == |a| || LowerCode(a[n]) < LowerCode(b[n]))
  }

  ghost predicate Precedes(a: string, b: string) {
    exists n :: PrecedesAt(a, b, n)
  }

  lemma FoldSpelledOut(c: char, d: char)
    ensures FoldAscii(c) as int == LowerCode(c)
    ensures FoldAscii(c) == FoldAscii(d) <==> SameLetter(c, d)
  {
  }

  /** The equality of the removal of duplicates is equality up to the case of ASCII letters. */
  lemma EqualSpelledOut(a: string, b: string)
    ensures CaseInsensitiveEqual(a, b) <==> SameSpelling(a, b)
  {
    forall i | 0 <= i < |a| && i < |b|
      ensures FoldAscii(a[i]) == FoldAscii(b[i]) <==> SameLetter(a[i], b[i])
    {
      FoldSpelledOut(a[i], b[i]);
    }
  }

  lemma {:induction false} LessHasPosition(a: string, b: string) returns (n: nat)
    requires CaseInsensitiveLess(a, b)
    ensures PrecedesAt(a, b, n)
  {
    if a == [] {
      n := 0;
    } else {
      FoldSpelledOut(a[0], b[0]);
      FoldSpelledOut(b[0], a[0]);
      if FoldAscii(a[0]) < FoldAscii(b[0]) {
        n := 0;
      } else {
        var m := LessHasPosition(a[1..], b[1..]);
        n := m + 1;
        SameSpellingCons(a, b, m);
      }
    }
  }

  lemma SameSpellingCons(a: string, b: string, m: nat)
    requires m + 1 <= |a| && m + 1 <= |b|
    ensures SameLetter(a[0], b[0]) && SameSpelling(a[1..][..m], b[1..][..m]) <==> SameSpelling(a[..m + 1], b[..m + 1])
  {
    assert forall i :: 0 <= i < m ==> a[1..][..m][i] == a[i + 1] == a[..m + 1][i + 1];
    assert forall i :: 0 <= i < m ==> b[1..][..m][i] == b[i + 1] == b[..m + 1][i + 1];
    if SameLetter(a[0], b[0]) && SameSpelling(a[1..][..m], b[1..][..m]) {
      var first, second := a[..m + 1], b[..m + 1];
      forall i | 0 <= i < |first|
        ensures SameLetter(first[i], second[i])
      {
        if i > 0 {
          assert SameLetter(a[1..][..m][i - 1], b[1..][..m][i - 1]);
        }
      }
    }
    if SameSpelling(a[..m + 1], b[..m + 1]) {
      assert SameLetter(a[..m + 1][0], b[..m + 1][0]);
      forall i | 0 <= i < m
        ensures SameLetter(a[1..][..m][i], b[1..][..m][i])
      {
        assert SameLetter(a[..m + 1][i + 1], b[..m + 1][i + 1]);
      }
    }
  }

  lemma {:induction false} PositionMeansLess(a: string, b: string, n: nat)
    requires PrecedesAt(a, b, n)
    ensures CaseInsensitiveLess(a, b)
  {
    if a != [] {
      FoldSpelledOut(a[0], b[0]);
      FoldSpelledOut(b[0], a[0]);
      if n > 0 {
        SameSpellingCons(a, b, n - 1);
        PositionMeansLess(a[1..], b[1..], n - 1);
      }
    }
  }

  /** The order of the sort compares lower-case codes at the first place where two texts differ up to case. */
  lemma LessSpelledOut(a: string, b: string)
    ensures CaseInsensitiveLess(a, b) <==> Precedes(a, b)
  {
    if CaseInsensitiveLess(a, b) {
      var n := LessHasPosition(a, b);
    }
    if Precedes(a, b) {
      var n :| PrecedesAt(a, b, n);
      PositionMeansLess(a, b, n);
    }
  }

  /** Entry `k` is the earliest of its spelling. */
  ghost predicate Earliest(items: seq<string>, k: nat) {
    k < |items| && forall j :: 0 <= j < k ==> !SameSpelling(items[j], items[k])
  }

  ghost predicate Listed(items: seq<string>, key: string) {
    exists i :: 0 <= i < |items| && SameSpelling(items[i], key)
  }

  ghost predicate TakenFrom(items: seq<string>, entry: string) {
    exists k: nat :: Earliest(items, k) && items[k] == entry
  }

  /**
    The result in terms of character codes: in ascending order, every entry is listed in some case, and every entry of the
    result is an entry of the list, in the spelling that came first.
   */
  ghost predicate SortedOnce(result: seq<string>, items: seq<string>) {
    && (forall i, j :: 0 <= i < j < |result| ==> Precedes(result[i], result[j]))
    && (forall k :: 0 <= k < |items| ==> Listed(result, items[k]))
    && (forall i :: 0 <= i < |result| ==> TakenFrom(items, result[i]))
  }

  /** The first entry of a class is the earliest of its spelling. */
  lemma {:induction false} FirstOfClass(items: seq<string>, key: string) returns (k: nat)
    requires ClassOf(items, key) != []
    ensures k < |items| && CaseInsensitiveEqual(items[k], key) && ClassOf(items, key)[0] == items[k]
    ensures forall j :: 0 <= j < k ==> !CaseInsensitiveEqual(items[j], key)
  {
    if CaseInsensitiveEqual(items[0], key) {
      k := 0;
    } else {
      var m := FirstOfClass(items[1..], key);
      k := m + 1;
      forall j | 0 <= j < k
        ensures !CaseInsensitiveEqual(items[j], key)
      {
        if j > 0 {
          assert items[j] == items[1..][j - 1];
        }
      }
    }
  }

  lemma EarliestByClass(items: seq<string>, k: nat)
    requires k < |items|
    ensures Earliest(items, k) <==> FirstOnly(ClassOf(items, items[k])) == [items[k]] && forall j :: 0 <= j < k ==> !CaseInsensitiveEqual(items[j], items[k])
  {
    forall j | 0 <= j < k
      ensures SameSpelling(items[j], items[k]) <==> CaseInsensitiveEqual(items[j], items[k])
    {
      EqualSpelledOut(items[j], items[k]);
    }
    InClass(items, k);
    var first := FirstOfClass(items, items[k]);
    EqualIsEquivalence(items[k], items[k], items[k]);
  }

  lemma ResultIsTaken(result: seq<string>, items: seq<string>, i: nat)
    requires Canonical(result, items) && i < |result|
    ensures TakenFrom(items, result[i])
  {
    SingletonClass(result, i);
    assert ClassOf(result, result[i]) == FirstOnly(ClassOf(items, result[i]));
    var k := FirstOfClass(items, result[i]);
    assert items[k] == result[i];
    EarliestByClass(items, k);
    assert Earliest(items, k);
  }

  lemma ItemIsListed(result: seq<string>, items: seq<string>, k: nat)
    requires Canonical(result, items) && k < |items|
    ensures Listed(result, items[k])
  {
    InClass(items, k);
    assert ClassOf(result, items[k]) == FirstOnly(ClassOf(items, items[k]));
    ClassMember(result, items[k]);
    var i :| 0 <= i < |result| && CaseInsensitiveEqual(result[i], items[k]);
    EqualSpelledOut(result[i], items[k]);
  }

  lemma CanonicalIsSortedOnce(result: seq<string>, items: seq<string>)
    requires Canonical(result, items)
    ensures SortedOnce(result, items)
  {
    forall i, j | 0 <= i < j < |result|
      ensures Precedes(result[i], result[j])
    {
      LessSpelledOut(result[i], result[j]);
    }
    forall k | 0 <= k < |items|
      ensures Listed(result, items[k])
    {
      ItemIsListed(result, items, k);
    }
    forall i | 0 <= i < |result|
      ensures TakenFrom(items, result[i])
    {
      ResultIsTaken(result, items, i);
    }
  }

  lemma SortedOnceAscends(result: seq<string>, items: seq<string>)
    requires SortedOnce(result, items)
    ensures StrictlyAscending(result)
  {
    forall i, j | 0 <= i < j < |result|
      ensures CaseInsensitiveLess(result[i], result[j])
    {
      LessSpelledOut(result[i], result[j]);
    }
  }

  lemma TakenIsFirst(items: seq<string>, entry: string, key: string)
    requires TakenFrom(items, entry) && CaseInsensitiveEqual(entry, key)
    ensures FirstOnly(ClassOf(items, key)) == [entry]
  {
    var k: nat :| Earliest(items, k) && items[k] == entry;
    EarliestByClass(items, k);
    ClassAlike(items, entry, key);
  }

  lemma ClassIsFirst(result: seq<string>, items: seq<string>, key: string)
    requires SortedOnce(result, items) && StrictlyAscending(result)
    ensures ClassOf(result, key) == FirstOnly(ClassOf(items, key))
  {
    if ClassOf(result, key) != [] {
      ClassMember(result, key);
      var i :| 0 <= i < |result| && CaseInsensitiveEqual(result[i], key);
      SingletonClass(result, i);
      ClassAlike(result, result[i], key);
      TakenIsFirst(items, result[i], key);
    } else if ClassOf(items, key) != [] {
      ClassMember(items, key);
      var k :| 0 <= k < |items| && CaseInsensitiveEqual(items[k], key);
      NotListed(result, items[k], key);
    }
  }

  lemma NotListed(result: seq<string>, entry: string, key: string)
    requires Listed(result, entry) && CaseInsensitiveEqual(entry, key)
    ensures ClassOf(result, key) != []
  {
    var i :| 0 <= i < |result| && SameSpelling(result[i], entry);
    EqualSpelledOut(result[i], entry);
    EqualIsEquivalence(result[i], entry, key);
    InClass(result, i);
    ClassAlike(result, result[i], key);
  }

  /** `sortExclusions` leaves the one list that these three clauses describe. */
  lemma CanonicalisedSpelledOut(items: seq<string>, result: seq<string>)
    ensures SortedOnce(result, items) <==> result == Canonicalised(items)
  {
    CanonicalisedIsCanonical(items, result);
    CanonicalIsSortedOnce(Canonicalised(items), items);
    if SortedOnce(result, items) {
      SortedOnceAscends(result, items);
      forall key: string
        ensures ClassOf(result, key) == FirstOnly(ClassOf(items, key))
      {
        ClassIsFirst(result, items, key);
      }
    }
  }

  // ----- In place -----

  /** A list of exclusions that the source changes in place. */
  class ExclusionList {
    var items: seq<string>

    constructor (items: seq<string>)
      ensures this.items == items
    {
      this.items := items;
    }

    method SortExclusions()
      modifies this
      ensures items == Canonicalised(old(items))
      ensures Canonical(items, old(items))
      ensures SortedOnce(items, old(items))
    {
      CanonicalisedSpelledOut(items, Canonicalised(items));
      CanonicalisedIsCanonical(items, []);
      items := StableSort(items);
      items := Unique(items);
    }
  }

  function CanonicalisedValues(m: map<string, seq<string>>): map<string, seq<string>> {
    map key | key in m :: Canonicalised(m[key])
  }

  /** Every volume keeps its list, sorted once. */
  ghost predicate EachSortedOnce(sorted: map<string, seq<string>>, m: map<string, seq<string>>) {
    sorted.Keys == m.Keys && forall key :: key in m ==> SortedOnce(sorted[key], m[key])
  }

  lemma EachIsSortedOnce(m: map<string, seq<string>>)
    ensures EachSortedOnce(CanonicalisedValues(m), m)
  {
    forall key | key in m
      ensures SortedOnce(CanonicalisedValues(m)[key], m[key])
    {
      CanonicalisedSpelledOut(m[key], Canonicalised(m[key]));
    }
  }

  /** Sorts every list of a map; the loop visits each volume once. */
  method SortValues(m: map<string, seq<string>>) returns (sorted: map<string, seq<string>>)
    ensures sorted == CanonicalisedValues(m)
    ensures EachSortedOnce(sorted, m)
  {
    sorted := m;
    var remaining := m.Keys;
    while remaining != {}
      invariant sorted.Keys == m.Keys && remaining <= m.Keys
      invariant forall key :: key in m ==> sorted[key] == if key in remaining then m[key] else Canonicalised(m[key])
      decreases remaining
    {
      var key :| key in remaining;
      sorted := sorted[key := Unique(StableSort(sorted[key]))];
      remaining := remaining - {key};
    }
    assert sorted == CanonicalisedValues(m);
    EachIsSortedOnce(m);
  }

  /** The exclusions of the current and of the next session. */
  class Snapshot {
    var currentFiles: map<string, seq<string>>
    var nextFiles: map<string, seq<string>>
    var currentRegistry: seq<string>
    var nextRegistry: seq<string>

    constructor (currentFiles: map<string, seq<string>>, nextFiles: map<string, seq<string>>,
                 currentRegistry: seq<string>, nextRegistry: seq<string>)
      ensures this.currentFiles == currentFiles && this.nextFiles == nextFiles
      ensures this.currentRegistry == currentRegistry && this.nextRegistry == nextRegistry
    {
      this.currentFiles, this.nextFiles := currentFiles, nextFiles;
      this.currentRegistry, this.nextRegistry := currentRegistry, nextRegistry;
    }

    /** Every list of both sessions becomes canonical; no volume is added or lost. */
    method SortSnapshot()
      modifies this
      ensures currentFiles == CanonicalisedValues(old(currentFiles))
      ensures nextFiles == CanonicalisedValues(old(nextFiles))
      ensures currentRegistry == Canonicalised(old(currentRegistry))
      ensures nextRegistry == Canonicalised(old(nextRegistry))
      ensures EachSortedOnce(currentFiles, old(currentFiles)) && EachSortedOnce(nextFiles, old(nextFiles))
      ensures SortedOnce(currentRegistry, old(currentRegistry)) && SortedOnce(nextRegistry, old(nextRegistry))
    {
      CanonicalisedSpelledOut(currentRegistry, Canonicalised(currentRegistry));
      CanonicalisedSpelledOut(nextRegistry, Canonicalised(nextRegistry));
      currentFiles := SortValues(currentFiles);
      nextFiles := SortValues(nextFiles);
      currentRegistry := Unique(StableSort(currentRegistry));
      nextRegistry := Unique(StableSort(nextRegistry));
    }
  }
}
