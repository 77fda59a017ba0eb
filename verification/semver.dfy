/**
 Release versions (version.go): the validator and the comparison, related to the
 precedence that section 11 of Semantic Versioning 2.0.0 defines on numbers.
 Valid versions are ASCII, so comparing characters is comparing bytes.
 */
module SemVer {
  import opened Wrappers
  import opened Sequences
  import opened Decimal
  import opened Text
  import Lex = Lexicographic

  // ---- the naming policy ----

  predicate IsIdentifierChar(c: char) {
    '0' <= c <= '9' || 'A' <= c <= 'Z' || 'a' <= c <= 'z' || c == '-'
  }

  predicate IsNumericID(id: string) {
    id != "" && AllDigits(id)
  }

  predicate ValidIdentifier(id: string) {
    && id != ""
    && (forall i :: 0 <= i < |id| ==> IsIdentifierChar(id[i]))
    && !(|id| > 1 && id[0] == '0' && AllDigits(id))
  }

  /** The core and the prerelease identifiers of a version text. */
  function CoreOf(version: string): seq<string> {
    Split(Cut(version, '-').0, '.')
  }

  function PrereleaseOf(version: string): seq<string> {
    var (_, pre, found) := Cut(version, '-');
    if found then Split(pre, '.') else []
  }

  predicate ValidVersion(version: string) {
    && |CoreOf(version)| == 3
    && (forall i :: 0 <= i < 3 ==> Canonical(CoreOf(version)[i]))
    && (forall i :: 0 <= i < |PrereleaseOf(version)| ==> ValidIdentifier(PrereleaseOf(version)[i]))
  }

  // ---- the grammar of versions ----

  /** A version as it is written: three numbers, and identifiers after a hyphen. */
  function Written(major: nat, minor: nat, patch: nat, pre: seq<string>): string {
    Join([Print(major), Print(minor), Print(patch)], ".") + if pre == [] then "" else "-" + Join(pre, ".")
  }

  /** Letters, digits and hyphens; a number has no superfluous zero in front. */
  ghost predicate Identifies(id: string) {
    && id != "" && (forall c :: c in id ==> 'a' <= c <= 'z' || 'A' <= c <= 'Z' || '0' <= c <= '9' || c == '-')
    && ((forall c :: c in id ==> '0' <= c <= '9') ==> id == "0" || id[0] != '0')
  }

  lemma {:induction false} IdentifiesIff(id: string)
    ensures ValidIdentifier(id) <==> Identifies(id)
  {
    assert forall c :: c in id ==> exists i :: 0 <= i < |id| && id[i] == c;
    assert forall i :: 0 <= i < |id| ==> id[i] in id;
    if |id| == 1 && id[0] == '0' {
      assert id == "0";
    }
  }

  lemma {:induction false} CoreSplits(a: string, b: string, c: string)
    requires '.' !in a && '.' !in b && '.' !in c
    ensures Split(Join([a, b, c], "."), '.') == [a, b, c]
  {
    JoinSplits(a, [b, c], '.');
    assert [a] + [b, c] == [a, b, c];
  }

  /** The texts that are versions, and what they are read as. */
  lemma {:induction false} ValidIff(v: string, major: nat, minor: nat, patch: nat, pre: seq<string>)
    ensures ValidVersion(v) && CoreOf(v) == [Print(major), Print(minor), Print(patch)] && PrereleaseOf(v) == pre
            <==> v == Written(major, minor, patch, pre) && forall id :: id in pre ==> Identifies(id)
  {
    if v == Written(major, minor, patch, pre) && forall id :: id in pre ==> Identifies(id) {
      WrittenIsValid(major, minor, patch, pre);
    }
    if ValidVersion(v) && CoreOf(v) == [Print(major), Print(minor), Print(patch)] && PrereleaseOf(v) == pre {
      ValidIsWritten(v, major, minor, patch);
    }
  }

  lemma {:induction false} PrintsAreFree(n: nat)
    ensures '.' !in Print(n) && '-' !in Print(n) && Canonical(Print(n)) && Value(Print(n)) == n
  {
    PrintIsCanonical(n);
  }

  lemma {:induction false} CoreIsFree(a: string, b: string, c: string)
    requires '-' !in a && '-' !in b && '-' !in c
    ensures '-' !in Join([a, b, c], ".")
  {
    assert [a, b, c][1..] == [b, c] && [b, c][1..] == [c];
    assert Join([b, c], ".") == b + "." + Join([c], ".");
    assert Join([a, b, c], ".") == a + "." + Join([b, c], ".");
  }

  lemma {:induction false} WrittenIsValid(major: nat, minor: nat, patch: nat, pre: seq<string>)
    requires forall id :: id in pre ==> Identifies(id)
    ensures var v := Written(major, minor, patch, pre);
            ValidVersion(v) && CoreOf(v) == [Print(major), Print(minor), Print(patch)] && PrereleaseOf(v) == pre
  {
    PrintsAreFree(major);
    PrintsAreFree(minor);
    PrintsAreFree(patch);
    var core := Join([Print(major), Print(minor), Print(patch)], ".");
    CoreIsFree(Print(major), Print(minor), Print(patch));
    CoreSplits(Print(major), Print(minor), Print(patch));
    if pre == [] {
      assert core + "" == core;
    } else {
      assert Written(major, minor, patch, pre) == core + ['-'] + Join(pre, ".");
      CutAt(core, '-', Join(pre, "."));
      forall id | id in pre
        ensures '.' !in id && ValidIdentifier(id)
      {
        IdentifiesIff(id);
      }
      JoinSplits(pre[0], pre[1..], '.');
      assert [pre[0]] + pre[1..] == pre;
    }
  }

  lemma {:induction false} ValidIsWritten(v: string, major: nat, minor: nat, patch: nat)
    requires ValidVersion(v) && CoreOf(v) == [Print(major), Print(minor), Print(patch)]
    ensures v == Written(major, minor, patch, PrereleaseOf(v))
    ensures forall id :: id in PrereleaseOf(v) ==> Identifies(id)
  {
    var (core, rest, found) := Cut(v, '-');
    SplitJoins(core, '.');
    SplitJoins(rest, '.');
    forall id | id in PrereleaseOf(v)
      ensures Identifies(id)
    {
      IdentifiesIff(id);
    }
    if !found {
      assert core + "" == core;
    } else {
      assert core + ['-'] + rest == core + ("-" + rest);
    }
  }

  /** Every version is written so, with the numbers that it is read as. */
  lemma {:induction false} VersionIsWritten(v: string)
    requires ValidVersion(v)
    ensures v == Written(Parse(v).major, Parse(v).minor, Parse(v).patch, PrereleaseOf(v))
  {
    var core := CoreOf(v);
    CanonicalIsPrint(core[0]);
    CanonicalIsPrint(core[1]);
    CanonicalIsPrint(core[2]);
    assert core == [core[0], core[1], core[2]];
    ValidIsWritten(v, Value(core[0]), Value(core[1]), Value(core[2]));
  }

  // ---- the comparison ----

  function CompareChars(a: char, b: char): int {
    if a < b then -1 else if a > b then 1 else 0
  }

  /** strings.Compare. */
  function CompareStrings(a: string, b: string): int {
    Lex.Compare(CompareChars, a, b)
  }

  function CompareNumericID(a: string, b: string): int {
    if |a| != |b| then (if |a| < |b| then -1 else 1) else CompareStrings(a, b)
  }

  function ComparePrereleaseID(a: string, b: string): int {
    if IsNumericID(a) && IsNumericID(b) then CompareNumericID(a, b)
    else if IsNumericID(a) then -1
    else if IsNumericID(b) then 1
    else CompareStrings(a, b)
  }

  /** compareVersionCore looks at three parts. */
  function CompareCore(a: seq<string>, b: seq<string>): int
    requires |a| >= 3 && |b| >= 3
  {
    if CompareNumericID(a[0], b[0]) != 0 then CompareNumericID(a[0], b[0])
    else if CompareNumericID(a[1], b[1]) != 0 then CompareNumericID(a[1], b[1])
    else CompareNumericID(a[2], b[2])
  }

  /** The index scan over the identifiers, and the shorter list first when it finds no difference. */
  function ComparePrerelease(a: seq<string>, b: seq<string>, i: nat): int
    requires i <= |a| && i <= |b|
    decreases |a| - i
  {
    if i < |a| && i < |b| then
      if ComparePrereleaseID(a[i], b[i]) != 0 then ComparePrereleaseID(a[i], b[i])
      else ComparePrerelease(a, b, i + 1)
    else if |a| < |b| then -1
    else if |a| > |b| then 1
    else 0
  }

  function CompareVersions(a: string, b: string): Option<int> {
    if !ValidVersion(a) || !ValidVersion(b) then None
    else
      var core := CompareCore(CoreOf(a), CoreOf(b));
      if core != 0 then Some(core)
      else
        var aPre, bPre := Cut(a, '-').1, Cut(b, '-').1;
        if aPre == "" && bPre == "" then Some(0)
        else if aPre == "" then Some(1)
        else if bPre == "" then Some(-1)
        else Some(ComparePrerelease(Split(aPre, '.'), Split(bPre, '.'), 0))
  }

  // ---- it is a total order ----

  lemma {:induction false} StringsAreOrdered()
    ensures Lex.IsOrder(CompareChars)
    ensures Lex.IsOrder(CompareStrings)
  {
    assert Lex.IsOrder(CompareChars);
    forall a: string, b: string
      ensures CompareStrings(a, b) in {-1, 0, 1} && CompareStrings(a, b) == -CompareStrings(b, a)
              && (CompareStrings(a, b) == 0 <==> a == b)
    {
      Lex.CompareAntisymmetric(CompareChars, a, b);
    }
    forall a: string, b: string, c: string | CompareStrings(a, b) < 0 && CompareStrings(b, c) < 0
      ensures CompareStrings(a, c) < 0
    {
      Lex.CompareTransitive(CompareChars, a, b, c);
    }
  }

  lemma {:induction false} IdentifiersAreOrdered()
    ensures Lex.IsOrder(CompareNumericID)
    ensures Lex.IsOrder(ComparePrereleaseID)
  {
    StringsAreOrdered();
    assert forall a, b :: CompareStrings(a, b) in {-1, 0, 1} && CompareStrings(a, b) == -CompareStrings(b, a);
    assert Lex.IsOrder(CompareNumericID);
    assert forall a, b :: CompareNumericID(a, b) in {-1, 0, 1} && CompareNumericID(a, b) == -CompareNumericID(b, a);
  }

  lemma {:induction false} CoreIsLexicographic(a: seq<string>, b: seq<string>)
    requires |a| == 3 && |b| == 3
    ensures CompareCore(a, b) == Lex.Compare(CompareNumericID, a, b)
  {
    assert a[2..][1..] == [] && b[2..][1..] == [];
    assert Lex.Compare(CompareNumericID, a[2..], b[2..]) == CompareNumericID(a[2], b[2]);
    assert a[1..][1..] == a[2..] && b[1..][1..] == b[2..];
  }

  lemma {:induction false} PrereleaseIsLexicographic(a: seq<string>, b: seq<string>, i: nat)
    requires i <= |a| && i <= |b|
    ensures ComparePrerelease(a, b, i) == Lex.Compare(ComparePrereleaseID, a[i..], b[i..])
    decreases |a| - i
  {
    if i < |a| && i < |b| {
      PrereleaseIsLexicographic(a, b, i + 1);
      assert a[i..][1..] == a[i + 1..] && b[i..][1..] == b[i + 1..];
    }
  }

  /** The comparison of two valid versions, on their parts: no prerelease comes last. */
  function CompareParts(aCore: seq<string>, aPre: seq<string>, bCore: seq<string>, bPre: seq<string>): int {
    var core := Lex.Compare(CompareNumericID, aCore, bCore);
    if core != 0 then core
    else if aPre == [] || bPre == [] then
      (if aPre == bPre then 0 else if aPre == [] then 1 else -1)
    else Lex.Compare(ComparePrereleaseID, aPre, bPre)
  }

  lemma {:induction false} VersionHasPrerelease(v: string)
    requires ValidVersion(v)
    ensures PrereleaseOf(v) == [] <==> Cut(v, '-').1 == ""
    ensures PrereleaseOf(v) != [] ==> PrereleaseOf(v) == Split(Cut(v, '-').1, '.')
  {
    var ids := PrereleaseOf(v);
    assert ids != [] ==> ids[0] != "";
    assert Split("", '.')[0] == "";
  }

  lemma {:induction false} ComparesParts(a: string, b: string)
    requires ValidVersion(a) && ValidVersion(b)
    ensures CompareVersions(a, b) == Some(CompareParts(CoreOf(a), PrereleaseOf(a), CoreOf(b), PrereleaseOf(b)))
  {
    CoreIsLexicographic(CoreOf(a), CoreOf(b));
    VersionHasPrerelease(a);
    VersionHasPrerelease(b);
    PrereleaseIsLexicographic(PrereleaseOf(a), PrereleaseOf(b), 0);
    assert PrereleaseOf(a)[0..] == PrereleaseOf(a) && PrereleaseOf(b)[0..] == PrereleaseOf(b);
  }

  /** The parts of a valid version determine its text. */
  lemma {:induction false} PartsDetermineVersion(a: string, b: string)
    requires ValidVersion(a) && ValidVersion(b)
    requires CoreOf(a) == CoreOf(b) && PrereleaseOf(a) == PrereleaseOf(b)
    ensures a == b
  {
    VersionHasPrerelease(a);
    VersionHasPrerelease(b);
    SplitJoins(Cut(a, '-').0, '.');
    SplitJoins(Cut(b, '-').0, '.');
    SplitJoins(Cut(a, '-').1, '.');
    SplitJoins(Cut(b, '-').1, '.');
  }

  /** CompareVersions is defined exactly on valid versions, antisymmetric, and zero only on equal texts. */
  lemma {:induction false} ComparisonIsAntisymmetric(a: string, b: string)
    ensures CompareVersions(a, b).Some? <==> ValidVersion(a) && ValidVersion(b)
    ensures ValidVersion(a) && ValidVersion(b) ==>
              && CompareVersions(a, b).value in {-1, 0, 1}
              && CompareVersions(a, b).value == -CompareVersions(b, a).value
              && (CompareVersions(a, b).value == 0 <==> a == b)
  {
    if ValidVersion(a) && ValidVersion(b) {
      ComparesParts(a, b);
      ComparesParts(b, a);
      IdentifiersAreOrdered();
      Lex.CompareAntisymmetric(CompareNumericID, CoreOf(a), CoreOf(b));
      Lex.CompareAntisymmetric(ComparePrereleaseID, PrereleaseOf(a), PrereleaseOf(b));
      if CompareVersions(a, b).value == 0 {
        PartsDetermineVersion(a, b);
      }
    }
  }

  lemma {:induction false} ComparisonIsTransitive(a: string, b: string, c: string)
    requires CompareVersions(a, b).Some? && CompareVersions(a, b).value < 0
    requires CompareVersions(b, c).Some? && CompareVersions(b, c).value < 0
    ensures CompareVersions(a, c).Some? && CompareVersions(a, c).value < 0
  {
    ComparesParts(a, b);
    ComparesParts(b, c);
    ComparesParts(a, c);
    IdentifiersAreOrdered();
    Lex.CompareAntisymmetric(CompareNumericID, CoreOf(a), CoreOf(b));
    Lex.CompareAntisymmetric(CompareNumericID, CoreOf(b), CoreOf(c));
    if CoreOf(a) == CoreOf(b) && CoreOf(b) == CoreOf(c) {
      if PrereleaseOf(a) != [] && PrereleaseOf(b) != [] && PrereleaseOf(c) != [] {
        Lex.CompareTransitive(ComparePrereleaseID, PrereleaseOf(a), PrereleaseOf(b), PrereleaseOf(c));
      }
    } else if CoreOf(a) != CoreOf(b) && CoreOf(b) != CoreOf(c) {
      Lex.CompareTransitive(CompareNumericID, CoreOf(a), CoreOf(b), CoreOf(c));
    }
  }

  // ---- it is SemVer precedence ----

  datatype Identifier = Numeric(value: nat) | Alphanumeric(text: string)

  datatype Version = Version(major: nat, minor: nat, patch: nat, pre: seq<Identifier>)

  function ParseIdentifier(id: string): Identifier {
    if IsNumericID(id) then Numeric(Value(id)) else Alphanumeric(id)
  }

  function ParseIdentifiers(ids: seq<string>): seq<Identifier> {
    seq(|ids|, i requires 0 <= i < |ids| => ParseIdentifier(ids[i]))
  }

  function Parse(v: string): Version
    requires ValidVersion(v)
  {
    Version(Value(CoreOf(v)[0]), Value(CoreOf(v)[1]), Value(CoreOf(v)[2]), ParseIdentifiers(PrereleaseOf(v)))
  }

  predicate CharLess(a: char, b: char) {
    a < b
  }

  /** Items 11.4.1 to 11.4.3: numbers numerically, texts in ASCII order, numbers below texts. */
  ghost predicate IdentifierPrecedes(a: Identifier, b: Identifier) {
    match (a, b)
    case (Numeric(m), Numeric(n)) => m < n
    case (Numeric(_), Alphanumeric(_)) => true
    case (Alphanumeric(_), Numeric(_)) => false
    case (Alphanumeric(s), Alphanumeric(t)) => Lex.Before(CharLess, s, t)
  }

  /**
   Items 11.2 to 11.4: major, minor and patch numerically; a prerelease below
   its release; otherwise the first differing identifier, and the longer list
   when the shorter is its prefix.
   */
  ghost predicate Precedes(a: Version, b: Version) {
    if a.major != b.major then a.major < b.major
    else if a.minor != b.minor then a.minor < b.minor
    else if a.patch != b.patch then a.patch < b.patch
    else if a.pre == [] || b.pre == [] then a.pre != [] && b.pre == []
    else exists i :: PreDiffersAt(a.pre, b.pre, i)
  }

  ghost predicate PreDiffersAt(a: seq<Identifier>, b: seq<Identifier>, i: int) {
    && 0 <= i <= |a| && i < |b| && a[..i] == b[..i]
    && (i < |a| ==> IdentifierPrecedes(a[i], b[i]))
  }

  lemma {:induction false} NumeralBounds(s: string)
    requires AllDigits(s)
    ensures Value(s) < Power10(|s|)
    ensures s != "" && s[0] != '0' ==> Value(s) >= Power10(|s| - 1)
  {
    if s != "" {
      var front := s[..|s| - 1];
      NumeralBounds(front);
      if front == "" {
        assert Value(front) == 0;
      }
    }
  }

  function Power10(n: nat): nat {
    if n == 0 then 1 else 10 * Power10(n - 1)
  }

  lemma {:induction false} Power10Grows(m: nat, n: nat)
    requires m <= n
    ensures 0 < Power10(m) <= Power10(n)
    decreases n
  {
    if m < n {
      Power10Grows(m, n - 1);
    } else if n > 0 {
      Power10Grows(n - 1, n - 1);
    }
  }

  lemma {:induction false} SameLengthNumerals(a: string, b: string)
    requires AllDigits(a) && AllDigits(b) && |a| == |b|
    ensures CompareStrings(a, b) == if Value(a) < Value(b) then -1 else if Value(a) > Value(b) then 1 else 0
  {
    if a != "" {
      var n := |a| - 1;
      SameLengthNumerals(a[..n], b[..n]);
      Lex.CompareSnoc(CompareChars, a[..n], b[..n], a[n], b[n]);
      assert a == a[..n] + [a[n]] && b == b[..n] + [b[n]];
    }
  }

  /** Comparing numerals by length and then as text is comparing the unbounded numbers. */
  lemma {:induction false} NumeralsCompareAsNumbers(a: string, b: string)
    requires Canonical(a) && Canonical(b)
    ensures CompareNumericID(a, b) == if Value(a) < Value(b) then -1 else if Value(a) > Value(b) then 1 else 0
  {
    if |a| == |b| {
      SameLengthNumerals(a, b);
    } else if |a| < |b| {
      ShorterIsSmaller(a, b);
    } else {
      ShorterIsSmaller(b, a);
    }
  }

  lemma {:induction false} ShorterIsSmaller(a: string, b: string)
    requires Canonical(a) && Canonical(b) && |a| < |b|
    ensures Value(a) < Value(b)
  {
    NumeralBounds(a);
    NumeralBounds(b);
    Power10Grows(|a|, |b| - 1);
  }

  lemma {:induction false} IdentifiersCompareAsParsed(a: string, b: string)
    requires ValidIdentifier(a) && ValidIdentifier(b)
    ensures ComparePrereleaseID(a, b) < 0 <==> IdentifierPrecedes(ParseIdentifier(a), ParseIdentifier(b))
    ensures a == b <==> ParseIdentifier(a) == ParseIdentifier(b)
  {
    StringsAreOrdered();
    if IsNumericID(a) && IsNumericID(b) {
      NumeralsCompareAsNumbers(a, b);
      CanonicalIsPrint(a);
      CanonicalIsPrint(b);
    } else if !IsNumericID(a) && !IsNumericID(b) {
      Lex.CompareMeansBefore(CompareChars, CharLess, a, b);
    }
  }

  predicate TextPrecedes(a: string, b: string) {
    ComparePrereleaseID(a, b) < 0
  }

  lemma {:induction false} DifferenceIsParsed(a: seq<string>, b: seq<string>, i: int)
    requires forall k :: 0 <= k < |a| ==> ValidIdentifier(a[k])
    requires forall k :: 0 <= k < |b| ==> ValidIdentifier(b[k])
    ensures Lex.DiffersAt(TextPrecedes, a, b, i) <==> PreDiffersAt(ParseIdentifiers(a), ParseIdentifiers(b), i)
  {
    var p, q := ParseIdentifiers(a), ParseIdentifiers(b);
    if 0 <= i <= |a| && i < |b| {
      forall k | 0 <= k < i
        ensures a[k] == b[k] <==> p[k] == q[k]
      {
        IdentifiersCompareAsParsed(a[k], b[k]);
      }
      assert a[..i] == b[..i] <==> forall k :: 0 <= k < i ==> a[k] == b[k];
      assert p[..i] == q[..i] <==> forall k :: 0 <= k < i ==> p[k] == q[k];
      if i < |a| {
        IdentifiersCompareAsParsed(a[i], b[i]);
      }
    }
  }

  lemma {:induction false} PrereleaseMeansPrecedes(a: seq<string>, b: seq<string>)
    requires forall k :: 0 <= k < |a| ==> ValidIdentifier(a[k])
    requires forall k :: 0 <= k < |b| ==> ValidIdentifier(b[k])
    ensures Lex.Compare(ComparePrereleaseID, a, b) < 0 <==>
            exists i :: PreDiffersAt(ParseIdentifiers(a), ParseIdentifiers(b), i)
  {
    IdentifiersAreOrdered();
    Lex.CompareMeansBefore(ComparePrereleaseID, TextPrecedes, a, b);
    forall i
      ensures Lex.DiffersAt(TextPrecedes, a, b, i) <==> PreDiffersAt(ParseIdentifiers(a), ParseIdentifiers(b), i)
    {
      DifferenceIsParsed(a, b, i);
    }
  }

  lemma {:induction false} CoreMeansPrecedes(a: string, b: string)
    requires ValidVersion(a) && ValidVersion(b)
    ensures var x, y, c := Parse(a), Parse(b), CompareCore(CoreOf(a), CoreOf(b));
            if x.major != y.major then (c < 0 <==> x.major < y.major) && c != 0
            else if x.minor != y.minor then (c < 0 <==> x.minor < y.minor) && c != 0
            else if x.patch != y.patch then (c < 0 <==> x.patch < y.patch) && c != 0
            else c == 0
  {
    NumeralsCompareAsNumbers(CoreOf(a)[0], CoreOf(b)[0]);
    NumeralsCompareAsNumbers(CoreOf(a)[1], CoreOf(b)[1]);
    NumeralsCompareAsNumbers(CoreOf(a)[2], CoreOf(b)[2]);
  }

  /** CompareVersions is the precedence of section 11 on the unbounded numbers and identifiers. */
  lemma {:induction false} ComparisonIsPrecedence(a: string, b: string)
    requires ValidVersion(a) && ValidVersion(b)
    ensures CompareVersions(a, b).Some?
    ensures CompareVersions(a, b).value < 0 <==> Precedes(Parse(a), Parse(b))
    ensures CompareVersions(a, b).value > 0 <==> Precedes(Parse(b), Parse(a))
  {
    ComparisonIsAntisymmetric(a, b);
    NegativeIsPrecedence(a, b);
    NegativeIsPrecedence(b, a);
  }

  lemma {:induction false} NegativeIsPrecedence(a: string, b: string)
    requires ValidVersion(a) && ValidVersion(b)
    ensures CompareVersions(a, b).Some?
    ensures CompareVersions(a, b).value < 0 <==> Precedes(Parse(a), Parse(b))
  {
    ComparesParts(a, b);
    CoreIsLexicographic(CoreOf(a), CoreOf(b));
    CoreMeansPrecedes(a, b);
    PrereleaseMeansPrecedes(PrereleaseOf(a), PrereleaseOf(b));
  }

  // ---- the newest of a list ----

  function TrimmedCandidate(line: string): string {
    var text := TrimSpace(line);
    if |text| > 1 && text[0] == 'v' && IsDigit(text[1]) then text[1..] else text
  }

  lemma {:induction false} JoinEnds(parts: seq<string>, sep: string)
    requires |parts| > 0 && parts[|parts| - 1] != ""
    ensures var s, last := Join(parts, sep), parts[|parts| - 1]; s != "" && s[|s| - 1] == last[|last| - 1]
  {
    if |parts| > 1 {
      JoinEnds(parts[1..], sep);
    }
  }

  lemma {:induction false} CoreEnds(major: nat, minor: nat, patch: nat)
    ensures var s := Join([Print(major), Print(minor), Print(patch)], ".");
            s != "" && IsDigit(s[0]) && IsDigit(s[|s| - 1])
  {
    PrintsAreFree(major);
    PrintsAreFree(patch);
    var parts := [Print(major), Print(minor), Print(patch)];
    JoinEnds(parts, ".");
    assert Join(parts, ".") == parts[0] + "." + Join(parts[1..], ".");
  }

  /** A version starts with a digit and ends in a digit, a letter or a hyphen. */
  lemma {:induction false} VersionEnds(version: string)
    requires ValidVersion(version)
    ensures version != "" && IsDigit(version[0]) && version[|version| - 1] !in WHITE_SPACE
  {
    VersionIsWritten(version);
    CoreEnds(Parse(version).major, Parse(version).minor, Parse(version).patch);
    var pre := PrereleaseOf(version);
    if pre != [] {
      IdentifierEnds(pre[|pre| - 1]);
      JoinEnds(pre, ".");
    }
  }

  lemma {:induction false} IdentifierEnds(id: string)
    requires ValidIdentifier(id)
    ensures id[|id| - 1] !in WHITE_SPACE
  {
    assert IsIdentifierChar(id[|id| - 1]);
  }

  /** The lines that stand for a version: between white space, with or without the letter of a tag. */
  lemma {:induction false} CandidateIff(line: string, version: string)
    requires ValidVersion(version)
    ensures TrimmedCandidate(line) == version <==>
            exists left, right ::
              && AllWhite(left) && AllWhite(right)
              && (line == left + version + right || line == left + ("v" + version) + right)
  {
    VersionEnds(version);
    if TrimmedCandidate(line) == version {
      var left, right := TrimIs(line);
      var text := TrimSpace(line);
      assert text == version || text == "v" + version;
    }
    if exists left, right ::
         && AllWhite(left) && AllWhite(right)
         && (line == left + version + right || line == left + ("v" + version) + right)
    {
      var left, right :| && AllWhite(left) && AllWhite(right)
                         && (line == left + version + right || line == left + ("v" + version) + right);
      if line == left + version + right {
        TrimOf(left, version, right);
      } else {
        TrimOf(left, "v" + version, right);
      }
    }
  }

  /** The valid versions among the lines. */
  function Candidates(lines: seq<string>): set<string> {
    set i | 0 <= i < |lines| && ValidVersion(TrimmedCandidate(lines[i])) :: TrimmedCandidate(lines[i])
  }

  /** best is the highest of the candidates; the empty text stands for none. */
  ghost predicate IsNewest(best: string, candidates: set<string>) {
    if candidates == {} then best == ""
    else
      && best in candidates
      && forall c :: c in candidates ==> CompareVersions(c, best).Some? && CompareVersions(c, best).value <= 0
  }

  lemma {:induction false} EmptyIsInvalid()
    ensures !ValidVersion("")
  {
  }

  lemma {:induction false} NewestWith(best: string, candidates: set<string>, c: string)
    requires IsNewest(best, candidates) && ValidVersion(c)
    requires forall x :: x in candidates ==> ValidVersion(x)
    ensures candidates == {} || CompareVersions(c, best).Some?
    ensures IsNewest(if candidates == {} || CompareVersions(c, best).value > 0 then c else best, candidates + {c})
  {
    ComparisonIsAntisymmetric(c, c);
    if candidates != {} {
      ComparisonIsAntisymmetric(c, best);
      forall x | x in candidates
        ensures CompareVersions(c, best).value > 0 ==>
                  CompareVersions(x, c).Some? && CompareVersions(x, c).value <= 0
      {
        ComparisonIsAntisymmetric(x, best);
        ComparisonIsAntisymmetric(x, c);
        ComparisonIsAntisymmetric(best, c);
        if CompareVersions(c, best).value > 0 && CompareVersions(x, best).value < 0 {
          ComparisonIsTransitive(x, best, c);
        }
      }
    }
  }

  /** The texts that are reported and skipped. */
  function Ignored(lines: seq<string>): seq<string> {
    if lines == [] then []
    else
      var text := TrimmedCandidate(lines[|lines| - 1]);
      Ignored(lines[..|lines| - 1]) + if text != "" && !ValidVersion(text) then [text] else []
  }

  /** Reported are the lines that say something other than a version, each as often and in the order as they come. */
  lemma {:induction false} IgnoredAre(lines: seq<string>)
    ensures Ignored(lines) == FlatMap(Reported, lines)
  {
    if lines != [] {
      var n := |lines| - 1;
      IgnoredAre(lines[..n]);
      FlatMapAppend(Reported, lines[..n], [lines[n]]);
      assert lines == lines[..n] + [lines[n]] && [lines[n]][1..] == [];
      assert FlatMap(Reported, [lines[n]]) == Reported(lines[n]) + FlatMap(Reported, []);
    }
  }

  function Reported(line: string): seq<string> {
    var text := TrimmedCandidate(line);
    if text == "" || ValidVersion(text) then [] else [text]
  }

  lemma {:induction false} CandidateOf(lines: seq<string>, x: string)
    ensures x in Candidates(lines) <==>
              ValidVersion(x) && exists k :: 0 <= k < |lines| && TrimmedCandidate(lines[k]) == x
  {
    if x in Candidates(lines) {
      var k :| 0 <= k < |lines| && ValidVersion(TrimmedCandidate(lines[k])) && x == TrimmedCandidate(lines[k]);
    }
  }

  lemma {:induction false} CandidatesNext(lines: seq<string>, i: nat)
    requires i < |lines|
    ensures var c := TrimmedCandidate(lines[i]);
            Candidates(lines[..i + 1]) == Candidates(lines[..i]) + if ValidVersion(c) then {c} else {}
    ensures forall x :: x in Candidates(lines[..i]) ==> ValidVersion(x)
  {
    var now, next := lines[..i], lines[..i + 1];
    assert next == now + [lines[i]];
    var c := TrimmedCandidate(lines[i]);
    forall x
      ensures x in Candidates(next) <==> x in Candidates(now) || (x == c && ValidVersion(c))
      ensures x in Candidates(now) ==> ValidVersion(x)
    {
      CandidateOf(now, x);
      CandidateOf(next, x);
      OneMoreLine(now, lines[i], x);
    }
  }

  lemma {:induction false} OneMoreLine(lines: seq<string>, line: string, x: string)
    ensures (exists k :: 0 <= k < |lines + [line]| && TrimmedCandidate((lines + [line])[k]) == x)
            <==> (exists k :: 0 <= k < |lines| && TrimmedCandidate(lines[k]) == x) || TrimmedCandidate(line) == x
  {
    var longer := lines + [line];
    if exists k :: 0 <= k < |lines| && TrimmedCandidate(lines[k]) == x {
      var k :| 0 <= k < |lines| && TrimmedCandidate(lines[k]) == x;
      assert longer[k] == lines[k];
    }
    assert longer[|lines|] == line;
  }

  lemma {:induction false} IgnoredNext(lines: seq<string>, i: nat)
    requires i < |lines|
    ensures var c := TrimmedCandidate(lines[i]);
            Ignored(lines[..i + 1]) == Ignored(lines[..i]) + if c != "" && !ValidVersion(c) then [c] else []
  {
    assert lines[..i + 1][..i] == lines[..i];
  }

  /**
   newestVersion: one scan that keeps the best candidate so far. A line the
   scanner cannot hold (scanFails) makes the whole answer an error.
   */
  method NewestVersion(lines: seq<string>, scanFails: bool) returns (best: Result<string>, ignored: seq<string>)
    ensures best.Failure? <==> scanFails
    ensures best.Success? ==> IsNewest(best.value, Candidates(lines))
    ensures ignored == Ignored(lines)
  {
    var top := "";
    ignored := [];
    EmptyIsInvalid();
    for i := 0 to |lines|
      invariant IsNewest(top, Candidates(lines[..i]))
      invariant ignored == Ignored(lines[..i])
    {
      var candidate := TrimmedCandidate(lines[i]);
      CandidatesNext(lines, i);
      IgnoredNext(lines, i);
      if candidate == "" {
        continue;
      }
      if !ValidVersion(candidate) {
        ignored := ignored + [candidate];
        continue;
      }
      NewestWith(top, Candidates(lines[..i]), candidate);
      if top == "" {
        top := candidate;
        continue;
      }
      var comparison := CompareVersions(candidate, top);
      if comparison.value > 0 {
        top := candidate;
      }
    }
    assert lines[..|lines|] == lines;
    best := if scanFails then Failure else Success(top);
  }

  /** The order of the lines does not matter, nor do repetitions. */
  lemma {:induction false} NewestIsUnique(lines1: seq<string>, lines2: seq<string>, best1: string, best2: string)
    requires Candidates(lines1) == Candidates(lines2)
    requires IsNewest(best1, Candidates(lines1)) && IsNewest(best2, Candidates(lines2))
    ensures best1 == best2
  {
    if Candidates(lines1) != {} {
      ComparisonIsAntisymmetric(best1, best2);
    }
  }
}
