/**
 Byte sizes (internal/config/bytes.go): the printer and the parser, with Go's
 int64 and uint64 arithmetic written out where it could wrap.
 */
module ByteSize {
  import opened Wrappers
  import opened Decimal
  import opened Text

  const INT64_MAX := 0x7fff_ffff_ffff_ffff
  const INT64_MIN := -0x8000_0000_0000_0000
  const TWO_64 := 0x1_0000_0000_0000_0000

  predicate IsInt64(n: int) {
    INT64_MIN <= n <= INT64_MAX
  }

  /** The int64 product, as the machine computes it. */
  function MulInt64(a: int, b: int): int {
    var p := (a * b) % TWO_64;
    if p > INT64_MAX then p - TWO_64 else p
  }

  datatype Unit = Unit(name: string, size: nat)

  /** The suffix table, longest suffixes first. */
  const UNITS: seq<Unit> := [Unit("GiB", 0x4000_0000), Unit("MiB", 0x10_0000), Unit("KiB", 0x400), Unit("B", 1)]

  // ---- printing ----

  /** The coarsest unit of the table, from index i on, that divides n. */
  function CoarsestUnit(n: nat, i: nat): (k: nat)
    requires i < |UNITS|
    ensures i <= k < |UNITS|
    ensures n % UNITS[k].size == 0
    ensures forall j :: i <= j < k ==> n % UNITS[j].size != 0
    decreases |UNITS| - i
  {
    if i == |UNITS| - 1 || n % UNITS[i].size == 0 then i else CoarsestUnit(n, i + 1)
  }

  function FormatMagnitude(n: nat): string {
    if n == 0 then "0B"
    else
      var u := UNITS[CoarsestUnit(n, 0)];
      Print(n / u.size) + u.name
  }

  /** The uint64 magnitude of a negative int64, computed without negating the minimum. */
  function Magnitude(n: int): nat
    requires IsInt64(n) && n < 0
  {
    (-(n + 1)) + 1
  }

  function FormatByteSize(n: int): string
    requires IsInt64(n)
  {
    if n < 0 then "-" + FormatMagnitude(Magnitude(n)) else FormatMagnitude(n)
  }

  // ---- parsing ----

  function RemoveSpaces(s: string): string {
    if s == "" then "" else (if s[0] == ' ' then "" else [s[0]]) + RemoveSpaces(s[1..])
  }

  /** The two letters outside ASCII whose capital is in it are the dotless i and the long s. */
  function UpperChar(c: char): char {
    if 'a' <= c <= 'z' then (c as nat - 32) as char
    else if c == '\U{0131}' then 'I'
    else if c == '\U{017F}' then 'S'
    else c
  }

  function ToUpper(s: string): string {
    if s == "" then "" else [UpperChar(s[0])] + ToUpper(s[1..])
  }

  predicate HasSuffix(s: string, suffix: string) {
    |suffix| <= |s| && s[|s| - |suffix|..] == suffix
  }

  function TrimSuffix(s: string, suffix: string): string {
    if HasSuffix(s, suffix) then s[..|s| - |suffix|] else s
  }

  /** The unit of the table, from index i on, whose suffix the upper-case text has. */
  function SuffixUnit(upper: string, i: nat): (k: nat)
    requires i <= |UNITS|
    ensures i <= k <= |UNITS|
    decreases |UNITS| - i
  {
    if i == |UNITS| then i
    else if HasSuffix(upper, ToUpper(UNITS[i].name)) && !(UNITS[i].name == "B" && HasSuffix(upper, "IB")) then i
    else SuffixUnit(upper, i + 1)
  }

  /** strconv.ParseInt in base 10 for 64 bits: an optional sign, digits, and a value in range. */
  function ParseInt(s: string): Option<int> {
    var negative := s != "" && s[0] == '-';
    var digits := if s != "" && (s[0] == '-' || s[0] == '+') then s[1..] else s;
    if digits == "" || !AllDigits(digits) then None
    else
      var magnitude: int := Value(digits);
      var n := if negative then -magnitude else magnitude;
      if IsInt64(n) then Some(n) else None
  }

  /** What the text means: a number and the size of its unit. */
  function Parts(s: string): Option<(int, nat)> {
    var text := RemoveSpaces(TrimSpace(s));
    if text == "" then None
    else
      var upper := ToUpper(text);
      var k := SuffixUnit(upper, 0);
      var number := ParseInt(if k < |UNITS| then TrimSuffix(upper, ToUpper(UNITS[k].name)) else upper);
      if number.None? || number.value < 0 then None
      else Some((number.value, if k < |UNITS| then UNITS[k].size else 1))
  }

  /** The size that a text names, when it names one that an int64 can hold. */
  function ParsedSize(s: string): Option<int> {
    var p := Parts(s);
    if p.None? || p.value.0 * p.value.1 > INT64_MAX then None else Some(p.value.0 * p.value.1)
  }

  /** The suffix scan: the first unit of the table whose suffix the text has is cut off. */
  method CutSuffix(text: string) returns (upper: string, mult: nat)
    ensures var k := SuffixUnit(ToUpper(text), 0);
            && upper == (if k < |UNITS| then TrimSuffix(ToUpper(text), ToUpper(UNITS[k].name)) else ToUpper(text))
            && mult == (if k < |UNITS| then UNITS[k].size else 1)
  {
    upper := ToUpper(text);
    mult := 1;
    for i := 0 to |UNITS|
      invariant upper == ToUpper(text) && mult == 1
      invariant SuffixUnit(upper, 0) == SuffixUnit(upper, i)
    {
      var suffix := ToUpper(UNITS[i].name);
      if HasSuffix(upper, suffix) {
        if UNITS[i].name == "B" && HasSuffix(upper, "IB") {
          continue;
        }
        mult := UNITS[i].size;
        upper := TrimSuffix(upper, suffix);
        break;
      }
    }
  }

  /** The overflow check and the product. */
  method SizeOf(n: nat, mult: nat) returns (size: Option<int>)
    requires n <= INT64_MAX && mult > 0
    ensures size == if n * mult > INT64_MAX then None else Some(n * mult)
  {
    if mult != 1 && n > INT64_MAX / mult {
      ProductTooLarge(n, mult);
      return None;
    }
    ProductFits(n, mult);
    size := Some(MulInt64(n, mult));
  }

  /** parseByteSizeString: the result is the exact product, never a wrapped one. */
  method ParseByteSizeString(s: string) returns (size: Option<int>)
    ensures size == ParsedSize(s)
    ensures size.Some? ==> 0 <= size.value <= INT64_MAX
  {
    var text := RemoveSpaces(TrimSpace(s));
    if text == "" {
      return None;
    }
    var upper, mult := CutSuffix(text);
    var number := ParseInt(upper);
    if number.None? || number.value < 0 {
      return None;
    }
    assert Parts(s) == Some((number.value, mult));
    size := SizeOf(number.value, mult);
  }

  lemma {:induction false} ProductTooLarge(n: nat, mult: nat)
    requires mult > 0 && n > INT64_MAX / mult
    ensures n * mult > INT64_MAX
  {
    var q := INT64_MAX / mult;
    assert INT64_MAX == q * mult + INT64_MAX % mult;
    assert n * mult >= (q + 1) * mult;
  }

  lemma {:induction false} ProductFits(n: nat, mult: nat)
    requires mult > 0 && n <= INT64_MAX && (mult == 1 || n <= INT64_MAX / mult)
    ensures n * mult <= INT64_MAX
    ensures MulInt64(n, mult) == n * mult
  {
    if mult != 1 {
      var q := INT64_MAX / mult;
      assert n * mult <= q * mult;
    }
  }

  // ---- the two are inverse ----

  lemma {:induction false} CharJoins(c: char, a: string, b: string)
    ensures [c] + (a + b) == [c] + a + b
  {
  }

  lemma {:induction false} ToUpperAppend(a: string, b: string)
    ensures ToUpper(a + b) == ToUpper(a) + ToUpper(b)
  {
    if a == "" {
      assert a + b == b;
    } else {
      ToUpperAppend(a[1..], b);
      assert (a + b)[1..] == a[1..] + b && (a + b)[0] == a[0];
      CharJoins(UpperChar(a[0]), ToUpper(a[1..]), ToUpper(b));
    }
  }

  lemma {:induction false} DigitsAreUpper(s: string)
    requires AllDigits(s)
    ensures ToUpper(s) == s
  {
    if s != "" {
      DigitsAreUpper(s[1..]);
    }
  }

  /** Spaces do not count, wherever they stand. */
  lemma {:induction false} SpacesDoNotCount(a: string, b: string)
    ensures RemoveSpaces(a + " " + b) == RemoveSpaces(a + b)
  {
    if a == "" {
      assert (" " + b)[1..] == b && a + " " + b == " " + b && a + b == b;
    } else {
      SpacesDoNotCount(a[1..], b);
      assert (a + " " + b)[1..] == a[1..] + " " + b && (a + b)[1..] == a[1..] + b;
    }
  }

  lemma {:induction false} NoSpaces(s: string)
    requires forall c :: c in s ==> c !in WHITE_SPACE
    ensures RemoveSpaces(s) == s && TrimSpace(s) == s
  {
    if s != "" {
      assert s[0] in s && s[|s| - 1] in s;
      NoSpaces(s[1..]);
    }
  }

  lemma {:induction false} UnitNames()
    ensures ToUpper("GiB") == "GIB" && ToUpper("MiB") == "MIB" && ToUpper("KiB") == "KIB" && ToUpper("B") == "B"
  {
    assert "GiB"[1..] == "iB" && "MiB"[1..] == "iB" && "KiB"[1..] == "iB" && "iB"[1..] == "B" && "B"[1..] == "";
    assert ToUpper("B") == "B";
    assert ToUpper("iB") == "IB";
  }

  lemma {:induction false} SuffixSecond(s: string, suffix: string)
    requires HasSuffix(s, suffix) && |suffix| >= 2
    ensures s[|s| - 2] == suffix[|suffix| - 2]
  {
    assert s[|s| - |suffix|..][|suffix| - 2] == s[|s| - 2];
  }

  /** A numeral followed by the name of unit k is read in that unit. */
  lemma {:induction false} SuffixIsFound(digits: string, k: nat)
    requires digits != "" && AllDigits(digits) && k < |UNITS|
    ensures ToUpper(digits + UNITS[k].name) == digits + ToUpper(UNITS[k].name)
    ensures SuffixUnit(digits + ToUpper(UNITS[k].name), 0) == k
  {
    ToUpperAppend(digits, UNITS[k].name);
    DigitsAreUpper(digits);
    UnitNames();
    if k == 3 {
      BytesAreFound(digits);
    } else {
      PrefixedAreFound(digits, k);
    }
  }

  predicate EndsInDigit(s: string) {
    s != "" && IsDigit(s[|s| - 1])
  }

  lemma {:induction false} BytesAreFound(front: string)
    requires EndsInDigit(front)
    ensures SuffixUnit(front + "B", 0) == 3
  {
    var upper := front + "B";
    UnitNames();
    assert upper[|upper| - 2] == front[|front| - 1];
    forall suffix | suffix in {"GIB", "MIB", "KIB", "IB"}
      ensures !HasSuffix(upper, suffix)
    {
      if HasSuffix(upper, suffix) {
        SuffixSecond(upper, suffix);
        assert false;
      }
    }
    assert upper[|upper| - 1..] == "B";
    assert SuffixUnit(upper, 3) == 3;
    assert SuffixUnit(upper, 1) == 3;
  }

  lemma {:induction false} PrefixedAreFound(front: string, k: nat)
    requires k < 3
    ensures SuffixUnit(front + ToUpper(UNITS[k].name), 0) == k
  {
    UnitNames();
    var upper := front + ToUpper(UNITS[k].name);
    assert upper[|upper| - 3..] == ToUpper(UNITS[k].name);
    assert SuffixUnit(upper, k) == k;
  }

  lemma {:induction false} FormattedIsClean(digits: string, k: nat)
    requires AllDigits(digits) && k < |UNITS|
    ensures var s := digits + UNITS[k].name; RemoveSpaces(TrimSpace(s)) == s
  {
    var s := digits + UNITS[k].name;
    forall c | c in s
      ensures c !in WHITE_SPACE
    {
      assert c in digits || c in UNITS[k].name;
    }
    NoSpaces(s);
  }

  lemma {:induction false} ParsePrint(n: nat)
    requires n <= INT64_MAX
    ensures ParseInt(Print(n)) == Some(n)
  {
    PrintIsCanonical(n);
    assert IsDigit(Print(n)[0]);
  }

  lemma {:induction false} TrimAdded(s: string, suffix: string)
    ensures TrimSuffix(s + suffix, suffix) == s
  {
    assert (s + suffix)[|s|..] == suffix;
  }

  /** A number printed in unit k is read as that number in that unit. */
  lemma {:induction false} FormattedParts(n: nat, k: nat)
    requires k < |UNITS| && n <= INT64_MAX
    ensures Parts(Print(n) + UNITS[k].name) == Some((n, UNITS[k].size))
  {
    PrintIsCanonical(n);
    SuffixIsFound(Print(n), k);
    FormattedIsClean(Print(n), k);
    TrimAdded(Print(n), ToUpper(UNITS[k].name));
    ParsePrint(n);
  }

  /** A formatted magnitude is a numeral and a unit name. */
  ghost function Shape(n: nat): (r: (nat, nat))
    ensures r.0 < |UNITS| && r.1 * UNITS[r.0].size == n
    ensures FormatMagnitude(n) == Print(r.1) + UNITS[r.0].name
    ensures Print(r.1) != "" && AllDigits(Print(r.1))
  {
    PrintIsCanonical(0);
    if n == 0 then
      assert Print(0) == "0";
      (3, 0)
    else
      var k := CoarsestUnit(n, 0);
      PrintIsCanonical(n / UNITS[k].size);
      (k, n / UNITS[k].size)
  }

  /** Parsing a formatted size gives the size back. */
  lemma {:induction false} RoundTrip(n: int)
    requires 0 <= n <= INT64_MAX
    ensures ParsedSize(FormatByteSize(n)) == Some(n)
  {
    var (k, q) := Shape(n);
    FormattedParts(q, k);
  }

  /** The number of bytes that a formatted magnitude shows, without the int64 bound. */
  lemma {:induction false} MagnitudeInjective(m: nat, n: nat)
    requires FormatMagnitude(m) == FormatMagnitude(n)
    ensures m == n
  {
    var (i, p) := Shape(m);
    var (j, q) := Shape(n);
    SuffixIsFound(Print(p), i);
    SuffixIsFound(Print(q), j);
    assert Print(p) == (Print(p) + UNITS[i].name)[..|Print(p)|];
    assert Print(q) == (Print(q) + UNITS[j].name)[..|Print(q)|];
    PrintIsCanonical(p);
    PrintIsCanonical(q);
  }

  /** Two different int64 values, the minimum included, are never shown alike. */
  lemma {:induction false} FormatInjective(a: int, b: int)
    requires IsInt64(a) && IsInt64(b)
    requires FormatByteSize(a) == FormatByteSize(b)
    ensures a == b
  {
    StartsWithDigit(a);
    StartsWithDigit(b);
    if a < 0 && b < 0 {
      assert FormatByteSize(a)[1..] == FormatMagnitude(Magnitude(a));
      assert FormatByteSize(b)[1..] == FormatMagnitude(Magnitude(b));
      MagnitudeInjective(Magnitude(a), Magnitude(b));
    } else if a >= 0 && b >= 0 {
      MagnitudeInjective(a, b);
    }
  }

  lemma {:induction false} StartsWithDigit(n: int)
    requires IsInt64(n)
    ensures FormatByteSize(n) != "" && (FormatByteSize(n)[0] == '-' <==> n < 0)
  {
    if n >= 0 {
      var (k, q) := Shape(n);
      assert IsDigit(Print(q)[0]);
    }
  }

  // ---- the grammar of sizes, in figures ----

  /** The units that a size may carry, in upper case; a size without one counts bytes. */
  function BytesIn(unit: string): Option<nat> {
    match unit
    case "GIB" => Some(1073741824)
    case "MIB" => Some(1048576)
    case "KIB" => Some(1024)
    case "B" => Some(1)
    case "" => Some(1)
    case _ => None
  }

  /** A sign, digits and a unit, which name n bytes. A negative size is none, except for zero. */
  ghost predicate Spells(upper: string, sign: string, digits: string, unit: string, n: int) {
    && upper == sign + digits + unit
    && sign in {"", "+", "-"} && digits != "" && AllDigits(digits) && BytesIn(unit).Some?
    && n == Value(digits) * BytesIn(unit).value <= 0x7fff_ffff_ffff_ffff
    && (sign == "-" ==> Value(digits) == 0)
  }

  /** The unit of the table, or none, by its upper-case name. */
  function NameOf(k: nat): string
    requires k <= |UNITS|
  {
    if k < |UNITS| then ToUpper(UNITS[k].name) else ""
  }

  lemma {:induction false} NamesAndSizes(k: nat)
    requires k <= |UNITS|
    ensures BytesIn(NameOf(k)) == Some(if k < |UNITS| then UNITS[k].size else 1)
  {
    UnitNames();
  }

  lemma {:induction false} UnitIsFound(front: string, k: nat)
    requires EndsInDigit(front) && k <= |UNITS|
    ensures SuffixUnit(front + NameOf(k), 0) == k
  {
    if k < 3 {
      PrefixedAreFound(front, k);
    } else if k == 3 {
      UnitNames();
      BytesAreFound(front);
    } else {
      NoUnitIsFound(front);
      assert front + "" == front;
    }
  }

  lemma {:induction false} SuffixLast(s: string, suffix: string)
    requires HasSuffix(s, suffix) && suffix != ""
    ensures s[|s| - 1] == suffix[|suffix| - 1]
  {
    assert s[|s| - |suffix|..][|suffix| - 1] == s[|s| - 1];
  }

  lemma {:induction false} NoUnitIsFound(front: string)
    requires EndsInDigit(front)
    ensures SuffixUnit(front, 0) == 4
  {
    UnitNames();
    forall suffix | suffix in {"GIB", "MIB", "KIB", "B"}
      ensures !HasSuffix(front, suffix)
    {
      if HasSuffix(front, suffix) {
        SuffixLast(front, suffix);
        assert false;
      }
    }
    assert SuffixUnit(front, 2) == 4;
  }

  lemma {:induction false} SuffixIsThere(upper: string, i: nat)
    requires i <= |UNITS| && SuffixUnit(upper, i) < |UNITS|
    ensures HasSuffix(upper, ToUpper(UNITS[SuffixUnit(upper, i)].name))
    decreases |UNITS| - i
  {
    if SuffixUnit(upper, i) > i {
      SuffixIsThere(upper, i + 1);
    }
  }

  /** An integer text is a sign and digits, whose value is in range. */
  lemma {:induction false} IntegerIs(front: string, n: nat) returns (sign: string, digits: string)
    requires ParseInt(front) == Some(n)
    ensures front == sign + digits && sign in {"", "+", "-"} && digits != "" && AllDigits(digits)
    ensures Value(digits) == n && (sign == "-" ==> n == 0)
  {
    if front[0] == '-' || front[0] == '+' {
      sign, digits := [front[0]], front[1..];
    } else {
      sign, digits := "", front;
    }
  }

  lemma {:induction false} IntegerParses(sign: string, digits: string)
    requires sign in {"", "+", "-"} && digits != "" && AllDigits(digits) && Value(digits) <= INT64_MAX
    requires sign == "-" ==> Value(digits) == 0
    ensures ParseInt(sign + digits) == Some(Value(digits))
    ensures EndsInDigit(sign + digits)
  {
    var front := sign + digits;
    if sign == "" {
      assert front == digits && IsDigit(front[0]);
    } else {
      assert front[1..] == digits && front[0] == sign[0];
    }
  }

  /** A text names a size exactly when it is spelled so, up to case and spaces. */
  lemma {:induction false} ParsesIff(s: string, n: int)
    ensures ParsedSize(s) == Some(n) <==>
            exists sign, digits, unit :: Spells(ToUpper(RemoveSpaces(TrimSpace(s))), sign, digits, unit, n)
  {
    var upper := ToUpper(RemoveSpaces(TrimSpace(s)));
    if ParsedSize(s) == Some(n) {
      ParsedIsSpelled(s, n);
    }
    if exists sign, digits, unit :: Spells(upper, sign, digits, unit, n) {
      var sign, digits, unit :| Spells(upper, sign, digits, unit, n);
      SpelledParses(s, sign, digits, unit, n);
    }
  }

  /** What is before the unit of a text. */
  function Front(upper: string): string {
    if SuffixUnit(upper, 0) < |UNITS| then TrimSuffix(upper, NameOf(SuffixUnit(upper, 0))) else upper
  }

  lemma {:induction false} FrontIs(upper: string)
    ensures upper == Front(upper) + NameOf(SuffixUnit(upper, 0))
  {
    var k := SuffixUnit(upper, 0);
    if k < |UNITS| {
      SuffixIsThere(upper, 0);
      var suffix := NameOf(k);
      assert upper == upper[..|upper| - |suffix|] + upper[|upper| - |suffix|..];
    } else {
      assert upper + "" == upper;
    }
  }

  /** The number and the unit of a text that has parts. */
  lemma {:induction false} PartsSplit(s: string)
    requires Parts(s).Some?
    ensures var upper, number := ToUpper(RemoveSpaces(TrimSpace(s))), Parts(s).value.0;
            && number >= 0 && ParseInt(Front(upper)) == Some(number)
            && BytesIn(NameOf(SuffixUnit(upper, 0))) == Some(Parts(s).value.1)
  {
    NamesAndSizes(SuffixUnit(ToUpper(RemoveSpaces(TrimSpace(s))), 0));
  }

  lemma {:induction false} ParsedIsSpelled(s: string, n: int)
    requires ParsedSize(s) == Some(n)
    ensures exists sign, digits, unit :: Spells(ToUpper(RemoveSpaces(TrimSpace(s))), sign, digits, unit, n)
  {
    var upper := ToUpper(RemoveSpaces(TrimSpace(s)));
    PartsSplit(s);
    FrontIs(upper);
    var sign, digits := IntegerIs(Front(upper), Parts(s).value.0);
    assert Spells(upper, sign, digits, NameOf(SuffixUnit(upper, 0)), n);
  }

  lemma {:induction false} UnitOf(unit: string) returns (k: nat)
    requires BytesIn(unit).Some?
    ensures k <= |UNITS| && NameOf(k) == unit
  {
    UnitNames();
    k := if unit == "GIB" then 0 else if unit == "MIB" then 1 else if unit == "KIB" then 2 else if unit == "B" then 3
         else 4;
  }

  lemma {:induction false} SpelledParses(s: string, sign: string, digits: string, unit: string, n: int)
    requires Spells(ToUpper(RemoveSpaces(TrimSpace(s))), sign, digits, unit, n)
    ensures ParsedSize(s) == Some(n)
  {
    var k := UnitOf(unit);
    NamesAndSizes(k);
    ValueFits(Value(digits), BytesIn(unit).value, n);
    IntegerParses(sign, digits);
    PartsAre(s, sign + digits, k, Value(digits));
  }

  lemma {:induction false} PartsAre(s: string, front: string, k: nat, value: nat)
    requires k <= |UNITS| && ToUpper(RemoveSpaces(TrimSpace(s))) == front + NameOf(k)
    requires EndsInDigit(front) && ParseInt(front) == Some(value)
    ensures Parts(s) == Some((value, if k < |UNITS| then UNITS[k].size else 1))
  {
    UnitIsFound(front, k);
    TrimAdded(front, NameOf(k));
    assert front + "" == front;
    assert front + NameOf(k) != "";
  }

  lemma {:induction false} ValueFits(value: nat, size: nat, n: int)
    requires n == value * size <= INT64_MAX && size >= 1
    ensures value <= INT64_MAX
  {
    assert value * size >= value;
  }

  /** A size is shown in the coarsest unit that divides it, after its sign; zero is shown in bytes. */
  lemma {:induction false} FormatIs(n: int)
    requires IsInt64(n)
    ensures var m := if n < 0 then -n else n;
            FormatByteSize(n)
            == (if n < 0 then "-" else "")
               + (if m == 0 then "0B"
                  else if m % 1073741824 == 0 then Print(m / 1073741824) + "GiB"
                  else if m % 1048576 == 0 then Print(m / 1048576) + "MiB"
                  else if m % 1024 == 0 then Print(m / 1024) + "KiB"
                  else Print(m) + "B")
  {
    var m := if n < 0 then -n else n;
    if m != 0 {
      MagnitudeIs(m);
    }
    assert "" + FormatMagnitude(m) == FormatMagnitude(m);
  }

  lemma {:induction false} MagnitudeIs(m: nat)
    requires m > 0
    ensures FormatMagnitude(m)
            == if m % 1073741824 == 0 then Print(m / 1073741824) + "GiB"
               else if m % 1048576 == 0 then Print(m / 1048576) + "MiB"
               else if m % 1024 == 0 then Print(m / 1024) + "KiB"
               else Print(m) + "B"
  {
    var k := CoarsestUnit(m, 0);
    assert k == if m % 1073741824 == 0 then 0 else if m % 1048576 == 0 then 1 else if m % 1024 == 0 then 2 else 3;
  }
}
