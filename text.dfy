/**
 * The parts of .NET's string and number handling that the request parser and
 * the robbery planner rely on: char.IsWhiteSpace, string.Trim, string.Split on
 * one character, string.Join, ToUpper, StartsWith, int/long parsing under
 * NumberStyles.Integer and decimal formatting, and the exceptions parsing throws.
 */
module Text {
  import opened Wrappers

  // ---------------------------------------------------------------------------
  // White space and trimming
  // ---------------------------------------------------------------------------

  /** char.IsWhiteSpace: the Unicode space, line and paragraph separators,
      U+0009..U+000D, U+0085 and U+00A0. */
  predicate IsWhiteSpace(c: char) {
    || c == ' ' || ('\t' <= c <= '\r')
    || c == '\U{0085}' || c == '\U{00A0}' || c == '\U{1680}'
    || ('\U{2000}' <= c <= '\U{200A}')
    || c == '\U{2028}' || c == '\U{2029}' || c == '\U{202F}' || c == '\U{205F}' || c == '\U{3000}'
  }

  /** string.IsNullOrWhiteSpace of a non-null string: empty or white space only. */
  predicate IsBlank(s: string) {
    forall i :: 0 <= i < |s| ==> IsWhiteSpace(s[i])
  }

  /** Drops the leading characters that satisfy `white`. */
  function TrimStart(s: string, white: char -> bool): (r: string)
    ensures |r| <= |s| && r == s[|s| - |r|..]
    ensures forall i :: 0 <= i < |s| - |r| ==> white(s[i])
    ensures r == [] || !white(r[0])
  {
    if s != [] && white(s[0]) then TrimStart(s[1..], white) else s
  }

  /** Drops the trailing characters that satisfy `white`. */
  function TrimEnd(s: string, white: char -> bool): (r: string)
    ensures |r| <= |s| && r == s[..|r|]
    ensures forall i :: |r| <= i < |s| ==> white(s[i])
    ensures r == [] || !white(r[|r| - 1])
  {
    if s != [] && white(s[|s| - 1]) then TrimEnd(s[..|s| - 1], white) else s
  }

  function TrimBy(s: string, white: char -> bool): string {
    TrimEnd(TrimStart(s, white), white)
  }

  /** .NET's Trim: drops leading and trailing white space characters. */
  function Trim(s: string): string {
    TrimBy(s, IsWhiteSpace)
  }

  /** Trimming leaves nothing exactly when the string is blank. */
  lemma TrimEmptyIffBlank(s: string)
    ensures Trim(s) == [] <==> IsBlank(s)
  {
    var t := TrimStart(s, IsWhiteSpace);
    if TrimEnd(t, IsWhiteSpace) == [] && t != [] {
      assert false;
    }
  }

  /** A string that neither begins nor ends with a `white` character is its own trim. */
  lemma TrimByUnchanged(s: string, white: char -> bool)
    requires s != [] && !white(s[0]) && !white(s[|s| - 1])
    ensures TrimBy(s, white) == s
  {
  }

  // ---------------------------------------------------------------------------
  // Case, prefixes, splitting and joining
  // ---------------------------------------------------------------------------

  /** ToUpper on one character, for the ASCII letters. */
  function UpperChar(c: char): char {
    if 'a' <= c <= 'z' then (c as int - 'a' as int + 'A' as int) as char else c
  }

  /** .NET's upper-casing, for the ASCII letters. */
  function Upper(s: string): (r: string)
    ensures |r| == |s|
    ensures forall i :: 0 <= i < |s| ==> r[i] == UpperChar(s[i])
  {
    if s == [] then [] else [UpperChar(s[0])] + Upper(s[1..])
  }

  /** Upper-casing a second time changes nothing. */
  lemma UpperIdempotent(s: string)
    ensures Upper(Upper(s)) == Upper(s)
  {
  }

  /** Ordinal prefix test. */
  predicate StartsWith(s: string, prefix: string) {
    |prefix| <= |s| && s[..|prefix|] == prefix
  }

  /** How many times `c` occurs in `s`. */
  function Occurrences(s: string, c: char): nat {
    if s == [] then 0 else (if s[0] == c then 1 else 0) + Occurrences(s[1..], c)
  }

  /** .NET's Split on one separator character: the pieces between separators, empty pieces included;
      never an empty array. */
  function Split(s: string, sep: char): (parts: seq<string>)
    ensures |parts| == Occurrences(s, sep) + 1
    ensures forall i :: 0 <= i < |parts| ==> sep !in parts[i]
  {
    if s == [] then [[]]
    else
      var rest := Split(s[1..], sep);
      if s[0] == sep then [[]] + rest
      else [[s[0]] + rest[0]] + rest[1..]
  }

  /** .NET's Join: the parts with the separator between each two. */
  function Join(parts: seq<string>, sep: string): string {
    if |parts| == 0 then []
    else if |parts| == 1 then parts[0]
    else parts[0] + sep + Join(parts[1..], sep)
  }

  lemma JoinConsHead(c: char, parts: seq<string>, sep: string)
    requires |parts| >= 1
    ensures Join([[c] + parts[0]] + parts[1..], sep) == [c] + Join(parts, sep)
  {
    var q := [[c] + parts[0]] + parts[1..];
    if |parts| > 1 {
      assert q[1..] == parts[1..];
    }
  }

  /** Joining the pieces of a split with the separator gives back the string. */
  lemma {:induction false} JoinSplit(s: string, sep: char)
    ensures Join(Split(s, sep), [sep]) == s
  {
    if s != [] {
      JoinSplit(s[1..], sep);
      var rest := Split(s[1..], sep);
      if s[0] == sep {
        assert ([[]] + rest)[1..] == rest;
        assert s == [sep] + s[1..];
      } else {
        JoinConsHead(s[0], rest, [sep]);
        assert s == [s[0]] + s[1..];
      }
    }
  }

  lemma {:induction false} SplitPrefix(a: string, t: string, sep: char)
    requires sep !in a
    ensures Split(a + t, sep) == [a + Split(t, sep)[0]] + Split(t, sep)[1..]
  {
    if a == [] {
      var p := Split(t, sep);
      assert a + t == t && a + p[0] == p[0];
      assert p == [p[0]] + p[1..];
    } else {
      SplitPrefix(a[1..], t, sep);
      assert (a + t)[1..] == a[1..] + t;
      assert [a[0]] + (a[1..] + Split(t, sep)[0]) == a + Split(t, sep)[0];
    }
  }

  /** Splitting a join of separator-free pieces gives back the pieces. */
  lemma {:induction false} SplitJoin(parts: seq<string>, sep: char)
    requires |parts| >= 1
    requires forall i :: 0 <= i < |parts| ==> sep !in parts[i]
    ensures Split(Join(parts, [sep]), sep) == parts
  {
    if |parts| == 1 {
      SplitPrefix(parts[0], [], sep);
      assert parts[0] + [] == parts[0];
    } else {
      var tail := Join(parts[1..], [sep]);
      SplitJoin(parts[1..], sep);
      SplitPrefix(parts[0], [sep] + tail, sep);
      assert Join(parts, [sep]) == parts[0] + ([sep] + tail);
      assert ([sep] + tail)[1..] == tail;
      assert Split([sep] + tail, sep) == [[]] + parts[1..];
      assert parts[0] + [] == parts[0];
      assert [parts[0]] + parts[1..] == parts;
    }
  }

  /** A split into exactly two pieces is a string with one separator, and back. */
  lemma SplitPair(a: string, b: string, sep: char)
    requires sep !in a && sep !in b
    ensures Split(a + [sep] + b, sep) == [a, b]
  {
    SplitJoin([a, b], sep);
    assert Join([a, b], [sep]) == a + [sep] + b;
  }

  lemma SplitPairInverse(s: string, sep: char)
    requires |Split(s, sep)| == 2
    ensures s == Split(s, sep)[0] + [sep] + Split(s, sep)[1]
  {
    var p := Split(s, sep);
    JoinSplit(s, sep);
    assert p[1..] == [p[1]];
  }

  // ---------------------------------------------------------------------------
  // Integers: formatting and NumberStyles.Integer parsing
  // ---------------------------------------------------------------------------

  const Int32Min: int := -0x8000_0000
  const Int32Max: int := 0x7FFF_FFFF
  const Int64Min: int := -0x8000_0000_0000_0000
  const Int64Max: int := 0x7FFF_FFFF_FFFF_FFFF

  predicate IsDigit(c: char) {
    '0' <= c <= '9'
  }

  predicate AllDigits(s: string) {
    forall i :: 0 <= i < |s| ==> IsDigit(s[i])
  }

  /** The value of a string of decimal digits, most significant first. */
  function DigitsValue(ds: string): nat
    requires AllDigits(ds)
  {
    if ds == [] then 0 else DigitsValue(ds[..|ds| - 1]) * 10 + (ds[|ds| - 1] as int - '0' as int)
  }

  function DigitChar(d: nat): char
    requires d < 10
  {
    ('0' as int + d) as char
  }

  /** Decimal digits of n, without leading zeros. */
  function NatToString(n: nat): (r: string)
    ensures r != [] && AllDigits(r)
    ensures |r| == 1 <==> n < 10
    ensures r[0] == '0' <==> n == 0
    ensures |r| > 1 ==> r[0] != '0'
  {
    if n < 10 then [DigitChar(n)] else NatToString(n / 10) + [DigitChar(n % 10)]
  }

  /** Decimal text of a long or an int, with "-" as the negative sign. */
  function IntToString(n: int): (r: string)
    ensures r != [] && IsDigit(r[|r| - 1])
    ensures forall i :: 0 <= i < |r| ==> IsDigit(r[i]) || r[i] == '-'
  {
    if n < 0 then "-" + NatToString(-n) else NatToString(n)
  }

  /** The text is canonical: a '-' exactly for negative numbers and only in
      front, then the digits with no leading zero, "0" only for zero. */
  lemma IntToStringCanonical(n: int)
    ensures var r := IntToString(n);
      && (n < 0 <==> r[0] == '-') && '-' !in r[1..]
      && var d := if n < 0 then r[1..] else r;
        d != [] && AllDigits(d) && (|d| > 1 ==> d[0] != '0') && (d[0] == '0' <==> n == 0)
  {
    var m: nat := if n < 0 then -n else n;
    var digits := NatToString(m);
    if n < 0 {
      assert IntToString(n)[1..] == digits;
    }
  }

  /** The white space NumberStyles.Integer allows around a number: U+0009..U+000D and U+0020. */
  predicate IsNumberWhite(c: char) {
    c == ' ' || ('\t' <= c <= '\r')
  }

  /** The number int.Parse, long.Parse and long.TryParse read from s before
      their range check: optional surrounding white space, an optional sign,
      one or more ASCII digits. */
  function ParseInteger(s: string): Option<int> {
    var t := TrimBy(s, IsNumberWhite);
    if t != [] && (t[0] == '-' || t[0] == '+') then
      var ds := t[1..];
      if ds != [] && AllDigits(ds) then
        var v: int := DigitsValue(ds);
        Some(if t[0] == '-' then -v else v)
      else None
    else if t != [] && AllDigits(t) then Some(DigitsValue(t))
    else None
  }

  lemma {:induction false} NatToStringValue(n: nat)
    ensures DigitsValue(NatToString(n)) == n
  {
    if n >= 10 {
      NatToStringValue(n / 10);
      var s := NatToString(n);
      assert s[..|s| - 1] == NatToString(n / 10);
    }
  }

  /** Formatting a number and parsing it back gives the number. */
  lemma ParseIntToString(n: int)
    ensures ParseInteger(IntToString(n)) == Some(n)
  {
    var s := IntToString(n);
    NatToStringValue(if n < 0 then -n else n);
    TrimByUnchanged(s, IsNumberWhite);
    if n < 0 {
      assert s[1..] == NatToString(-n);
    } else {
      assert s[0] != '-' && s[0] != '+';
    }
  }

  /** Outcome of a bounded parse: the number, a FormatException, or an OverflowException. */
  datatype NumberParse = Parsed(value: int) | Malformed | OutOfRange

  /** int.Parse (bounds Int32) or long.Parse (bounds Int64) without the exception. */
  function ParseBounded(s: string, lo: int, hi: int): (r: NumberParse)
    ensures r.Parsed? <==> (ParseInteger(s).Some? && lo <= ParseInteger(s).value <= hi)
    ensures r.Parsed? ==> lo <= r.value <= hi && ParseInteger(s) == Some(r.value)
    ensures r.Malformed? <==> ParseInteger(s).None?
  {
    match ParseInteger(s)
    case None => Malformed
    case Some(n) => if lo <= n <= hi then Parsed(n) else OutOfRange
  }

  // ---------------------------------------------------------------------------
  // Exceptions thrown while parsing
  // ---------------------------------------------------------------------------

  /** The exceptions the request parser can raise and catch. */
  datatype Fault =
    | InvalidArgument              // an argument exception without a message of its own
    | TargetNeeded                 // a plain exception saying that the target is missing
    | BadNumber(text: string)      // the format exception of the integer parsers
    | Overflow(typeName: string)   // the overflow exception of the integer parsers, naming the type

  /** Exception.Message, with .NET's English texts for the library exceptions. */
  function FaultMessage(f: Fault): string {
    match f
    case InvalidArgument => "Value does not fall within the expected range."
    case TargetNeeded => "Target needed"
    case BadNumber(t) => "The input string '" + t + "' was not in a correct format."
    case Overflow(ty) => "Value was either too large or too small for an " + ty + "."
  }

  /** Reading an int: the number, or the exception the parser throws. */
  function ParseInt32(s: string): (r: Result<int, Fault>)
    ensures r.Success? <==> ParseBounded(s, Int32Min, Int32Max).Parsed?
    ensures r.Success? ==> Int32Min <= r.value <= Int32Max && ParseInteger(s) == Some(r.value)
    ensures r.Failure? ==> r.error == (if ParseInteger(s).None? then BadNumber(s) else Overflow("Int32"))
  {
    match ParseBounded(s, Int32Min, Int32Max)
    case Parsed(n) => Success(n)
    case Malformed => Failure(BadNumber(s))
    case OutOfRange => Failure(Overflow("Int32"))
  }

  /** Reading a long: the number, or the exception the parser throws. */
  function ParseInt64(s: string): (r: Result<int, Fault>)
    ensures r.Success? <==> ParseBounded(s, Int64Min, Int64Max).Parsed?
    ensures r.Success? ==> Int64Min <= r.value <= Int64Max && ParseInteger(s) == Some(r.value)
    ensures r.Failure? ==> r.error == (if ParseInteger(s).None? then BadNumber(s) else Overflow("Int64"))
  {
    match ParseBounded(s, Int64Min, Int64Max)
    case Parsed(n) => Success(n)
    case Malformed => Failure(BadNumber(s))
    case OutOfRange => Failure(Overflow("Int64"))
  }

  /** Trying to read a long: the value, or 0 when reading fails. */
  function TryParseInt64(s: string): (amount: int)
    ensures Int64Min <= amount <= Int64Max
    ensures ParseBounded(s, Int64Min, Int64Max).Parsed? ==> amount == ParseInteger(s).value
    ensures !ParseBounded(s, Int64Min, Int64Max).Parsed? ==> amount == 0
  {
    match ParseBounded(s, Int64Min, Int64Max)
    case Parsed(n) => n
    case _ => 0
  }
}
