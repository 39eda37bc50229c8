/** The parts of the C++ standard library whose behaviour the profiler's
    parsers depend on: std::stol / std::stoi (strtol), stream extraction of an
    unsigned 64-bit integer and of a word, and the token sequence produced by
    a `while (std::getline(stream, token, delim))` loop. */
module CppStd {
  import opened Wrappers
  import opened Text
  import opened Machine

  /** Value of a hexadecimal digit in either case, or -1. */
  function HexVal(c: char): int
  {
    if '0' <= c <= '9' then c as int - '0' as int
    else if 'a' <= c <= 'f' then c as int - 'a' as int + 10
    else if 'A' <= c <= 'F' then c as int - 'A' as int + 10
    else -1
  }

  /** Value of c as a digit in base 10 or 16, or -1. */
  function DigitVal(c: char, base: nat): (r: int)
    ensures -1 <= r < base || r == -1
  {
    var v := HexVal(c);
    if 0 <= v < base then v else -1
  }

  predicate AllDigitsIn(s: string, base: nat)
  {
    forall i :: 0 <= i < |s| ==> DigitVal(s[i], base) >= 0
  }

  /** Length of the longest prefix of s made of base digits. */
  function DigitRun(s: string, base: nat): (n: nat)
    ensures n <= |s| && AllDigitsIn(s[..n], base)
    ensures n < |s| ==> DigitVal(s[n], base) < 0
  {
    if s != [] && DigitVal(s[0], base) >= 0 then
      var m := DigitRun(s[1..], base);
      assert s[..m + 1] == [s[0]] + s[1..][..m];
      m + 1
    else 0
  }

  function RunValue(s: string, base: nat): nat
    requires AllDigitsIn(s, base)
  {
    if s == [] then 0
    else RunValue(s[..|s| - 1], base) * base + DigitVal(s[|s| - 1], base)
  }

  /** What strtol / strtoull consume: leading white space, an optional sign,
      in base 16 an optional 0x or 0X when a hex digit follows it, then the
      longest run of digits. */
  datatype Scan = Scan(negative: bool, digits: string, rest: string)

  function ScanNumber(s: string, base: nat): (r: Scan)
    ensures AllDigitsIn(r.digits, base)
  {
    var t := TrimLeft(s);
    var neg := |t| > 0 && t[0] == '-';
    var u := if |t| > 0 && (t[0] == '-' || t[0] == '+') then t[1..] else t;
    var v := if base == 16 && |u| >= 3 && u[0] == '0' && (u[1] == 'x' || u[1] == 'X') && DigitVal(u[2], 16) >= 0
             then u[2..] else u;
    var n := DigitRun(v, base);
    Scan(neg, v[..n], v[n..])
  }

  /** Outcome of std::stol / std::stoi: invalid_argument, out_of_range, or a value. */
  datatype Conv = NoConversion | OutOfRange | Converted(value: int)

  /** std::stol(s, nullptr, base) (lo, hi = the long range) and std::stoi
      (lo, hi = the int range): trailing text after the digits is ignored. */
  function StoL(s: string, base: nat, lo: int, hi: int): (r: Conv)
    ensures r.Converted? ==> lo <= r.value <= hi
    ensures r == NoConversion <==> ScanNumber(s, base).digits == []
  {
    var sc := ScanNumber(s, base);
    if sc.digits == [] then NoConversion
    else
      var m: int := RunValue(sc.digits, base);
      var x := if sc.negative then -m else m;
      if lo <= x <= hi then Converted(x) else OutOfRange
  }

  const LONG_MIN: int := -0x8000_0000_0000_0000
  const LONG_MAX: int := 0x7fff_ffff_ffff_ffff
  const INT_MIN: int := -0x8000_0000
  const INT_MAX: int := 0x7fff_ffff

  /** Result of `stream >> num` into a uint64_t (libstdc++ num_get, which
      follows strtoull): no digits fails with 0; a magnitude above 2^64-1
      fails with 2^64-1; a leading minus negates modulo 2^64. */
  datatype Extracted = Extracted(ok: bool, value: int, rest: string)

  function ExtractU64(s: string, base: nat): (r: Extracted)
    ensures IsU64(r.value)
    ensures !r.ok ==> r.value == 0 || r.value == TWO_64 - 1
  {
    var sc := ScanNumber(s, base);
    if sc.digits == [] then Extracted(false, 0, sc.rest)
    else
      var m: int := RunValue(sc.digits, base);
      if m >= TWO_64 then Extracted(false, TWO_64 - 1, sc.rest)
      else Extracted(true, if sc.negative then U64(-m) else m, sc.rest)
  }

  function NonSpaceRun(s: string): (n: nat)
    ensures n <= |s|
  {
    if s != [] && !IsSpace(s[0]) then 1 + NonSpaceRun(s[1..]) else 0
  }

  /** `stream >> word` into a std::string: skips white space and takes the
      following run of non-space characters; nothing left fails (None). */
  function ExtractWord(s: string): (r: Option<string>)
    ensures r.Some? ==> |r.value| > 0
  {
    var t := TrimLeft(s);
    var n := NonSpaceRun(t);
    if n == 0 then None else Some(t[..n])
  }

  /** Tokens produced by `while (std::getline(stream, token, delim))`: the
      delimiter-separated fields, except that a final empty field (the text
      ends with the delimiter, or is empty) is not produced. */
  function GetlineTokens(s: string, delim: char): (r: seq<string>)
  {
    var p := Split(s, delim);
    if p[|p| - 1] == [] then p[..|p| - 1] else p
  }

  lemma GetlineTokensJoin(parts: seq<string>, delim: char)
    requires |parts| >= 1 && NoneContain(parts, delim) && parts[|parts| - 1] != []
    ensures GetlineTokens(JoinOn(parts, [delim]), delim) == parts
  {
    SplitJoin(parts, delim);
  }

  lemma GetlineTokensEmpty(delim: char)
    ensures GetlineTokens([], delim) == []
  {
  }

  lemma {:induction false} RunValueDecimal(s: string)
    requires AllDigits(s)
    ensures AllDigitsIn(s, 10) && RunValue(s, 10) == DigitsValue(s)
  {
    if s != [] { RunValueDecimal(s[..|s| - 1]); }
  }

  /** A run of decimal digits stops at the first character that is not one. */
  lemma {:induction false} DigitRunPrefix(d: string, rest: string)
    requires AllDigits(d) && (rest == [] || DigitVal(rest[0], 10) < 0)
    ensures DigitRun(d + rest, 10) == |d|
  {
    if d != [] {
      assert (d + rest)[1..] == d[1..] + rest;
      DigitRunPrefix(d[1..], rest);
    } else {
      assert d + rest == rest;
    }
  }

  /** strtol scans an unsigned decimal numeral followed by a non-digit as
      that numeral. */
  lemma ScanDecimal(d: string, rest: string)
    requires |d| > 0 && AllDigits(d) && (rest == [] || DigitVal(rest[0], 10) < 0)
    ensures ScanNumber(d + rest, 10) == Scan(false, d, rest)
  {
    var s := d + rest;
    assert !IsSpace(s[0]) && s[0] != '-' && s[0] != '+';
    assert TrimLeft(s) == s;
    DigitRunPrefix(d, rest);
    assert s[..|d|] == d && s[|d|..] == rest;
  }

  /** strtol scans a minus sign and a decimal numeral as the negated numeral. */
  lemma ScanNegDecimal(d: string, rest: string)
    requires |d| > 0 && AllDigits(d) && (rest == [] || DigitVal(rest[0], 10) < 0)
    ensures ScanNumber("-" + d + rest, 10) == Scan(true, d, rest)
  {
    var s := "-" + d + rest;
    assert TrimLeft(s) == s;
    assert s[1..] == d + rest;
    DigitRunPrefix(d, rest);
    assert (d + rest)[..|d|] == d && (d + rest)[|d|..] == rest;
  }

  /** `stream >> num` reads a decimal numeral of a uint64 value back. */
  lemma ExtractDecimal(n: nat, rest: string)
    requires IsU64(n) && (rest == [] || DigitVal(rest[0], 10) < 0)
    ensures ExtractU64(NatToString(n) + rest, 10) == Extracted(true, n, rest)
  {
    NatToStringDigits(n);
    ScanDecimal(NatToString(n), rest);
    RunValueDecimal(NatToString(n));
  }

  /** std::stoi reads back what std::to_string writes. */
  lemma StoiRoundTrip(i: int)
    requires INT_MIN <= i <= INT_MAX
    ensures StoL(IntToString(i), 10, INT_MIN, INT_MAX) == Converted(i)
  {
    if i < 0 {
      StoiNegative(-i);
    } else {
      StoiNonNegative(i);
    }
  }

  lemma StoiNonNegative(n: nat)
    requires n <= INT_MAX
    ensures StoL(NatToString(n), 10, INT_MIN, INT_MAX) == Converted(n)
  {
    var d := NatToString(n);
    NatToStringDigits(n);
    RunValueDecimal(d);
    assert d + [] == d;
    ScanDecimal(d, []);
  }

  lemma StoiNegative(n: nat)
    requires 0 < n <= -INT_MIN
    ensures StoL("-" + NatToString(n), 10, INT_MIN, INT_MAX) == Converted(-(n as int))
  {
    var d := NatToString(n);
    NatToStringDigits(n);
    RunValueDecimal(d);
    assert "-" + d + [] == "-" + d;
    ScanNegDecimal(d, []);
  }

  lemma {:induction false} DigitRunAll(s: string, base: nat)
    requires AllDigitsIn(s, base)
    ensures DigitRun(s, base) == |s|
  {
    if s != [] { DigitRunAll(s[1..], base); }
  }
}
