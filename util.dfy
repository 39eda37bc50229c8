/** String, number and byte-layout helpers of cpp/util.cpp. File contents are
    oracles passed in as strings; GenHashId, which hashes the pid and the time
    stamp counter, is an oracle passed in as the value it would return. */
module Util {
  import opened Wrappers
  import opened Machine
  import opened Text
  import opened CppStd
  import opened PerfmonTypes

  // ---------------------------------------------------------------------
  // read_cpu_range

  /** The integers a..b in ascending order; empty when a > b. */
  function Range(a: int, b: int): (r: seq<int>)
    ensures |r| == if a <= b then b - a + 1 else 0
    ensures forall k :: 0 <= k < |r| ==> r[k] == a + k
  {
    if a <= b then seq(b - a + 1, k => a + k) else []
  }

  /** Index of the first occurrence of c in s, or |s|. */
  function FindChar(s: string, c: char): (n: nat)
    ensures n <= |s| && c !in s[..n]
    ensures n < |s| ==> s[n] == c
  {
    if s == [] then 0
    else if s[0] == c then 0
    else
      var m := FindChar(s[1..], c);
      assert s[..m + 1] == [s[0]] + s[1..][..m];
      m + 1
  }

  function Stoi(s: string): Result<int>
  {
    match StoL(s, 10, INT_MIN, INT_MAX)
    case NoConversion => Err("invalid_argument")
    case OutOfRange => Err("out_of_range")
    case Converted(v) => Ok(v)
  }

  /** The CPUs one token of a cpu list names: "n" names n, "a-b" names a..b
      split at the first '-'. std::stoi failures are thrown. */
  function ExpandToken(t: string): Result<seq<int>>
  {
    var k := FindChar(t, '-');
    if k == |t| then
      match Stoi(t)
      case Err(m) => Err(m)
      case Ok(v) => Ok([v])
    else
      match Stoi(t[..k])
      case Err(m) => Err(m)
      case Ok(a) =>
        match Stoi(t[k + 1..])
        case Err(m) => Err(m)
        case Ok(b) => Ok(Range(a, b))
  }

  /** The tokens' expansions concatenated in token order; the first failing
      token's exception otherwise. */
  function ExpandTokens(toks: seq<string>): Result<seq<int>>
  {
    if toks == [] then Ok([])
    else
      match ExpandTokens(toks[..|toks| - 1])
      case Err(m) => Err(m)
      case Ok(p) =>
        match ExpandToken(toks[|toks| - 1])
        case Err(m) => Err(m)
        case Ok(e) => Ok(p + e)
  }

  /** util::read_cpu_range over the file's content. */
  method ReadCpuRange(content: string) returns (r: Result<seq<int>>)
    ensures r == ExpandTokens(GetlineTokens(content, ','))
  {
    var toks := GetlineTokens(content, ',');
    var cpus: seq<int> := [];
    var i := 0;
    while i < |toks|
      invariant 0 <= i <= |toks|
      invariant ExpandTokens(toks[..i]) == Ok(cpus)
    {
      var e := ReadCpuToken(toks[i]);
      ExpandTokensStep(toks, i);
      if e.Err? {
        ExpandTokensStopsAt(toks, i + 1);
        return e;
      }
      cpus := cpus + e.value;
      i := i + 1;
    }
    assert toks[..i] == toks;
    return Ok(cpus);
  }

  /** The body of read_cpu_range's loop for one token. */
  method ReadCpuToken(t: string) returns (r: Result<seq<int>>)
    ensures r == ExpandToken(t)
  {
    var k := FindChar(t, '-');
    if k == |t| {
      var v := Stoi(t);
      if v.Err? { return Err(v.msg); }
      return Ok([v.value]);
    }
    var a := Stoi(t[..k]);
    if a.Err? { return Err(a.msg); }
    var b := Stoi(t[k + 1..]);
    if b.Err? { return Err(b.msg); }
    var cpus := RangeLoop(a.value, b.value);
    return Ok(cpus);
  }

  /** The range loop of read_cpu_range: a, a+1, ..., b pushed in turn. */
  method RangeLoop(a: int, b: int) returns (cpus: seq<int>)
    ensures cpus == Range(a, b)
  {
    cpus := [];
    var j := a;
    while j <= b
      invariant a <= b ==> a <= j <= b + 1
      invariant a > b ==> j == a
      invariant cpus == Range(a, j - 1)
      decreases b - j
    {
      RangeSnoc(a, j);
      cpus := cpus + [j];
      j := j + 1;
    }
  }

  lemma RangeSnoc(a: int, b: int)
    requires a <= b
    ensures Range(a, b) == Range(a, b - 1) + [b]
  {
  }

  /** An exception thrown while expanding a prefix of the tokens is the
      exception of the whole list. */
  lemma {:induction false} ExpandTokensStopsAt(toks: seq<string>, n: nat)
    requires n <= |toks| && ExpandTokens(toks[..n]).Err?
    ensures ExpandTokens(toks) == ExpandTokens(toks[..n])
    decreases |toks| - n
  {
    if n < |toks| {
      var m := |toks| - 1;
      assert toks[..m][..n] == toks[..n];
      ExpandTokensStopsAt(toks[..m], n);
      assert toks[..|toks|] == toks;
    } else {
      assert toks[..n] == toks;
    }
  }

  /** A cpu list whose tokens are single numbers "n" names exactly those CPUs. */
  lemma ExpandSingles(cpus: seq<int>)
    requires forall k :: 0 <= k < |cpus| ==> 0 <= cpus[k] <= INT_MAX
    ensures ExpandTokens(seq(|cpus|, k requires 0 <= k < |cpus| => IntToString(cpus[k]))) == Ok(cpus)
  {
    var toks := seq(|cpus|, k requires 0 <= k < |cpus| => IntToString(cpus[k]));
    forall k | 0 <= k < |cpus| ensures ExpandToken(toks[k]) == Ok([cpus[k]]) {
      ExpandSingleToken(cpus[k]);
    }
    ExpandSingleTokens(toks, cpus);
  }

  lemma {:induction false} ExpandSingleTokens(toks: seq<string>, cpus: seq<int>)
    requires |toks| == |cpus|
    requires forall k :: 0 <= k < |cpus| ==> ExpandToken(toks[k]) == Ok([cpus[k]])
    ensures ExpandTokens(toks) == Ok(cpus)
  {
    if cpus != [] {
      var n := |cpus| - 1;
      ExpandSingleTokens(toks[..n], cpus[..n]);
      assert toks == toks[..n] + [toks[n]];
      ExpandTokensSnoc(toks[..n], toks[n], cpus[..n], [cpus[n]]);
      assert cpus[..n] + [cpus[n]] == cpus;
    }
  }

  /** Expanding one token more: its exception, or its CPUs appended. */
  lemma ExpandTokensStep(toks: seq<string>, i: nat)
    requires i < |toks| && ExpandTokens(toks[..i]).Ok?
    ensures ExpandToken(toks[i]).Err? ==> ExpandTokens(toks[..i + 1]) == ExpandToken(toks[i])
    ensures ExpandToken(toks[i]).Ok? ==>
      ExpandTokens(toks[..i + 1]) == Ok(ExpandTokens(toks[..i]).value + ExpandToken(toks[i]).value)
  {
    assert toks[..i + 1][..i] == toks[..i];
  }

  /** One more token that expands appends its CPUs. */
  lemma ExpandTokensSnoc(init: seq<string>, t: string, p: seq<int>, e: seq<int>)
    requires ExpandTokens(init) == Ok(p) && ExpandToken(t) == Ok(e)
    ensures ExpandTokens(init + [t]) == Ok(p + e)
  {
    assert (init + [t])[..|init|] == init;
  }

  /** A token "n" names exactly the CPU n. */
  lemma ExpandSingleToken(c: int)
    requires 0 <= c <= INT_MAX
    ensures ExpandToken(IntToString(c)) == Ok([c])
  {
    NatToStringDigits(c);
    assert '-' !in IntToString(c);
    StoiRoundTrip(c);
  }

  /** A range token "a-b" of non-negative numbers names a..b. */
  lemma ExpandRangeToken(a: nat, b: nat)
    requires a <= INT_MAX && b <= INT_MAX
    ensures ExpandToken(IntToString(a) + "-" + IntToString(b)) == Ok(Range(a, b))
  {
    var sa, sb := IntToString(a), IntToString(b);
    var t := sa + "-" + sb;
    NatToStringDigits(a);
    assert '-' !in sa;
    assert t == sa + ("-" + sb);
    FindCharPrefix(sa, "-" + sb, '-');
    assert t[..|sa|] == sa && t[|sa| + 1..] == sb;
    StoiRoundTrip(a);
    StoiRoundTrip(b);
    ExpandRangeSplit(t, |sa|, a, b);
  }

  /** A token whose first '-' is at k, with numbers a before it and b after
      it, names a..b. */
  lemma ExpandRangeSplit(t: string, k: nat, a: int, b: int)
    requires k < |t| && FindChar(t, '-') == k
    requires Stoi(t[..k]) == Ok(a) && Stoi(t[k + 1..]) == Ok(b)
    ensures ExpandToken(t) == Ok(Range(a, b))
  {
  }

  lemma {:induction false} FindCharPrefix(x: string, y: string, c: char)
    requires c !in x && y != [] && y[0] == c
    ensures FindChar(x + y, c) == |x|
  {
    if x != [] {
      assert (x + y)[1..] == x[1..] + y;
      FindCharPrefix(x[1..], y, c);
    } else {
      assert x + y == y;
    }
  }

  // ---------------------------------------------------------------------
  // PathJoin

  /** util::PathJoin. p1 must be non-empty (the source reads its last char). */
  function PathJoin(p1: string, p2: string): (r: string)
    requires |p1| > 0
    ensures |r| <= |p1| + |p2| + 1 && |r| >= |p1| + |p2|
    ensures r[..|p1|] == p1 && r[|r| - |p2|..] == p2
    ensures r[|r| - |p2| - 1] == '/'
    ensures |r| == |p1| + |p2| + 1 <==> p1[|p1| - 1] != '/'
    ensures p1[|p1| - 1] == '/' ==> r == p1 + p2
  {
    if p1[|p1| - 1] == '/' then p1 + p2 else p1 + "/" + p2
  }

  // ---------------------------------------------------------------------
  // StringSplit

  /** The fields of t when an unfinished field precedes it. */
  function SplitAfter(field: string, t: string, sep: char): seq<string>
  {
    var r := Split(t, sep);
    [field + r[0]] + r[1..]
  }

  lemma SplitAfterStep(field: string, t: string, sep: char)
    requires t != []
    ensures SplitAfter(field, t, sep) ==
      if t[0] == sep then [field] + SplitAfter([], t[1..], sep)
      else SplitAfter(field + [t[0]], t[1..], sep)
  {
    var r' := Split(t[1..], sep);
    assert [] + r'[0] == r'[0];
    assert r' == [r'[0]] + r'[1..];
    var r := Split(t, sep);
    if t[0] == sep {
      assert r == [[]] + r';
      assert r[0] == [] && r[1..] == r';
      assert field + r[0] == field;
    } else {
      assert r == [[t[0]] + r'[0]] + r'[1..];
      assert field + r[0] == (field + [t[0]]) + r'[0];
    }
  }

  /** Before the first character, no field is closed or started. */
  lemma SplitAfterStart(s: string, sep: char)
    ensures Split(s, sep) == [] + SplitAfter([], s[0..], sep)
  {
    assert s[0..] == s;
    assert [] + Split(s, sep)[0] == Split(s, sep)[0];
    assert Split(s, sep) == [Split(s, sep)[0]] + Split(s, sep)[1..];
  }

  /** SplitAfterStep at position i of s. */
  lemma SplitAfterAt(field: string, s: string, i: nat, sep: char)
    requires i < |s|
    ensures SplitAfter(field, s[i..], sep) ==
      if s[i] == sep then [field] + SplitAfter([], s[i + 1..], sep)
      else SplitAfter(field + [s[i]], s[i + 1..], sep)
  {
    SplitAfterStep(field, s[i..], sep);
    assert s[i..][1..] == s[i + 1..];
  }

  /** After the last character, the unfinished field is the last one. */
  lemma SplitAfterEnd(field: string, s: string, sep: char)
    ensures SplitAfter(field, s[|s|..], sep) == [field]
  {
    assert s[|s|..] == [];
    assert field + [] == field;
  }

  /** util::StringSplit: a loop that closes a field at each separator. */
  method StringSplit(s: string, sep: char) returns (fields: seq<string>)
    ensures fields == Split(s, sep)
    ensures |fields| == Count(s, sep) + 1 && NoneContain(fields, sep)
    ensures JoinOn(fields, [sep]) == s
  {
    fields := [];
    var field: string := [];
    var i := 0;
    SplitAfterStart(s, sep);
    while i < |s|
      invariant 0 <= i <= |s|
      invariant Split(s, sep) == fields + SplitAfter(field, s[i..], sep)
    {
      SplitAfterAt(field, s, i, sep);
      if s[i] == sep {
        fields := fields + [field];
        field := [];
      } else {
        field := field + [s[i]];
      }
      i := i + 1;
    }
    SplitAfterEnd(field, s, sep);
    fields := fields + [field];
    SplitLength(s, sep);
    SplitFieldsFree(s, sep);
    JoinSplit(s, sep);
  }

  // ---------------------------------------------------------------------
  // HexToVec

  /** util::HexToVec: one uint64 per comma token, each read with
      `stream >> std::hex >> num`. */
  method HexToVec(hex: string) returns (nums: seq<int>)
    ensures var toks := GetlineTokens(hex, ',');
      |nums| == |toks| && forall k :: 0 <= k < |toks| ==> nums[k] == ExtractU64(toks[k], 16).value
  {
    var toks := GetlineTokens(hex, ',');
    nums := [];
    var i := 0;
    while i < |toks|
      invariant 0 <= i <= |toks| && |nums| == i
      invariant forall k :: 0 <= k < i ==> nums[k] == ExtractU64(toks[k], 16).value
    {
      nums := nums + [ExtractU64(toks[i], 16).value];
      i := i + 1;
    }
  }

  /** Comma-joined tokens, none empty at the end, give one value each. */
  lemma HexToVecTokens(parts: seq<string>)
    requires |parts| >= 1 && NoneContain(parts, ',') && parts[|parts| - 1] != []
    ensures GetlineTokens(JoinOn(parts, [',']), ',') == parts
  {
    GetlineTokensJoin(parts, ',');
  }

  // ---------------------------------------------------------------------
  // CheckConfigType

  /** Index just past the last '.', or 0 when there is none
      (std::string::npos + 1 == 0). */
  function AfterLastDot(s: string): (n: nat)
    ensures n <= |s| && '.' !in s[n..]
    ensures n > 0 ==> s[n - 1] == '.'
  {
    if s == [] then 0
    else if s[|s| - 1] == '.' then |s|
    else
      var m := AfterLastDot(s[..|s| - 1]);
      assert s[m..] == s[..|s| - 1][m..] + [s[|s| - 1]];
      m
  }

  function CheckConfigType(path: string): (r: ConfigType)
    ensures r == JSON <==> path == "json" || (|path| >= 5 && path[|path| - 5..] == ".json")
    ensures r == TXT <==> path == "txt" || (|path| >= 4 && path[|path| - 4..] == ".txt")
  {
    var n := AfterLastDot(path);
    var suffix := path[n..];
    ExtensionsAfterDot(path);
    if suffix == "json" then JSON
    else if suffix == "txt" then TXT
    else UNKNOWN
  }

  /** The text after the last '.' is "json" or "txt" exactly when the path
      is that word alone or ends with ".json" or ".txt". */
  lemma ExtensionsAfterDot(path: string)
    ensures var suffix := path[AfterLastDot(path)..];
      (suffix == "json" <==> path == "json" || (|path| >= 5 && path[|path| - 5..] == ".json")) &&
      (suffix == "txt" <==> path == "txt" || (|path| >= 4 && path[|path| - 4..] == ".txt"))
  {
    var n := AfterLastDot(path);
    assert ".json"[0] == '.' && ".json"[1..] == "json" && '.' !in "json";
    assert ".txt"[0] == '.' && ".txt"[1..] == "txt" && '.' !in "txt";
    SuffixAfterDot(path, n, ".json");
    SuffixAfterDot(path, n, ".txt");
  }

  /** For a dot-free extension e, the text after the last '.' is e exactly when
      the path is e alone or ends with "." + e. */
  lemma {:induction false} SuffixAfterDot(path: string, n: nat, ext: string)
    requires n == AfterLastDot(path)
    requires |ext| >= 1 && ext[0] == '.' && '.' !in ext[1..]
    ensures path[n..] == ext[1..] <==>
      path == ext[1..] || (|path| >= |ext| && path[|path| - |ext|..] == ext)
  {
    var e := ext[1..];
    if path[n..] == e {
      if n > 0 {
        assert path[|path| - |ext|..] == [path[n - 1]] + path[n..];
      } else {
        assert path == path[n..];
      }
    }
    if path == e {
      AfterLastDotNone(path);
    } else if |path| >= |ext| && path[|path| - |ext|..] == ext {
      var k := |path| - |ext| + 1;
      assert path[k - 1] == '.';
      assert '.' !in path[k..];
      AfterLastDotIs(path, k);
    }
  }

  lemma {:induction false} AfterLastDotNone(s: string)
    requires '.' !in s
    ensures AfterLastDot(s) == 0
  {
    if s != [] {
      assert '.' !in s[..|s| - 1];
      AfterLastDotNone(s[..|s| - 1]);
    }
  }

  lemma {:induction false} AfterLastDotIs(s: string, k: nat)
    requires 0 < k <= |s| && s[k - 1] == '.' && '.' !in s[k..]
    ensures AfterLastDot(s) == k
  {
    if k < |s| {
      assert s[|s| - 1] in s[k..];
      assert s[..|s| - 1][k..] == s[k..|s| - 1];
      AfterLastDotIs(s[..|s| - 1], k);
    }
  }

  // ---------------------------------------------------------------------
  // ConvertTimeToNanoSeconds

  function UnitFactor(unit: string): int
  {
    if unit == "ns" then 1
    else if unit == "us" then 1000
    else if unit == "ms" then 1_000_000
    else if unit == "s" then 1_000_000_000
    else 0
  }

  /** util::ConvertTimeToNanoSeconds: `ss >> num >> unit`, then the unit's
      factor in uint64 arithmetic; an unknown or missing unit (which includes a
      number that could not be read) throws invalid_argument. */
  function ConvertTimeToNanoSeconds(timeStr: string): (r: Result<int>)
    ensures r.Ok? ==> IsU64(r.value)
  {
    var num := ExtractU64(timeStr, 10);
    var unit := if num.ok then ExtractWord(num.rest) else None;
    if unit.Some? && UnitFactor(unit.value) > 0 then Ok(U64(num.value * UnitFactor(unit.value)))
    else Err("invalid_argument")
  }

  /** A number written in decimal followed directly by a known unit converts
      to that many nanoseconds modulo 2^64; any other unit is rejected. */
  lemma ConvertTimeOfUnit(n: nat, unit: string)
    requires IsU64(n) && |unit| > 0 && forall k :: 0 <= k < |unit| ==> 'a' <= unit[k] <= 'z'
    ensures ConvertTimeToNanoSeconds(NatToString(n) + unit) ==
      if UnitFactor(unit) > 0 then Ok(U64(n * UnitFactor(unit))) else Err("invalid_argument")
  {
    ExtractDecimal(n, unit);
    NonSpaceAll(unit);
    assert TrimLeft(unit) == unit;
    assert unit[..|unit|] == unit;
  }

  lemma {:induction false} NonSpaceAll(s: string)
    requires forall k :: 0 <= k < |s| ==> 'a' <= s[k] <= 'z'
    ensures NonSpaceRun(s) == |s|
  {
    if s != [] { NonSpaceAll(s[1..]); }
  }

  // ---------------------------------------------------------------------
  // GenerateUniqueTraceId / GenerateUniqueSpanId

  /** The n little-endian bytes of x, as memcpy of a uint64 lays them out on x86. */
  function LeBytes(x: nat, n: nat): (r: seq<int>)
    ensures |r| == n && forall k :: 0 <= k < n ==> 0 <= r[k] < 256
  {
    if n == 0 then [] else [x % 256] + LeBytes(x / 256, n - 1)
  }

  /** The integer whose little-endian bytes are b. */
  function FromLe(b: seq<int>): int
  {
    if b == [] then 0 else b[0] + 256 * FromLe(b[1..])
  }

  lemma {:induction false} FromLeBytes(x: nat, n: nat)
    requires x < Pow2(8 * n)
    ensures FromLe(LeBytes(x, n)) == x
  {
    if n > 0 {
      Pow2Add(8, 8 * (n - 1));
      assert Pow2(8) == 256;
      FromLeBytes(x / 256, n - 1);
    }
  }

  /** util::GenerateUniqueSpanId: the 8 bytes of hash_int, or of the oracle's
      GenHashId value when hash_int is 0. */
  function GenerateUniqueSpanId(hashInt: int, genHash: int): (r: seq<int>)
    requires IsU64(hashInt) && IsU64(genHash)
    ensures |r| == 8
    ensures FromLe(r) == if hashInt == 0 then genHash else hashInt
  {
    var h := if hashInt == 0 then genHash else hashInt;
    Pow2At64();
    FromLeBytes(h, 8);
    LeBytes(h, 8)
  }

  /** util::GenerateUniqueTraceId: the 8 bytes of first_hash followed by those
      of second_hash; each zero argument is replaced by a GenHashId value. */
  function GenerateUniqueTraceId(firstHash: int, secondHash: int, gen1: int, gen2: int): (r: seq<int>)
    requires IsU64(firstHash) && IsU64(secondHash) && IsU64(gen1) && IsU64(gen2)
    ensures |r| == 16
    ensures FromLe(r[..8]) == (if firstHash == 0 then gen1 else firstHash)
    ensures FromLe(r[8..]) == (if secondHash == 0 then gen2 else secondHash)
  {
    var f := if firstHash == 0 then gen1 else firstHash;
    var s := if secondHash == 0 then gen2 else secondHash;
    Pow2At64();
    FromLeBytes(f, 8);
    FromLeBytes(s, 8);
    var r := LeBytes(f, 8) + LeBytes(s, 8);
    assert r[..8] == LeBytes(f, 8) && r[8..] == LeBytes(s, 8);
    r
  }
}
