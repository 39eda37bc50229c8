/** Text helpers shared by the C++ and Python sides: splitting and joining on
    a separator, decimal formatting of integers and Python's int() parser. */
module Text {
  import opened Wrappers

  /** Occurrences of c in s. */
  function Count(s: string, c: char): nat
  {
    if s == [] then 0 else (if s[0] == c then 1 else 0) + Count(s[1..], c)
  }

  /** Splitting on a single character, as util::StringSplit and Python's
      str.split(c) do: every separator ends a field, the last field runs to
      the end, and an empty string gives one empty field. */
  function Split(s: string, sep: char): (r: seq<string>)
    ensures |r| >= 1
    decreases |s|
  {
    if s == [] then [[]]
    else
      var rest := Split(s[1..], sep);
      if s[0] == sep then [[]] + rest
      else [[s[0]] + rest[0]] + rest[1..]
  }

  /** Joining with a separator string, as Python's sep.join and the C++
      append loops that put a separator between consecutive items. */
  function JoinOn(parts: seq<string>, sep: string): string
  {
    if |parts| == 0 then []
    else if |parts| == 1 then parts[0]
    else parts[0] + sep + JoinOn(parts[1..], sep)
  }

  predicate NoneContain(parts: seq<string>, c: char)
  {
    forall i :: 0 <= i < |parts| ==> c !in parts[i]
  }

  lemma {:induction false} SplitLength(s: string, sep: char)
    ensures |Split(s, sep)| == Count(s, sep) + 1
  {
    if s != [] { SplitLength(s[1..], sep); }
  }

  lemma {:induction false} SplitFieldsFree(s: string, sep: char)
    ensures NoneContain(Split(s, sep), sep)
  {
    if s != [] {
      SplitFieldsFree(s[1..], sep);
      var rest := Split(s[1..], sep);
      if s[0] != sep {
        assert sep !in rest[0];
        assert sep !in [s[0]] + rest[0];
      }
    }
  }

  lemma {:induction false} JoinSplit(s: string, sep: char)
    ensures JoinOn(Split(s, sep), [sep]) == s
  {
    if s != [] {
      JoinSplit(s[1..], sep);
      var rest := Split(s[1..], sep);
      if s[0] == sep {
        assert Split(s, sep) == [[]] + rest;
        assert ([[]] + rest)[1..] == rest;
        assert s == [sep] + s[1..];
      } else if |rest| == 1 {
        assert JoinOn(rest, [sep]) == rest[0];
        assert s == [s[0]] + s[1..];
      } else {
        var parts := Split(s, sep);
        assert parts[1..] == rest[1..];
        assert JoinOn(rest, [sep]) == rest[0] + [sep] + JoinOn(rest[1..], [sep]);
        assert s == [s[0]] + s[1..];
      }
    }
  }

  /** A prefix free of the separator becomes the start of the first field. */
  lemma {:induction false} SplitPrefix(x: string, y: string, sep: char)
    requires sep !in x
    ensures Split(x + y, sep) == [x + Split(y, sep)[0]] + Split(y, sep)[1..]
  {
    if x != [] {
      assert (x + y)[1..] == x[1..] + y;
      SplitPrefix(x[1..], y, sep);
      assert [x[0]] + (x[1..] + Split(y, sep)[0]) == x + Split(y, sep)[0];
    } else {
      var r := Split(y, sep);
      assert x + y == y && x + r[0] == r[0];
      assert r == [r[0]] + r[1..];
    }
  }

  lemma {:induction false} SplitJoin(parts: seq<string>, sep: char)
    requires |parts| >= 1 && NoneContain(parts, sep)
    ensures Split(JoinOn(parts, [sep]), sep) == parts
  {
    if |parts| == 1 {
      SplitPrefix(parts[0], [], sep);
      assert parts[0] + [] == parts[0];
    } else {
      SplitJoin(parts[1..], sep);
      var tail := [sep] + JoinOn(parts[1..], [sep]);
      assert JoinOn(parts, [sep]) == parts[0] + tail;
      SplitPrefix(parts[0], tail, sep);
      assert Split(tail, sep) == [[]] + parts[1..];
      assert parts[0] + [] == parts[0];
      assert parts == [parts[0]] + parts[1..];
    }
  }

  /** Joining one more part puts the separator before it. */
  lemma {:induction false} JoinOnSnoc(parts: seq<string>, x: string, sep: string)
    requires |parts| > 0
    ensures JoinOn(parts + [x], sep) == JoinOn(parts, sep) + sep + x
    decreases |parts|
  {
    if |parts| == 1 {
      assert (parts + [x])[1..] == [x];
    } else {
      assert (parts + [x])[1..] == parts[1..] + [x];
      JoinOnSnoc(parts[1..], x, sep);
    }
  }

  /** A character in neither the parts nor the separator is not in their
      join. */
  lemma {:induction false} JoinOnFree(parts: seq<string>, sep: string, c: char)
    requires NoneContain(parts, c) && c !in sep
    ensures c !in JoinOn(parts, sep)
    decreases |parts|
  {
    if |parts| > 1 {
      JoinOnFree(parts[1..], sep, c);
    }
  }

  /** Splitting on a separator string, scanning left to right for
      non-overlapping occurrences, as Python's str.split(sep) does. */
  function SplitOn(s: string, sep: string): (r: seq<string>)
    requires |sep| > 0
    ensures |r| >= 1
    decreases |s|
  {
    if |s| < |sep| then [s]
    else if s[..|sep|] == sep then [[]] + SplitOn(s[|sep|..], sep)
    else
      var rest := SplitOn(s[1..], sep);
      [[s[0]] + rest[0]] + rest[1..]
  }

  lemma {:induction false} SplitOnPrefix(x: string, y: string, sep: string)
    requires |sep| >= 2 && sep[1] !in x
    requires y == [] || y[0] != sep[1]
    ensures SplitOn(x + y, sep) == [x + SplitOn(y, sep)[0]] + SplitOn(y, sep)[1..]
  {
    var s := x + y;
    if x == [] {
      var r := SplitOn(y, sep);
      assert s == y && x + r[0] == r[0];
      assert r == [r[0]] + r[1..];
    } else if |s| < |sep| {
      assert SplitOn(y, sep) == [y];
    } else {
      assert s[1] == (if |x| >= 2 then x[1] else y[0]);
      assert s[..|sep|][1] == s[1];
      assert s[..|sep|] != sep;
      assert s[1..] == x[1..] + y;
      var rest := SplitOn(x[1..] + y, sep);
      assert SplitOn(s, sep) == [[s[0]] + rest[0]] + rest[1..];
      SplitOnPrefix(x[1..], y, sep);
      assert [x[0]] + (x[1..] + SplitOn(y, sep)[0]) == x + SplitOn(y, sep)[0];
    }
  }

  /** Splitting inverts joining when the separator's second character occurs
      in no part and differs from its first (true of "-*-" over numbers). */
  lemma {:induction false} SplitOnJoinOn(parts: seq<string>, sep: string)
    requires |parts| >= 1 && |sep| >= 2 && sep[0] != sep[1]
    requires NoneContain(parts, sep[1])
    ensures SplitOn(JoinOn(parts, sep), sep) == parts
  {
    if |parts| == 1 {
      SplitOnPrefix(parts[0], [], sep);
      assert parts[0] + [] == parts[0];
    } else {
      SplitOnJoinOn(parts[1..], sep);
      var tail := sep + JoinOn(parts[1..], sep);
      assert JoinOn(parts, sep) == parts[0] + tail;
      SplitOnPrefix(parts[0], tail, sep);
      assert tail[..|sep|] == sep;
      assert tail[|sep|..] == JoinOn(parts[1..], sep);
      assert SplitOn(tail, sep) == [[]] + parts[1..];
      assert parts[0] + [] == parts[0];
      assert parts == [parts[0]] + parts[1..];
    }
  }

  /** t occurs in s as a contiguous substring (std::string::find != npos,
      Python's `t in s`). */
  predicate Contains(s: string, t: string)
    decreases |s|
  {
    |s| >= |t| && (s[..|t|] == t || (|s| > 0 && Contains(s[1..], t)))
  }

  lemma {:induction false} ContainsAt(s: string, t: string, i: nat)
    requires i + |t| <= |s| && s[i..i + |t|] == t
    ensures Contains(s, t)
    decreases i
  {
    if i > 0 {
      assert s[1..][i - 1..i - 1 + |t|] == s[i..i + |t|];
      ContainsAt(s[1..], t, i - 1);
    }
  }

  // ---------------------------------------------------------------------
  // Decimal formatting (std::to_string, operator<< and Python str())

  predicate IsDigit(c: char) { '0' <= c <= '9' }

  predicate AllDigits(s: string)
  {
    forall i :: 0 <= i < |s| ==> IsDigit(s[i])
  }

  function NatToString(n: nat): string
    decreases n
  {
    if n < 10 then [('0' as int + n) as char]
    else NatToString(n / 10) + [('0' as int + n % 10) as char]
  }

  function IntToString(i: int): string
  {
    if i < 0 then "-" + NatToString(-i) else NatToString(i)
  }

  /** Value of a string of decimal digits. */
  function DigitsValue(s: string): nat
    requires AllDigits(s)
  {
    if s == [] then 0
    else DigitsValue(s[..|s| - 1]) * 10 + (s[|s| - 1] as int - '0' as int)
  }

  lemma {:induction false} NatToStringDigits(n: nat)
    ensures |NatToString(n)| >= 1 && AllDigits(NatToString(n))
    ensures DigitsValue(NatToString(n)) == n
    decreases n
  {
    if n >= 10 {
      NatToStringDigits(n / 10);
      var s := NatToString(n);
      assert s[..|s| - 1] == NatToString(n / 10);
    }
  }

  // ---------------------------------------------------------------------
  // Python int()

  /** The ASCII characters C's isspace and Python's str.strip() treat as
      white space. */
  predicate IsSpace(c: char)
  {
    c == ' ' || c == '\t' || c == '\n' || c == '\r' || c == '\U{0b}' || c == '\U{0c}'
  }

  function TrimLeft(s: string): string
  {
    if s != [] && IsSpace(s[0]) then TrimLeft(s[1..]) else s
  }

  function TrimRight(s: string): string
  {
    if s != [] && IsSpace(s[|s| - 1]) then TrimRight(s[..|s| - 1]) else s
  }

  /** Python int(s) over ASCII: surrounding white space, an optional sign and
      at least one decimal digit; anything else raises ValueError (None). */
  function PyInt(s: string): (r: Option<int>)
  {
    var t := TrimRight(TrimLeft(s));
    if |t| > 0 && (t[0] == '-' || t[0] == '+') then
      var d := t[1..];
      if |d| > 0 && AllDigits(d) then
        var v: int := DigitsValue(d);
        Some(if t[0] == '-' then -v else v)
      else None
    else if |t| > 0 && AllDigits(t) then Some(DigitsValue(t))
    else None
  }

  /** Python int() reads back what std::to_string / str() writes. */
  lemma IntRoundTrip(i: int)
    ensures PyInt(IntToString(i)) == Some(i)
  {
    var n := if i < 0 then -i else i;
    NatToStringDigits(n);
    var s := IntToString(i);
    assert !IsSpace(s[0]);
    assert TrimLeft(s) == s;
    assert !IsSpace(s[|s| - 1]);
    assert TrimRight(s) == s;
    if i < 0 {
      assert s[1..] == NatToString(n);
    }
  }

  /** A formatted integer never contains characters other than digits and
      a leading minus sign. */
  lemma IntToStringChars(i: int, c: char)
    requires c != '-' && !IsDigit(c)
    ensures c !in IntToString(i)
  {
    NatToStringDigits(if i < 0 then -i else i);
  }
}
