/** The offline post-processor's readers in post_processing/post_processing.py:
    the even partition of a list among worker processes, SingleLog (the CSV
    reader for the lines the profiler's Finish writes), the byte extraction
    of a packed metric word, the equation/group reader of the text PMU
    configuration, and PostProcessor.ReadRawLogs with its time-boundary
    filter.

    Oracles: the directory listing and the lines of each file are
    parameters. np.float is read as Python's int() (see PyInt). */
module PostProcessing {
  import opened Wrappers
  import opened Machine
  import opened Text
  import opened ProfileRecords
  import MtmcProfiler
  import Util

  // ---------------------------------------------------------------------
  // split(a, n)

  function Min(a: int, b: int): int { if a <= b then a else b }

  /** Where slice i of split(a, n) starts: i*k + min(i, m) with
      k, m = divmod(len(a), n). */
  function SliceStart(len: nat, n: nat, i: nat): (r: nat)
    requires n > 0
    ensures i <= n ==> r <= len
  {
    MulBelowIf(i, n, len / n);
    i * (len / n) + Min(i, len % n)
  }

  lemma SliceStartBounds(len: nat, n: nat, i: nat)
    requires n > 0 && i < n
    ensures SliceStart(len, n, i) <= SliceStart(len, n, i + 1) <= len
    ensures SliceStart(len, n, i + 1) - SliceStart(len, n, i) == len / n + (if i < len % n then 1 else 0)
  {
    var k, m := len / n, len % n;
    assert SliceStart(len, n, i) == i * k + Min(i, m);
    assert SliceStart(len, n, i + 1) == (i + 1) * k + Min(i + 1, m);
    MulSplit(i, k);
    assert Min(i + 1, m) - Min(i, m) == (if i < m then 1 else 0);
  }

  lemma MulSplit(i: nat, k: nat)
    ensures (i + 1) * k == i * k + k
  {
  }

  lemma MulBelow(j: nat, n: nat, k: nat)
    requires j <= n
    ensures j * k <= n * k
  {
    assert n * k == j * k + (n - j) * k;
  }

  lemma MulBelowIf(j: nat, n: nat, k: nat)
    ensures j <= n ==> j * k <= n * k
  {
    if j <= n {
      MulBelow(j, n, k);
    }
  }

  /** Slice i of split(a, n). */
  function Slice<T>(a: seq<T>, n: nat, i: nat): (r: seq<T>)
    requires 0 <= i < n
    ensures |r| == |a| / n + (if i < |a| % n then 1 else 0)
  {
    SliceStartBounds(|a|, n, i);
    a[SliceStart(|a|, n, i)..SliceStart(|a|, n, i + 1)]
  }

  /** split(a, n): None for the ZeroDivisionError of n == 0; a negative n
      gives no slices (range(n) is empty). The slices have sizes k or k + 1
      for k = len(a) / n, the first len(a) mod n being the longer ones. */
  function SplitEven<T>(a: seq<T>, n: int): (r: Option<seq<seq<T>>>)
    ensures r.None? <==> n == 0
    ensures n < 0 ==> r == Some([])
    ensures n > 0 ==> (r.Some? && |r.value| == n &&
      forall i :: 0 <= i < n ==> |r.value[i]| == |a| / n + (if i < |a| % n then 1 else 0))
  {
    if n == 0 then None
    else if n < 0 then Some([])
    else Some(seq(n, i requires 0 <= i < n => Slice(a, n, i)))
  }

  /** The concatenation of a list of lists. */
  function Flatten<T>(ss: seq<seq<T>>): seq<T>
  {
    if ss == [] then [] else Flatten(ss[..|ss| - 1]) + ss[|ss| - 1]
  }

  /** The slices of split(a, n) put back together give a: no element is
      lost, repeated or moved. */
  lemma SplitEvenConcat<T>(a: seq<T>, n: int)
    requires n > 0
    ensures Flatten(SplitEven(a, n).value) == a
  {
    var r := SplitEven(a, n).value;
    SplitEvenPrefix(a, n, n);
    assert r[..n] == r;
    var k, m := |a| / n, |a| % n;
    assert |a| == n * k + m;
    assert SliceStart(|a|, n, n) == n * k + Min(n, m);
  }

  lemma {:induction false} SplitEvenPrefix<T>(a: seq<T>, n: int, j: nat)
    requires 0 < n && j <= n
    ensures Flatten(SplitEven(a, n).value[..j]) == a[..SliceStart(|a|, n, j)]
    decreases j
  {
    var r := SplitEven(a, n).value;
    if j > 0 {
      SplitEvenPrefix(a, n, j - 1);
      FlattenPrefixSnoc(r, j);
      SliceStartBounds(|a|, n, j - 1);
      var s0, s1 := SliceStart(|a|, n, j - 1), SliceStart(|a|, n, j);
      assert r[j - 1] == Slice(a, n, j - 1) == a[s0..s1];
      assert a[..s0] + a[s0..s1] == a[..s1];
    }
  }

  lemma FlattenPrefixSnoc<T>(ss: seq<seq<T>>, j: nat)
    requires 0 < j <= |ss|
    ensures Flatten(ss[..j]) == Flatten(ss[..j - 1]) + ss[j - 1]
  {
    assert ss[..j][..j - 1] == ss[..j - 1];
  }

  // ---------------------------------------------------------------------
  // SingleLog: one line of a raw log file

  /** A scheduler node of the framework's step state (thread_id,
      all_start_micros and all_end_rel_micros). */
  datatype NodeState = NodeState(threadId: int, allStartMicros: int, allEndRelMicros: int)

  /** SingleLog. `schedular` is the node a timeline mapper later attaches. */
  datatype SingleLog = SingleLog(
    tid: int,
    pthreadId: int,
    timeBegin: int,
    timeEnd: int,
    parentTid: int,
    parentPthreadId: int,
    parentSchedTime: int,
    topdownMetrics: seq<int>,
    bEventNum: int,
    bCore: int,
    bPrefix: int,
    bEvents: seq<int>,
    eEventNum: int,
    eCore: int,
    ePrefix: int,
    eEvents: seq<int>,
    schedular: Option<NodeState>)

  /** [int(i) for i in parts]: None when any part does not parse. */
  function ParseInts(parts: seq<string>): (r: Option<seq<int>>)
    ensures r.Some? ==> |r.value| == |parts|
  {
    if forall i :: 0 <= i < |parts| ==> PyInt(parts[i]).Some? then
      Some(seq(|parts|, i requires 0 <= i < |parts| => PyInt(parts[i]).value))
    else None
  }

  lemma ParseIntsSome(parts: seq<string>, vals: seq<int>)
    requires |parts| == |vals| && forall i :: 0 <= i < |parts| ==> PyInt(parts[i]) == Some(vals[i])
    ensures ParseInts(parts) == Some(vals)
  {
    assert ParseInts(parts).Some?;
    assert ParseInts(parts).value == vals;
  }

  /** SingleLog(line) for the comma-split fields of one line: None for any
      IndexError or ValueError the constructor raises. A topdown field that
      does not hold six values is accepted (the source only prints). */
  function ParseSingleLog(line: seq<string>): Option<SingleLog>
  {
    if |line| < 12 then None
    else
      var head := ParseInts(line[..7]);
      var topdown := ParseInts(Split(line[7], '_'));
      var b := ParseInts(Split(line[8], '_'));
      var bEvents := ParseInts(Split(line[9], '_'));
      var e := ParseInts(Split(line[10], '_'));
      var eEvents := ParseInts(Split(line[11], '_'));
      if head.None? || topdown.None? || b.None? || bEvents.None? || e.None? || eEvents.None? then None
      else if |b.value| != 3 || |e.value| != 3 then None
      else
        var h := head.value;
        Some(SingleLog(h[0], h[1], h[2], h[3], h[4], h[5], h[6], topdown.value,
                       b.value[0], b.value[1], b.value[2], bEvents.value,
                       e.value[0], e.value[1], e.value[2], eEvents.value, None))
  }

  /** The values a run of uint64 counters has once stored. */
  function U64s(vals: seq<int>): (r: seq<int>)
    ensures |r| == |vals| && forall i :: 0 <= i < |vals| ==> r[i] == U64(vals[i])
  {
    seq(|vals|, i requires 0 <= i < |vals| => U64(vals[i]))
  }

  /** What a kept topdown record stands for once its line is read back: the
      stored values of its fields, the six topdown values, both reads'
      num_event, core and prefix, and the ordinary counter values. */
  function LogOf(p: SingleProfile): SingleLog
    requires p.WellFormed() && p.rdStart.numEvent >= 3
  {
    var n := p.rdStart.numEvent - 3;
    SingleLog(I64(p.tid), U32(p.pthreadId), U64(p.startTs), U64(p.endTs),
              I64(p.parentInfo.parentTid), U32(p.parentInfo.parentPthreadId),
              U64(p.parentInfo.taskSchedTime),
              U64s(p.retStart[n..n + 3]) + U64s(p.retEnd[n..n + 3]),
              p.rdStart.numEvent, U32(p.rdStart.coreId), U32(p.rdStart.prefix), U64s(p.retStart[..n]),
              p.rdEnd.numEvent, U32(p.rdEnd.coreId), U32(p.rdEnd.prefix), U64s(p.retEnd[..n]),
              None)
  }

  /** SingleLog reads back every field of a line Finish writes with topdown
      metrics on, provided the record has an ordinary counter value besides
      the three topdown ones. */
  lemma SingleLogRoundTrip(p: SingleProfile)
    requires p.WellFormed() && MtmcProfiler.Kept(p, true) && p.rdStart.numEvent > 3
    ensures ParseSingleLog(Split(MtmcProfiler.Line(p, true) + "\n", ',')) == Some(LogOf(p))
  {
    MtmcProfiler.LineSplits(p, true);
    var n := p.rdStart.numEvent - 3;
    var line := MtmcProfiler.LineFields(p, true) + ["\n"];
    LineShape(p);
    HeaderRoundTrip(p, line[..7]);
    TopdownRoundTrip(p);
    TripleRoundTrip(p.rdStart);
    TripleRoundTrip(p.rdEnd);
    ValuesRoundTrip(p.retStart[..n]);
    ValuesRoundTrip(p.retEnd[..n]);
    ParseSingleLogFields(line, LogOf(p));
  }

  /** The fields of a line Finish writes with topdown metrics on, for a
      record with an ordinary counter value besides the topdown ones. */
  lemma LineShape(p: SingleProfile)
    requires p.WellFormed() && MtmcProfiler.Kept(p, true) && p.rdStart.numEvent > 3
    ensures var n := p.rdStart.numEvent - 3;
      MtmcProfiler.LineFields(p, true) + ["\n"] ==
      MtmcProfiler.HeaderFields(p, true) +
      [MtmcProfiler.Triple(p.rdStart), JoinOn(DecU64s(p.retStart[..n]), "_"),
       MtmcProfiler.Triple(p.rdEnd), JoinOn(DecU64s(p.retEnd[..n]), "_"), "\n"]
  {
  }

  /** The topdown field reads back as the three topdown values of the
      start read followed by those of the end read. */
  lemma TopdownRoundTrip(p: SingleProfile)
    requires p.WellFormed() && MtmcProfiler.Kept(p, true) && p.rdStart.numEvent > 3
    ensures var n := p.rdStart.numEvent - 3;
      ParseInts(Split(MtmcProfiler.HeaderFields(p, true)[7], '_')) ==
      Some(U64s(p.retStart[n..n + 3]) + U64s(p.retEnd[n..n + 3]))
  {
    var n := p.rdStart.numEvent - 3;
    var td := p.retStart[n..n + 3] + p.retEnd[n..n + 3];
    assert MtmcProfiler.HeaderFields(p, true)[7] == JoinOn(DecU64s(td), "_") by {
      assert DecU64s(p.retStart[n..n + 3]) + DecU64s(p.retEnd[n..n + 3]) == DecU64s(td);
    }
    ValuesRoundTrip(td);
    assert U64s(td) == U64s(p.retStart[n..n + 3]) + U64s(p.retEnd[n..n + 3]);
  }

  /** SingleLog's result once each of its fields is known to parse. */
  lemma ParseSingleLogFields(line: seq<string>, log: SingleLog)
    requires |line| >= 12 && log.schedular.None?
    requires ParseInts(line[..7]) == Some([log.tid, log.pthreadId, log.timeBegin, log.timeEnd,
                                           log.parentTid, log.parentPthreadId, log.parentSchedTime])
    requires ParseInts(Split(line[7], '_')) == Some(log.topdownMetrics)
    requires ParseInts(Split(line[8], '_')) == Some([log.bEventNum, log.bCore, log.bPrefix])
    requires ParseInts(Split(line[9], '_')) == Some(log.bEvents)
    requires ParseInts(Split(line[10], '_')) == Some([log.eEventNum, log.eCore, log.ePrefix])
    requires ParseInts(Split(line[11], '_')) == Some(log.eEvents)
    ensures ParseSingleLog(line) == Some(log)
  {
  }

  lemma HeaderRoundTrip(p: SingleProfile, head: seq<string>)
    requires p.WellFormed() && MtmcProfiler.Kept(p, true)
    requires head == MtmcProfiler.HeaderFields(p, true)[..7]
    ensures ParseInts(head) == Some([I64(p.tid), U32(p.pthreadId), U64(p.startTs), U64(p.endTs),
                                     I64(p.parentInfo.parentTid), U32(p.parentInfo.parentPthreadId),
                                     U64(p.parentInfo.taskSchedTime)])
  {
    var vals := [I64(p.tid), U32(p.pthreadId), U64(p.startTs), U64(p.endTs),
                 I64(p.parentInfo.parentTid), U32(p.parentInfo.parentPthreadId),
                 U64(p.parentInfo.taskSchedTime)];
    assert head == [DecI64(p.tid), DecU32(p.pthreadId), DecU64(p.startTs), DecU64(p.endTs),
                    DecI64(p.parentInfo.parentTid), DecU32(p.parentInfo.parentPthreadId),
                    DecU64(p.parentInfo.taskSchedTime)];
    forall i | 0 <= i < 7 ensures PyInt(head[i]) == Some(vals[i]) {
      if i == 0 { IntRoundTrip(I64(p.tid)); }
      else if i == 1 { IntRoundTrip(U32(p.pthreadId)); }
      else if i == 2 { IntRoundTrip(U64(p.startTs)); }
      else if i == 3 { IntRoundTrip(U64(p.endTs)); }
      else if i == 4 { IntRoundTrip(I64(p.parentInfo.parentTid)); }
      else if i == 5 { IntRoundTrip(U32(p.parentInfo.parentPthreadId)); }
      else { IntRoundTrip(U64(p.parentInfo.taskSchedTime)); }
    }
    ParseIntsSome(head, vals);
  }

  /** int() reads back each decimal form as the stored value. */
  lemma DecRoundTrip(x: int)
    ensures PyInt(DecU64(x)) == Some(U64(x)) && PyInt(DecI64(x)) == Some(I64(x))
    ensures PyInt(DecU32(x)) == Some(U32(x)) && PyInt(DecI32(x)) == Some(I32(x))
  {
    IntRoundTrip(U64(x)); IntRoundTrip(I64(x)); IntRoundTrip(U32(x)); IntRoundTrip(I32(x));
  }

  /** Values joined by '_' split and parse back to their stored values. */
  lemma ValuesRoundTrip(vals: seq<int>)
    requires |vals| > 0
    ensures ParseInts(Split(JoinOn(DecU64s(vals), "_"), '_')) == Some(U64s(vals))
  {
    var parts := DecU64s(vals);
    forall i | 0 <= i < |parts| ensures '_' !in parts[i] && PyInt(parts[i]) == Some(U64(vals[i])) {
      DecFree(vals[i], '_');
      DecRoundTrip(vals[i]);
    }
    SplitJoin(parts, '_');
    ParseIntsSome(parts, U64s(vals));
  }

  lemma TripleRoundTrip(rd: PerfmonCollector.ReadResult)
    ensures ParseInts(Split(MtmcProfiler.Triple(rd), '_')) == Some([I32(rd.numEvent), U32(rd.coreId), U32(rd.prefix)])
  {
    var parts := [DecI32(rd.numEvent), DecU32(rd.coreId), DecU32(rd.prefix)];
    var vals := [I32(rd.numEvent), U32(rd.coreId), U32(rd.prefix)];
    forall i | 0 <= i < 3 ensures '_' !in parts[i] && PyInt(parts[i]) == Some(vals[i]) {
      if i == 0 { DecFree(rd.numEvent, '_'); DecRoundTrip(rd.numEvent); }
      else if i == 1 { DecFree(rd.coreId, '_'); DecRoundTrip(rd.coreId); }
      else { DecFree(rd.prefix, '_'); DecRoundTrip(rd.prefix); }
    }
    assert JoinOn(parts, "_") == MtmcProfiler.Triple(rd) by {
      assert parts[1..][1..] == [parts[2]];
      assert JoinOn(parts[1..], "_") == parts[1] + "_" + parts[2];
    }
    SplitJoin(parts, '_');
    ParseIntsSome(parts, vals);
  }

  /** No line Finish writes without topdown metrics can be read: its topdown
      field is empty, and int('') raises. */
  lemma SingleLogRejectsTopdownOff(p: SingleProfile)
    requires p.WellFormed() && MtmcProfiler.Kept(p, false)
    ensures ParseSingleLog(Split(MtmcProfiler.Line(p, false) + "\n", ',')) == None
  {
    MtmcProfiler.LineSplits(p, false);
    var line := MtmcProfiler.LineFields(p, false) + ["\n"];
    assert line[7] == MtmcProfiler.HeaderFields(p, false)[7] == "";
    EmptyFieldUnreadable(line);
  }

  lemma EmptyFieldUnreadable(line: seq<string>)
    requires |line| > 7 && line[7] == ""
    ensures ParseSingleLog(line) == None
  {
    var parts := Split(line[7], '_');
    assert parts == [""];
    assert PyInt(parts[0]) == None;
    assert ParseInts(parts) == None;
  }

  /** A topdown line with no ordinary counter value has only eleven fields,
      so SingleLog's line[11] raises IndexError. */
  lemma SingleLogRejectsNoValues(p: SingleProfile)
    requires p.WellFormed() && MtmcProfiler.Kept(p, true) && p.rdStart.numEvent == 3
    ensures ParseSingleLog(Split(MtmcProfiler.Line(p, true) + "\n", ',')) == None
  {
    MtmcProfiler.LineSplits(p, true);
    assert |MtmcProfiler.LineFields(p, true) + ["\n"]| == 11;
  }

  // ---------------------------------------------------------------------
  // PerfmonParser.GetMetricPrec

  /** (metri >> (i * 8)) & 0xff on Python integers: an arithmetic shift
      (floor division) and the low byte of the two's complement value.
      A negative shift count raises ValueError. */
  function GetMetricPrec(metric: int, i: int): (r: Option<int>)
    ensures r.None? <==> i < 0
    ensures r.Some? ==> 0 <= r.value < 256
  {
    if i < 0 then None else Some((metric / Pow2(8 * i)) % 256)
  }

  /** Byte i of a little-endian packed word is read back by GetMetricPrec;
      past the last byte it reads 0. */
  lemma {:induction false} MetricPrecBytes(b: seq<int>, i: nat)
    requires forall k :: 0 <= k < |b| ==> 0 <= b[k] < 256
    ensures GetMetricPrec(Util.FromLe(b), i) == Some(if i < |b| then b[i] else 0)
    decreases i
  {
    var x := Util.FromLe(b);
    if b == [] {
      assert x == 0;
    } else if i == 0 {
      DivModUnique(x, 256, Util.FromLe(b[1..]), b[0]);
    } else {
      DivModUnique(x, 256, Util.FromLe(b[1..]), b[0]);
      Pow2Add(8, 8 * (i - 1));
      assert Pow2(8) == 256;
      DivDiv(x, 256, Pow2(8 * (i - 1)));
      MetricPrecBytes(b[1..], i - 1);
    }
  }

  /** Dividing by a then by b is dividing by a * b. */
  lemma DivDiv(x: int, a: int, b: int)
    requires a > 0 && b > 0
    ensures x / a / b == x / (a * b)
  {
    var q1, r1 := x / a, x % a;
    var q2, r2 := q1 / b, q1 % b;
    assert x == a * q1 + r1;
    assert q1 == b * q2 + r2;
    assert a * q1 == a * (b * q2) + a * r2;
    assert a * (b * q2) == q2 * (a * b);
    MulBelow(r2, b - 1, a);
    assert r2 * a == a * r2 && (b - 1) * a == a * b - a;
    DivModUnique(x, a * b, q2, a * r2 + r1);
  }

  // ---------------------------------------------------------------------
  // PerfmonParser.ReadPmuConfig

  datatype PmuState = First | Equ | Grp

  /** The reader's state: its position and the metrics and event names read
      so far. */
  datatype PmuConfig = PmuConfig(state: PmuState, metrics: seq<string>, events: seq<string>)

  const PmuStart: PmuConfig := PmuConfig(First, [], [])

  /** One line of the text configuration. */
  function PmuStep(c: PmuConfig, line: string): PmuConfig
  {
    if c.state == First && Contains(line, "Equations") then c.(state := Equ)
    else if c.state == First && Contains(line, "Group") then c.(state := Grp)
    else if c.state == Equ then
      if Contains(line, "End") then c.(state := First)
      else c.(metrics := c.metrics + [Split(line, '\n')[0]])
    else if c.state == Grp then
      if Contains(line, "End") then c.(state := First)
      else c.(events := c.events + [Split(line, ',')[0]])
    else c
  }

  /** The reader run over a sequence of lines from a given state. */
  function PmuRun(c: PmuConfig, lines: seq<string>): PmuConfig
    decreases |lines|
  {
    if lines == [] then c else PmuRun(PmuStep(c, lines[0]), lines[1..])
  }

  /** ReadPmuConfig over the lines of the file (readlines keeps each line's
      newline): the metrics and the event names. */
  method ReadPmuConfig(lines: seq<string>) returns (metrics: seq<string>, events: seq<string>)
    ensures metrics == PmuRun(PmuStart, lines).metrics
    ensures events == PmuRun(PmuStart, lines).events
  {
    var state := First;
    metrics, events := [], [];
    for i := 0 to |lines|
      invariant PmuRun(PmuConfig(state, metrics, events), lines[i..]) == PmuRun(PmuStart, lines)
    {
      assert lines[i..] == [lines[i]] + lines[i + 1..];
      var line := lines[i];
      if state == First {
        if Contains(line, "Equations") {
          state := Equ;
          continue;
        } else if Contains(line, "Group") {
          state := Grp;
          continue;
        }
      }
      if state == Equ {
        if Contains(line, "End") {
          state := First;
          continue;
        }
        metrics := metrics + [Split(line, '\n')[0]];
      }
      if state == Grp {
        if Contains(line, "End") {
          state := First;
          continue;
        }
        events := events + [Split(line, ',')[0]];
      }
    }
    assert lines[|lines|..] == [];
  }

  lemma {:induction false} PmuRunAppend(c: PmuConfig, a: seq<string>, b: seq<string>)
    ensures PmuRun(c, a + b) == PmuRun(PmuRun(c, a), b)
    decreases |a|
  {
    if a != [] {
      assert (a + b)[1..] == a[1..] + b;
      PmuRunAppend(PmuStep(c, a[0]), a[1..], b);
    } else {
      assert a + b == b;
    }
  }

  /** The text before the first `sep` of each line. */
  function FirstFields(lines: seq<string>, sep: char): (r: seq<string>)
    ensures |r| == |lines|
  {
    seq(|lines|, k requires 0 <= k < |lines| => Split(lines[k], sep)[0])
  }

  /** The reader inside a block, over lines free of "End". */
  function BlockResult(c: PmuConfig, body: seq<string>): PmuConfig
  {
    if c.state == Equ then c.(metrics := c.metrics + FirstFields(body, '\n'))
    else c.(events := c.events + FirstFields(body, ','))
  }

  /** Inside a block each line free of "End" adds one metric or one event
      name. */
  lemma {:induction false} PmuBody(c: PmuConfig, body: seq<string>)
    requires c.state == Equ || c.state == Grp
    requires forall k :: 0 <= k < |body| ==> !Contains(body[k], "End")
    ensures PmuRun(c, body) == BlockResult(c, body)
    decreases |body|
  {
    if body == [] {
      assert c.metrics + [] == c.metrics && c.events + [] == c.events;
    } else {
      var c' := PmuStep(c, body[0]);
      PmuBody(c', body[1..]);
      var sep := if c.state == Equ then '\n' else ',';
      assert FirstFields(body, sep) == [Split(body[0], sep)[0]] + FirstFields(body[1..], sep);
    }
  }

  /** A block — a header line naming Equations (or Group but not
      Equations), lines free of "End", and a line containing "End" — read
      from the FIRST state: the header and the terminator are not
      recorded, each body line adds one metric (the text before its first
      newline) or one event name (the text before its first comma), and the
      reader is back in FIRST. */
  lemma PmuBlock(c: PmuConfig, header: string, body: seq<string>, end: string, isEqu: bool)
    requires c.state == First
    requires if isEqu then Contains(header, "Equations")
             else !Contains(header, "Equations") && Contains(header, "Group")
    requires forall k :: 0 <= k < |body| ==> !Contains(body[k], "End")
    requires Contains(end, "End")
    ensures PmuRun(c, [header] + body + [end]) ==
      if isEqu then c.(metrics := c.metrics + FirstFields(body, '\n'))
      else c.(events := c.events + FirstFields(body, ','))
  {
    var open := PmuStep(c, header);
    assert open == c.(state := if isEqu then Equ else Grp);
    PmuRunAppend(c, [header] + body, [end]);
    PmuRunAppend(c, [header], body);
    assert PmuRun(c, [header]) == open by {
      assert [header][1..] == [];
    }
    PmuBody(open, body);
    var inside := BlockResult(open, body);
    assert PmuRun(inside, [end]) == PmuStep(inside, end) by {
      assert [end][1..] == [];
    }
  }

  /** In the FIRST state a line naming neither Equations nor Group is
      ignored. */
  lemma PmuIgnoresOtherLines(c: PmuConfig, line: string)
    requires c.state == First && !Contains(line, "Equations") && !Contains(line, "Group")
    ensures PmuStep(c, line) == c
  {
  }

  /** A metric written on a line of its own is read back as written. */
  lemma MetricLineReadBack(m: string)
    requires '\n' !in m
    ensures Split(m + "\n", '\n')[0] == m
  {
    SplitPrefix(m, "\n", '\n');
    assert Split("\n", '\n') == [[]] + Split("", '\n');
    assert m + [] == m;
  }

  // ---------------------------------------------------------------------
  // PostProcessor.ReadRawLogs

  /** The file filter: the requested name, or any name containing
      "mtmc_raw_" when none was requested. */
  predicate Selected(name: string, fileName: Option<string>)
  {
    fileName == Some(name) || (fileName.None? && Contains(name, "mtmc_raw_"))
  }

  /** The time-boundary test: with the boundary in use and known, a log is
      kept only when it starts at or after b0 and ends at or before b1. */
  predicate InBoundary(log: SingleLog, useTimeBoundary: bool, boundary: Option<(int, int)>)
  {
    !(useTimeBoundary && boundary.Some? &&
      (log.timeBegin < boundary.value.0 || log.timeEnd > boundary.value.1))
  }

  /** Reading the lines of one file after `acc`: the logs kept, and false
      when a line raised (the logs before it stay). */
  function ReadLines(acc: seq<SingleLog>, lines: seq<string>, use: bool, boundary: Option<(int, int)>)
    : (seq<SingleLog>, bool)
    decreases |lines|
  {
    if lines == [] then (acc, true)
    else
      match ParseSingleLog(Split(lines[0], ','))
      case None => (acc, false)
      case Some(log) =>
        ReadLines(acc + (if InBoundary(log, use, boundary) then [log] else []), lines[1..], use, boundary)
  }

  /** Reading the directory listing: each selected file's entry is reset and
      filled; the first line that raises stops the whole call. */
  function ReadFiles(dict: map<string, seq<SingleLog>>, listing: seq<(string, seq<string>)>,
                     fileName: Option<string>, use: bool, boundary: Option<(int, int)>)
    : (map<string, seq<SingleLog>>, bool)
    decreases |listing|
  {
    if listing == [] then (dict, true)
    else if !Selected(listing[0].0, fileName) then ReadFiles(dict, listing[1..], fileName, use, boundary)
    else
      var (logs, ok) := ReadLines([], listing[0].1, use, boundary);
      if !ok then (dict[listing[0].0 := logs], false)
      else ReadFiles(dict[listing[0].0 := logs], listing[1..], fileName, use, boundary)
  }

  class PostProcessor {
    var logDict: map<string, seq<SingleLog>>
    var timeBoundary: Option<(int, int)>

    constructor (boundary: Option<(int, int)>)
      ensures logDict == map[] && timeBoundary == boundary
    {
      logDict := map[];
      timeBoundary := boundary;
    }

    /** ReadRawLogs over a directory listing of (name, lines) pairs. */
    method ReadRawLogs(listing: seq<(string, seq<string>)>, fileName: Option<string>, useTimeBoundary: bool)
      returns (ok: bool)
      modifies this
      ensures timeBoundary == old(timeBoundary)
      ensures (logDict, ok) == ReadFiles(old(logDict), listing, fileName, useTimeBoundary, timeBoundary)
    {
      ok := true;
      var i := 0;
      while i < |listing|
        invariant 0 <= i <= |listing| && timeBoundary == old(timeBoundary)
        invariant ReadFiles(logDict, listing[i..], fileName, useTimeBoundary, timeBoundary)
               == ReadFiles(old(logDict), listing, fileName, useTimeBoundary, timeBoundary)
      {
        assert listing[i..][1..] == listing[i + 1..];
        var name := listing[i].0;
        if Selected(name, fileName) {
          var logs, fileOk := ReadLog(listing[i].1, useTimeBoundary, timeBoundary);
          logDict := logDict[name := logs];
          if !fileOk {
            ok := false;
            return;
          }
        }
        i := i + 1;
      }
      assert listing[i..] == [];
    }
  }

  /** The line loop of one file. */
  method ReadLog(lines: seq<string>, use: bool, boundary: Option<(int, int)>)
    returns (logs: seq<SingleLog>, ok: bool)
    ensures (logs, ok) == ReadLines([], lines, use, boundary)
  {
    logs := [];
    for i := 0 to |lines|
      invariant ReadLines(logs, lines[i..], use, boundary) == ReadLines([], lines, use, boundary)
    {
      assert lines[i..][1..] == lines[i + 1..];
      var log := ParseSingleLog(Split(lines[i], ','));
      if log.None? {
        assert ReadLines(logs, lines[i..], use, boundary) == (logs, false);
        return logs, false;
      }
      var next := logs + (if InBoundary(log.value, use, boundary) then [log.value] else []);
      assert ReadLines(logs, lines[i..], use, boundary) == ReadLines(next, lines[i + 1..], use, boundary) by {
        assert lines[i..][0] == lines[i];
      }
      logs := next;
    }
    assert lines[|lines|..] == [];
    ok := true;
  }

  /** The logs of a file that was read in full are exactly its lines' logs
      that lie within the boundary, in file order; a log outside it is
      never kept. */
  lemma {:induction false} ReadLinesKeeps(acc: seq<SingleLog>, lines: seq<string>, use: bool,
                                          boundary: Option<(int, int)>, log: SingleLog)
    requires ReadLines(acc, lines, use, boundary).1
    ensures log in ReadLines(acc, lines, use, boundary).0 <==>
      log in acc ||
      (InBoundary(log, use, boundary) &&
       exists k :: 0 <= k < |lines| && ParseSingleLog(Split(lines[k], ',')) == Some(log))
    decreases |lines|
  {
    if lines != [] {
      var first := ParseSingleLog(Split(lines[0], ','));
      var acc' := acc + (if InBoundary(first.value, use, boundary) then [first.value] else []);
      ReadLinesKeeps(acc', lines[1..], use, boundary, log);
      ParsedAmongCons(lines, log);
    }
  }

  /** A log is parsed from some line exactly when it is parsed from the
      first line or from some later one. */
  lemma ParsedAmongCons(lines: seq<string>, log: SingleLog)
    requires lines != []
    ensures (exists k :: 0 <= k < |lines| && ParseSingleLog(Split(lines[k], ',')) == Some(log)) <==>
      ParseSingleLog(Split(lines[0], ',')) == Some(log) ||
      exists k :: 0 <= k < |lines[1..]| && ParseSingleLog(Split(lines[1..][k], ',')) == Some(log)
  {
    if exists k :: 0 <= k < |lines| && ParseSingleLog(Split(lines[k], ',')) == Some(log) {
      var k :| 0 <= k < |lines| && ParseSingleLog(Split(lines[k], ',')) == Some(log);
      if k > 0 {
        assert ParseSingleLog(Split(lines[1..][k - 1], ',')) == Some(log);
      }
    }
    if exists k :: 0 <= k < |lines[1..]| && ParseSingleLog(Split(lines[1..][k], ',')) == Some(log) {
      var k :| 0 <= k < |lines[1..]| && ParseSingleLog(Split(lines[1..][k], ',')) == Some(log);
      assert ParseSingleLog(Split(lines[k + 1], ',')) == Some(log);
    }
  }

  /** A file the filter does not select keeps its entry, or its absence,
      whatever the listing holds. */
  lemma {:induction false} ReadFilesKeepsUnselected(dict: map<string, seq<SingleLog>>,
      listing: seq<(string, seq<string>)>, fileName: Option<string>, use: bool,
      boundary: Option<(int, int)>, name: string)
    requires !Selected(name, fileName)
    ensures var out := ReadFiles(dict, listing, fileName, use, boundary).0;
      (name in out <==> name in dict) && (name in dict ==> out[name] == dict[name])
    decreases |listing|
  {
    if listing != [] {
      var (logs, ok) := ReadLines([], listing[0].1, use, boundary);
      var dict' := if Selected(listing[0].0, fileName) then dict[listing[0].0 := logs] else dict;
      ReadFilesKeepsUnselected(dict', listing[1..], fileName, use, boundary, name);
    }
  }
}
