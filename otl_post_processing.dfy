/** The span decoders of post_processing/otl_post_processing.py:
    ParseSpanToTimelineTF, ParseSpanToTimelinePT and ParseSpanToTimeline
    turn the spans the OpenTelemetry exporter sent (as the trace store
    returns them) into timeline entries.

    The decoders keep their field variables across spans, so a span that
    lacks a field reuses the previous span's value, and the first span that
    lacks one fails with UnboundLocalError; `Locals` holds those variables.

    Oracles and givens: the PMU parser arrives constructed (the calculator
    it is built with is not part of this model); the value of each
    compiled equation is the function `eval`; the spans of all traces are
    given in visiting order. */
module OtlPostProcessing {
  import opened Wrappers
  import opened Machine
  import opened Text
  import opened ProfileRecords
  import Env
  import PostProcessing
  import OtlExporter
  import PerfmonParser
  import PerfmonCollector
  import Exporter

  type AttrValue = OtlExporter.AttrValue

  // ---------------------------------------------------------------------
  // Spans and entries

  /** One span: its name, id, start, duration and the fields of its logs. */
  datatype JSpan = JSpan(operationName: string, spanId: string, startTime: int, duration: int,
                         logs: seq<seq<(string, AttrValue)>>)

  /** The step id field of a name: the text, or -1 when empty. */
  datatype StepId = NoStep | StepName(name: string)

  /** The values of an entry's "args" other than the PMU metrics. */
  datatype ArgValue = AStr(s: string) | AInt(i: int) | AStep(step: StepId)

  /** input_nodes: the names of a span, or the node id the PT chaining sets. */
  datatype Inputs = Names(names: seq<string>) | NodeIds(ids: seq<int>)

  /** A "Detailed node state" entry (pid 9). */
  datatype Detail = Detail(name: string, ts: int, dur: int, tid: AttrValue, nodeName: string,
                           stepId: StepId, inputs: Inputs)

  /** A timeline entry. The "args" of a pool entry are `args` together with
      `metrics`, whose keys all start with "Met-.". */
  datatype Entry =
    | Meta(pid: int, processName: string)
    | Logged(name: string, ts: int, dur: int, tid: AttrValue, pid: int,
             args: map<string, ArgValue>, metrics: map<string, real>)
    | Detailed(d: Detail)

  /** The three process_name entries every timeline starts with. */
  const Header: seq<Entry> :=
    [Meta(10, "InterOp Pool"), Meta(11, "IntraOp Pool"), Meta(9, "Detailed node state")]

  // ---------------------------------------------------------------------
  // The span name

  /** The six '~' fields of a TF or PT span name. */
  datatype OpName = OpName(pool: string, opName: string, opType: string, ctxHash: string,
                           inputs: seq<string>, step: StepId)

  /** The name split on '~'; None when it has other than six fields, a span
      the TF and PT decoders skip. */
  function ParseName(name: string): Option<OpName>
  {
    var parts := Split(name, '~');
    if |parts| != 6 then None
    else Some(OpName(parts[0], parts[1], parts[2], parts[3], Split(parts[4], '|'),
                     if parts[5] != "" then StepName(parts[5]) else NoStep))
  }

  /** A name has six fields exactly when it holds five '~'. */
  lemma NameFieldCount(name: string)
    ensures ParseName(name).Some? <==> Count(name, '~') == 5
  {
    SplitLength(name, '~');
  }

  /** Six fields free of '~' joined by '~' read back as those fields: the
      inputs are field 4 split on '|' and an empty field 5 is step -1. */
  lemma NameRoundTrip(fields: seq<string>)
    requires |fields| == 6 && NoneContain(fields, '~')
    ensures ParseName(JoinOn(fields, "~")) ==
      Some(OpName(fields[0], fields[1], fields[2], fields[3], Split(fields[4], '|'),
                  if fields[5] == "" then NoStep else StepName(fields[5])))
  {
    SplitJoin(fields, '~');
  }

  // ---------------------------------------------------------------------
  // The field variables

  /** The decoder's variables that outlive one span; None is unbound. */
  datatype Locals = Locals(
    tid: Option<AttrValue>,
    pthreadId: Option<int>,
    intPrefix: Option<AttrValue>,
    parentTid: Option<string>,
    parentPthreadId: Option<int>,
    schedTime: Option<string>,
    bTriple: Option<seq<string>>,
    eTriple: Option<seq<string>>,
    bEvents: Option<seq<int>>,
    eEvents: Option<seq<int>>,
    cfgId: Option<AttrValue>,
    muxId: Option<AttrValue>,
    cnsts: Option<seq<int>>)
  {
    /** Both pthread ids, once bound, are masked to 32 bits. */
    predicate Masked()
    {
      (pthreadId.Some? ==> IsU32(pthreadId.value)) && (parentPthreadId.Some? ==> IsU32(parentPthreadId.value))
    }
  }

  const Unbound: Locals := Locals(None, None, None, None, None, None, None, None, None, None, None, None, None)

  const NoSplit := "AttributeError: 'int' object has no attribute 'split'"
  const BadInt := "ValueError: invalid literal for int()"
  const BadUnpack := "ValueError: wrong number of values to unpack"
  const NotBound := "UnboundLocalError"

  /** int(value). */
  function IntOf(v: AttrValue): Option<int>
  {
    match v
    case IntValue(i) => Some(i)
    case StrValue(s) => PyInt(s)
  }

  /** "parent_tid_pthreadid_sched_time" split on "-*-" into three, the
      middle one read as an int and masked. */
  function ParentInfo(v: AttrValue): (r: Result<(string, int, string)>)
    ensures r.Ok? ==> IsU32(r.value.1)
  {
    match v
    case IntValue(_) => Err(NoSplit)
    case StrValue(s) =>
      var parts := SplitOn(s, "-*-");
      if |parts| != 3 then Err(BadUnpack)
      else match PyInt(parts[1])
        case None => Err(BadInt)
        case Some(x) => Ok((parts[0], U32(x), parts[2]))
  }

  /** A core/prefix/num_event triple split on '-' into three strings. */
  function ReadTriple(v: AttrValue): (r: Result<seq<string>>)
    ensures r.Ok? ==> |r.value| == 3
  {
    match v
    case IntValue(_) => Err(NoSplit)
    case StrValue(s) =>
      var parts := Split(s, '-');
      if |parts| == 3 then Ok(parts) else Err(BadUnpack)
  }

  /** An event list: every '-' part read as an int. */
  function EventList(v: AttrValue): Result<seq<int>>
  {
    match v
    case IntValue(_) => Err(NoSplit)
    case StrValue(s) =>
      match PostProcessing.ParseInts(Split(s, '-'))
      case None => Err(BadInt)
      case Some(xs) => Ok(xs)
  }

  /** The parts that are not empty, in order. */
  function NonEmpty(parts: seq<string>): (r: seq<string>)
    ensures forall i :: 0 <= i < |r| ==> r[i] != []
    ensures (forall i :: 0 <= i < |parts| ==> parts[i] != []) ==> r == parts
  {
    if parts == [] then []
    else (if parts[0] == [] then [] else [parts[0]]) + NonEmpty(parts[1..])
  }

  /** The constants: the non-empty "-*-" parts read as ints. */
  function ConstantList(v: AttrValue): Result<seq<int>>
  {
    match v
    case IntValue(_) => Err(NoSplit)
    case StrValue(s) =>
      match PostProcessing.ParseInts(NonEmpty(SplitOn(s, "-*-")))
      case None => Err(BadInt)
      case Some(xs) => Ok(xs)
  }

  /** One pass of the field loop: the variable its key names is set;
      another key leaves every variable as it was. */
  function DecodeField(l: Locals, field: (string, AttrValue)): (r: Result<Locals>)
    ensures l.Masked() && r.Ok? ==> r.value.Masked()
  {
    var (key, v) := field;
    if key == "tid" then Ok(l.(tid := Some(v)))
    else if key == "pthreadid" then
      match IntOf(v)
      case None => Err(BadInt)
      case Some(x) => Ok(l.(pthreadId := Some(U32(x))))
    else if key == "int_prefix" then Ok(l.(intPrefix := Some(v)))
    else if key == "parent_tid_pthreadid_sched_time" then
      match ParentInfo(v)
      case Err(e) => Err(e)
      case Ok((t, pt, st)) => Ok(l.(parentTid := Some(t), parentPthreadId := Some(pt), schedTime := Some(st)))
    else if key == "s_coreid_prefix_num_event" then
      match ReadTriple(v)
      case Err(e) => Err(e)
      case Ok(t) => Ok(l.(bTriple := Some(t)))
    else if key == "e_coreid_prefix_num_event" then
      match ReadTriple(v)
      case Err(e) => Err(e)
      case Ok(t) => Ok(l.(eTriple := Some(t)))
    else if key == "b_events" then
      match EventList(v)
      case Err(e) => Err(e)
      case Ok(xs) => Ok(l.(bEvents := Some(xs)))
    else if key == "e_events" then
      match EventList(v)
      case Err(e) => Err(e)
      case Ok(xs) => Ok(l.(eEvents := Some(xs)))
    else if key == "cfg_id" then Ok(l.(cfgId := Some(v)))
    else if key == "mux_id" then Ok(l.(muxId := Some(v)))
    else if key == "cnsts" then
      match ConstantList(v)
      case Err(e) => Err(e)
      case Ok(xs) => Ok(l.(cnsts := Some(xs)))
    else Ok(l)
  }

  /** The field loop over a span's first log. */
  function DecodeAll(l: Locals, fields: seq<(string, AttrValue)>): (r: Result<Locals>)
    ensures l.Masked() && r.Ok? ==> r.value.Masked()
    decreases |fields|
  {
    if fields == [] then Ok(l)
    else
      match DecodeField(l, fields[0])
      case Err(e) => Err(e)
      case Ok(l2) => DecodeAll(l2, fields[1..])
  }

  method DecodeFields(l: Locals, fields: seq<(string, AttrValue)>) returns (r: Result<Locals>)
    ensures r == DecodeAll(l, fields)
  {
    var cur := l;
    for i := 0 to |fields|
      invariant DecodeAll(cur, fields[i..]) == DecodeAll(l, fields)
    {
      assert fields[i..][0] == fields[i] && fields[i..][1..] == fields[i + 1..];
      var next := DecodeField(cur, fields[i]);
      if next.Err? {
        return Err(next.msg);
      }
      cur := next.value;
    }
    assert fields[|fields|..] == [];
    return Ok(cur);
  }

  /** parser_cfg_id: mux_id when cfg_id is -1, else cfg_id. */
  function ParserCfg(l: Locals): Result<AttrValue>
  {
    if l.cfgId.None? then Err(NotBound)
    else if l.cfgId.value == OtlExporter.IntValue(-1) then
      if l.muxId.None? then Err(NotBound) else Ok(l.muxId.value)
    else Ok(l.cfgId.value)
  }

  /** The field loop of span['logs'][0] and the config index. */
  function DecodeSpan(l: Locals, span: JSpan): Result<(Locals, AttrValue)>
  {
    if |span.logs| == 0 then Err("IndexError: list index out of range")
    else
      match DecodeAll(l, span.logs[0])
      case Err(e) => Err(e)
      case Ok(l2) =>
        match ParserCfg(l2)
        case Err(e) => Err(e)
        case Ok(c) => Ok((l2, c))
  }

  // ---------------------------------------------------------------------
  // The entry of one span

  /** The args of a TF or PT pool entry. */
  function NodeArgs(op: OpName, l: Locals): Result<map<string, ArgValue>>
  {
    if l.pthreadId.None? || l.parentPthreadId.None? || l.parentTid.None? || l.schedTime.None? then Err(NotBound)
    else Ok(map["node_name" := AStr(op.opName), "pthread_id" := AInt(l.pthreadId.value),
                "parent_pthread_id" := AInt(l.parentPthreadId.value), "parent_tid" := AStr(l.parentTid.value),
                "parent_sched_time" := AStr(l.schedTime.value), "step_id" := AStep(op.step)])
  }

  /** The args of a plain pool entry. */
  function PlainArgs(l: Locals): Result<map<string, ArgValue>>
  {
    if l.pthreadId.None? || l.parentPthreadId.None? || l.parentTid.None? || l.schedTime.None? then Err(NotBound)
    else Ok(map["pthread_id" := AInt(l.pthreadId.value), "parent_pthread_id" := AInt(l.parentPthreadId.value),
                "parent_tid" := AStr(l.parentTid.value), "parent_sched_time" := AStr(l.schedTime.value)])
  }

  /** CalPmu(b_events, e_events, args, cfg_idx, cnsts, dur_ms) with the
      duration in milliseconds. A string config index fails once CalPmu
      indexes with it. */
  function Metrics(p: PerfmonParser.Parser, l: Locals, cfg: AttrValue, duration: int,
                   eval: PerfmonParser.EquInput -> real): Result<map<string, real>>
    requires p.WellFormed()
  {
    if l.bEvents.None? || l.eEvents.None? || l.cnsts.None? then Err(NotBound)
    else
      match cfg
      case StrValue(_) =>
        if PerfmonParser.Delta(l.bEvents.value, l.eEvents.value).None? then Err("ValueError: operands could not be broadcast together")
        else Err("TypeError: list indices must be integers")
      case IntValue(c) =>
        PerfmonParser.CalPmuOf(p, l.bEvents.value, l.eEvents.value, map[], c, l.cnsts.value,
                               Some(duration as real / 1000.0), eval)
  }

  method SpanMetrics(p: PerfmonParser.Parser, l: Locals, cfg: AttrValue, duration: int,
                     eval: PerfmonParser.EquInput -> real) returns (r: Result<map<string, real>>)
    requires p.WellFormed()
    ensures r == Metrics(p, l, cfg, duration, eval)
  {
    if l.bEvents.None? || l.eEvents.None? || l.cnsts.None? {
      return Err(NotBound);
    }
    match cfg {
      case StrValue(_) =>
        if PerfmonParser.Delta(l.bEvents.value, l.eEvents.value).None? {
          return Err("ValueError: operands could not be broadcast together");
        }
        return Err("TypeError: list indices must be integers");
      case IntValue(c) =>
        r := PerfmonParser.CalPmu(p, l.bEvents.value, l.eEvents.value, map[], c, l.cnsts.value,
                                  Some(duration as real / 1000.0), eval);
    }
  }

  /** The pool entry of a TF or PT span, and the fields it was built from. */
  function NodeEntry(p: PerfmonParser.Parser, eval: PerfmonParser.EquInput -> real, l: Locals, cfg: AttrValue,
                     op: OpName, span: JSpan): Result<Entry>
    requires p.WellFormed()
  {
    match NodeArgs(op, l)
    case Err(e) => Err(e)
    case Ok(args) =>
      if l.tid.None? then Err(NotBound)
      else
        match Metrics(p, l, cfg, span.duration, eval)
        case Err(e) => Err(e)
        case Ok(met) =>
          Ok(Logged(op.opType, span.startTime, span.duration, l.tid.value,
                    if op.pool == "INTEROP" then 10 else 11, args, met))
  }

  /** The detailed entry of an INTEROP span. */
  function NodeDetail(l: Locals, op: OpName, span: JSpan): Detail
    requires l.tid.Some?
  {
    Detail(op.opType, span.startTime, span.duration, l.tid.value, op.opName, op.step, Names(op.inputs))
  }

  method MakeNodeEntry(p: PerfmonParser.Parser, eval: PerfmonParser.EquInput -> real, l: Locals, cfg: AttrValue,
                       op: OpName, span: JSpan) returns (r: Result<Entry>)
    requires p.WellFormed()
    ensures r == NodeEntry(p, eval, l, cfg, op, span)
  {
    var args := NodeArgs(op, l);
    if args.Err? {
      return Err(args.msg);
    }
    if l.tid.None? {
      return Err(NotBound);
    }
    var met := SpanMetrics(p, l, cfg, span.duration, eval);
    if met.Err? {
      return Err(met.msg);
    }
    var pid := if op.pool == "INTEROP" then 10 else 11;
    return Ok(Logged(op.opType, span.startTime, span.duration, l.tid.value, pid, args.value, met.value));
  }

  // ---------------------------------------------------------------------
  // ParseSpanToTimelineTF

  datatype TfState = TfState(locals: Locals, out: seq<Entry>)

  /** One span of the TF decoder. */
  function TfStep(p: PerfmonParser.Parser, eval: PerfmonParser.EquInput -> real, st: TfState, span: JSpan)
    : Result<TfState>
    requires p.WellFormed()
  {
    match ParseName(span.operationName)
    case None => Ok(st)
    case Some(op) =>
      match DecodeSpan(st.locals, span)
      case Err(e) => Err(e)
      case Ok((l, cfg)) =>
        if op.opName == "default" || op.opType == "default" then Ok(TfState(l, st.out))
        else
          match NodeEntry(p, eval, l, cfg, op, span)
          case Err(e) => Err(e)
          case Ok(entry) =>
            if op.pool == "INTEROP" then Ok(TfState(l, st.out + [entry, Detailed(NodeDetail(l, op, span))]))
            else Ok(TfState(l, st.out + [entry]))
  }

  function RunTf(p: PerfmonParser.Parser, eval: PerfmonParser.EquInput -> real, st: TfState, spans: seq<JSpan>)
    : Result<TfState>
    requires p.WellFormed()
    decreases |spans|
  {
    if spans == [] then Ok(st)
    else
      match TfStep(p, eval, st, spans[0])
      case Err(e) => Err(e)
      case Ok(st2) => RunTf(p, eval, st2, spans[1..])
  }

  function TimelineTf(p: PerfmonParser.Parser, eval: PerfmonParser.EquInput -> real, spans: seq<JSpan>)
    : Result<seq<Entry>>
    requires p.WellFormed()
  {
    match RunTf(p, eval, TfState(Unbound, Header), spans)
    case Err(e) => Err(e)
    case Ok(st) => Ok(st.out)
  }

  method TfSpan(p: PerfmonParser.Parser, eval: PerfmonParser.EquInput -> real, st: TfState, span: JSpan)
    returns (r: Result<TfState>)
    requires p.WellFormed()
    ensures r == TfStep(p, eval, st, span)
  {
    var name := ParseName(span.operationName);
    if name.None? {
      return Ok(st);
    }
    var op := name.value;
    if |span.logs| == 0 {
      return Err("IndexError: list index out of range");
    }
    var decoded := DecodeFields(st.locals, span.logs[0]);
    if decoded.Err? {
      return Err(decoded.msg);
    }
    var l := decoded.value;
    var cfg := ParserCfg(l);
    if cfg.Err? {
      return Err(cfg.msg);
    }
    if op.opName == "default" || op.opType == "default" {
      return Ok(TfState(l, st.out));
    }
    var entry := MakeNodeEntry(p, eval, l, cfg.value, op, span);
    if entry.Err? {
      return Err(entry.msg);
    }
    if op.pool == "INTEROP" {
      return Ok(TfState(l, st.out + [entry.value, Detailed(NodeDetail(l, op, span))]));
    }
    return Ok(TfState(l, st.out + [entry.value]));
  }

  method ParseSpanToTimelineTF(p: PerfmonParser.Parser, eval: PerfmonParser.EquInput -> real, spans: seq<JSpan>)
    returns (r: Result<seq<Entry>>)
    requires p.WellFormed()
    ensures r == TimelineTf(p, eval, spans)
  {
    var st := TfState(Unbound, Header);
    for i := 0 to |spans|
      invariant RunTf(p, eval, st, spans[i..]) == RunTf(p, eval, TfState(Unbound, Header), spans)
    {
      assert spans[i..][0] == spans[i] && spans[i..][1..] == spans[i + 1..];
      var next := TfSpan(p, eval, st, spans[i]);
      if next.Err? {
        return Err(next.msg);
      }
      st := next.value;
    }
    assert spans[|spans|..] == [];
    return Ok(st.out);
  }

  /** A pool entry and a detailed entry of the same span. */
  predicate SameSpan(e: Entry, d: Detail)
  {
    e.Logged? && e.name == d.name && e.ts == d.ts && e.dur == d.dur && e.tid == d.tid
  }

  /** After the header a TF timeline holds pool entries of pid 10 or 11
      and detailed entries, each right after the pid 10 pool entry of its
      own span. */
  predicate TfShaped(out: seq<Entry>, from: nat)
  {
    forall j :: from <= j < |out| ==> ShapedAt(out, from, j)
  }

  predicate ShapedAt(out: seq<Entry>, from: nat, j: int)
    requires from <= j < |out|
  {
    (out[j].Logged? && (out[j].pid == 10 || out[j].pid == 11)) ||
    (out[j].Detailed? && from < j && out[j - 1].Logged? && out[j - 1].pid == 10 && SameSpan(out[j - 1], out[j].d))
  }

  /** One TF span adds nothing when its name has other than six fields or
      its op name or type is "default"; otherwise it adds its pool entry,
      with pid 10 for an INTEROP span and 11 for any other, followed for an
      INTEROP span by its detailed entry with the span's inputs. */
  lemma TfStepSpec(p: PerfmonParser.Parser, eval: PerfmonParser.EquInput -> real, st: TfState, span: JSpan)
    requires p.WellFormed() && TfStep(p, eval, st, span).Ok?
    ensures var r := TfStep(p, eval, st, span).value;
      var op := ParseName(span.operationName);
      |r.out| >= |st.out| && r.out[..|st.out|] == st.out &&
      (op.None? || op.value.opName == "default" || op.value.opType == "default" <==> r.out == st.out) &&
      (op.Some? && r.out != st.out ==>
        var o := op.value;
        |r.out| == |st.out| + (if o.pool == "INTEROP" then 2 else 1) &&
        r.out[|st.out|].Logged? && r.out[|st.out|].name == o.opType &&
        r.out[|st.out|].ts == span.startTime && r.out[|st.out|].dur == span.duration &&
        r.out[|st.out|].pid == (if o.pool == "INTEROP" then 10 else 11) &&
        (o.pool == "INTEROP" ==>
          r.out[|st.out| + 1].Detailed? && SameSpan(r.out[|st.out|], r.out[|st.out| + 1].d) &&
          r.out[|st.out| + 1].d.nodeName == o.opName && r.out[|st.out| + 1].d.stepId == o.step &&
          r.out[|st.out| + 1].d.inputs == Names(o.inputs)))
  {
  }

  /** What one TF span may append: nothing, a pool entry, or an INTEROP
      pool entry followed by the detailed entry of its span. */
  predicate TfAdded(a: seq<Entry>)
  {
    |a| == 0 ||
    (|a| == 1 && a[0].Logged? && (a[0].pid == 10 || a[0].pid == 11)) ||
    (|a| == 2 && a[0].Logged? && a[0].pid == 10 && a[1].Detailed? && SameSpan(a[0], a[1].d))
  }

  lemma TfStepAdds(p: PerfmonParser.Parser, eval: PerfmonParser.EquInput -> real, st: TfState, span: JSpan)
    requires p.WellFormed() && TfStep(p, eval, st, span).Ok?
    ensures var r := TfStep(p, eval, st, span).value;
      |r.out| >= |st.out| && r.out == st.out + r.out[|st.out|..] && TfAdded(r.out[|st.out|..])
  {
  }

  lemma ShapedAppend(out: seq<Entry>, a: seq<Entry>, from: nat)
    requires from <= |out| && TfShaped(out, from) && TfAdded(a)
    ensures TfShaped(out + a, from)
  {
    var o := out + a;
    forall j | from <= j < |o|
      ensures ShapedAt(o, from, j)
    {
      if j < |out| {
        assert ShapedAt(out, from, j);
        assert o[j] == out[j];
        if j > from { assert o[j - 1] == out[j - 1]; }
      } else if j == |out| {
        assert o[j] == a[0];
      } else {
        assert o[j] == a[1] && o[j - 1] == a[0];
      }
    }
  }

  lemma {:induction false} RunTfShape(p: PerfmonParser.Parser, eval: PerfmonParser.EquInput -> real, st: TfState,
                                      spans: seq<JSpan>, from: nat)
    requires p.WellFormed() && RunTf(p, eval, st, spans).Ok?
    requires from <= |st.out| && TfShaped(st.out, from)
    ensures var r := RunTf(p, eval, st, spans).value;
      |r.out| >= |st.out| && r.out[..|st.out|] == st.out && TfShaped(r.out, from)
    decreases |spans|
  {
    if spans != [] {
      var st2 := TfStep(p, eval, st, spans[0]).value;
      TfStepAdds(p, eval, st, spans[0]);
      ShapedAppend(st.out, st2.out[|st.out|..], from);
      RunTfShape(p, eval, st2, spans[1..], from);
      var r := RunTf(p, eval, st, spans).value;
      assert r.out[..|st.out|] == r.out[..|st2.out|][..|st.out|];
    }
  }

  /** A TF timeline is the three process_name entries followed by pool
      and detailed entries only, each detailed entry right after the
      INTEROP pool entry of its span. */
  lemma TimelineTfShape(p: PerfmonParser.Parser, eval: PerfmonParser.EquInput -> real, spans: seq<JSpan>)
    requires p.WellFormed() && TimelineTf(p, eval, spans).Ok?
    ensures var out := TimelineTf(p, eval, spans).value;
      |out| >= 3 && out[..3] == Header && TfShaped(out, 3)
  {
    RunTfShape(p, eval, TfState(Unbound, Header), spans, 3);
  }

  // ---------------------------------------------------------------------
  // ParseSpanToTimeline (no name fields)

  /** One span of the plain decoder: every span gives one pid 10 entry
      named after the whole span name. */
  function PlainStep(p: PerfmonParser.Parser, eval: PerfmonParser.EquInput -> real, st: TfState, span: JSpan)
    : (r: Result<TfState>)
    requires p.WellFormed()
    ensures r.Ok? ==>
      |r.value.out| == |st.out| + 1 && r.value.out == st.out + [r.value.out[|st.out|]] &&
      PlainOf(r.value.out[|st.out|], span)
  {
    match DecodeSpan(st.locals, span)
    case Err(e) => Err(e)
    case Ok((l, cfg)) =>
      match PlainArgs(l)
      case Err(e) => Err(e)
      case Ok(args) =>
        if l.tid.None? then Err(NotBound)
        else
          match Metrics(p, l, cfg, span.duration, eval)
          case Err(e) => Err(e)
          case Ok(met) =>
            Ok(TfState(l, st.out + [Logged(span.operationName, span.startTime, span.duration, l.tid.value, 10, args, met)]))
  }

  function RunPlain(p: PerfmonParser.Parser, eval: PerfmonParser.EquInput -> real, st: TfState, spans: seq<JSpan>)
    : Result<TfState>
    requires p.WellFormed()
    decreases |spans|
  {
    if spans == [] then Ok(st)
    else
      match PlainStep(p, eval, st, spans[0])
      case Err(e) => Err(e)
      case Ok(st2) => RunPlain(p, eval, st2, spans[1..])
  }

  function TimelinePlain(p: PerfmonParser.Parser, eval: PerfmonParser.EquInput -> real, spans: seq<JSpan>)
    : Result<seq<Entry>>
    requires p.WellFormed()
  {
    match RunPlain(p, eval, TfState(Unbound, Header), spans)
    case Err(e) => Err(e)
    case Ok(st) => Ok(st.out)
  }

  method PlainSpan(p: PerfmonParser.Parser, eval: PerfmonParser.EquInput -> real, st: TfState, span: JSpan)
    returns (r: Result<TfState>)
    requires p.WellFormed()
    ensures r == PlainStep(p, eval, st, span)
  {
    if |span.logs| == 0 {
      return Err("IndexError: list index out of range");
    }
    var decoded := DecodeFields(st.locals, span.logs[0]);
    if decoded.Err? {
      return Err(decoded.msg);
    }
    var l := decoded.value;
    var cfg := ParserCfg(l);
    if cfg.Err? {
      return Err(cfg.msg);
    }
    var args := PlainArgs(l);
    if args.Err? {
      return Err(args.msg);
    }
    if l.tid.None? {
      return Err(NotBound);
    }
    var met := SpanMetrics(p, l, cfg.value, span.duration, eval);
    if met.Err? {
      return Err(met.msg);
    }
    return Ok(TfState(l, st.out + [Logged(span.operationName, span.startTime, span.duration, l.tid.value, 10,
                                          args.value, met.value)]));
  }

  method ParseSpanToTimeline(p: PerfmonParser.Parser, eval: PerfmonParser.EquInput -> real, spans: seq<JSpan>)
    returns (r: Result<seq<Entry>>)
    requires p.WellFormed()
    ensures r == TimelinePlain(p, eval, spans)
  {
    var st := TfState(Unbound, Header);
    for i := 0 to |spans|
      invariant RunPlain(p, eval, st, spans[i..]) == RunPlain(p, eval, TfState(Unbound, Header), spans)
    {
      assert spans[i..][0] == spans[i] && spans[i..][1..] == spans[i + 1..];
      var next := PlainSpan(p, eval, st, spans[i]);
      if next.Err? {
        return Err(next.msg);
      }
      st := next.value;
    }
    assert spans[|spans|..] == [];
    return Ok(st.out);
  }

  /** The entry the plain decoder makes for a span. */
  predicate PlainOf(e: Entry, span: JSpan)
  {
    e.Logged? && e.pid == 10 && e.name == span.operationName && e.ts == span.startTime && e.dur == span.duration
  }

  lemma {:induction false} RunPlainEntries(p: PerfmonParser.Parser, eval: PerfmonParser.EquInput -> real, st: TfState,
                                           spans: seq<JSpan>)
    requires p.WellFormed() && RunPlain(p, eval, st, spans).Ok?
    ensures var r := RunPlain(p, eval, st, spans).value;
      |r.out| == |st.out| + |spans| && r.out[..|st.out|] == st.out &&
      forall i :: 0 <= i < |spans| ==> PlainOf(r.out[|st.out| + i], spans[i])
  {
    RunPlainGrows(p, eval, st, spans);
    forall i | 0 <= i < |spans|
      ensures PlainOf(RunPlain(p, eval, st, spans).value.out[|st.out| + i], spans[i])
    {
      RunPlainAt(p, eval, st, spans, i);
    }
  }

  /** The plain run keeps what was emitted before and adds one entry per
      span. */
  lemma {:induction false} RunPlainGrows(p: PerfmonParser.Parser, eval: PerfmonParser.EquInput -> real, st: TfState,
                                         spans: seq<JSpan>)
    requires p.WellFormed() && RunPlain(p, eval, st, spans).Ok?
    ensures var r := RunPlain(p, eval, st, spans).value;
      |r.out| == |st.out| + |spans| && r.out[..|st.out|] == st.out
    decreases |spans|
  {
    if spans != [] {
      var st2 := PlainStep(p, eval, st, spans[0]).value;
      RunPlainGrows(p, eval, st2, spans[1..]);
      var r := RunPlain(p, eval, st, spans).value;
      assert r == RunPlain(p, eval, st2, spans[1..]).value;
      assert r.out[..|st.out|] == r.out[..|st2.out|][..|st.out|];
    }
  }

  /** A successful plain run starts with a successful step. */
  lemma RunPlainFirst(p: PerfmonParser.Parser, eval: PerfmonParser.EquInput -> real, st: TfState, spans: seq<JSpan>)
    requires p.WellFormed() && RunPlain(p, eval, st, spans).Ok? && spans != []
    ensures PlainStep(p, eval, st, spans[0]).Ok?
    ensures RunPlain(p, eval, st, spans) == RunPlain(p, eval, PlainStep(p, eval, st, spans[0]).value, spans[1..])
  {
  }

  /** The entry the plain run emits for span i. */
  lemma {:induction false} RunPlainAt(p: PerfmonParser.Parser, eval: PerfmonParser.EquInput -> real, st: TfState,
                                      spans: seq<JSpan>, i: nat)
    requires p.WellFormed() && RunPlain(p, eval, st, spans).Ok? && i < |spans|
    ensures var r := RunPlain(p, eval, st, spans).value;
      |st.out| + i < |r.out| && PlainOf(r.out[|st.out| + i], spans[i])
    decreases i
  {
    RunPlainFirst(p, eval, st, spans);
    var st2 := PlainStep(p, eval, st, spans[0]).value;
    RunPlainGrows(p, eval, st2, spans[1..]);
    var r := RunPlain(p, eval, st, spans).value;
    assert r == RunPlain(p, eval, st2, spans[1..]).value;
    if i == 0 {
      assert r.out[|st.out|] == r.out[..|st2.out|][|st.out|];
    } else {
      RunPlainAt(p, eval, st2, spans[1..], i - 1);
      assert spans[1..][i - 1] == spans[i] && |st2.out| + (i - 1) == |st.out| + i;
    }
  }

  /** The plain timeline is the three process_name entries followed by
      exactly one pid 10 entry per span, in span order, named after the
      whole span name with the span's start and duration. */
  lemma TimelinePlainEntries(p: PerfmonParser.Parser, eval: PerfmonParser.EquInput -> real, spans: seq<JSpan>)
    requires p.WellFormed() && TimelinePlain(p, eval, spans).Ok?
    ensures var out := TimelinePlain(p, eval, spans).value;
      |out| == 3 + |spans| && out[..3] == Header &&
      forall i :: 0 <= i < |spans| ==> PlainOf(out[3 + i], spans[i])
  {
    RunPlainEntries(p, eval, TfState(Unbound, Header), spans);
  }

  // ---------------------------------------------------------------------
  // ParseSpanToTimelinePT

  /** str.isdigit(), over ASCII digits. */
  predicate IsNumeric(s: string)
  {
    |s| > 0 && AllDigits(s)
  }

  /** The node id of a numeric op name is what int() reads from it. */
  lemma NumericKey(s: string)
    requires IsNumeric(s)
    ensures PyInt(s) == Some(DigitsValue(s) as int)
  {
    assert TrimLeft(s) == s;
    assert TrimRight(s) == s;
  }

  /** detailed_dict: the kept detailed entry per step and node id. */
  type Table = map<StepId, map<int, Detail>>

  /** The PT decoder's variables: the field variables, the timeline so far,
      op_name_list, the steps of detailed_dict in insertion order, and
      detailed_dict. */
  datatype PtState = PtState(locals: Locals, out: seq<Entry>, opNames: seq<int>, steps: seq<StepId>, table: Table)

  const PtInit := PtState(Unbound, Header, [], [], map[])

  /** Of a stored entry and a new one for the same node, the one that is
      kept: the new one unless the stored one lasted longer. */
  function Keep(prev: Detail, d: Detail): Detail
  {
    if prev.dur <= d.dur then d else prev
  }

  /** The store of one detailed entry under its step and node id. */
  function Store(steps: seq<StepId>, table: Table, s: StepId, k: int, d: Detail): (seq<StepId>, Table)
  {
    if s !in table then (steps + [s], table[s := map[k := d]])
    else if k !in table[s] then (steps, table[s := table[s][k := d]])
    else if table[s][k].dur <= d.dur then (steps, table[s := table[s][k := d]])
    else (steps, table)
  }

  /** After a store the node holds the new entry, or the stored one when
      that lasted longer; a new step is appended to the step order; every
      other step and node keeps its entry. */
  lemma StoreSpec(steps: seq<StepId>, table: Table, s: StepId, k: int, d: Detail)
    ensures var (steps2, t2) := Store(steps, table, s, k, d);
      s in t2 && k in t2[s] &&
      t2[s][k] == (if s in table && k in table[s] then Keep(table[s][k], d) else d) &&
      t2.Keys == table.Keys + {s} &&
      (s in table ==> t2[s].Keys == table[s].Keys + {k}) &&
      (forall s' :: s' in table && s' != s ==> t2[s'] == table[s']) &&
      (forall k' :: s in table && k' in table[s] && k' != k ==> t2[s][k'] == table[s][k']) &&
      steps2 == (if s in table then steps else steps + [s])
  {
  }

  /** The entry kept for a node that arrived as `ds`, in order. */
  function KeepAll(ds: seq<Detail>): Detail
    requires |ds| > 0
  {
    if |ds| == 1 then ds[0] else Keep(KeepAll(ds[..|ds| - 1]), ds[|ds| - 1])
  }

  /** Every arrival after the i-th was shorter than the kept entry. */
  predicate LaterShorter(ds: seq<Detail>, i: int)
    requires |ds| > 0
  {
    forall j :: 0 <= j < |ds| && i < j ==> ds[j].dur < KeepAll(ds).dur
  }

  /** The kept entry is the last of the longest: one of the arrivals, no
      arrival lasted longer, and every later arrival was shorter. */
  lemma {:induction false} KeepAllLastLongest(ds: seq<Detail>)
    requires |ds| > 0
    ensures forall j :: 0 <= j < |ds| ==> ds[j].dur <= KeepAll(ds).dur
    ensures exists i :: 0 <= i < |ds| && ds[i] == KeepAll(ds) && LaterShorter(ds, i)
  {
    if |ds| > 1 {
      var init := ds[..|ds| - 1];
      KeepAllLastLongest(init);
      var i :| 0 <= i < |init| && init[i] == KeepAll(init) && LaterShorter(init, i);
      if KeepAll(init).dur <= ds[|ds| - 1].dur {
        assert ds[|ds| - 1] == KeepAll(ds);
        forall j | 0 <= j < |ds|
          ensures ds[j].dur <= KeepAll(ds).dur
        {
          if j < |ds| - 1 { assert ds[j] == init[j]; }
        }
        var last := |ds| - 1;
        assert 0 <= last < |ds| && ds[last] == KeepAll(ds) && LaterShorter(ds, last);
      } else {
        assert ds[i] == KeepAll(ds);
        forall j | 0 <= j < |ds|
          ensures ds[j].dur <= KeepAll(ds).dur && (i < j ==> ds[j].dur < KeepAll(ds).dur)
        {
          if j < |ds| - 1 { assert ds[j] == init[j]; }
        }
        assert 0 <= i < |ds| && ds[i] == KeepAll(ds) && LaterShorter(ds, i);
      }
    } else {
      assert ds[0] == KeepAll(ds) && LaterShorter(ds, 0);
    }
  }

  /** Successive stores of entries for one step and node. */
  function StoreEach(steps: seq<StepId>, table: Table, s: StepId, k: int, ds: seq<Detail>): (seq<StepId>, Table)
    decreases |ds|
  {
    if ds == [] then (steps, table)
    else
      var (steps2, t2) := StoreEach(steps, table, s, k, ds[..|ds| - 1]);
      Store(steps2, t2, s, k, ds[|ds| - 1])
  }

  /** For a node first seen in `ds`, the table ends up holding the kept
      entry of `ds`: the last of the longest. */
  lemma {:induction false} StoreEachKeeps(steps: seq<StepId>, table: Table, s: StepId, k: int, ds: seq<Detail>)
    requires |ds| > 0 && !(s in table && k in table[s])
    ensures var t2 := StoreEach(steps, table, s, k, ds).1;
      s in t2 && k in t2[s] && t2[s][k] == KeepAll(ds)
    decreases |ds|
  {
    var init := ds[..|ds| - 1];
    var (steps1, t1) := StoreEach(steps, table, s, k, init);
    StoreSpec(steps1, t1, s, k, ds[|ds| - 1]);
    if |ds| > 1 {
      StoreEachKeeps(steps, table, s, k, init);
    } else {
      assert init == [];
    }
  }

  /** Entry e was stored for step s and node k. */
  predicate Stored(d: Detail, s: StepId, k: int)
  {
    d.stepId == s && IsNumeric(d.nodeName) && DigitsValue(d.nodeName) == k
  }

  /** detailed_dict's keys are the recorded steps, each once; every stored
      entry is filed under its own step and node id, and that id is in
      op_name_list. */
  predicate PtInv(st: PtState)
  {
    (forall s :: s in st.steps ==> s in st.table) &&
    (forall s :: s in st.table ==> s in st.steps) &&
    Distinct(st.steps) && Filed(st.table, st.opNames)
  }

  predicate Distinct(steps: seq<StepId>)
  {
    forall i, j :: 0 <= i < j < |steps| ==> steps[i] != steps[j]
  }

  predicate Filed(table: Table, opNames: seq<int>)
  {
    forall s :: s in table ==> RowFiled(table[s], s, opNames)
  }

  predicate RowFiled(row: map<int, Detail>, s: StepId, opNames: seq<int>)
  {
    forall k :: k in row ==> Stored(row[k], s, k) && k in opNames
  }

  /** One span of the PT decoder: the pool entry as in the TF decoder; no
      detailed entry is emitted yet, but an INTEROP span with a numeric op
      name is stored. */
  function PtStep(p: PerfmonParser.Parser, eval: PerfmonParser.EquInput -> real, st: PtState, span: JSpan)
    : Result<PtState>
    requires p.WellFormed()
  {
    match ParseName(span.operationName)
    case None => Ok(st)
    case Some(op) =>
      match DecodeSpan(st.locals, span)
      case Err(e) => Err(e)
      case Ok((l, cfg)) =>
        if op.opName == "default" || op.opType == "default" then Ok(st.(locals := l))
        else
          match NodeEntry(p, eval, l, cfg, op, span)
          case Err(e) => Err(e)
          case Ok(entry) =>
            if op.pool == "INTEROP" && IsNumeric(op.opName) then
              var k := DigitsValue(op.opName) as int;
              var (steps, table) := Store(st.steps, st.table, op.step, k, NodeDetail(l, op, span));
              Ok(PtState(l, st.out + [entry], st.opNames + [k], steps, table))
            else Ok(st.(locals := l, out := st.out + [entry]))
  }

  function RunPt(p: PerfmonParser.Parser, eval: PerfmonParser.EquInput -> real, st: PtState, spans: seq<JSpan>)
    : Result<PtState>
    requires p.WellFormed()
    decreases |spans|
  {
    if spans == [] then Ok(st)
    else
      match PtStep(p, eval, st, spans[0])
      case Err(e) => Err(e)
      case Ok(st2) => RunPt(p, eval, st2, spans[1..])
  }

  /** Storing an entry filed under its own step and node keeps the
      invariant. */
  lemma StoreKeepsInv(st: PtState, l: Locals, out: seq<Entry>, s: StepId, k: int, d: Detail)
    requires PtInv(st) && Stored(d, s, k)
    ensures var (steps, table) := Store(st.steps, st.table, s, k, d);
      PtInv(PtState(l, out, st.opNames + [k], steps, table))
  {
    var (steps, table) := Store(st.steps, st.table, s, k, d);
    var names := st.opNames + [k];
    StoreSpec(st.steps, st.table, s, k, d);
    assert Filed(st.table, st.opNames);
    forall s' | s' in table
      ensures RowFiled(table[s'], s', names)
    {
      if s' == s {
        if s in st.table {
          assert RowFiled(st.table[s], s, st.opNames);
        }
        assert k == names[|names| - 1];
      } else {
        assert RowFiled(st.table[s'], s', st.opNames);
      }
    }
    assert Filed(table, names);
    if s !in st.table {
      forall i, j | 0 <= i < j < |steps|
        ensures steps[i] != steps[j]
      {
        if j == |steps| - 1 {
          assert steps[i] == st.steps[i];
        }
      }
    }
    assert Distinct(steps);
  }

  lemma PtStepInv(p: PerfmonParser.Parser, eval: PerfmonParser.EquInput -> real, st: PtState, span: JSpan)
    requires p.WellFormed() && PtInv(st) && PtStep(p, eval, st, span).Ok?
    ensures PtInv(PtStep(p, eval, st, span).value)
  {
    var op := ParseName(span.operationName);
    if op.Some? && op.value.pool == "INTEROP" && IsNumeric(op.value.opName) {
      var o := op.value;
      var (l, cfg) := DecodeSpan(st.locals, span).value;
      if !(o.opName == "default" || o.opType == "default") {
        var entry := NodeEntry(p, eval, l, cfg, o, span).value;
        var k := DigitsValue(o.opName) as int;
        StoreKeepsInv(st, l, st.out + [entry], o.step, k, NodeDetail(l, o, span));
      }
    }
  }

  /** The PT decoder keeps its invariant over any run of spans. */
  lemma {:induction false} RunPtInv(p: PerfmonParser.Parser, eval: PerfmonParser.EquInput -> real, st: PtState,
                                    spans: seq<JSpan>)
    requires p.WellFormed() && PtInv(st) && RunPt(p, eval, st, spans).Ok?
    ensures PtInv(RunPt(p, eval, st, spans).value)
    decreases |spans|
  {
    if spans != [] {
      PtStepInv(p, eval, st, spans[0]);
      RunPtInv(p, eval, PtStep(p, eval, st, spans[0]).value, spans[1..]);
    }
  }

  /** The ids strictly increase. */
  predicate Increasing(xs: seq<int>)
  {
    forall i, j :: 0 <= i < j < |xs| ==> xs[i] < xs[j]
  }

  function Insert(xs: seq<int>, x: int): (r: seq<int>)
    requires Increasing(xs)
    ensures Increasing(r)
    ensures forall y :: y in r <==> y in xs || y == x
  {
    if xs == [] then [x]
    else if x < xs[0] then [x] + xs
    else if x == xs[0] then xs
    else
      var rest := Insert(xs[1..], x);
      assert forall y :: y in rest ==> xs[0] < y;
      ConsIncreasing(xs[0], rest);
      [xs[0]] + rest
  }

  lemma ConsIncreasing(a: int, xs: seq<int>)
    requires Increasing(xs) && forall y :: y in xs ==> a < y
    ensures Increasing([a] + xs)
  {
    var r := [a] + xs;
    forall i, j | 0 <= i < j < |r|
      ensures r[i] < r[j]
    {
      assert r[j] == xs[j - 1];
      if i > 0 {
        assert r[i] == xs[i - 1];
      } else {
        assert xs[j - 1] in xs;
      }
    }
  }

  /** sorted(set(xs)): the distinct ids of xs in increasing order. */
  function SortedSet(xs: seq<int>): (r: seq<int>)
    ensures Increasing(r)
    ensures forall y :: y in r <==> y in xs
  {
    if xs == [] then [] else Insert(SortedSet(xs[..|xs| - 1]), xs[|xs| - 1])
  }

  /** A kept entry whose input is set to the preceding id. */
  function Chained(d: Detail, prev: int): Detail
  {
    d.(inputs := NodeIds([prev]))
  }

  const MissingNode := "KeyError"

  /** The entries emitted for one step: for each id of l after the first,
      the step's entry for that id chained to the id before it. */
  function EmitRow(row: map<int, Detail>, l: seq<int>, n: nat): Result<seq<Entry>>
    requires n <= |l|
  {
    if n <= 1 then Ok([])
    else
      match EmitRow(row, l, n - 1)
      case Err(e) => Err(e)
      case Ok(es) =>
        if l[n - 1] in row then Ok(es + [Detailed(Chained(row[l[n - 1]], l[n - 2]))]) else Err(MissingNode)
  }

  /** The entries emitted for the first m steps. */
  function EmitAll(table: Table, steps: seq<StepId>, l: seq<int>, m: nat): Result<seq<Entry>>
    requires m <= |steps| && forall s :: s in steps ==> s in table
  {
    if m == 0 then Ok([])
    else
      match EmitAll(table, steps, l, m - 1)
      case Err(e) => Err(e)
      case Ok(es) =>
        match EmitRow(table[steps[m - 1]], l, |l|)
        case Err(e) => Err(e)
        case Ok(rs) => Ok(es + rs)
  }

  /** The PT timeline: the pool entries, then the chained entries of every
      step in the order the steps were first seen. */
  function TimelinePt(p: PerfmonParser.Parser, eval: PerfmonParser.EquInput -> real, spans: seq<JSpan>)
    : Result<seq<Entry>>
    requires p.WellFormed()
  {
    match RunPt(p, eval, PtInit, spans)
    case Err(e) => Err(e)
    case Ok(st) =>
      RunPtInv(p, eval, PtInit, spans);
      match EmitAll(st.table, st.steps, SortedSet(st.opNames), |st.steps|)
      case Err(e) => Err(e)
      case Ok(es) => Ok(st.out + es)
  }

  lemma {:induction false} EmitRowErr(row: map<int, Detail>, l: seq<int>, n: nat, m: nat)
    requires n <= m <= |l| && EmitRow(row, l, n).Err?
    ensures EmitRow(row, l, m) == EmitRow(row, l, n)
    decreases m
  {
    if m > n {
      EmitRowErr(row, l, n, m - 1);
    }
  }

  lemma {:induction false} EmitAllErr(table: Table, steps: seq<StepId>, l: seq<int>, n: nat, m: nat)
    requires n <= m <= |steps| && (forall s :: s in steps ==> s in table) && EmitAll(table, steps, l, n).Err?
    ensures EmitAll(table, steps, l, m) == EmitAll(table, steps, l, n)
    decreases m
  {
    if m > n {
      EmitAllErr(table, steps, l, n, m - 1);
    }
  }

  method EmitStep(row: map<int, Detail>, l: seq<int>) returns (r: Result<seq<Entry>>)
    ensures r == EmitRow(row, l, |l|)
  {
    if |l| == 0 {
      return Ok([]);
    }
    var es := [];
    var i := 1;
    while i < |l|
      invariant 1 <= i <= |l|
      invariant EmitRow(row, l, i) == Ok(es)
    {
      if l[i] !in row {
        EmitRowErr(row, l, i + 1, |l|);
        return Err(MissingNode);
      }
      es := es + [Detailed(Chained(row[l[i]], l[i - 1]))];
      i := i + 1;
    }
    return Ok(es);
  }

  method Emit(table: Table, steps: seq<StepId>, l: seq<int>) returns (r: Result<seq<Entry>>)
    requires forall s :: s in steps ==> s in table
    ensures r == EmitAll(table, steps, l, |steps|)
  {
    var es := [];
    for m := 0 to |steps|
      invariant EmitAll(table, steps, l, m) == Ok(es)
    {
      var rs := EmitStep(table[steps[m]], l);
      if rs.Err? {
        EmitAllErr(table, steps, l, m + 1, |steps|);
        return Err(rs.msg);
      }
      es := es + rs.value;
    }
    return Ok(es);
  }

  method PtSpan(p: PerfmonParser.Parser, eval: PerfmonParser.EquInput -> real, st: PtState, span: JSpan)
    returns (r: Result<PtState>)
    requires p.WellFormed()
    ensures r == PtStep(p, eval, st, span)
  {
    var name := ParseName(span.operationName);
    if name.None? {
      return Ok(st);
    }
    var op := name.value;
    if |span.logs| == 0 {
      return Err("IndexError: list index out of range");
    }
    var decoded := DecodeFields(st.locals, span.logs[0]);
    if decoded.Err? {
      return Err(decoded.msg);
    }
    var l := decoded.value;
    var cfg := ParserCfg(l);
    if cfg.Err? {
      return Err(cfg.msg);
    }
    if op.opName == "default" || op.opType == "default" {
      return Ok(st.(locals := l));
    }
    var entry := MakeNodeEntry(p, eval, l, cfg.value, op, span);
    if entry.Err? {
      return Err(entry.msg);
    }
    if op.pool == "INTEROP" && IsNumeric(op.opName) {
      var k := DigitsValue(op.opName) as int;
      var (steps, table) := Store(st.steps, st.table, op.step, k, NodeDetail(l, op, span));
      return Ok(PtState(l, st.out + [entry.value], st.opNames + [k], steps, table));
    }
    return Ok(st.(locals := l, out := st.out + [entry.value]));
  }

  method ParseSpanToTimelinePT(p: PerfmonParser.Parser, eval: PerfmonParser.EquInput -> real, spans: seq<JSpan>)
    returns (r: Result<seq<Entry>>)
    requires p.WellFormed()
    ensures r == TimelinePt(p, eval, spans)
  {
    var st := PtInit;
    for i := 0 to |spans|
      invariant RunPt(p, eval, st, spans[i..]) == RunPt(p, eval, PtInit, spans)
    {
      assert spans[i..][0] == spans[i] && spans[i..][1..] == spans[i + 1..];
      var next := PtSpan(p, eval, st, spans[i]);
      if next.Err? {
        return Err(next.msg);
      }
      st := next.value;
    }
    assert spans[|spans|..] == [];
    RunPtInv(p, eval, PtInit, spans);
    var l := SortedSet(st.opNames);
    var es := Emit(st.table, st.steps, l);
    if es.Err? {
      return Err(es.msg);
    }
    return Ok(st.out + es.value);
  }

  /** Every emitted entry of a row, in order: the row's entry for the next
      id of l, chained to the id before it. A row misses an id after the
      first exactly when the emission fails. */
  lemma {:induction false} EmitRowSpec(row: map<int, Detail>, l: seq<int>, n: nat)
    requires n <= |l|
    ensures EmitRow(row, l, n).Ok? <==> forall j :: 1 <= j < n ==> l[j] in row
    ensures EmitRow(row, l, n).Ok? ==>
      var es := EmitRow(row, l, n).value;
      |es| == (if n == 0 then 0 else n - 1) && ChainedRow(row, l, es)
    decreases n
  {
    if n > 1 {
      EmitRowSpec(row, l, n - 1);
      if EmitRow(row, l, n).Ok? {
        var es := EmitRow(row, l, n).value;
        var es0 := EmitRow(row, l, n - 1).value;
        forall j | 0 <= j < |es| && j + 1 < |l|
          ensures ChainedAt(row, l, es, j)
        {
          if j < |es0| {
            assert ChainedAt(row, l, es0, j);
          }
        }
      }
    }
  }

  /** Entry j of a row's emission is the row's entry for id l[j + 1]
      chained to l[j]. */
  predicate ChainedAt(row: map<int, Detail>, l: seq<int>, es: seq<Entry>, j: int)
    requires 0 <= j < |es| && j + 1 < |l|
  {
    l[j + 1] in row && es[j] == Detailed(Chained(row[l[j + 1]], l[j]))
  }

  predicate ChainedRow(row: map<int, Detail>, l: seq<int>, es: seq<Entry>)
  {
    forall j :: 0 <= j < |es| && j + 1 < |l| ==> ChainedAt(row, l, es, j)
  }

  /** A detailed entry whose node id is in l and whose one input is the
      id that precedes it in l. */
  predicate ChainedToPrevious(e: Entry, l: seq<int>)
  {
    e.Detailed? && IsNumeric(e.d.nodeName) && e.d.inputs.NodeIds? && |e.d.inputs.ids| == 1 &&
    var k := DigitsValue(e.d.nodeName) as int;
    var prev := e.d.inputs.ids[0];
    k in l && prev in l && prev < k && (forall y :: y in l ==> y <= prev || k <= y)
  }

  lemma EmitRowChained(row: map<int, Detail>, s: StepId, names: seq<int>, l: seq<int>)
    requires RowFiled(row, s, names) && Increasing(l) && EmitRow(row, l, |l|).Ok?
    ensures forall e :: e in EmitRow(row, l, |l|).value ==> ChainedToPrevious(e, l) && e.d.stepId == s
  {
    EmitRowSpec(row, l, |l|);
    var es := EmitRow(row, l, |l|).value;
    forall e | e in es
      ensures ChainedToPrevious(e, l) && e.d.stepId == s
    {
      var j :| 0 <= j < |es| && es[j] == e;
      assert ChainedAt(row, l, es, j);
      assert Stored(row[l[j + 1]], s, l[j + 1]);
      IncreasingGap(l, j);
    }
  }

  /** No element of an increasing list lies strictly between two
      neighbours. */
  lemma IncreasingGap(l: seq<int>, j: int)
    requires Increasing(l) && 0 <= j && j + 1 < |l|
    ensures forall y :: y in l ==> y <= l[j] || l[j + 1] <= y
  {
    forall y | y in l
      ensures y <= l[j] || l[j + 1] <= y
    {
      var i :| 0 <= i < |l| && l[i] == y;
      if i < j || i > j + 1 { }
    }
  }

  /** The row holds every id of l after the first. */
  predicate RowHolds(row: map<int, Detail>, l: seq<int>)
  {
    forall j :: 1 <= j < |l| ==> l[j] in row
  }

  /** Each of the first m steps holds every id of l after the first. */
  predicate StepsHold(table: Table, steps: seq<StepId>, l: seq<int>, m: nat)
    requires m <= |steps| && forall s :: s in steps ==> s in table
  {
    forall i :: 0 <= i < m ==> RowHolds(table[steps[i]], l)
  }

  /** The emission over the first m steps succeeds exactly when each of
      those steps holds every id of l after the first. */
  lemma {:induction false} EmitAllOk(table: Table, steps: seq<StepId>, l: seq<int>, m: nat)
    requires m <= |steps| && forall s :: s in steps ==> s in table
    ensures EmitAll(table, steps, l, m).Ok? <==> StepsHold(table, steps, l, m)
    decreases m
  {
    if m > 0 {
      EmitAllOk(table, steps, l, m - 1);
      EmitRowSpec(table[steps[m - 1]], l, |l|);
      if StepsHold(table, steps, l, m) {
        assert RowHolds(table[steps[m - 1]], l);
      }
    }
  }

  /** A successful emission over m steps holds |l| - 1 entries per step,
      each chained to the id before its own. */
  lemma {:induction false} EmitAllChained(table: Table, steps: seq<StepId>, l: seq<int>, m: nat, names: seq<int>)
    requires m <= |steps| && (forall s :: s in steps ==> s in table) && Filed(table, names) && Increasing(l)
    requires EmitAll(table, steps, l, m).Ok?
    ensures var es := EmitAll(table, steps, l, m).value;
      |es| == m * (if |l| == 0 then 0 else |l| - 1) &&
      forall e :: e in es ==> ChainedToPrevious(e, l) && e.d.stepId in steps[..m]
    decreases m
  {
    EmitAllCount(table, steps, l, m);
    if m > 0 {
      EmitAllChained(table, steps, l, m - 1, names);
      var row := table[steps[m - 1]];
      assert RowFiled(row, steps[m - 1], names);
      EmitRowChained(row, steps[m - 1], names, l);
      assert steps[..m - 1] == steps[..m][..m - 1];
    }
  }

  /** A successful emission over m steps holds |l| - 1 entries per step. */
  lemma {:induction false} EmitAllCount(table: Table, steps: seq<StepId>, l: seq<int>, m: nat)
    requires m <= |steps| && (forall s :: s in steps ==> s in table)
    requires EmitAll(table, steps, l, m).Ok?
    ensures |EmitAll(table, steps, l, m).value| == m * (if |l| == 0 then 0 else |l| - 1)
    decreases m
  {
    if m > 0 {
      EmitAllCount(table, steps, l, m - 1);
      EmitRowSpec(table[steps[m - 1]], l, |l|);
      var c := if |l| == 0 then 0 else |l| - 1;
      assert (m - 1) * c + c == m * c;
    }
  }

  /** The PT timeline is the pool entries followed by, for every step, one
      entry per id of the sorted numeric op names after the first, chained
      to the previous id; it fails exactly when some step lacks one of
      those ids. */
  lemma TimelinePtSpec(p: PerfmonParser.Parser, eval: PerfmonParser.EquInput -> real, spans: seq<JSpan>)
    requires p.WellFormed() && RunPt(p, eval, PtInit, spans).Ok?
    ensures var st := RunPt(p, eval, PtInit, spans).value;
      var l := SortedSet(st.opNames);
      PtInv(st) &&
      (TimelinePt(p, eval, spans).Ok? <==> StepsHold(st.table, st.steps, l, |st.steps|)) &&
      (TimelinePt(p, eval, spans).Ok? ==>
         var out := TimelinePt(p, eval, spans).value;
         |out| == |st.out| + |st.steps| * (if |l| == 0 then 0 else |l| - 1) &&
         out[..|st.out|] == st.out &&
         forall i :: |st.out| <= i < |out| ==> ChainedToPrevious(out[i], l))
  {
    var st := RunPt(p, eval, PtInit, spans).value;
    RunPtInv(p, eval, PtInit, spans);
    var l := SortedSet(st.opNames);
    EmitAllOk(st.table, st.steps, l, |st.steps|);
    if TimelinePt(p, eval, spans).Ok? {
      EmitAllChained(st.table, st.steps, l, |st.steps|, st.opNames);
      var es := EmitAll(st.table, st.steps, l, |st.steps|).value;
      var out := TimelinePt(p, eval, spans).value;
      assert out == st.out + es;
      forall i | |st.out| <= i < |out|
        ensures ChainedToPrevious(out[i], l)
      {
        assert out[i] == es[i - |st.out|];
      }
    }
  }

  /** The entries of a timeline other than the detailed ones. */
  function Pools(out: seq<Entry>): seq<Entry>
  {
    if out == [] then []
    else Pools(out[..|out| - 1]) + (if out[|out| - 1].Detailed? then [] else [out[|out| - 1]])
  }

  lemma PtStepAgrees(p: PerfmonParser.Parser, eval: PerfmonParser.EquInput -> real, st1: TfState, st2: PtState,
                     span: JSpan)
    requires p.WellFormed() && st1.locals == st2.locals && Pools(st1.out) == st2.out
    ensures TfStep(p, eval, st1, span).Ok? <==> PtStep(p, eval, st2, span).Ok?
    ensures TfStep(p, eval, st1, span).Err? ==> PtStep(p, eval, st2, span).msg == TfStep(p, eval, st1, span).msg
    ensures TfStep(p, eval, st1, span).Ok? ==>
      var r1 := TfStep(p, eval, st1, span).value;
      var r2 := PtStep(p, eval, st2, span).value;
      r1.locals == r2.locals && Pools(r1.out) == r2.out
  {
    match ParseName(span.operationName)
    case None =>
    case Some(op) =>
      match DecodeSpan(st1.locals, span)
      case Err(_) =>
      case Ok((l, cfg)) =>
        if !(op.opName == "default" || op.opType == "default") {
          match NodeEntry(p, eval, l, cfg, op, span)
          case Err(_) =>
          case Ok(entry) =>
            PoolsNode(st1.out, entry, Detailed(NodeDetail(l, op, span)));
        }
  }

  /** Pools of a timeline with one more entry, with or without a detailed
      entry after it. */
  lemma PoolsNode(out: seq<Entry>, e: Entry, d: Entry)
    requires d.Detailed?
    ensures Pools(out + [e]) == Pools(out) + (if e.Detailed? then [] else [e])
    ensures Pools(out + [e, d]) == Pools(out) + (if e.Detailed? then [] else [e])
  {
    PoolsSnoc(out, e);
    PoolsSnoc(out + [e], d);
    assert out + [e, d] == (out + [e]) + [d];
  }

  /** Pools of a timeline with one more entry. */
  lemma PoolsSnoc(out: seq<Entry>, e: Entry)
    ensures Pools(out + [e]) == Pools(out) + (if e.Detailed? then [] else [e])
  {
    assert (out + [e])[..|out|] == out;
  }

  /** The TF and PT decoders agree span by span: one fails exactly when
      the other does, with the same error, and otherwise the PT pool
      entries are the TF timeline without its detailed entries. */
  lemma {:induction false} RunAgrees(p: PerfmonParser.Parser, eval: PerfmonParser.EquInput -> real, st1: TfState,
                                     st2: PtState, spans: seq<JSpan>)
    requires p.WellFormed() && st1.locals == st2.locals && Pools(st1.out) == st2.out
    ensures RunTf(p, eval, st1, spans).Ok? <==> RunPt(p, eval, st2, spans).Ok?
    ensures RunTf(p, eval, st1, spans).Err? ==> RunPt(p, eval, st2, spans).msg == RunTf(p, eval, st1, spans).msg
    ensures RunTf(p, eval, st1, spans).Ok? ==> Pools(RunTf(p, eval, st1, spans).value.out) == RunPt(p, eval, st2, spans).value.out
    decreases |spans|
  {
    if spans != [] {
      PtStepAgrees(p, eval, st1, st2, spans[0]);
      if TfStep(p, eval, st1, spans[0]).Ok? {
        RunAgrees(p, eval, TfStep(p, eval, st1, spans[0]).value, PtStep(p, eval, st2, spans[0]).value, spans[1..]);
      }
    }
  }

  lemma {:induction false} PoolsKeeps(out: seq<Entry>)
    requires forall i :: 0 <= i < |out| ==> !out[i].Detailed?
    ensures Pools(out) == out
  {
    if out != [] {
      PoolsKeeps(out[..|out| - 1]);
    }
  }

  /** Over the same spans the PT decoder fails before its emission exactly
      when the TF decoder fails, and its pool entries are those of the TF
      timeline. */
  lemma TimelinesAgree(p: PerfmonParser.Parser, eval: PerfmonParser.EquInput -> real, spans: seq<JSpan>)
    requires p.WellFormed()
    ensures TimelineTf(p, eval, spans).Ok? <==> RunPt(p, eval, PtInit, spans).Ok?
    ensures TimelineTf(p, eval, spans).Ok? ==> Pools(TimelineTf(p, eval, spans).value) == RunPt(p, eval, PtInit, spans).value.out
  {
    PoolsKeeps(Header);
    RunAgrees(p, eval, TfState(Unbound, Header), PtInit, spans);
  }

  // ---------------------------------------------------------------------
  // The exporter's attributes read back

  lemma U32OfI32(x: int)
    ensures U32(I32(x)) == U32(x)
  {
    var r := I32(x);
    var k := (r - x) / TWO_32;
    assert r == x + k * TWO_32;
    assert (x + k * TWO_32) % TWO_32 == x % TWO_32;
  }

  lemma NatNoChar(n: nat, c: char)
    requires !IsDigit(c)
    ensures c !in NatToString(n)
  {
    NatToStringDigits(n);
  }

  lemma JoinThree(parts: seq<string>, sep: string)
    requires |parts| == 3
    ensures JoinOn(parts, sep) == parts[0] + sep + parts[1] + sep + parts[2]
  {
    assert parts[1..][1..] == [parts[2]];
    assert JoinOn(parts[1..], sep) == parts[1] + sep + parts[2];
    assert parts[0] + sep + (parts[1] + sep + parts[2]) == parts[0] + sep + parts[1] + sep + parts[2];
  }

  lemma ParentFromParts(pi: ParamsInfo, parts: seq<string>)
    requires parts == [DecI64(pi.parentTid), DecI32(pi.parentPthreadId), DecU64(pi.taskSchedTime)]
    requires SplitOn(OtlExporter.ParentAttr(pi), "-*-") == parts
    ensures ParentInfo(OtlExporter.StrValue(OtlExporter.ParentAttr(pi))) ==
      Ok((DecI64(pi.parentTid), U32(pi.parentPthreadId), DecU64(pi.taskSchedTime)))
  {
    PostProcessing.DecRoundTrip(pi.parentPthreadId);
    U32OfI32(pi.parentPthreadId);
  }

  /** The parent field reads back as the parent tid text, the masked
      parent pthread id and the sched time text. */
  lemma ParentAttrDecodes(pi: ParamsInfo)
    ensures ParentInfo(OtlExporter.StrValue(OtlExporter.ParentAttr(pi))) ==
      Ok((DecI64(pi.parentTid), U32(pi.parentPthreadId), DecU64(pi.taskSchedTime)))
  {
    var parts := [DecI64(pi.parentTid), DecI32(pi.parentPthreadId), DecU64(pi.taskSchedTime)];
    DecFree(pi.parentTid, '*');
    DecFree(pi.parentPthreadId, '*');
    DecFree(pi.taskSchedTime, '*');
    JoinThree(parts, "-*-");
    SplitOnJoinOn(parts, "-*-");
    ParentFromParts(pi, parts);
  }

  /** A read field reads back as the decimal core, prefix and num_event. */
  lemma ReadAttrDecodes(rd: PerfmonCollector.ReadResult)
    requires 0 <= rd.numEvent <= Env.GP_COUNTER
    ensures ReadTriple(OtlExporter.StrValue(OtlExporter.ReadAttr(rd))) ==
      Ok([DecU32(rd.coreId), DecU32(rd.prefix), DecI32(rd.numEvent)])
  {
    var parts := [DecU32(rd.coreId), DecU32(rd.prefix), DecI32(rd.numEvent)];
    NatNoChar(U32(rd.coreId), '-');
    NatNoChar(U32(rd.prefix), '-');
    NatNoChar(rd.numEvent, '-');
    JoinThree(parts, "-");
    SplitJoin(parts, '-');
  }

  /** A non-empty run of counter values reads back as the stored values. */
  lemma EventsDecode(vals: seq<int>)
    requires |vals| > 0
    ensures EventList(OtlExporter.StrValue(OtlExporter.EventsAttr(vals))) == Ok(PostProcessing.U64s(vals))
  {
    var parts := DecU64s(vals);
    forall i | 0 <= i < |parts|
      ensures '-' !in parts[i] && PyInt(parts[i]) == Some(U64(vals[i]))
    {
      NatNoChar(U64(vals[i]), '-');
      PostProcessing.DecRoundTrip(vals[i]);
    }
    SplitJoin(parts, '-');
    PostProcessing.ParseIntsSome(parts, PostProcessing.U64s(vals));
  }

  /** The constants read back as the stored values of the first
      cnsts_length slots, and as none when cnsts_length is not positive. */
  lemma CnstsDecode(load: Exporter.Load)
    requires load.cnstsLength <= |load.cnsts|
    ensures var n := if load.cnstsLength < 0 then 0 else load.cnstsLength;
      ConstantList(OtlExporter.StrValue(OtlExporter.CnstsAttr(load))) == Ok(PostProcessing.U64s(load.cnsts[..n]))
  {
    var n := if load.cnstsLength < 0 then 0 else load.cnstsLength;
    var vals := load.cnsts[..n];
    var parts := DecU64s(vals);
    if n == 0 {
      assert SplitOn([], "-*-") == [[]];
      assert NonEmpty([[]]) == [];
      assert PostProcessing.U64s(vals) == [];
      PostProcessing.ParseIntsSome([], []);
    } else {
      forall i | 0 <= i < |parts|
        ensures '*' !in parts[i] && parts[i] != [] && PyInt(parts[i]) == Some(U64(vals[i]))
      {
        DecFree(vals[i], '*');
        NatToStringDigits(U64(vals[i]));
        PostProcessing.DecRoundTrip(vals[i]);
      }
      SplitOnJoinOn(parts, "-*-");
      assert NonEmpty(parts) == parts;
      PostProcessing.ParseIntsSome(parts, PostProcessing.U64s(vals));
    }
  }

  lemma DecodeAllAt(l: Locals, fs: seq<(string, AttrValue)>, i: nat, l2: Locals)
    requires i < |fs| && DecodeField(l, fs[i]) == Ok(l2)
    ensures DecodeAll(l, fs[i..]) == DecodeAll(l2, fs[i + 1..])
  {
    assert fs[i..][0] == fs[i] && fs[i..][1..] == fs[i + 1..];
  }

  /** The first six attributes of an exported record, decoded. */
  function HeadDecoded(l: Locals, p: SingleProfile): Locals
  {
    l.(tid := Some(OtlExporter.IntValue(I64(p.tid))),
       pthreadId := Some(U32(p.pthreadId)),
       intPrefix := Some(OtlExporter.IntValue(I64(p.intPrefix))),
       parentTid := Some(DecI64(p.parentInfo.parentTid)),
       parentPthreadId := Some(U32(p.parentInfo.parentPthreadId)),
       schedTime := Some(DecU64(p.parentInfo.taskSchedTime)),
       eTriple := Some([DecU32(p.rdEnd.coreId), DecU32(p.rdEnd.prefix), DecI32(p.rdEnd.numEvent)]))
  }

  /** The decoder's step for each of the first six keys. */
  lemma {:induction false} HeadFields(l: Locals, p: SingleProfile)
    requires p.WellFormed()
    ensures DecodeField(l, ("tid", OtlExporter.IntValue(I64(p.tid)))) == Ok(l.(tid := Some(OtlExporter.IntValue(I64(p.tid)))))
    ensures DecodeField(l, ("pthreadid", OtlExporter.IntValue(I32(p.pthreadId)))) == Ok(l.(pthreadId := Some(U32(p.pthreadId))))
    ensures DecodeField(l, ("int_prefix", OtlExporter.IntValue(I64(p.intPrefix)))) ==
      Ok(l.(intPrefix := Some(OtlExporter.IntValue(I64(p.intPrefix)))))
    ensures DecodeField(l, ("b_coreid_prefix_num_event", OtlExporter.StrValue(OtlExporter.ReadAttr(p.rdStart)))) == Ok(l)
  {
    U32OfI32(p.pthreadId);
  }

  lemma {:induction false} ParentAndEndFields(l: Locals, p: SingleProfile)
    requires p.WellFormed()
    ensures DecodeField(l, ("parent_tid_pthreadid_sched_time", OtlExporter.StrValue(OtlExporter.ParentAttr(p.parentInfo)))) ==
      Ok(l.(parentTid := Some(DecI64(p.parentInfo.parentTid)),
            parentPthreadId := Some(U32(p.parentInfo.parentPthreadId)),
            schedTime := Some(DecU64(p.parentInfo.taskSchedTime))))
    ensures DecodeField(l, ("e_coreid_prefix_num_event", OtlExporter.StrValue(OtlExporter.ReadAttr(p.rdEnd)))) ==
      Ok(l.(eTriple := Some([DecU32(p.rdEnd.coreId), DecU32(p.rdEnd.prefix), DecI32(p.rdEnd.numEvent)])))
  {
    ParentAttrDecodes(p.parentInfo);
    ReadAttrDecodes(p.rdEnd);
  }

  lemma {:induction false} HeadDecodes(l: Locals, p: SingleProfile, load: Exporter.Load)
    requires p.WellFormed() && load.cnstsLength <= |load.cnsts|
    ensures var fs := OtlExporter.Attributes(p, load);
      DecodeAll(l, fs) == DecodeAll(HeadDecoded(l, p), fs[6..])
  {
    var fs := OtlExporter.Attributes(p, load);
    var l1 := l.(tid := Some(OtlExporter.IntValue(I64(p.tid))));
    var l2 := l1.(pthreadId := Some(U32(p.pthreadId)));
    var l3 := l2.(intPrefix := Some(OtlExporter.IntValue(I64(p.intPrefix))));
    var l4 := l3.(parentTid := Some(DecI64(p.parentInfo.parentTid)),
                  parentPthreadId := Some(U32(p.parentInfo.parentPthreadId)),
                  schedTime := Some(DecU64(p.parentInfo.taskSchedTime)));
    HeadFields(l, p);
    HeadFields(l1, p);
    HeadFields(l2, p);
    ParentAndEndFields(l3, p);
    HeadFields(l4, p);
    ParentAndEndFields(l4, p);
    DecodeAllAt(l, fs, 0, l1);
    DecodeAllAt(l1, fs, 1, l2);
    DecodeAllAt(l2, fs, 2, l3);
    DecodeAllAt(l3, fs, 3, l4);
    // the record's start read travels under a key the decoder does not know
    DecodeAllAt(l4, fs, 4, l4);
    DecodeAllAt(l4, fs, 5, HeadDecoded(l, p));
    assert fs[0..] == fs;
  }

  /** The decoder's step for the two counter runs. */
  lemma {:induction false} EventFields(l: Locals, p: SingleProfile, load: Exporter.Load)
    requires p.WellFormed() && load.cnstsLength <= |load.cnsts|
    requires p.rdStart.numEvent > 0 && p.rdEnd.numEvent > 0
    ensures DecodeField(l, ("b_events", OtlExporter.StrValue(OtlExporter.EventsAttr(p.retStart[..p.rdStart.numEvent])))) ==
      Ok(l.(bEvents := Some(PostProcessing.U64s(p.retStart[..p.rdStart.numEvent]))))
    ensures DecodeField(l, ("e_events", OtlExporter.StrValue(OtlExporter.EventsAttr(p.retEnd[..p.rdEnd.numEvent])))) ==
      Ok(l.(eEvents := Some(PostProcessing.U64s(p.retEnd[..p.rdEnd.numEvent]))))
  {
    EventsDecode(p.retStart[..p.rdStart.numEvent]);
    EventsDecode(p.retEnd[..p.rdEnd.numEvent]);
  }

  /** The decoder's step for the last three keys. */
  lemma {:induction false} ConfigFields(l: Locals, p: SingleProfile, load: Exporter.Load)
    requires load.cnstsLength <= |load.cnsts|
    ensures DecodeField(l, ("mux_id", OtlExporter.IntValue(I32(p.multiplexIdx)))) ==
      Ok(l.(muxId := Some(OtlExporter.IntValue(I32(p.multiplexIdx)))))
    ensures DecodeField(l, ("cfg_id", OtlExporter.IntValue(I32(load.configsId)))) ==
      Ok(l.(cfgId := Some(OtlExporter.IntValue(I32(load.configsId)))))
    ensures var n := if load.cnstsLength < 0 then 0 else load.cnstsLength;
      DecodeField(l, ("cnsts", OtlExporter.StrValue(OtlExporter.CnstsAttr(load)))) ==
      Ok(l.(cnsts := Some(PostProcessing.U64s(load.cnsts[..n]))))
  {
    CnstsDecode(load);
  }

  /** Decoding the attributes the exporter attaches to a record binds
      every variable to the record's stored value: the ids as the
      exporter narrowed them, both pthread ids masked to 32 bits, the
      parent tid and sched time as their decimal text, the end read as
      its three decimal fields, both counter runs and the constants as
      their uint64 values, and cfg_id and mux_id as int32. The start
      read is sent as "b_coreid_prefix_num_event" while the decoder reads
      "s_coreid_prefix_num_event", so that variable keeps its value. */
  lemma ExportedAttributesDecode(l: Locals, p: SingleProfile, load: Exporter.Load)
    requires p.WellFormed() && load.cnstsLength <= |load.cnsts|
    requires p.rdStart.numEvent > 0 && p.rdEnd.numEvent > 0
    ensures var n := if load.cnstsLength < 0 then 0 else load.cnstsLength;
      DecodeAll(l, OtlExporter.Attributes(p, load)) == Ok(l.(
        tid := Some(OtlExporter.IntValue(I64(p.tid))),
        pthreadId := Some(U32(p.pthreadId)),
        intPrefix := Some(OtlExporter.IntValue(I64(p.intPrefix))),
        parentTid := Some(DecI64(p.parentInfo.parentTid)),
        parentPthreadId := Some(U32(p.parentInfo.parentPthreadId)),
        schedTime := Some(DecU64(p.parentInfo.taskSchedTime)),
        eTriple := Some([DecU32(p.rdEnd.coreId), DecU32(p.rdEnd.prefix), DecI32(p.rdEnd.numEvent)]),
        bEvents := Some(PostProcessing.U64s(p.retStart[..p.rdStart.numEvent])),
        eEvents := Some(PostProcessing.U64s(p.retEnd[..p.rdEnd.numEvent])),
        muxId := Some(OtlExporter.IntValue(I32(p.multiplexIdx))),
        cfgId := Some(OtlExporter.IntValue(I32(load.configsId))),
        cnsts := Some(PostProcessing.U64s(load.cnsts[..n]))))
  {
    var fs := OtlExporter.Attributes(p, load);
    HeadDecodes(l, p, load);
    var h := HeadDecoded(l, p);
    var h7 := h.(bEvents := Some(PostProcessing.U64s(p.retStart[..p.rdStart.numEvent])));
    EventFields(h, p, load);
    DecodeAllAt(h, fs, 6, h7);
    EventFields(h7, p, load);
    var h8 := h7.(eEvents := Some(PostProcessing.U64s(p.retEnd[..p.rdEnd.numEvent])));
    DecodeAllAt(h7, fs, 7, h8);
    ConfigFields(h8, p, load);
    var h9 := h8.(muxId := Some(OtlExporter.IntValue(I32(p.multiplexIdx))));
    DecodeAllAt(h8, fs, 8, h9);
    ConfigFields(h9, p, load);
    var h10 := h9.(cfgId := Some(OtlExporter.IntValue(I32(load.configsId))));
    DecodeAllAt(h9, fs, 9, h10);
    ConfigFields(h10, p, load);
    var n := if load.cnstsLength < 0 then 0 else load.cnstsLength;
    var h11 := h10.(cnsts := Some(PostProcessing.U64s(load.cnsts[..n])));
    DecodeAllAt(h10, fs, 10, h11);
    assert fs[11..] == [];
  }

  /** The configuration an exported record is evaluated with: its
      multiplex index when the load's configs_id reads as -1, else
      configs_id, both as int32. */
  lemma ExportedParserCfg(l: Locals, p: SingleProfile, load: Exporter.Load)
    requires p.WellFormed() && load.cnstsLength <= |load.cnsts|
    requires p.rdStart.numEvent > 0 && p.rdEnd.numEvent > 0
    ensures var r := DecodeAll(l, OtlExporter.Attributes(p, load));
      r.Ok? && ParserCfg(r.value) ==
        Ok(if I32(load.configsId) == -1 then OtlExporter.IntValue(I32(p.multiplexIdx))
           else OtlExporter.IntValue(I32(load.configsId)))
  {
    ExportedAttributesDecode(l, p, load);
  }

  lemma EmptyEventsFail(l: Locals)
    ensures DecodeField(l, ("b_events", OtlExporter.StrValue(OtlExporter.EventsAttr([])))).Err?
  {
    assert OtlExporter.EventsAttr([]) == [];
    var parts := Split([], '-');
    assert parts == [[]];
    assert PyInt(parts[0]) == None;
  }

  /** A record whose start read counted no event cannot be decoded: its
      "b_events" value is empty and int('') fails. */
  lemma ZeroEventsRejected(l: Locals, p: SingleProfile, load: Exporter.Load)
    requires p.WellFormed() && load.cnstsLength <= |load.cnsts|
    requires p.rdStart.numEvent == 0
    ensures DecodeAll(l, OtlExporter.Attributes(p, load)).Err?
  {
    var fs := OtlExporter.Attributes(p, load);
    HeadDecodes(l, p, load);
    var h := HeadDecoded(l, p);
    assert fs[6..][0] == fs[6];
    assert p.retStart[..0] == [];
    EmptyEventsFail(h);
  }
}
