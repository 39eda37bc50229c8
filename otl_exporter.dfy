/** The per-record body of export_worker in
    cpp/OtlExportProxy/opentele_exporter.cpp: every record of one payload
    becomes a span whose trace id, span id and parent span id come from the
    record and the load, and whose "PeriodInfo" event carries the record's
    fields as attributes, several of them encoded as '-' or "-*-" joined
    decimal strings.

    Oracles: GenHashId is the function `rnd`, asked with the record's index
    and a slot number (0 for the span id, 1 and 2 for the two halves of a
    new trace id). The fields the record header does not declare are taken
    with the widths their readers give them: hash_id and
    parent_ctx_hash_id as uint64, int_prefix as int64 (the key type of
    traceid_map) and multiplex_idx as int. */
module OtlExporter {
  import opened Machine
  import opened Text
  import opened PerfmonCollector
  import opened ProfileRecords
  import opened Util
  import Exporter

  /** An attribute value: the integer kinds and the string kind used. */
  datatype AttrValue = IntValue(i: int) | StrValue(s: string)

  /** The span handed to the processor. */
  datatype Span = Span(
    name: string,
    traceId: seq<int>,
    spanId: seq<int>,
    parentSpanId: seq<int>,
    startNs: int,
    durationNs: int,
    attrs: seq<(string, AttrValue)>)

  /** The GenHashId value of draw `slot` for record i: each call in the
      worker's loop body is its own draw, slot 0 for the span id, 1 and 2
      for the trace id, 3 for the parent span id. */
  function Rand(rnd: (int, int) -> int, i: int, slot: int): int
  {
    U64(rnd(i, slot))
  }

  // ---------------------------------------------------------------------
  // The attribute encodings

  /** parent_tid, parent_pthread_id and task_sched_time joined by "-*-". */
  function ParentAttr(pi: ParamsInfo): string
  {
    DecI64(pi.parentTid) + "-*-" + DecI32(pi.parentPthreadId) + "-*-" + DecU64(pi.taskSchedTime)
  }

  /** core_id, prefix and num_event of a read joined by "-". */
  function ReadAttr(rd: ReadResult): string
  {
    DecU32(rd.coreId) + "-" + DecU32(rd.prefix) + "-" + DecI32(rd.numEvent)
  }

  /** Counter values joined by "-", without a trailing separator. */
  function EventsAttr(vals: seq<int>): string
  {
    JoinOn(DecU64s(vals), "-")
  }

  /** The first cnsts_length constants joined by "-*-". */
  function CnstsAttr(load: Exporter.Load): string
    requires load.cnstsLength <= |load.cnsts|
  {
    var n := if load.cnstsLength < 0 then 0 else load.cnstsLength;
    JoinOn(DecU64s(load.cnsts[..n]), "-*-")
  }

  /** The attributes of the "PeriodInfo" event, in the order they are added. */
  function Attributes(p: SingleProfile, load: Exporter.Load): seq<(string, AttrValue)>
    requires p.WellFormed() && load.cnstsLength <= |load.cnsts|
  {
    [("tid", IntValue(I64(p.tid))),
     ("pthreadid", IntValue(I32(p.pthreadId))),
     ("int_prefix", IntValue(I64(p.intPrefix))),
     ("parent_tid_pthreadid_sched_time", StrValue(ParentAttr(p.parentInfo))),
     ("b_coreid_prefix_num_event", StrValue(ReadAttr(p.rdStart))),
     ("e_coreid_prefix_num_event", StrValue(ReadAttr(p.rdEnd))),
     ("b_events", StrValue(EventsAttr(p.retStart[..p.rdStart.numEvent]))),
     ("e_events", StrValue(EventsAttr(p.retEnd[..p.rdEnd.numEvent]))),
     ("mux_id", IntValue(I32(p.multiplexIdx))),
     ("cfg_id", IntValue(I32(load.configsId))),
     ("cnsts", StrValue(CnstsAttr(load)))]
  }

  /** The trace id a record gets from a trace hash: of the record's
      int_prefix and a random half when the hash is 0, else of the hash
      twice. */
  function NewTraceId(p: SingleProfile, i: int, traceHash: int, rnd: (int, int) -> int): seq<int>
    requires IsU64(traceHash)
  {
    if traceHash == 0 then GenerateUniqueTraceId(U64(p.intPrefix), 0, Rand(rnd, i, 1), Rand(rnd, i, 2))
    else GenerateUniqueTraceId(traceHash, traceHash, Rand(rnd, i, 1), Rand(rnd, i, 2))
  }

  /** The index of the first record with this int_prefix, or |rs|. */
  function FirstIndex(rs: seq<SingleProfile>, key: int): (n: nat)
    ensures n <= |rs|
    ensures n < |rs| ==> rs[n].intPrefix == key
    ensures forall j :: 0 <= j < n ==> rs[j].intPrefix != key
  {
    if rs == [] then 0
    else if rs[0].intPrefix == key then 0
    else 1 + FirstIndex(rs[1..], key)
  }

  /** The trace id record i receives. */
  function TraceIdAt(rs: seq<SingleProfile>, i: nat, traceHash: int, rnd: (int, int) -> int): seq<int>
    requires i < |rs| && IsU64(traceHash)
  {
    if traceHash == 0 then
      var j := FirstIndex(rs, rs[i].intPrefix);
      NewTraceId(rs[j], j, 0, rnd)
    else NewTraceId(rs[i], i, traceHash, rnd)
  }

  /** The span of record i. */
  function SpanAt(rs: seq<SingleProfile>, i: nat, load: Exporter.Load, rnd: (int, int) -> int): Span
    requires i < |rs| && RecordOk(rs[i]) && IsU64(load.traceHash) && load.cnstsLength <= |load.cnsts|
  {
    var p := rs[i];
    Span(p.prefix, TraceIdAt(rs, i, load.traceHash, rnd),
         GenerateUniqueSpanId(p.hashId, Rand(rnd, i, 0)),
         GenerateUniqueSpanId(p.parentInfo.parentCtxHashId, Rand(rnd, i, 3)),
         U64(p.startTs), I64(U64(p.endTs) - U64(p.startTs)), Attributes(p, load))
  }

  /** What the worker needs of a payload: well-formed records whose ids
      are uint64 values and whose prefix has the four ':' segments the
      worker indexes, and at most as many constants as slots. */
  predicate PayloadOk(rs: seq<SingleProfile>, load: Exporter.Load)
  {
    IsU64(load.traceHash) && load.cnstsLength <= |load.cnsts| &&
    forall i :: 0 <= i < |rs| ==> RecordOk(rs[i])
  }

  predicate RecordOk(p: SingleProfile)
  {
    p.WellFormed() && IsU64(p.hashId) && IsU64(p.parentInfo.parentCtxHashId) &&
    |Split(p.prefix, ':')| >= 4
  }

  // ---------------------------------------------------------------------
  // The worker loop

  /** The spans of the first `n` records. */
  function Spans(rs: seq<SingleProfile>, n: nat, load: Exporter.Load, rnd: (int, int) -> int): (r: seq<Span>)
    requires PayloadOk(rs, load) && n <= |rs|
    ensures |r| == n && forall j :: 0 <= j < n ==> r[j] == SpanAt(rs, j, load, rnd)
  {
    seq(n, j requires 0 <= j < n => SpanAt(rs, j, load, rnd))
  }

  /** The trace id map after the records before `i`: it holds exactly the
      int_prefix values met so far, each with the id its first record got. */
  ghost predicate MemoOk(rs: seq<SingleProfile>, i: nat, traceIds: map<int, seq<int>>, rnd: (int, int) -> int)
  {
    i <= |rs| &&
    (forall key :: key in traceIds <==> FirstIndex(rs, key) < i) &&
    (forall key :: key in traceIds && FirstIndex(rs, key) < |rs| ==>
       traceIds[key] == NewTraceId(rs[FirstIndex(rs, key)], FirstIndex(rs, key), 0, rnd))
  }

  /** The loop over the records of one payload, with the per-payload
      trace id map. */
  method ExportPayload(rs: seq<SingleProfile>, load: Exporter.Load, rnd: (int, int) -> int)
    returns (spans: seq<Span>)
    requires PayloadOk(rs, load)
    ensures spans == Spans(rs, |rs|, load, rnd)
  {
    var traceIds: map<int, seq<int>> := map[];
    spans := [];
    var i := 0;
    while i < |rs|
      invariant 0 <= i <= |rs| && spans == Spans(rs, i, load, rnd)
      invariant load.traceHash == 0 ==> MemoOk(rs, i, traceIds, rnd)
    {
      var traceId;
      traceId, traceIds := TraceIdStep(rs, i, load.traceHash, rnd, traceIds);
      var span := BuildSpan(rs, i, load, rnd, traceId);
      assert Spans(rs, i + 1, load, rnd) == Spans(rs, i, load, rnd) + [span];
      spans := spans + [span];
      i := i + 1;
    }
  }

  /** The trace id of record `i`, looked up in or added to the map. */
  method TraceIdStep(rs: seq<SingleProfile>, i: nat, traceHash: int, rnd: (int, int) -> int,
                     traceIds: map<int, seq<int>>)
    returns (traceId: seq<int>, traceIds': map<int, seq<int>>)
    requires i < |rs| && IsU64(traceHash)
    requires traceHash == 0 ==> MemoOk(rs, i, traceIds, rnd)
    ensures traceId == TraceIdAt(rs, i, traceHash, rnd)
    ensures traceHash == 0 ==> MemoOk(rs, i + 1, traceIds', rnd)
  {
    var p := rs[i];
    traceIds' := traceIds;
    if traceHash == 0 {
      if p.intPrefix in traceIds {
        traceId := traceIds[p.intPrefix];
      } else {
        assert FirstIndex(rs, p.intPrefix) == i;
        traceId := GenerateUniqueTraceId(U64(p.intPrefix), 0, Rand(rnd, i, 1), Rand(rnd, i, 2));
        traceIds' := traceIds[p.intPrefix := traceId];
      }
      forall key ensures key in traceIds' <==> FirstIndex(rs, key) < i + 1 {
        if FirstIndex(rs, key) == i {
          assert key == p.intPrefix;
        }
      }
    } else {
      traceId := GenerateUniqueTraceId(traceHash, traceHash, Rand(rnd, i, 1), Rand(rnd, i, 2));
    }
  }

  /** The span of record `i` around its trace id. */
  method BuildSpan(rs: seq<SingleProfile>, i: nat, load: Exporter.Load, rnd: (int, int) -> int,
                   traceId: seq<int>) returns (span: Span)
    requires PayloadOk(rs, load) && i < |rs| && traceId == TraceIdAt(rs, i, load.traceHash, rnd)
    ensures span == SpanAt(rs, i, load, rnd)
  {
    var p := rs[i];
    var attrs := BuildAttributes(p, load);
    span := Span(p.prefix, traceId, GenerateUniqueSpanId(p.hashId, Rand(rnd, i, 0)),
                 GenerateUniqueSpanId(p.parentInfo.parentCtxHashId, Rand(rnd, i, 3)),
                 U64(p.startTs), I64(U64(p.endTs) - U64(p.startTs)), attrs);
  }

  /** The attribute vector of one record, its strings built by append
      loops. */
  method BuildAttributes(p: SingleProfile, load: Exporter.Load) returns (attrs: seq<(string, AttrValue)>)
    requires p.WellFormed() && load.cnstsLength <= |load.cnsts|
    ensures attrs == Attributes(p, load)
  {
    var beginEvents := JoinLoop(p.retStart[..p.rdStart.numEvent]);
    var endEvents := JoinLoop(p.retEnd[..p.rdEnd.numEvent]);
    var cnsts := CnstsLoop(load);
    attrs := [("tid", IntValue(I64(p.tid))),
              ("pthreadid", IntValue(I32(p.pthreadId))),
              ("int_prefix", IntValue(I64(p.intPrefix))),
              ("parent_tid_pthreadid_sched_time", StrValue(ParentAttr(p.parentInfo))),
              ("b_coreid_prefix_num_event", StrValue(ReadAttr(p.rdStart))),
              ("e_coreid_prefix_num_event", StrValue(ReadAttr(p.rdEnd))),
              ("b_events", StrValue(beginEvents)),
              ("e_events", StrValue(endEvents)),
              ("mux_id", IntValue(I32(p.multiplexIdx))),
              ("cfg_id", IntValue(I32(load.configsId))),
              ("cnsts", StrValue(cnsts))];
  }

  /** The b_events / e_events loop: each value, then "-" unless it is the
      last. */
  method JoinLoop(vals: seq<int>) returns (s: string)
    ensures s == EventsAttr(vals)
  {
    s := "";
    var j := 0;
    while j < |vals|
      invariant 0 <= j <= |vals|
      invariant j == 0 ==> s == ""
      invariant 0 < j < |vals| ==> s == JoinOn(DecU64s(vals[..j]), "-") + "-"
      invariant j == |vals| > 0 ==> s == JoinOn(DecU64s(vals), "-")
    {
      var d := DecU64(vals[j]);
      if j > 0 {
        assert DecU64s(vals[..j + 1]) == DecU64s(vals[..j]) + [d];
        JoinOnSnoc(DecU64s(vals[..j]), d, "-");
      } else {
        assert DecU64s(vals[..1]) == [d];
      }
      s := s + d;
      if j < |vals| - 1 {
        s := s + "-";
      } else {
        assert vals[..j + 1] == vals;
      }
      j := j + 1;
    }
  }

  /** The cnsts loop: each of the first cnsts_length constants, then "-*-"
      unless it is the last. */
  method CnstsLoop(load: Exporter.Load) returns (s: string)
    requires load.cnstsLength <= |load.cnsts|
    ensures s == CnstsAttr(load)
  {
    var n := if load.cnstsLength < 0 then 0 else load.cnstsLength;
    var vals := load.cnsts[..n];
    s := "";
    var j := 0;
    while j < n
      invariant 0 <= j <= n
      invariant j == 0 ==> s == ""
      invariant 0 < j < n ==> s == JoinOn(DecU64s(vals[..j]), "-*-") + "-*-"
      invariant j == n > 0 ==> s == JoinOn(DecU64s(vals), "-*-")
    {
      var d := DecU64(vals[j]);
      if j > 0 {
        assert DecU64s(vals[..j + 1]) == DecU64s(vals[..j]) + [d];
        JoinOnSnoc(DecU64s(vals[..j]), d, "-*-");
      } else {
        assert DecU64s(vals[..1]) == [d];
      }
      s := s + d;
      if j != n - 1 {
        s := s + "-*-";
      } else {
        assert vals[..j + 1] == vals;
      }
      j := j + 1;
    }
  }

  // ---------------------------------------------------------------------
  // Properties of the ids

  /** With a zero trace hash, records of one payload that share an
      int_prefix share one trace id. */
  lemma SharedPrefixSharedTrace(rs: seq<SingleProfile>, i: nat, k: nat, rnd: (int, int) -> int)
    requires i < |rs| && k < |rs| && rs[i].intPrefix == rs[k].intPrefix
    ensures TraceIdAt(rs, i, 0, rnd) == TraceIdAt(rs, k, 0, rnd)
  {
  }

  /** With a zero trace hash, the trace id of a record whose int_prefix is
      not zero starts with the bytes of that int_prefix. */
  lemma TraceIdOfPrefix(rs: seq<SingleProfile>, i: nat, rnd: (int, int) -> int)
    requires i < |rs| && U64(rs[i].intPrefix) != 0
    ensures FromLe(TraceIdAt(rs, i, 0, rnd)[..8]) == U64(rs[i].intPrefix)
  {
    var j := FirstIndex(rs, rs[i].intPrefix);
    assert rs[j].intPrefix == rs[i].intPrefix;
  }

  /** With a non-zero trace hash, every record's trace id is the hash's
      bytes twice, whatever its position or int_prefix. */
  lemma TraceIdOfHash(rs: seq<SingleProfile>, i: nat, k: nat, traceHash: int, rnd: (int, int) -> int)
    requires i < |rs| && k < |rs| && IsU64(traceHash) && traceHash != 0
    ensures TraceIdAt(rs, i, traceHash, rnd) == TraceIdAt(rs, k, traceHash, rnd)
    ensures FromLe(TraceIdAt(rs, i, traceHash, rnd)[..8]) == traceHash
    ensures FromLe(TraceIdAt(rs, i, traceHash, rnd)[8..]) == traceHash
  {
  }

  /** The span id carries hash_id when it is not zero, the parent span id
      carries parent_ctx_hash_id when it is not zero, a zero hash is
      replaced by a GenHashId draw of its own for each of the two, and the
      duration is the difference of the stamps when they are ordered and
      fit int64. */
  lemma SpanIds(rs: seq<SingleProfile>, i: nat, load: Exporter.Load, rnd: (int, int) -> int)
    requires PayloadOk(rs, load) && i < |rs|
    ensures rs[i].hashId != 0 ==> FromLe(SpanAt(rs, i, load, rnd).spanId) == rs[i].hashId
    ensures rs[i].parentInfo.parentCtxHashId != 0 ==>
            FromLe(SpanAt(rs, i, load, rnd).parentSpanId) == rs[i].parentInfo.parentCtxHashId
    ensures rs[i].hashId == 0 ==> FromLe(SpanAt(rs, i, load, rnd).spanId) == Rand(rnd, i, 0)
    ensures rs[i].parentInfo.parentCtxHashId == 0 ==>
            FromLe(SpanAt(rs, i, load, rnd).parentSpanId) == Rand(rnd, i, 3)
    ensures IsU64(rs[i].startTs) && IsU64(rs[i].endTs) && rs[i].startTs <= rs[i].endTs &&
            IsI64(rs[i].endTs - rs[i].startTs) ==>
            SpanAt(rs, i, load, rnd).durationNs == rs[i].endTs - rs[i].startTs
  {
  }
}
