/** The hotspot lists of auto_analysis/auto_analysis.py (AutoAnalysisQPS
    and AutoAnalysisLatency): the samples of every node name over the
    chosen steps, one summary per name with its summed area and last op,
    and the names ordered by non-increasing summed area. QPS weighs a
    sample by the node's area inside its own window, Latency by its
    duration. */
module AutoAnalysisHotspot {
  import opened Wrappers
  import AutoAnalysis

  type ProfileNode = AutoAnalysis.ProfileNode
  type Data = AutoAnalysis.Data

  const KeyError: string := "KeyError"

  /** One entry of ret_data: the node's op and its area (the third field,
      op_util_ratio_with_intra, is always 0 and is left out). */
  datatype Sample = Sample(op: string, area: real)

  /** ret_data: the names in the order they were first added, and the
      samples of each. */
  datatype Info = Info(keys: seq<string>, vals: map<string, seq<Sample>>)

  /** The samples of a name, none when it has no entry. */
  function Get(info: Info, n: string): seq<Sample>
  {
    if n in info.vals then info.vals[n] else []
  }

  /** Names are distinct and exactly the entries, and no entry is empty. */
  ghost predicate WellFormed(info: Info)
  {
    AutoAnalysis.Distinct(info.keys) &&
    (forall k :: k in info.vals <==> k in info.keys) &&
    (forall k :: k in info.vals ==> info.vals[k] != [])
  }

  /** ret_data[name].append(sample), creating the list on first use. */
  function AddSample(info: Info, n: string, smp: Sample): (r: Info)
    ensures Get(r, n) == Get(info, n) + [smp]
    ensures forall m :: m != n ==> Get(r, m) == Get(info, m)
    ensures WellFormed(info) ==> WellFormed(r)
  {
    if n in info.vals then Info(info.keys, info.vals[n := info.vals[n] + [smp]])
    else Info(info.keys + [n], info.vals[n := [smp]])
  }

  /** How a node is weighed: QPS by its area inside its own window,
      Latency by its duration. */
  datatype AreaKind = Window | Duration

  function AreaOf(e: ProfileNode, kind: AreaKind): real
  {
    match kind
    case Window => AutoAnalysis.AreaBetween(e, e.startTime, e.startTime + e.dur)
    case Duration => e.dur
  }

  /** Where the names of a step come from: one list for every step, or a
      dict by step (a missing step is a KeyError). */
  datatype NameSource = Fixed(names: seq<string>) | PerStep(byStep: map<int, seq<string>>)

  function NamesAt(src: NameSource, s: int): Option<seq<string>>
  {
    match src
    case Fixed(names) => Some(names)
    case PerStep(m) => if s in m then Some(m[s]) else None
  }

  function RowOf(data: Data, s: int): seq<ProfileNode>
  {
    if s in data then data[s] else []
  }

  // ---------------------------------------------------------------------
  // GetTotalInfo

  /** A node that yields a sample for `name`. */
  predicate Counts(e: ProfileNode, name: string)
  {
    e.name == name && e.dur > 0.0
  }

  /** The innermost loop: every node of the row with that name and a
      positive duration adds a sample. */
  function ElemLoop(info: Info, name: string, row: seq<ProfileNode>, kind: AreaKind): Info
  {
    if row == [] then info
    else
      var e := row[|row| - 1];
      var before := ElemLoop(info, name, row[..|row| - 1], kind);
      if Counts(e, name) then AddSample(before, name, Sample(e.op, AreaOf(e, kind))) else before
  }

  /** The middle loop: the innermost loop once per name of the step. */
  function NameLoop(info: Info, names: seq<string>, row: seq<ProfileNode>, kind: AreaKind): Info
  {
    if names == [] then info
    else ElemLoop(NameLoop(info, names[..|names| - 1], row, kind), names[|names| - 1], row, kind)
  }

  /** The outer loop over the steps: a step without names in a dict
      source, or a step with names but no row, is a KeyError. */
  function StepLoop(info: Info, steps: seq<int>, src: NameSource, data: Data, kind: AreaKind): Result<Info>
    decreases |steps|
  {
    if steps == [] then Ok(info)
    else
      var s := steps[0];
      match NamesAt(src, s)
      case None => Err(KeyError)
      case Some(names) =>
        if names != [] && s !in data then Err(KeyError)
        else StepLoop(NameLoop(info, names, RowOf(data, s), kind), steps[1..], src, data, kind)
  }

  function TotalInfo(steps: seq<int>, src: NameSource, data: Data, kind: AreaKind): Result<Info>
  {
    StepLoop(Info([], map[]), steps, src, data, kind)
  }

  /** GetTotalInfo / get_total_info_with_list. */
  method GetTotalInfo(steps: seq<int>, src: NameSource, data: Data, kind: AreaKind) returns (r: Result<Info>)
    ensures r == TotalInfo(steps, src, data, kind)
  {
    var info := Info([], map[]);
    var i := 0;
    while i < |steps|
      invariant 0 <= i <= |steps|
      invariant StepLoop(info, steps[i..], src, data, kind) == TotalInfo(steps, src, data, kind)
    {
      assert steps[i..][0] == steps[i] && steps[i..][1..] == steps[i + 1..];
      var step := steps[i];
      var names: seq<string>;
      match src {
        case Fixed(ns) =>
          names := ns;
        case PerStep(m) =>
          if step !in m {
            return Err(KeyError);
          }
          names := m[step];
      }
      var info0 := info;
      for j := 0 to |names|
        invariant info == NameLoop(info0, names[..j], RowOf(data, step), kind)
        invariant j > 0 ==> step in data
      {
        if step !in data {
          return Err(KeyError);
        }
        assert names[..j + 1][..j] == names[..j];
        info := CollectSamples(info, names[j], data[step], kind);
      }
      assert names[..|names|] == names;
      i := i + 1;
    }
    r := Ok(info);
  }

  /** The innermost loop of GetTotalInfo: one sample per node of the row
      that has the name and a positive duration. */
  method CollectSamples(info0: Info, name: string, row: seq<ProfileNode>, kind: AreaKind) returns (info: Info)
    ensures info == ElemLoop(info0, name, row, kind)
  {
    info := info0;
    for k := 0 to |row|
      invariant info == ElemLoop(info0, name, row[..k], kind)
    {
      assert row[..k + 1][..k] == row[..k];
      var elem := row[k];
      if elem.name == name && elem.dur > 0.0 {
        var smp := Sample(elem.op, AreaOf(elem, kind));
        if name !in info.vals {
          info := Info(info.keys + [name], info.vals[name := [smp]]);
        } else {
          info := Info(info.keys, info.vals[name := info.vals[name] + [smp]]);
        }
      }
    }
    assert row[..|row|] == row;
  }

  // ---------------------------------------------------------------------
  // What GetTotalInfo collects

  /** The samples one row gives a name, in row order. */
  function Matching(name: string, row: seq<ProfileNode>, kind: AreaKind): seq<Sample>
  {
    if row == [] then []
    else
      var e := row[|row| - 1];
      Matching(name, row[..|row| - 1], kind) + (if Counts(e, name) then [Sample(e.op, AreaOf(e, kind))] else [])
  }

  /** The samples a name gets from one step: one copy of its row's
      samples per occurrence of the name in the step's names. */
  function NameSamples(names: seq<string>, row: seq<ProfileNode>, kind: AreaKind, m: string): seq<Sample>
  {
    if names == [] then []
    else NameSamples(names[..|names| - 1], row, kind, m) + (if names[|names| - 1] == m then Matching(m, row, kind) else [])
  }

  /** The samples a name gets from the steps, in step order. */
  function StepSamples(steps: seq<int>, src: NameSource, data: Data, kind: AreaKind, m: string): seq<Sample>
  {
    if steps == [] then []
    else
      var names := match NamesAt(src, steps[0]) case Some(ns) => ns case None => [];
      NameSamples(names, RowOf(data, steps[0]), kind, m) + StepSamples(steps[1..], src, data, kind, m)
  }

  /** A step GetTotalInfo can read: it has names, and a row if it has any
      name. */
  predicate Readable(src: NameSource, data: Data, s: int)
  {
    NamesAt(src, s).Some? && (NamesAt(src, s).value != [] ==> s in data)
  }

  lemma {:induction false} ElemLoopSpec(info: Info, name: string, row: seq<ProfileNode>, kind: AreaKind, m: string)
    ensures Get(ElemLoop(info, name, row, kind), m) == Get(info, m) + (if m == name then Matching(name, row, kind) else [])
    ensures WellFormed(info) ==> WellFormed(ElemLoop(info, name, row, kind))
  {
    if row != [] {
      ElemLoopSpec(info, name, row[..|row| - 1], kind, m);
    }
  }

  lemma {:induction false} NameLoopSpec(info: Info, names: seq<string>, row: seq<ProfileNode>, kind: AreaKind, m: string)
    ensures Get(NameLoop(info, names, row, kind), m) == Get(info, m) + NameSamples(names, row, kind, m)
    ensures WellFormed(info) ==> WellFormed(NameLoop(info, names, row, kind))
  {
    if names != [] {
      var init := names[..|names| - 1];
      NameLoopSpec(info, init, row, kind, m);
      ElemLoopSpec(NameLoop(info, init, row, kind), names[|names| - 1], row, kind, m);
    }
  }

  /** GetTotalInfo fails exactly when one of the steps cannot be read. */
  lemma {:induction false} StepLoopOk(info: Info, steps: seq<int>, src: NameSource, data: Data, kind: AreaKind)
    ensures StepLoop(info, steps, src, data, kind).Ok? <==> forall i :: 0 <= i < |steps| ==> Readable(src, data, steps[i])
    decreases |steps|
  {
    if steps != [] && Readable(src, data, steps[0]) {
      var names := NamesAt(src, steps[0]).value;
      var next := NameLoop(info, names, RowOf(data, steps[0]), kind);
      StepLoopOk(next, steps[1..], src, data, kind);
      if StepLoop(next, steps[1..], src, data, kind).Err? {
        var i :| 0 <= i < |steps[1..]| && !Readable(src, data, steps[1..][i]);
        assert steps[i + 1] == steps[1..][i];
      }
      assert forall i :: 0 < i < |steps| ==> steps[i] == steps[1..][i - 1];
    }
  }

  /** When GetTotalInfo succeeds it keeps the entries well formed and
      gives every name exactly its samples from the steps, in step
      order. */
  lemma {:induction false} StepLoopGet(info: Info, steps: seq<int>, src: NameSource, data: Data, kind: AreaKind, m: string)
    requires StepLoop(info, steps, src, data, kind).Ok?
    ensures Get(StepLoop(info, steps, src, data, kind).value, m) == Get(info, m) + StepSamples(steps, src, data, kind, m)
    decreases |steps|
  {
    if steps != [] {
      StepLoopFirst(info, steps, src, data, kind, m);
      var names := NamesAt(src, steps[0]).value;
      var next := NameLoop(info, names, RowOf(data, steps[0]), kind);
      NameLoopSpec(info, names, RowOf(data, steps[0]), kind, m);
      StepLoopGet(next, steps[1..], src, data, kind, m);
    }
  }

  /** One step of a successful step loop, and the samples it brings. */
  lemma StepLoopFirst(info: Info, steps: seq<int>, src: NameSource, data: Data, kind: AreaKind, m: string)
    requires StepLoop(info, steps, src, data, kind).Ok? && steps != []
    ensures NamesAt(src, steps[0]).Some?
    ensures var names := NamesAt(src, steps[0]).value;
      StepLoop(info, steps, src, data, kind) ==
        StepLoop(NameLoop(info, names, RowOf(data, steps[0]), kind), steps[1..], src, data, kind) &&
      StepSamples(steps, src, data, kind, m) ==
        NameSamples(names, RowOf(data, steps[0]), kind, m) + StepSamples(steps[1..], src, data, kind, m)
  {
  }

  /** The step loop keeps the Info well formed. */
  lemma {:induction false} StepLoopWellFormed(info: Info, steps: seq<int>, src: NameSource, data: Data, kind: AreaKind)
    requires StepLoop(info, steps, src, data, kind).Ok?
    requires WellFormed(info)
    ensures WellFormed(StepLoop(info, steps, src, data, kind).value)
    decreases |steps|
  {
    if steps != [] {
      var names := NamesAt(src, steps[0]).value;
      var next := NameLoop(info, names, RowOf(data, steps[0]), kind);
      NameLoopSpec(info, names, RowOf(data, steps[0]), kind, "");
      StepLoopWellFormed(next, steps[1..], src, data, kind);
    }
  }

  lemma TotalInfoSpec(steps: seq<int>, src: NameSource, data: Data, kind: AreaKind, m: string)
    ensures TotalInfo(steps, src, data, kind).Ok? <==> forall i :: 0 <= i < |steps| ==> Readable(src, data, steps[i])
    ensures TotalInfo(steps, src, data, kind).Ok? ==>
      WellFormed(TotalInfo(steps, src, data, kind).value) &&
      Get(TotalInfo(steps, src, data, kind).value, m) == StepSamples(steps, src, data, kind, m)
  {
    StepLoopOk(Info([], map[]), steps, src, data, kind);
    if TotalInfo(steps, src, data, kind).Ok? {
      StepLoopGet(Info([], map[]), steps, src, data, kind, m);
      StepLoopWellFormed(Info([], map[]), steps, src, data, kind);
    }
  }

  // ---------------------------------------------------------------------
  // Summaries

  /** ProfileDataSummary: a name, its last op (None for no sample) and
      its summed area. */
  datatype Summary = Summary(name: string, op: Option<string>, total: real)

  function SumArea(v: seq<Sample>): real
  {
    if v == [] then 0.0 else SumArea(v[..|v| - 1]) + v[|v| - 1].area
  }

  function LastOp(v: seq<Sample>): Option<string>
  {
    if v == [] then None else Some(v[|v| - 1].op)
  }

  lemma {:induction false} SumAreaAppend(a: seq<Sample>, b: seq<Sample>)
    ensures SumArea(a + b) == SumArea(a) + SumArea(b)
    decreases |b|
  {
    if b != [] {
      SumAreaAppend(a, b[..|b| - 1]);
      var c := a + b;
      assert c[..|c| - 1] == a + b[..|b| - 1];
      assert c[|c| - 1] == b[|b| - 1];
      assert SumArea(c) == SumArea(c[..|c| - 1]) + c[|c| - 1].area;
    } else {
      assert a + b == a;
    }
  }

  /** The loop over one name's samples: the area sum and the op of the
      last sample. */
  method SummarizeSamples(v: seq<Sample>) returns (op: Option<string>, total: real)
    ensures op == LastOp(v) && total == SumArea(v)
  {
    op := None;
    total := 0.0;
    for k := 0 to |v|
      invariant op == LastOp(v[..k]) && total == SumArea(v[..k])
    {
      assert v[..k + 1][..k] == v[..k];
      op := Some(v[k].op);
      total := total + v[k].area;
    }
    assert v[..|v|] == v;
  }

  /** The summaries of the names `keys`, in that order. */
  function Summaries(info: Info, keys: seq<string>): (r: seq<Summary>)
    ensures |r| == |keys|
    ensures forall i :: 0 <= i < |keys| ==>
      r[i] == Summary(keys[i], LastOp(Get(info, keys[i])), SumArea(Get(info, keys[i])))
  {
    if keys == [] then []
    else
      var k := keys[|keys| - 1];
      Summaries(info, keys[..|keys| - 1]) + [Summary(k, LastOp(Get(info, k)), SumArea(Get(info, k)))]
  }

  /** The summary loop of GenerateHotspotNameList. */
  method Summarize(info: Info) returns (dataInfo: seq<Summary>)
    ensures dataInfo == Summaries(info, info.keys)
  {
    dataInfo := [];
    for i := 0 to |info.keys|
      invariant dataInfo == Summaries(info, info.keys[..i])
    {
      assert info.keys[..i + 1][..i] == info.keys[..i];
      var k := info.keys[i];
      var v := Get(info, k);
      var op, total := SummarizeSamples(v);
      dataInfo := dataInfo + [Summary(k, op, total)];
    }
    assert info.keys[..|info.keys|] == info.keys;
  }

  /** The online-minus-offline summaries: online names the offline info
      lacks are skipped; the area is the online sum less the offline sum,
      the op the last offline op, or the last online op when there is no
      offline sample. */
  function DiffSummaries(online: Info, offline: Info, keys: seq<string>): seq<Summary>
  {
    if keys == [] then []
    else
      var k := keys[|keys| - 1];
      var before := DiffSummaries(online, offline, keys[..|keys| - 1]);
      if k !in offline.vals then before
      else
        var on, off := Get(online, k), offline.vals[k];
        before + [Summary(k, if off != [] then LastOp(off) else LastOp(on), SumArea(on) - SumArea(off))]
  }

  /** The online names that offline also has, in online order. */
  function Shared(keys: seq<string>, offline: Info): seq<string>
  {
    if keys == [] then []
    else Shared(keys[..|keys| - 1], offline) + (if keys[|keys| - 1] in offline.vals then [keys[|keys| - 1]] else [])
  }

  /** A difference summary per shared name, in online order, holding the
      online area less the offline area. */
  lemma {:induction false} DiffSummariesSpec(online: Info, offline: Info, keys: seq<string>)
    ensures var d := DiffSummaries(online, offline, keys);
      |d| == |Shared(keys, offline)| &&
      forall i :: 0 <= i < |d| ==>
        d[i].name == Shared(keys, offline)[i] &&
        d[i].total == SumArea(Get(online, d[i].name)) - SumArea(Get(offline, d[i].name))
  {
    if keys != [] {
      DiffSummariesSpec(online, offline, keys[..|keys| - 1]);
    }
  }

  /** The summary loop of GenerateHotspotNameListOnlineVsOffline. */
  method SummarizeDiff(online: Info, offline: Info) returns (dataInfo: seq<Summary>)
    ensures dataInfo == DiffSummaries(online, offline, online.keys)
  {
    dataInfo := [];
    for i := 0 to |online.keys|
      invariant dataInfo == DiffSummaries(online, offline, online.keys[..i])
    {
      assert online.keys[..i + 1][..i] == online.keys[..i];
      var k := online.keys[i];
      var op, total := SummarizeSamples(Get(online, k));
      if k in offline.vals {
        var offlineV := offline.vals[k];
        var offOp, offTotal := SummarizeSamples(offlineV);
        if offlineV != [] {
          op := offOp;
        }
        dataInfo := dataInfo + [Summary(k, op, total - offTotal)];
      }
    }
    assert online.keys[..|online.keys|] == online.keys;
  }

  // ---------------------------------------------------------------------
  // data_info.sort(key = total area, reverse = True)

  predicate NonIncreasing(ss: seq<Summary>)
  {
    forall i, j :: 0 <= i < j < |ss| ==> ss[i].total >= ss[j].total
  }

  /** x placed after every summary whose area is at least its own. */
  function Insert(x: Summary, s: seq<Summary>): seq<Summary>
  {
    if s == [] then [x]
    else if s[0].total >= x.total then [s[0]] + Insert(x, s[1..])
    else [x] + s
  }

  /** The descending sort: each summary in turn placed after the earlier
      ones of equal area, so ties keep their order. */
  function SortDesc(xs: seq<Summary>): seq<Summary>
  {
    if xs == [] then [] else Insert(xs[|xs| - 1], SortDesc(xs[..|xs| - 1]))
  }

  lemma {:induction false} InsertPerm(x: Summary, s: seq<Summary>)
    ensures multiset(Insert(x, s)) == multiset(s) + multiset{x}
  {
    if s != [] && s[0].total >= x.total {
      InsertPerm(x, s[1..]);
      assert s == [s[0]] + s[1..];
    }
  }

  lemma {:induction false} InsertSorted(x: Summary, s: seq<Summary>)
    requires NonIncreasing(s)
    ensures NonIncreasing(Insert(x, s))
  {
    if s != [] && s[0].total >= x.total {
      var rest := s[1..];
      InsertSorted(x, rest);
      InsertPerm(x, rest);
      var r := Insert(x, rest);
      forall j | 0 <= j < |r|
        ensures s[0].total >= r[j].total
      {
        assert r[j] in multiset(r);
        assert r[j] == x || r[j] in multiset(rest);
        if r[j] != x {
          var k :| 0 <= k < |rest| && rest[k] == r[j];
          assert rest[k] == s[k + 1];
        }
      }
    }
  }

  /** The sorted list is ordered by non-increasing area and holds the
      same summaries. */
  lemma {:induction false} SortDescSpec(xs: seq<Summary>)
    ensures NonIncreasing(SortDesc(xs))
    ensures multiset(SortDesc(xs)) == multiset(xs)
  {
    if xs != [] {
      var init := xs[..|xs| - 1];
      SortDescSpec(init);
      InsertSorted(xs[|xs| - 1], SortDesc(init));
      InsertPerm(xs[|xs| - 1], SortDesc(init));
      assert xs == init + [xs[|xs| - 1]];
    }
  }

  // ---------------------------------------------------------------------
  // The name lists

  function Names(ss: seq<Summary>): seq<string>
  {
    seq(|ss|, i requires 0 <= i < |ss| => ss[i].name)
  }

  /** The loop that lists the sorted names and records each summary by
      name. */
  method CollectNames(sorted: seq<Summary>) returns (ret: seq<string>, byName: map<string, Summary>)
    ensures ret == Names(sorted)
    ensures byName.Keys == set i | 0 <= i < |sorted| :: sorted[i].name
    ensures forall n :: n in byName ==> exists i :: 0 <= i < |sorted| && sorted[i] == byName[n] && sorted[i].name == n
  {
    ret := [];
    byName := map[];
    for i := 0 to |sorted|
      invariant ret == Names(sorted[..i])
      invariant byName.Keys == set k | 0 <= k < i :: sorted[k].name
      invariant forall n :: n in byName ==> exists k :: 0 <= k < i && sorted[k] == byName[n] && sorted[k].name == n
    {
      assert sorted[..i + 1][..i] == sorted[..i];
      var e := sorted[i];
      ret := ret + [e.name];
      byName := byName[e.name := e];
    }
    assert sorted[..|sorted|] == sorted;
  }

  /** AutoAnalysisQPS.GenerateHotspotNameList: the names of the summed
      window areas over the steps and names, largest first. */
  method QpsHotspotNames(steps: seq<int>, names: seq<string>, data: Data)
    returns (r: Result<seq<string>>, sorted: seq<Summary>)
    ensures TotalInfo(steps, Fixed(names), data, Window).Err? ==> r.Err?
    ensures TotalInfo(steps, Fixed(names), data, Window).Ok? ==>
      var info := TotalInfo(steps, Fixed(names), data, Window).value;
      r == Ok(Names(sorted)) && sorted == SortDesc(Summaries(info, info.keys))
  {
    var info := GetTotalInfo(steps, Fixed(names), data, Window);
    if info.Err? {
      return Err(info.msg), [];
    }
    var dataInfo := Summarize(info.value);
    sorted := SortDesc(dataInfo);
    var ret, _ := CollectNames(sorted);
    r := Ok(ret);
  }

  /** Both online-vs-offline lists: the names of the online-minus-offline
      areas of the names both timelines have, largest first. */
  method OnlineVsOfflineNames(
    onlineSteps: seq<int>, offlineSteps: seq<int>, names: seq<string>, online: Data, offline: Data, kind: AreaKind)
    returns (r: Result<seq<string>>, sorted: seq<Summary>)
    ensures var on, off := TotalInfo(onlineSteps, Fixed(names), online, kind), TotalInfo(offlineSteps, Fixed(names), offline, kind);
      (on.Err? || off.Err? ==> r.Err?) &&
      (on.Ok? && off.Ok? ==>
        r == Ok(Names(sorted)) && sorted == SortDesc(DiffSummaries(on.value, off.value, on.value.keys)))
  {
    var onlineInfo := GetTotalInfo(onlineSteps, Fixed(names), online, kind);
    if onlineInfo.Err? {
      return Err(onlineInfo.msg), [];
    }
    var offlineInfo := GetTotalInfo(offlineSteps, Fixed(names), offline, kind);
    if offlineInfo.Err? {
      return Err(offlineInfo.msg), [];
    }
    var dataInfo := SummarizeDiff(onlineInfo.value, offlineInfo.value);
    sorted := SortDesc(dataInfo);
    var ret, _ := CollectNames(sorted);
    r := Ok(ret);
  }

  // ---------------------------------------------------------------------
  // The Latency filter

  /** The filter of AutoAnalysisLatency.GenerateHotspotNameList as written:
      op != "_MklReshape" or op != "Reshape". */
  predicate KeptAsWritten(s: Summary)
  {
    s.op != Some("_MklReshape") || s.op != Some("Reshape")
  }

  /** The filter as evidently meant: neither reshape op. */
  predicate NotReshape(s: Summary)
  {
    s.op != Some("_MklReshape") && s.op != Some("Reshape")
  }

  function FilterNames(ss: seq<Summary>, asWritten: bool): seq<string>
  {
    if ss == [] then []
    else
      var s := ss[|ss| - 1];
      FilterNames(ss[..|ss| - 1], asWritten) +
      (if (if asWritten then KeptAsWritten(s) else NotReshape(s)) then [s.name] else [])
  }

  /** As written, the filter keeps every name, a reshape op's included. */
  lemma {:induction false} AsWrittenKeepsAll(ss: seq<Summary>)
    ensures FilterNames(ss, true) == Names(ss)
  {
    if ss != [] {
      AsWrittenKeepsAll(ss[..|ss| - 1]);
      assert KeptAsWritten(ss[|ss| - 1]);
    }
  }

  /** A reshape node is listed as a latency hotspot by the filter as
      written. */
  lemma ReshapeListedAsWritten()
    ensures "r" in FilterNames([Summary("r", Some("Reshape"), 1.0)], true)
  {
    AsWrittenKeepsAll([Summary("r", Some("Reshape"), 1.0)]);
  }

  /** The sorted summaries whose op is not a reshape op, in order. */
  function KeptSummaries(ss: seq<Summary>): seq<Summary>
  {
    if ss == [] then []
    else KeptSummaries(ss[..|ss| - 1]) + (if NotReshape(ss[|ss| - 1]) then [ss[|ss| - 1]] else [])
  }

  /** The corrected filter lists the names of the kept summaries. */
  lemma {:induction false} FilterNamesSpec(ss: seq<Summary>)
    ensures FilterNames(ss, false) == Names(KeptSummaries(ss))
  {
    if ss != [] {
      FilterNamesSpec(ss[..|ss| - 1]);
    }
  }

  /** The kept summaries are exactly those of the list that are not
      reshape ops. */
  lemma {:induction false} KeptSummariesSpec(ss: seq<Summary>)
    ensures forall s :: s in KeptSummaries(ss) <==> s in ss && NotReshape(s)
  {
    if ss != [] {
      var init := ss[..|ss| - 1];
      KeptSummariesSpec(init);
      assert ss == init + [ss[|ss| - 1]];
    }
  }

  /** Dropping the reshape ops keeps the order, so the kept summaries are
      still by non-increasing area. */
  lemma {:induction false} KeptSummariesSorted(ss: seq<Summary>)
    requires NonIncreasing(ss)
    ensures NonIncreasing(KeptSummaries(ss))
  {
    if ss != [] {
      var init := ss[..|ss| - 1];
      KeptSummariesSorted(init);
      KeptSummariesSpec(init);
      var k := KeptSummaries(init);
      var last := ss[|ss| - 1];
      if NotReshape(last) {
        forall i | 0 <= i < |k|
          ensures k[i].total >= last.total
        {
          assert k[i] in init;
          var j :| 0 <= j < |init| && init[j] == k[i];
          assert ss[j] == init[j];
        }
      }
    }
  }

  /** The loop of AutoAnalysisLatency.GenerateHotspotNameList, with the
      corrected filter. */
  method CollectLatencyNames(sorted: seq<Summary>) returns (ret: seq<string>, byName: map<string, Summary>)
    ensures ret == FilterNames(sorted, false)
    ensures forall n :: n in byName ==> exists i :: 0 <= i < |sorted| && sorted[i] == byName[n] && sorted[i].name == n && NotReshape(sorted[i])
  {
    ret := [];
    byName := map[];
    for i := 0 to |sorted|
      invariant ret == FilterNames(sorted[..i], false)
      invariant forall n :: n in byName ==> exists k :: 0 <= k < i && sorted[k] == byName[n] && sorted[k].name == n && NotReshape(sorted[k])
    {
      assert sorted[..i + 1][..i] == sorted[..i];
      var e := sorted[i];
      if e.op != Some("_MklReshape") && e.op != Some("Reshape") {
        ret := ret + [e.name];
        byName := byName[e.name := e];
      }
    }
    assert sorted[..|sorted|] == sorted;
  }

  /** AutoAnalysisLatency.GenerateHotspotNameList: the names of the summed
      durations over the steps and each step's names, largest first,
      without the reshape ops. */
  method LatencyHotspotNames(steps: seq<int>, namesByStep: map<int, seq<string>>, data: Data)
    returns (r: Result<seq<string>>, sorted: seq<Summary>)
    ensures TotalInfo(steps, PerStep(namesByStep), data, Duration).Err? ==> r.Err?
    ensures TotalInfo(steps, PerStep(namesByStep), data, Duration).Ok? ==>
      var info := TotalInfo(steps, PerStep(namesByStep), data, Duration).value;
      r == Ok(FilterNames(sorted, false)) && sorted == SortDesc(Summaries(info, info.keys))
  {
    var info := GetTotalInfo(steps, PerStep(namesByStep), data, Duration);
    if info.Err? {
      return Err(info.msg), [];
    }
    var dataInfo := Summarize(info.value);
    sorted := SortDesc(dataInfo);
    var ret, _ := CollectLatencyNames(sorted);
    r := Ok(ret);
  }

  /** The summaries carry the keys they were made for, in order. */
  lemma SummariesNames(info: Info, keys: seq<string>)
    ensures Names(Summaries(info, keys)) == keys
  {
  }

  /** Sorting only reorders: every sorted summary is one of the inputs. */
  lemma SortDescFrom(xs: seq<Summary>)
    ensures forall i :: 0 <= i < |SortDesc(xs)| ==> SortDesc(xs)[i] in xs
  {
    SortDescSpec(xs);
    forall i | 0 <= i < |SortDesc(xs)|
      ensures SortDesc(xs)[i] in xs
    {
      assert SortDesc(xs)[i] in multiset(SortDesc(xs));
    }
  }

  /** Each summary of a well-formed Info, sorted or not, carries its own
      name's sum and last op. */
  lemma SortedSummaries(info: Info)
    requires WellFormed(info)
    ensures var sorted := SortDesc(Summaries(info, info.keys));
      forall i :: 0 <= i < |sorted| ==>
        sorted[i].name in info.vals &&
        sorted[i].total == SumArea(Get(info, sorted[i].name)) && sorted[i].op == LastOp(Get(info, sorted[i].name))
  {
    var ss := Summaries(info, info.keys);
    var sorted := SortDesc(ss);
    SortDescFrom(ss);
    forall i | 0 <= i < |sorted|
      ensures sorted[i].name in info.vals
      ensures sorted[i].total == SumArea(Get(info, sorted[i].name)) && sorted[i].op == LastOp(Get(info, sorted[i].name))
    {
      SummaryOf(info, sorted[i]);
    }
  }

  /** A summary of a well-formed Info carries its own name's sum and last
      op. */
  lemma SummaryOf(info: Info, x: Summary)
    requires WellFormed(info) && x in Summaries(info, info.keys)
    ensures x.name in info.vals && x.total == SumArea(Get(info, x.name)) && x.op == LastOp(Get(info, x.name))
  {
    var ss := Summaries(info, info.keys);
    var j :| 0 <= j < |ss| && ss[j] == x;
    assert info.keys[j] in info.keys;
  }

  /** The hotspot list holds every name GetTotalInfo found, once each,
      largest summed area first, and each name's summed area is the sum
      of its samples over the steps. */
  lemma HotspotOrder(steps: seq<int>, src: NameSource, data: Data, kind: AreaKind)
    requires TotalInfo(steps, src, data, kind).Ok?
    ensures var info := TotalInfo(steps, src, data, kind).value;
      var sorted := SortDesc(Summaries(info, info.keys));
      NonIncreasing(sorted) &&
      multiset(Names(sorted)) == multiset(info.keys) &&
      forall i :: 0 <= i < |sorted| ==>
        sorted[i].total == SumArea(StepSamples(steps, src, data, kind, sorted[i].name)) && sorted[i].op.Some?
  {
    var info := TotalInfo(steps, src, data, kind).value;
    TotalInfoSpec(steps, src, data, kind, "");
    SortedSummaries(info);
    var ss := Summaries(info, info.keys);
    var sorted := SortDesc(ss);
    SortDescSpec(ss);
    SortDescNames(ss);
    SummariesNames(info, info.keys);
    forall i | 0 <= i < |sorted|
      ensures sorted[i].total == SumArea(StepSamples(steps, src, data, kind, sorted[i].name)) && sorted[i].op.Some?
    {
      TotalInfoSpec(steps, src, data, kind, sorted[i].name);
    }
  }

  lemma {:induction false} InsertNames(x: Summary, s: seq<Summary>)
    ensures multiset(Names(Insert(x, s))) == multiset(Names(s)) + multiset{x.name}
  {
    if s != [] && s[0].total >= x.total {
      InsertNames(x, s[1..]);
      assert s == [s[0]] + s[1..];
      assert Names(Insert(x, s)) == [s[0].name] + Names(Insert(x, s[1..]));
      assert Names(s) == [s[0].name] + Names(s[1..]);
    } else if s != [] {
      assert Names(Insert(x, s)) == [x.name] + Names(s);
    }
  }

  /** Sorting moves whole summaries, so the names are permuted too. */
  lemma {:induction false} SortDescNames(xs: seq<Summary>)
    ensures multiset(Names(SortDesc(xs))) == multiset(Names(xs))
  {
    if xs != [] {
      var init := xs[..|xs| - 1];
      SortDescNames(init);
      InsertNames(xs[|xs| - 1], SortDesc(init));
      assert Names(xs) == Names(init) + [xs[|xs| - 1].name];
    }
  }
}
