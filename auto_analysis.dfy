/** The data side of auto_analysis/auto_analysis.py: the value histogram
    DistributionData, the profile tree ProfileData with its two area sums,
    and TimelineData's ProcessEigenProf, which files one node per (step,
    node name) from the detailed node states and hangs the MTMC log
    entries under them, plus the step-id and node-name lists. Times and
    areas are reals; the JSON file is taken as already loaded. */
module AutoAnalysis {
  import opened Wrappers
  import Text

  // ---------------------------------------------------------------------
  // DistributionData

  /** A histogram of values: the count of each value, every value in
      arrival order, and how many were added. The probability slots and
      their bounds belong to the floating-point distribution and only
      keep their initial values here. */
  class DistributionData {
    var dData: map<real, nat>
    var rawData: seq<real>
    var times: nat
    var pdData: seq<real>
    var slotNum: nat
    var pXMin: real
    var pXMax: real

    /** The count of a value is its multiplicity among the values added,
        a value has a count exactly when it was added, and `times` is how
        many were added; so the counts sum to `times`. */
    ghost predicate Valid()
      reads this
    {
      times == |rawData| &&
      (forall x :: x in dData ==> dData[x] == multiset(rawData)[x]) &&
      (forall x :: x in rawData ==> x in dData)
    }

    constructor ()
      ensures Valid()
      ensures dData == map[] && rawData == [] && times == 0
      ensures slotNum == 100 && pdData == seq(100, _ => 0.0) && pXMin == 0.0 && pXMax == 0.0
    {
      dData := map[];
      rawData := [];
      times := 0;
      slotNum := 100;
      pdData := seq(100, _ => 0.0);
      pXMin := 0.0;
      pXMax := 0.0;
    }

    /** AddData(x): one more occurrence of x. */
    method AddData(x: real)
      requires Valid()
      modifies this
      ensures Valid()
      ensures dData == old(dData)[x := (if x in old(dData) then old(dData)[x] else 0) + 1]
      ensures rawData == old(rawData) + [x] && times == old(times) + 1
      ensures pdData == old(pdData) && slotNum == old(slotNum) && pXMin == old(pXMin) && pXMax == old(pXMax)
    {
      if x in dData {
        dData := dData[x := dData[x] + 1];
      } else {
        dData := dData[x := 1];
      }
      rawData := rawData + [x];
      times := times + 1;
    }

    /** GetYValue(x): how often x was added, 0 for a value never added. */
    function GetYValue(x: real): (r: nat)
      requires Valid()
      reads this
      ensures r == multiset(rawData)[x]
      ensures r == 0 <==> x !in rawData
    {
      if x in dData then dData[x] else 0
    }
  }

  // ---------------------------------------------------------------------
  // ProfileData

  /** A profiled node: its name, op type, start, duration, thread, the
      fifteen TMAM ratios of a log entry (None for a detailed node), the
      log entries filed under it and the names of its inputs. */
  datatype ProfileNode = ProfileNode(
    name: string, op: string, startTime: real, dur: real, tid: int,
    tmam: Option<seq<real>>, children: seq<ProfileNode>, inputNames: seq<string>)

  /** GetTotalArea: the node's duration plus its children's total areas. */
  function TotalArea(n: ProfileNode): real
    decreases n, |n.children| + 1
  {
    n.dur + ChildrenTotal(n, |n.children|)
  }

  /** The total areas of the first k children. */
  function ChildrenTotal(n: ProfileNode, k: nat): real
    requires k <= |n.children|
    decreases n, k
  {
    if k == 0 then 0.0 else ChildrenTotal(n, k - 1) + TotalArea(n.children[k - 1])
  }

  /** The part of [startTime, startTime + dur] inside [s, e], 0 when
      they do not overlap. */
  function Clip(n: ProfileNode, s: real, e: real): real
  {
    var a := if n.startTime >= s then n.startTime else s;
    var b := if n.startTime + n.dur <= e then n.startTime + n.dur else e;
    if b - a >= 0.0 then b - a else 0.0
  }

  /** GetAreaBtwStartEnd(s, e): the node's clipped duration plus its
      children's. */
  function AreaBetween(n: ProfileNode, s: real, e: real): real
    decreases n, |n.children| + 1
  {
    Clip(n, s, e) + ChildrenBetween(n, |n.children|, s, e)
  }

  /** The clipped areas of the first k children. */
  function ChildrenBetween(n: ProfileNode, k: nat, s: real, e: real): real
    requires k <= |n.children|
    decreases n, k
  {
    if k == 0 then 0.0 else ChildrenBetween(n, k - 1, s, e) + AreaBetween(n.children[k - 1], s, e)
  }

  /** No duration in the tree is negative. */
  predicate NonNegDur(n: ProfileNode)
    decreases n
  {
    n.dur >= 0.0 && forall i :: 0 <= i < |n.children| ==> NonNegDur(n.children[i])
  }

  /** Every node of the tree lies inside [s, e] and has no negative
      duration. */
  predicate Within(n: ProfileNode, s: real, e: real)
    decreases n
  {
    s <= n.startTime && n.startTime + n.dur <= e && n.dur >= 0.0 &&
    forall i :: 0 <= i < |n.children| ==> Within(n.children[i], s, e)
  }

  /** GetAreaBtwStartEnd is never negative. */
  lemma {:induction false} AreaBetweenNonNeg(n: ProfileNode, s: real, e: real)
    ensures AreaBetween(n, s, e) >= 0.0
    decreases n, |n.children| + 1
  {
    ChildrenBetweenNonNeg(n, |n.children|, s, e);
  }

  lemma {:induction false} ChildrenBetweenNonNeg(n: ProfileNode, k: nat, s: real, e: real)
    requires k <= |n.children|
    ensures ChildrenBetween(n, k, s, e) >= 0.0
    decreases n, k
  {
    if k > 0 {
      ChildrenBetweenNonNeg(n, k - 1, s, e);
      AreaBetweenNonNeg(n.children[k - 1], s, e);
    }
  }

  /** An empty or inverted window holds no area. */
  lemma {:induction false} AreaBetweenEmpty(n: ProfileNode, s: real, e: real)
    requires e <= s
    ensures AreaBetween(n, s, e) == 0.0
    decreases n, |n.children| + 1
  {
    ChildrenBetweenEmpty(n, |n.children|, s, e);
  }

  lemma {:induction false} ChildrenBetweenEmpty(n: ProfileNode, k: nat, s: real, e: real)
    requires e <= s && k <= |n.children|
    ensures ChildrenBetween(n, k, s, e) == 0.0
    decreases n, k
  {
    if k > 0 {
      ChildrenBetweenEmpty(n, k - 1, s, e);
      AreaBetweenEmpty(n.children[k - 1], s, e);
    }
  }

  /** With no negative durations, the area inside a window is at most the
      total area. */
  lemma {:induction false} AreaBetweenAtMostTotal(n: ProfileNode, s: real, e: real)
    requires NonNegDur(n)
    ensures AreaBetween(n, s, e) <= TotalArea(n)
    decreases n, |n.children| + 1
  {
    ChildrenBetweenAtMost(n, |n.children|, s, e);
  }

  lemma {:induction false} ChildrenBetweenAtMost(n: ProfileNode, k: nat, s: real, e: real)
    requires NonNegDur(n) && k <= |n.children|
    ensures ChildrenBetween(n, k, s, e) <= ChildrenTotal(n, k)
    decreases n, k
  {
    if k > 0 {
      ChildrenBetweenAtMost(n, k - 1, s, e);
      AreaBetweenAtMostTotal(n.children[k - 1], s, e);
    }
  }

  /** A window that covers every node of the tree holds its total area. */
  lemma {:induction false} AreaBetweenCovering(n: ProfileNode, s: real, e: real)
    requires Within(n, s, e)
    ensures AreaBetween(n, s, e) == TotalArea(n)
    decreases n, |n.children| + 1
  {
    ChildrenBetweenCovering(n, |n.children|, s, e);
  }

  lemma {:induction false} ChildrenBetweenCovering(n: ProfileNode, k: nat, s: real, e: real)
    requires Within(n, s, e) && k <= |n.children|
    ensures ChildrenBetween(n, k, s, e) == ChildrenTotal(n, k)
    decreases n, k
  {
    if k > 0 {
      ChildrenBetweenCovering(n, k - 1, s, e);
      AreaBetweenCovering(n.children[k - 1], s, e);
    }
  }

  // ---------------------------------------------------------------------
  // TimelineData: the loaded events

  /** The args of a "Detailed node state" event; None where a key is
      missing. */
  datatype DetailArgs = DetailArgs(stepId: Option<int>, nodeName: Option<string>, inputNodes: Option<seq<string>>)

  /** A "Detailed node state" event: name (the op type), ts, dur, tid and
      its args, if any. */
  datatype DetailEvent = DetailEvent(name: string, ts: real, dur: real, tid: int, args: Option<DetailArgs>)

  /** The args of an "MTMC logs" event; `tmam` is None when one of the
      fifteen TMAM metrics is missing. */
  datatype EigenArgs = EigenArgs(stepId: Option<int>, nodeName: Option<string>, tmam: Option<seq<real>>)

  /** An "MTMC logs" event. */
  datatype EigenEvent = EigenEvent(name: string, ts: real, dur: real, tid: int, args: Option<EigenArgs>)

  /** The args dict of each "Op" event, by op name. */
  type Ops = map<string, map<string, string>>

  const KeyError: string := "KeyError"

  // ---------------------------------------------------------------------
  // Input names: input0, input1, ... up to the first missing one

  function InputKey(i: nat): string
  {
    "input" + Text.NatToString(i)
  }

  ghost function Seen(i: nat): set<string>
  {
    set j | 0 <= j < i :: InputKey(j)
  }

  lemma InputKeyInjective(i: nat, j: nat)
    requires InputKey(i) == InputKey(j)
    ensures i == j
  {
    Text.NatToStringDigits(i);
    Text.NatToStringDigits(j);
    assert InputKey(i)[5..] == Text.NatToString(i);
    assert InputKey(j)[5..] == Text.NatToString(j);
  }

  /** One more key read shrinks the keys still unread. */
  lemma SeenStep(d: map<string, string>, i: nat)
    requires InputKey(i) in d
    ensures d.Keys - Seen(i + 1) < d.Keys - Seen(i)
  {
    assert Seen(i + 1) == Seen(i) + {InputKey(i)};
    if InputKey(i) in Seen(i) {
      var j :| 0 <= j < i && InputKey(j) == InputKey(i);
      InputKeyInjective(i, j);
    }
  }

  /** The values of input<i>, input<i+1>, ... up to the first key d
      lacks. */
  function InputsFrom(d: map<string, string>, i: nat): seq<string>
    decreases d.Keys - Seen(i)
  {
    if InputKey(i) in d then SeenStep(d, i); [d[InputKey(i)]] + InputsFrom(d, i + 1) else []
  }

  function InputNames(d: map<string, string>): seq<string>
  {
    InputsFrom(d, 0)
  }

  /** Position j of r, if there is one, holds the value of input<i+j>. */
  predicate InputAt(d: map<string, string>, r: seq<string>, i: nat, j: nat)
  {
    j < |r| ==> InputKey(i + j) in d && r[j] == d[InputKey(i + j)]
  }

  /** The list holds input<i>, input<i+1>, ... in order, and the key
      after its last is not in d. */
  lemma {:induction false} InputsFromSpec(d: map<string, string>, i: nat)
    ensures forall j: nat :: InputAt(d, InputsFrom(d, i), i, j)
    ensures InputKey(i + |InputsFrom(d, i)|) !in d
    decreases d.Keys - Seen(i)
  {
    if InputKey(i) in d {
      SeenStep(d, i);
      InputsFromSpec(d, i + 1);
      var rest := InputsFrom(d, i + 1);
      forall j: nat
        ensures InputAt(d, InputsFrom(d, i), i, j)
      {
        if 0 < j < |InputsFrom(d, i)| {
          assert InputAt(d, rest, i + 1, j - 1);
          assert InputsFrom(d, i)[j] == rest[j - 1] && i + j == (i + 1) + (j - 1);
        }
      }
      assert i + |InputsFrom(d, i)| == (i + 1) + |rest|;
    }
  }

  /** The input-name loop of ProcessEigenProf. */
  method ReadInputNames(d: map<string, string>) returns (r: seq<string>)
    ensures r == InputNames(d)
    ensures forall j: nat :: InputAt(d, r, 0, j)
    ensures InputKey(|r|) !in d
  {
    InputsFromSpec(d, 0);
    r := [];
    var index := 0;
    while InputKey(index) in d
      invariant r + InputsFrom(d, index) == InputNames(d)
      decreases d.Keys - Seen(index)
    {
      SeenStep(d, index);
      r := r + [d[InputKey(index)]];
      index := index + 1;
    }
  }

  // ---------------------------------------------------------------------
  // ProcessEigenProf, first loop: one node per (step, node name)

  /** What the first loop builds: the names filed per step, the nodes per
      step, and per step the position of each name's node. */
  datatype DetailState = DetailState(
    nameList: map<int, seq<string>>, data: map<int, seq<ProfileNode>>, help: map<int, map<string, nat>>)

  /** An event the first loop files: it has a step id and a node name,
      and the step is not -1. */
  predicate Files(ev: DetailEvent)
  {
    ev.args.Some? && ev.args.value.stepId.Some? && ev.args.value.nodeName.Some? &&
    ev.args.value.stepId.value != -1
  }

  /** The node a detailed event makes: input names from input_nodes, else
      from the op's input0, input1, ... */
  function NodeOf(ev: DetailEvent, ops: Ops): ProfileNode
    requires ev.args.Some? && ev.args.value.nodeName.Some?
  {
    var name := ev.args.value.nodeName.value;
    var inputs :=
      if ev.args.value.inputNodes.Some? then ev.args.value.inputNodes.value
      else if name in ops then InputNames(ops[name])
      else [];
    ProfileNode(name, ev.name, ev.ts, ev.dur, ev.tid, None, [], inputs)
  }

  /** One pass of the first loop. */
  function DetailStep(st: DetailState, ev: DetailEvent, ops: Ops): DetailState
  {
    if !Files(ev) then st
    else
      var s := ev.args.value.stepId.value;
      var n := ev.args.value.nodeName.value;
      var names := if s in st.nameList then st.nameList[s] else [];
      if n in names then st
      else
        var row := if s in st.data then st.data[s] else [];
        var pos := if s in st.data && s in st.help then st.help[s] else map[];
        DetailState(st.nameList[s := names + [n]], st.data[s := row + [NodeOf(ev, ops)]], st.help[s := pos[n := |row|]])
  }

  /** The first loop over the detailed events. */
  function DetailAll(evs: seq<DetailEvent>, ops: Ops): DetailState
  {
    if evs == [] then DetailState(map[], map[], map[])
    else DetailStep(DetailAll(evs[..|evs| - 1], ops), evs[|evs| - 1], ops)
  }

  predicate Matches(ev: DetailEvent, s: int, n: string)
  {
    Files(ev) && ev.args.value.stepId.value == s && ev.args.value.nodeName.value == n
  }

  /** The first filed event of step s for node n. */
  function FirstOf(evs: seq<DetailEvent>, s: int, n: string): (r: Option<DetailEvent>)
    ensures r.Some? ==> Matches(r.value, s, n)
  {
    if evs == [] then None
    else
      var f := FirstOf(evs[..|evs| - 1], s, n);
      if f.Some? then f else if Matches(evs[|evs| - 1], s, n) then Some(evs[|evs| - 1]) else None
  }

  /** Position i of step s's row holds the node of the first event for
      its name, and the name's recorded position is i. */
  ghost predicate SlotOk(st: DetailState, evs: seq<DetailEvent>, ops: Ops, s: int, i: int)
    requires s in st.data && s in st.nameList && s in st.help && |st.nameList[s]| == |st.data[s]|
    requires 0 <= i < |st.data[s]|
  {
    var n := st.nameList[s][i];
    FirstOf(evs, s, n).Some? && st.data[s][i] == NodeOf(FirstOf(evs, s, n).value, ops) &&
    n in st.help[s] && st.help[s][n] == i
  }

  /** Step s's row: as many names as nodes, each slot right, and every
      recorded name in the names. */
  ghost predicate RowOk(st: DetailState, evs: seq<DetailEvent>, ops: Ops, s: int)
  {
    s in st.data && s in st.nameList && s in st.help && |st.nameList[s]| == |st.data[s]| &&
    (forall i :: 0 <= i < |st.data[s]| ==> SlotOk(st, evs, ops, s, i)) &&
    (forall n :: n in st.help[s] ==> n in st.nameList[s])
  }

  /** A first event for (s, n) has its node filed. */
  ghost predicate Known(st: DetailState, evs: seq<DetailEvent>, s: int, n: string)
  {
    FirstOf(evs, s, n).Some? ==> s in st.help && n in st.help[s]
  }

  /** What the first loop keeps true. */
  ghost predicate DetailInv(st: DetailState, evs: seq<DetailEvent>, ops: Ops)
  {
    st.data.Keys == st.nameList.Keys && st.help.Keys == st.data.Keys && -1 !in st.data &&
    (forall s :: s in st.data ==> RowOk(st, evs, ops, s)) &&
    (forall s, n :: Known(st, evs, s, n))
  }

  lemma FirstOfSnoc(evs: seq<DetailEvent>, ev: DetailEvent, s: int, n: string)
    ensures FirstOf(evs + [ev], s, n) ==
      (if FirstOf(evs, s, n).Some? then FirstOf(evs, s, n) else if Matches(ev, s, n) then Some(ev) else None)
  {
    assert (evs + [ev])[..|evs|] == evs;
  }

  /** An event that does not add a node changes no first event that has
      a node. */
  lemma UnchangedRow(st: DetailState, evs: seq<DetailEvent>, ev: DetailEvent, ops: Ops, s: int)
    requires RowOk(st, evs, ops, s)
    requires forall n :: n in st.nameList[s] ==> FirstOf(evs + [ev], s, n) == FirstOf(evs, s, n)
    ensures RowOk(st, evs + [ev], ops, s)
  {
    forall i | 0 <= i < |st.data[s]|
      ensures SlotOk(st, evs + [ev], ops, s, i)
    {
      assert SlotOk(st, evs, ops, s, i);
    }
  }

  /** An event the first loop does not file, or whose name its step
      already has, leaves the state as it is. */
  lemma DetailStepSkip(st: DetailState, evs: seq<DetailEvent>, ev: DetailEvent, ops: Ops)
    requires DetailInv(st, evs, ops)
    requires DetailStep(st, ev, ops) == st
    requires Files(ev) ==>
      (ev.args.value.stepId.value in st.nameList &&
       ev.args.value.nodeName.value in st.nameList[ev.args.value.stepId.value])
    ensures DetailInv(st, evs + [ev], ops)
  {
    forall s, n
      ensures FirstOf(evs + [ev], s, n) == FirstOf(evs, s, n)
    {
      FirstOfSnoc(evs, ev, s, n);
      if Matches(ev, s, n) {
        assert RowOk(st, evs, ops, s);
        var i :| 0 <= i < |st.nameList[s]| && st.nameList[s][i] == n;
        assert SlotOk(st, evs, ops, s, i);
      }
    }
    forall s | s in st.data
      ensures RowOk(st, evs + [ev], ops, s)
    {
      UnchangedRow(st, evs, ev, ops, s);
    }
    forall s, n
      ensures Known(st, evs + [ev], s, n)
    {
      assert Known(st, evs, s, n);
    }
  }

  /** The new row after a node is added for (s0, n0). */
  lemma DetailStepAddRow(st: DetailState, evs: seq<DetailEvent>, ev: DetailEvent, ops: Ops)
    requires DetailInv(st, evs, ops) && Files(ev)
    requires var s0 := ev.args.value.stepId.value;
      s0 in st.nameList ==> ev.args.value.nodeName.value !in st.nameList[s0]
    ensures var st' := DetailStep(st, ev, ops);
      RowOk(st', evs + [ev], ops, ev.args.value.stepId.value)
  {
    var s0, n0 := ev.args.value.stepId.value, ev.args.value.nodeName.value;
    var st' := DetailStep(st, ev, ops);
    var row := if s0 in st.data then st.data[s0] else [];
    var names := if s0 in st.nameList then st.nameList[s0] else [];
    assert |names| == |row| by {
      if s0 in st.data { assert RowOk(st, evs, ops, s0); }
    }
    assert !(s0 in st.help && n0 in st.help[s0]) by {
      if s0 in st.help { assert RowOk(st, evs, ops, s0); }
    }
    assert FirstOf(evs, s0, n0).None? by {
      assert Known(st, evs, s0, n0);
    }
    FirstOfSnoc(evs, ev, s0, n0);
    forall i | 0 <= i < |st'.data[s0]|
      ensures SlotOk(st', evs + [ev], ops, s0, i)
    {
      if i < |row| {
        assert RowOk(st, evs, ops, s0);
        assert SlotOk(st, evs, ops, s0, i);
        var n := names[i];
        FirstOfSnoc(evs, ev, s0, n);
        assert n != n0;
      }
    }
    forall n | n in st'.help[s0]
      ensures n in st'.nameList[s0]
    {
      if n != n0 {
        assert RowOk(st, evs, ops, s0);
      }
    }
  }

  /** The rows of other steps after a node is added for (s0, n0). */
  lemma DetailStepOtherRows(st: DetailState, evs: seq<DetailEvent>, ev: DetailEvent, ops: Ops)
    requires DetailInv(st, evs, ops) && Files(ev)
    requires var s0 := ev.args.value.stepId.value;
      s0 in st.nameList ==> ev.args.value.nodeName.value !in st.nameList[s0]
    ensures var st' := DetailStep(st, ev, ops);
      forall s :: s in st.data && s != ev.args.value.stepId.value ==> RowOk(st', evs + [ev], ops, s)
  {
    var s0 := ev.args.value.stepId.value;
    var st' := DetailStep(st, ev, ops);
    forall s | s in st.data && s != s0
      ensures RowOk(st', evs + [ev], ops, s)
    {
      forall n | n in st.nameList[s]
        ensures FirstOf(evs + [ev], s, n) == FirstOf(evs, s, n)
      {
        FirstOfSnoc(evs, ev, s, n);
      }
      UnchangedRow(st, evs, ev, ops, s);
      assert st'.data[s] == st.data[s] && st'.nameList[s] == st.nameList[s] && st'.help[s] == st.help[s];
      forall i | 0 <= i < |st'.data[s]|
        ensures SlotOk(st', evs + [ev], ops, s, i)
      {
        assert SlotOk(st, evs + [ev], ops, s, i);
      }
    }
  }

  /** One pass of the first loop keeps its invariant. */
  lemma DetailStepInv(st: DetailState, evs: seq<DetailEvent>, ev: DetailEvent, ops: Ops)
    requires DetailInv(st, evs, ops)
    ensures DetailInv(DetailStep(st, ev, ops), evs + [ev], ops)
  {
    if !Files(ev) {
      DetailStepSkip(st, evs, ev, ops);
    } else {
      var s0, n0 := ev.args.value.stepId.value, ev.args.value.nodeName.value;
      if s0 in st.nameList && n0 in st.nameList[s0] {
        DetailStepSkip(st, evs, ev, ops);
      } else {
        var st' := DetailStep(st, ev, ops);
        DetailStepAddRow(st, evs, ev, ops);
        DetailStepOtherRows(st, evs, ev, ops);
        forall s, n
          ensures Known(st', evs + [ev], s, n)
        {
          FirstOfSnoc(evs, ev, s, n);
          assert Known(st, evs, s, n);
        }
      }
    }
  }

  lemma {:induction false} DetailAllInv(evs: seq<DetailEvent>, ops: Ops)
    ensures DetailInv(DetailAll(evs, ops), evs, ops)
  {
    if evs != [] {
      var init := evs[..|evs| - 1];
      DetailAllInv(init, ops);
      DetailStepInv(DetailAll(init, ops), init, evs[|evs| - 1], ops);
      assert init + [evs[|evs| - 1]] == evs;
    }
  }

  /** The first loop skips step -1, and for every other (step, name)
      files exactly the node of the first event that has them; the row of
      a step holds distinct names, and each node sits at its recorded
      position. */
  lemma DetailAllSpec(evs: seq<DetailEvent>, ops: Ops, s: int, n: string)
    ensures var st := DetailAll(evs, ops);
      -1 !in st.data && st.help.Keys == st.data.Keys &&
      ((s in st.help && n in st.help[s]) <==> FirstOf(evs, s, n).Some?) &&
      (s in st.help && n in st.help[s] ==>
        st.help[s][n] < |st.data[s]| && st.data[s][st.help[s][n]] == NodeOf(FirstOf(evs, s, n).value, ops))
  {
    var st := DetailAll(evs, ops);
    DetailAllInv(evs, ops);
    assert Known(st, evs, s, n);
    if s in st.help && n in st.help[s] {
      assert RowOk(st, evs, ops, s);
      var i :| 0 <= i < |st.nameList[s]| && st.nameList[s][i] == n;
      assert SlotOk(st, evs, ops, s, i);
    }
  }

  /** No two nodes of a step's row share a name. */
  lemma DetailAllDistinct(evs: seq<DetailEvent>, ops: Ops, s: int, i: int, j: int)
    requires var st := DetailAll(evs, ops); s in st.data && 0 <= i < j < |st.data[s]|
    ensures var st := DetailAll(evs, ops); st.data[s][i].name != st.data[s][j].name
  {
    var st := DetailAll(evs, ops);
    DetailAllInv(evs, ops);
    assert RowOk(st, evs, ops, s);
    assert SlotOk(st, evs, ops, s, i) && SlotOk(st, evs, ops, s, j);
  }

  /** The body of the first loop for an event it files. */
  method FileDetail(st0: DetailState, ev: DetailEvent, ops: Ops) returns (st: DetailState)
    requires Files(ev)
    ensures st == DetailStep(st0, ev, ops)
  {
    st := st0;
    var stepId := ev.args.value.stepId.value;
    var name := ev.args.value.nodeName.value;
    var nameList := st.nameList;
    if stepId !in nameList {
      nameList := nameList[stepId := []];
    }
    if name !in nameList[stepId] {
      var inputNameList: seq<string> := [];
      if ev.args.value.inputNodes.Some? {
        inputNameList := ev.args.value.inputNodes.value;
      } else if name in ops {
        inputNameList := ReadInputNames(ops[name]);
      }
      var d := ProfileNode(name, ev.name, ev.ts, ev.dur, ev.tid, None, [], inputNameList);
      nameList := nameList[stepId := nameList[stepId] + [name]];
      if stepId in st.data && stepId in st.help {
        var pos: map<string, nat> := st.help[stepId][name := |st.data[stepId]|];
        st := DetailState(nameList, st.data[stepId := st.data[stepId] + [d]], st.help[stepId := pos]);
      } else {
        var row := if stepId in st.data then st.data[stepId] else [];
        var pos: map<string, nat> := map[name := |row|];
        st := DetailState(nameList, st.data[stepId := row + [d]], st.help[stepId := pos]);
      }
    }
  }

  /** The first loop of ProcessEigenProf. */
  method CollectDetails(evs: seq<DetailEvent>, ops: Ops) returns (st: DetailState)
    ensures st == DetailAll(evs, ops)
  {
    st := DetailState(map[], map[], map[]);
    for k := 0 to |evs|
      invariant st == DetailAll(evs[..k], ops)
    {
      assert evs[..k + 1][..k] == evs[..k];
      var ev := evs[k];
      if Files(ev) {
        st := FileDetail(st, ev, ops);
      }
    }
    assert evs[..|evs|] == evs;
  }

  // ---------------------------------------------------------------------
  // ProcessEigenProf, second loop: log entries under their nodes

  type Data = map<int, seq<ProfileNode>>

  /** Every recorded position points into its step's row. */
  predicate Points(data: Data, help: map<int, map<string, nat>>)
  {
    forall s :: s in help ==> s in data && forall n :: n in help[s] ==> help[s][n] < |data[s]|
  }

  /** One pass of the second loop: an event without step id, or of step
      -1, is skipped; a missing node name or metric, or a step the first
      loop never filed, is a KeyError; otherwise the entry, with the op of
      its node, is appended to the children of the node filed for its
      name, if there is one. */
  function AttachStep(data: Data, help: map<int, map<string, nat>>, ev: EigenEvent): (r: Result<Data>)
    requires Points(data, help)
  {
    if ev.args.None? || ev.args.value.stepId.None? then Ok(data)
    else
      var s := ev.args.value.stepId.value;
      if s == -1 then Ok(data)
      else if ev.args.value.nodeName.None? || ev.args.value.tmam.None? || s !in help then Err(KeyError)
      else
        var n := ev.args.value.nodeName.value;
        if n in help[s] then
          var parent := data[s][help[s][n]];
          var child := ProfileNode(n, parent.op, ev.ts, ev.dur, ev.tid, ev.args.value.tmam, [], []);
          Ok(data[s := data[s][help[s][n] := parent.(children := parent.children + [child])]])
        else Ok(data)
  }

  /** Rows of the same steps and lengths, each node unchanged but for
      log entries appended to its children. */
  ghost predicate SameRows(d0: Data, d1: Data)
  {
    d0.Keys == d1.Keys && forall s :: s in d0 ==> |d0[s]| == |d1[s]|
  }

  predicate Grown(a: ProfileNode, b: ProfileNode)
  {
    a.(children := []) == b.(children := []) && a.children <= b.children
  }

  ghost predicate NodesGrown(d0: Data, d1: Data)
    requires SameRows(d0, d1)
  {
    forall s, i :: s in d0 && 0 <= i < |d0[s]| ==> Grown(d0[s][i], d1[s][i])
  }

  /** Every log entry under a node is a leaf with TMAM ratios and the
      node's op. */
  predicate ChildOk(parent: ProfileNode, c: ProfileNode)
  {
    c.op == parent.op && c.children == [] && c.tmam.Some?
  }

  ghost predicate EntriesOk(data: Data)
  {
    forall s, i, j :: s in data && 0 <= i < |data[s]| && 0 <= j < |data[s][i].children| ==>
      ChildOk(data[s][i], data[s][i].children[j])
  }

  lemma AttachStepSpec(data: Data, help: map<int, map<string, nat>>, ev: EigenEvent)
    requires Points(data, help)
    ensures var r := AttachStep(data, help, ev);
      r.Ok? ==>
        (SameRows(data, r.value) && NodesGrown(data, r.value) && Points(r.value, help) &&
         (EntriesOk(data) ==> EntriesOk(r.value)))
  {
  }

  /** The second loop: the rows when it ends, and the error that ended it
      early, if any. */
  function AttachAll(data: Data, help: map<int, map<string, nat>>, evs: seq<EigenEvent>): (Data, Option<string>)
    requires Points(data, help)
  {
    if evs == [] then (data, None)
    else
      match AttachStep(data, help, evs[0])
      case Err(m) => (data, Some(m))
      case Ok(d) => AttachStepSpec(data, help, evs[0]); AttachAll(d, help, evs[1..])
  }

  /** The second loop files no new node and changes none, but for log
      entries appended to their children, each taking its node's op. */
  lemma {:induction false} AttachAllSpec(data: Data, help: map<int, map<string, nat>>, evs: seq<EigenEvent>)
    requires Points(data, help)
    ensures var r := AttachAll(data, help, evs).0;
      SameRows(data, r) && NodesGrown(data, r) && (EntriesOk(data) ==> EntriesOk(r))
  {
    if evs != [] && AttachStep(data, help, evs[0]).Ok? {
      var d := AttachStep(data, help, evs[0]).value;
      AttachStepSpec(data, help, evs[0]);
      AttachAllSpec(d, help, evs[1..]);
      var r := AttachAll(d, help, evs[1..]).0;
      forall s, i | s in data && 0 <= i < |data[s]|
        ensures Grown(data[s][i], r[s][i])
      {
        assert Grown(data[s][i], d[s][i]) && Grown(d[s][i], r[s][i]);
      }
    }
  }

  /** The second loop stops at the first event it cannot file. */
  lemma {:induction false} AttachAllError(data: Data, help: map<int, map<string, nat>>, evs: seq<EigenEvent>)
    requires Points(data, help)
    ensures AttachAll(data, help, evs).1.Some? <==>
      exists k :: 0 <= k < |evs| && AttachAtFails(data, help, evs, k)
  {
    if evs != [] {
      if AttachStep(data, help, evs[0]).Err? {
        assert AttachAtFails(data, help, evs, 0);
      } else {
        var d := AttachStep(data, help, evs[0]).value;
        AttachStepSpec(data, help, evs[0]);
        AttachAllError(d, help, evs[1..]);
        if AttachAll(d, help, evs[1..]).1.Some? {
          var k :| 0 <= k < |evs[1..]| && AttachAtFails(d, help, evs[1..], k);
          AttachFailsShift(data, help, evs, k);
        } else {
          forall k | 0 <= k < |evs| && AttachAtFails(data, help, evs, k)
            ensures false
          {
            if k > 0 { AttachFailsShift(data, help, evs, k - 1); }
          }
        }
      }
    }
  }

  /** Event k of evs cannot be filed once the earlier ones are. */
  ghost predicate AttachAtFails(data: Data, help: map<int, map<string, nat>>, evs: seq<EigenEvent>, k: int)
    requires Points(data, help) && 0 <= k < |evs|
  {
    AttachPointsKept(data, help, evs[..k]);
    var before := AttachAll(data, help, evs[..k]);
    before.1.None? && AttachStep(before.0, help, evs[k]).Err?
  }

  lemma AttachPointsKept(data: Data, help: map<int, map<string, nat>>, evs: seq<EigenEvent>)
    requires Points(data, help)
    ensures Points(AttachAll(data, help, evs).0, help)
    decreases |evs|
  {
    if evs != [] && AttachStep(data, help, evs[0]).Ok? {
      AttachStepSpec(data, help, evs[0]);
      AttachPointsKept(AttachStep(data, help, evs[0]).value, help, evs[1..]);
    }
  }

  lemma AttachFailsShift(data: Data, help: map<int, map<string, nat>>, evs: seq<EigenEvent>, k: int)
    requires Points(data, help) && |evs| > 0 && AttachStep(data, help, evs[0]).Ok?
    requires 0 <= k < |evs| - 1
    ensures Points(AttachStep(data, help, evs[0]).value, help)
    ensures AttachAtFails(data, help, evs, k + 1) <==>
      AttachAtFails(AttachStep(data, help, evs[0]).value, help, evs[1..], k)
  {
    AttachStepSpec(data, help, evs[0]);
    assert evs[..k + 1][0] == evs[0] && evs[..k + 1][1..] == evs[1..][..k];
    AttachPointsKept(AttachStep(data, help, evs[0]).value, help, evs[1..][..k]);
  }

  /** The second loop of ProcessEigenProf. */
  method AttachEntries(data0: Data, help: map<int, map<string, nat>>, evs: seq<EigenEvent>)
    returns (data: Data, err: Option<string>)
    requires Points(data0, help)
    ensures (data, err) == AttachAll(data0, help, evs)
  {
    data := data0;
    var k := 0;
    while k < |evs|
      invariant 0 <= k <= |evs| && Points(data, help)
      invariant AttachAll(data, help, evs[k..]) == AttachAll(data0, help, evs)
    {
      assert evs[k..][0] == evs[k] && evs[k..][1..] == evs[k + 1..];
      var ev := evs[k];
      if ev.args.Some? && ev.args.value.stepId.Some? {
        var stepId := ev.args.value.stepId.value;
        if stepId != -1 {
          if ev.args.value.nodeName.None? || ev.args.value.tmam.None? || stepId !in help {
            return data, Some(KeyError);
          }
          var name := ev.args.value.nodeName.value;
          if name in help[stepId] {
            var e := data[stepId][help[stepId][name]];
            var d := ProfileNode(name, e.op, ev.ts, ev.dur, ev.tid, ev.args.value.tmam, [], []);
            data := data[stepId := data[stepId][help[stepId][name] := e.(children := e.children + [d])]];
          }
        }
      }
      AttachStepSpec(data0, help, ev);
      k := k + 1;
    }
    assert evs[k..] == [];
    err := None;
  }

  /** Every position the first loop records points into its row. */
  lemma DetailAllPoints(evs: seq<DetailEvent>, ops: Ops)
    ensures var st := DetailAll(evs, ops); Points(st.data, st.help)
  {
    var st := DetailAll(evs, ops);
    DetailAllInv(evs, ops);
    forall s | s in st.help
      ensures s in st.data && forall n :: n in st.help[s] ==> st.help[s][n] < |st.data[s]|
    {
      assert RowOk(st, evs, ops, s);
      forall n | n in st.help[s]
        ensures st.help[s][n] < |st.data[s]|
      {
        var i :| 0 <= i < |st.nameList[s]| && st.nameList[s][i] == n;
        assert SlotOk(st, evs, ops, s, i);
      }
    }
  }

  /** ProcessEigenProf over loaded events: the rows when it ends, and the
      KeyError that ended it early, if any. */
  function EigenProf(detailInfo: seq<DetailEvent>, eigenProf: seq<EigenEvent>, ops: Ops): (Data, Option<string>)
  {
    var st := DetailAll(detailInfo, ops);
    DetailAllPoints(detailInfo, ops);
    AttachAll(st.data, st.help, eigenProf)
  }

  /** After ProcessEigenProf every step row holds one node per name, the
      node of the first detailed event for it, grown only by log entries
      that carry its op; no row is for step -1. */
  lemma EigenProfSpec(detailInfo: seq<DetailEvent>, eigenProf: seq<EigenEvent>, ops: Ops, s: int, n: string)
    ensures var st := DetailAll(detailInfo, ops);
      var data := EigenProf(detailInfo, eigenProf, ops).0;
      -1 !in data && data.Keys == st.data.Keys && st.help.Keys == st.data.Keys && EntriesOk(data) &&
      ((s in st.help && n in st.help[s]) <==> FirstOf(detailInfo, s, n).Some?) &&
      (s in st.help && n in st.help[s] ==>
        st.help[s][n] < |data[s]| && Grown(NodeOf(FirstOf(detailInfo, s, n).value, ops), data[s][st.help[s][n]]))
  {
    var st := DetailAll(detailInfo, ops);
    DetailAllPoints(detailInfo, ops);
    DetailAllSpec(detailInfo, ops, s, n);
    AttachAllSpec(st.data, st.help, eigenProf);
    DetailAllInv(detailInfo, ops);
    forall s', i | s' in st.data && 0 <= i < |st.data[s']|
      ensures st.data[s'][i].children == []
    {
      assert RowOk(st, detailInfo, ops, s');
      assert SlotOk(st, detailInfo, ops, s', i);
    }
  }

  // ---------------------------------------------------------------------
  // TimelineData

  /** A loaded timeline: the MTMC log events, the detailed node states,
      the op args by name, and the nodes per step that ProcessEigenProf
      builds. */
  class TimelineData {
    const eigenProf: seq<EigenEvent>
    const detailInfo: seq<DetailEvent>
    const ops: Ops
    var data: Data

    constructor (eigenProf: seq<EigenEvent>, detailInfo: seq<DetailEvent>, ops: Ops)
      ensures this.eigenProf == eigenProf && this.detailInfo == detailInfo && this.ops == ops
      ensures data == map[]
    {
      this.eigenProf := eigenProf;
      this.detailInfo := detailInfo;
      this.ops := ops;
      data := map[];
    }

    /** ProcessEigenProf: file the detailed nodes, then hang the log
        entries under them; a KeyError leaves the rows as they were when
        it was raised. */
    method ProcessEigenProf() returns (err: Option<string>)
      modifies this
      ensures (data, err) == EigenProf(detailInfo, eigenProf, ops)
    {
      var st := CollectDetails(detailInfo, ops);
      DetailAllPoints(detailInfo, ops);
      data, err := AttachEntries(st.data, st.help, eigenProf);
    }

    /** GetStepIdList: the distinct step ids of the log events, never -1. */
    method GetStepIdList() returns (r: seq<int>)
      ensures Distinct(r) && -1 !in r
      ensures forall x :: x in r <==> exists i :: 0 <= i < |eigenProf| && CarriesStep(eigenProf[i], x)
    {
      var stepIdList: seq<int> := [];
      for k := 0 to |eigenProf|
        invariant stepIdList == StepIds(eigenProf[..k])
      {
        assert eigenProf[..k + 1][..k] == eigenProf[..k];
        var ev := eigenProf[k];
        if ev.args.Some? && ev.args.value.stepId.Some? {
          var stepId := ev.args.value.stepId.value;
          if stepId != -1 {
            stepIdList := stepIdList + [stepId];
          }
        }
      }
      assert eigenProf[..|eigenProf|] == eigenProf;
      r := Dedup(stepIdList);
      DedupSpec(stepIdList);
      StepIdsSpec(eigenProf);
    }

    /** GetOpNameList: the distinct node names of the log events that
        carry a step id, -1 included; a KeyError when one of them has no
        node name. */
    method GetOpNameList() returns (r: Result<seq<string>>)
      ensures r.Ok? <==> forall i :: 0 <= i < |eigenProf| ==> NameReadable(eigenProf[i])
      ensures r.Ok? ==>
        (Distinct(r.value) &&
         forall x :: x in r.value <==> exists i :: 0 <= i < |eigenProf| && CarriesName(eigenProf[i], x))
    {
      var opNameList: seq<string> := [];
      for k := 0 to |eigenProf|
        invariant forall i :: 0 <= i < k ==> NameReadable(eigenProf[i])
        invariant opNameList == NodeNames(eigenProf[..k])
      {
        assert eigenProf[..k + 1][..k] == eigenProf[..k];
        var ev := eigenProf[k];
        if ev.args.Some? && ev.args.value.stepId.Some? {
          if ev.args.value.nodeName.None? {
            return Err(KeyError);
          }
          opNameList := opNameList + [ev.args.value.nodeName.value];
        }
      }
      assert eigenProf[..|eigenProf|] == eigenProf;
      DedupSpec(opNameList);
      NodeNamesSpec(eigenProf);
      r := Ok(Dedup(opNameList));
    }
  }

  // ---------------------------------------------------------------------
  // Step ids and node names

  /** Event ev carries step x, which is not -1. */
  predicate CarriesStep(ev: EigenEvent, x: int)
  {
    ev.args.Some? && ev.args.value.stepId == Some(x) && x != -1
  }

  /** The step ids the loop of GetStepIdList collects, in order. */
  function StepIds(evs: seq<EigenEvent>): seq<int>
  {
    if evs == [] then []
    else
      var ev := evs[|evs| - 1];
      StepIds(evs[..|evs| - 1]) +
      (if ev.args.Some? && ev.args.value.stepId.Some? && ev.args.value.stepId.value != -1
       then [ev.args.value.stepId.value] else [])
  }

  lemma {:induction false} StepIdsSpec(evs: seq<EigenEvent>)
    ensures forall x :: x in StepIds(evs) <==> exists i :: 0 <= i < |evs| && CarriesStep(evs[i], x)
  {
    if evs != [] {
      var init := evs[..|evs| - 1];
      StepIdsSpec(init);
      forall x | x in StepIds(evs)
        ensures exists i :: 0 <= i < |evs| && CarriesStep(evs[i], x)
      {
        if x in StepIds(init) {
          var i :| 0 <= i < |init| && CarriesStep(init[i], x);
          assert evs[i] == init[i];
        } else {
          assert CarriesStep(evs[|evs| - 1], x);
        }
      }
      forall x, i | 0 <= i < |evs| && CarriesStep(evs[i], x)
        ensures x in StepIds(evs)
      {
        if i < |init| {
          assert init[i] == evs[i];
        }
      }
    }
  }

  /** An event whose node name a read would find: it carries no step id,
      or it has a node name. */
  predicate NameReadable(ev: EigenEvent)
  {
    ev.args.Some? && ev.args.value.stepId.Some? ==> ev.args.value.nodeName.Some?
  }

  predicate CarriesName(ev: EigenEvent, x: string)
  {
    ev.args.Some? && ev.args.value.stepId.Some? && ev.args.value.nodeName == Some(x)
  }

  /** The node names the loop of GetOpNameList collects, in order. */
  function NodeNames(evs: seq<EigenEvent>): seq<string>
  {
    if evs == [] then []
    else
      var ev := evs[|evs| - 1];
      NodeNames(evs[..|evs| - 1]) +
      (if ev.args.Some? && ev.args.value.stepId.Some? && ev.args.value.nodeName.Some?
       then [ev.args.value.nodeName.value] else [])
  }

  lemma {:induction false} NodeNamesSpec(evs: seq<EigenEvent>)
    ensures forall x :: x in NodeNames(evs) <==> exists i :: 0 <= i < |evs| && CarriesName(evs[i], x)
  {
    if evs != [] {
      var init := evs[..|evs| - 1];
      NodeNamesSpec(init);
      forall x | x in NodeNames(evs)
        ensures exists i :: 0 <= i < |evs| && CarriesName(evs[i], x)
      {
        if x in NodeNames(init) {
          var i :| 0 <= i < |init| && CarriesName(init[i], x);
          assert evs[i] == init[i];
        } else {
          assert CarriesName(evs[|evs| - 1], x);
        }
      }
      forall x, i | 0 <= i < |evs| && CarriesName(evs[i], x)
        ensures x in NodeNames(evs)
      {
        if i < |init| {
          assert init[i] == evs[i];
        }
      }
    }
  }

  predicate Distinct<T(==)>(xs: seq<T>)
  {
    forall i, j :: 0 <= i < j < |xs| ==> xs[i] != xs[j]
  }

  /** list(set(xs)), in first-occurrence order (Python leaves the order
      unspecified). */
  function Dedup<T(==)>(xs: seq<T>): seq<T>
  {
    if xs == [] then []
    else
      var d := Dedup(xs[..|xs| - 1]);
      if xs[|xs| - 1] in d then d else d + [xs[|xs| - 1]]
  }

  lemma {:induction false} DedupSpec<T>(xs: seq<T>)
    ensures Distinct(Dedup(xs))
    ensures forall x :: x in Dedup(xs) <==> x in xs
  {
    if xs != [] {
      var init := xs[..|xs| - 1];
      DedupSpec(init);
      assert xs == init + [xs[|xs| - 1]];
    }
  }
}
