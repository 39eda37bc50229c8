/** TimelineMapper in post_processing/post_processing.py: attaching each raw
    log to the framework node that scheduled it, by searching the node
    timeline (Check) or the logs already attached (ReCheck) for an interval
    of the parent thread that contains the parent's scheduling time, and
    CheckWorker, which routes each log to the mapped, recheck or failed
    list. */
module TimelineMapper {
  import opened Wrappers
  import opened PostProcessing

  /** The status codes of Check and ReCheck. */
  const kNotSchedularInterOp: int := -2
  const kNotFound: int := -3

  /** The search direction: kRight (0) walks up the list, kLeft (1) down. */
  datatype Direction = Right | Left

  /** The mapper's two inputs: the node states sorted by start time and the
      inter-op thread pool (the keys of its dict). It is valid only when
      both are present. */
  datatype Mapper = Mapper(sortedNodeState: Option<seq<(int, NodeState)>>, interOpPthreads: Option<set<int>>)
  {
    predicate Valid() { sortedNodeState.Some? && interOpPthreads.Some? }
  }

  /** What a search sees of a node or of an attached log: the thread it ran
      on and the interval [begin, end] it covers. */
  datatype Interval = Interval(thread: int, begin: int, end: int)

  /** A node covers [all_start_micros, all_start_micros + all_end_rel_micros]. */
  function NodeInterval(n: NodeState): Interval
  {
    Interval(n.threadId, n.allStartMicros, n.allStartMicros + n.allEndRelMicros)
  }

  function NodeIntervals(nodes: seq<(int, NodeState)>): seq<Interval>
  {
    seq(|nodes|, i requires 0 <= i < |nodes| => NodeInterval(nodes[i].1))
  }

  /** An attached log covers [time_begin, time_end] on its pthread. */
  function LogIntervals(logs: seq<SingleLog>): seq<Interval>
  {
    seq(|logs|, i requires 0 <= i < |logs| => Interval(logs[i].pthreadId, logs[i].timeBegin, logs[i].timeEnd))
  }

  /** The interval is on `thread` and contains time t. */
  predicate Hit(iv: Interval, thread: int, t: int)
  {
    iv.thread == thread && iv.begin <= t <= iv.end
  }

  /** Where a search starts: last_place, or 0 when it is out of range. */
  function StartIndex(n: int, last: int): int
  {
    if last < 0 || last >= n then 0 else last
  }

  /** The search loop from idx on: leftward it stops at the first hit below;
      rightward it gives up at the first interval beginning after t and
      otherwise stops at the first interval of the thread ending at or after
      t. The pair is (status, place); status == place means found. */
  function ScanFrom(ivs: seq<Interval>, dir: Direction, thread: int, t: int, idx: int, last: int): (r: (int, int))
    ensures r.0 == kNotFound || (r.0 == r.1 && 0 <= r.1 < |ivs|)
    ensures r.1 == last || 0 <= r.1 < |ivs|
    decreases if 0 <= idx < |ivs| then (if dir == Right then |ivs| - idx else idx + 1) else 0
  {
    if !(0 <= idx < |ivs|) then (kNotFound, last)
    else match dir
      case Left =>
        if Hit(ivs[idx], thread, t) then (idx, idx) else ScanFrom(ivs, dir, thread, t, idx - 1, last)
      case Right =>
        if ivs[idx].begin > t then (kNotFound, idx)
        else if ivs[idx].thread == thread && ivs[idx].end >= t then (idx, idx)
        else ScanFrom(ivs, dir, thread, t, idx + 1, last)
  }

  /** One search from last_place. */
  function Search(ivs: seq<Interval>, dir: Direction, thread: int, t: int, last: int): (int, int)
  {
    ScanFrom(ivs, dir, thread, t, StartIndex(|ivs|, last), last)
  }

  /** The while loop shared by Check and ReCheck. */
  method Scan(ivs: seq<Interval>, dir: Direction, thread: int, t: int, last: int) returns (status: int, place: int)
    ensures (status, place) == Search(ivs, dir, thread, t, last)
  {
    var idx := last + 0;
    if idx < 0 || idx >= |ivs| {
      idx := 0;
    }
    while 0 <= idx < |ivs|
      invariant ScanFrom(ivs, dir, thread, t, idx, last) == Search(ivs, dir, thread, t, last)
      decreases if 0 <= idx < |ivs| then (if dir == Right then |ivs| - idx else idx + 1) else 0
    {
      var iv := ivs[idx];
      if dir == Left {
        if thread == iv.thread {
          if iv.begin <= t <= iv.end {
            return idx, idx;
          }
        }
        idx := idx - 1;
      } else {
        if iv.begin > t {
          return kNotFound, idx;
        }
        if thread == iv.thread {
          if iv.end >= t {
            return idx, idx;
          }
        }
        idx := idx + 1;
      }
    }
    return kNotFound, last;
  }

  /** Check: None when the mapper is not valid; kNotSchedularInterOp with
      last_place unchanged when the parent thread is not in the inter-op
      pool; otherwise the search of the node timeline for the parent's
      thread and scheduling time. */
  method Check(m: Mapper, log: SingleLog, dir: Direction, last: int) returns (r: Option<(int, int)>)
    ensures r.None? <==> !m.Valid()
    ensures m.Valid() && log.parentPthreadId !in m.interOpPthreads.value ==>
      r == Some((kNotSchedularInterOp, last))
    ensures m.Valid() && log.parentPthreadId in m.interOpPthreads.value ==>
      r == Some(Search(NodeIntervals(m.sortedNodeState.value), dir, log.parentPthreadId, log.parentSchedTime, last))
  {
    if !m.Valid() {
      return None;
    }
    if log.parentPthreadId !in m.interOpPthreads.value {
      return Some((kNotSchedularInterOp, last));
    }
    var status, place := Scan(NodeIntervals(m.sortedNodeState.value), dir, log.parentPthreadId,
                              log.parentSchedTime, last);
    return Some((status, place));
  }

  /** ReCheck: the same search over the logs already mapped, on their
      pthread and [time_begin, time_end]; the inter-op pool is not
      consulted. */
  method ReCheck(m: Mapper, log: SingleLog, dir: Direction, last: int, mappedLogs: seq<SingleLog>)
    returns (r: Option<(int, int)>)
    ensures r.None? <==> !m.Valid()
    ensures m.Valid() ==>
      r == Some(Search(LogIntervals(mappedLogs), dir, log.parentPthreadId, log.parentSchedTime, last))
  {
    if !m.Valid() {
      return None;
    }
    var status, place := Scan(LogIntervals(mappedLogs), dir, log.parentPthreadId, log.parentSchedTime, last);
    return Some((status, place));
  }

  // ---------------------------------------------------------------------
  // What a search finds

  /** No interval from a to b begins after t. */
  predicate Unblocked(ivs: seq<Interval>, t: int, a: int, b: int)
    requires 0 <= a && b < |ivs|
  {
    forall k :: a <= k <= b ==> ivs[k].begin <= t
  }

  /** A rightward scan reports found exactly when some hit lies at or after
      idx with no interval beginning after t on the way, and then it reports
      the first such hit. */
  lemma {:induction false} RightScan(ivs: seq<Interval>, thread: int, t: int, idx: int, last: int)
    requires 0 <= idx && 0 <= last
    ensures var (s, i) := ScanFrom(ivs, Right, thread, t, idx, last);
      (s == i <==> exists j :: idx <= j < |ivs| && Hit(ivs[j], thread, t) && Unblocked(ivs, t, idx, j)) &&
      (s == i ==> idx <= i < |ivs| && Hit(ivs[i], thread, t) && Unblocked(ivs, t, idx, i) &&
                  forall j :: idx <= j < i ==> !Hit(ivs[j], thread, t))
    decreases |ivs| - idx
  {
    if idx < |ivs| {
      if ivs[idx].begin > t {
        forall j | idx <= j < |ivs| ensures !Unblocked(ivs, t, idx, j) {
          assert ivs[idx].begin > t;
        }
      } else if ivs[idx].thread == thread && ivs[idx].end >= t {
        assert Unblocked(ivs, t, idx, idx);
      } else {
        RightScan(ivs, thread, t, idx + 1, last);
        forall j | idx + 1 <= j < |ivs| ensures Unblocked(ivs, t, idx, j) <==> Unblocked(ivs, t, idx + 1, j) {
        }
        if exists j :: idx <= j < |ivs| && Hit(ivs[j], thread, t) && Unblocked(ivs, t, idx, j) {
          var j :| idx <= j < |ivs| && Hit(ivs[j], thread, t) && Unblocked(ivs, t, idx, j);
          assert j != idx;
        }
      }
    }
  }

  /** A leftward scan reports found exactly when some hit lies at or below
      idx, and then it reports the highest such hit. */
  lemma {:induction false} LeftScan(ivs: seq<Interval>, thread: int, t: int, idx: int, last: int)
    requires idx < |ivs| && 0 <= last
    ensures var (s, i) := ScanFrom(ivs, Left, thread, t, idx, last);
      (s == i <==> exists j :: 0 <= j <= idx && Hit(ivs[j], thread, t)) &&
      (s == i ==> 0 <= i <= idx && Hit(ivs[i], thread, t) && forall j :: i < j <= idx ==> !Hit(ivs[j], thread, t))
    decreases idx + 1
  {
    if 0 <= idx && !Hit(ivs[idx], thread, t) {
      LeftScan(ivs, thread, t, idx - 1, last);
    }
  }

  /** Check and ReCheck report found (status == idx) only for an interval of
      the parent's thread that contains its scheduling time, when last_place
      is not negative (it never is in the workers). A rightward search finds
      the first such interval from its start before any interval beginning
      later than t; a leftward one the last such interval up to its start. */
  lemma SearchFinds(ivs: seq<Interval>, dir: Direction, thread: int, t: int, last: int)
    requires 0 <= last
    ensures var (s, i) := Search(ivs, dir, thread, t, last);
      var start := StartIndex(|ivs|, last);
      (s == i ==> 0 <= i < |ivs| && Hit(ivs[i], thread, t)) &&
      (dir == Right ==> (s == i <==> exists j :: start <= j < |ivs| && Hit(ivs[j], thread, t) && Unblocked(ivs, t, start, j))) &&
      (dir == Left ==> (s == i <==> exists j :: 0 <= j <= start && j < |ivs| && Hit(ivs[j], thread, t)))
  {
    var start := StartIndex(|ivs|, last);
    if dir == Right {
      RightScan(ivs, thread, t, start, last);
    } else if |ivs| > 0 {
      LeftScan(ivs, thread, t, start, last);
    }
  }

  /** A last_place out of range restarts the search at 0: the status is the
      one a search from 0 reports. */
  lemma OutOfRangeRestarts(ivs: seq<Interval>, dir: Direction, thread: int, t: int, last: int)
    requires last < 0 || last >= |ivs|
    ensures Search(ivs, dir, thread, t, last).0 == Search(ivs, dir, thread, t, 0).0
  {
    StatusIgnoresLast(ivs, dir, thread, t, 0, last, 0);
  }

  /** The status of a scan does not depend on last_place. */
  lemma {:induction false} StatusIgnoresLast(ivs: seq<Interval>, dir: Direction, thread: int, t: int,
                                             idx: int, last: int, last': int)
    ensures ScanFrom(ivs, dir, thread, t, idx, last).0 == ScanFrom(ivs, dir, thread, t, idx, last').0
    decreases if 0 <= idx < |ivs| then (if dir == Right then |ivs| - idx else idx + 1) else 0
  {
    if 0 <= idx < |ivs| {
      if dir == Right {
        StatusIgnoresLast(ivs, dir, thread, t, idx + 1, last, last');
      } else {
        StatusIgnoresLast(ivs, dir, thread, t, idx - 1, last, last');
      }
    }
  }

  /** Ordered by start time, as the node list is. */
  predicate SortedByBegin(ivs: seq<Interval>)
  {
    forall i, j :: 0 <= i <= j < |ivs| ==> ivs[i].begin <= ivs[j].begin
  }

  /** The thread's intervals contain t somewhere. */
  predicate Hittable(ivs: seq<Interval>, thread: int, t: int)
  {
    exists j :: 0 <= j < |ivs| && Hit(ivs[j], thread, t)
  }

  /** Over a list ordered by start time, the rightward search followed by
      the leftward one, both from the same last_place, finds an interval
      exactly when one exists anywhere. */
  lemma SortedSearchComplete(ivs: seq<Interval>, thread: int, t: int, last: int)
    requires SortedByBegin(ivs) && 0 <= last
    ensures var r := Search(ivs, Right, thread, t, last);
      var l := Search(ivs, Left, thread, t, last);
      (r.0 == r.1 || l.0 == l.1) <==> Hittable(ivs, thread, t)
  {
    SearchFinds(ivs, Right, thread, t, last);
    SearchFinds(ivs, Left, thread, t, last);
    var start := StartIndex(|ivs|, last);
    if Hittable(ivs, thread, t) {
      var j :| 0 <= j < |ivs| && Hit(ivs[j], thread, t);
      if j > start {
        assert Unblocked(ivs, t, start, j);
      }
    }
  }

  // ---------------------------------------------------------------------
  // CheckWorker

  /** The loop variables of CheckWorker. */
  datatype WorkerState = WorkerState(lastPlace: int, mapped: seq<SingleLog>, recheck: seq<SingleLog>,
                                     failed: seq<SingleLog>)

  /** CheckWorker's result lists. */
  datatype Partition = Partition(mapped: seq<SingleLog>, recheck: seq<SingleLog>, failed: seq<SingleLog>)

  const Initial := WorkerState(0, [], [], [])

  /** The log with the node found at i attached as its scheduler. */
  function Attach(st: WorkerState, log: SingleLog, nodes: seq<(int, NodeState)>, i: int): WorkerState
    requires 0 <= i < |nodes|
  {
    st.(lastPlace := i, mapped := st.mapped + [log.(schedular := Some(nodes[i].1))])
  }

  /** One log: AttributeError without an inter-op pool; recheck when the
      parent is not in it; a TypeError unpacking Check's None without a node
      list; otherwise mapped when the rightward or else the leftward search
      from last_place finds a node, and failed when neither does. */
  function Step(m: Mapper, st: WorkerState, log: SingleLog): (r: Result<WorkerState>)
    requires st.lastPlace >= 0
    ensures r.Ok? ==> r.value.lastPlace >= 0
  {
    if m.interOpPthreads.None? then Err("AttributeError: inter_op_pthreads is None")
    else if log.parentPthreadId !in m.interOpPthreads.value then Ok(st.(recheck := st.recheck + [log]))
    else if m.sortedNodeState.None? then Err("TypeError: cannot unpack None")
    else
      var nodes := m.sortedNodeState.value;
      var ivs := NodeIntervals(nodes);
      var right := Search(ivs, Right, log.parentPthreadId, log.parentSchedTime, st.lastPlace);
      if right.0 == right.1 then Ok(Attach(st, log, nodes, right.1))
      else
        var left := Search(ivs, Left, log.parentPthreadId, log.parentSchedTime, st.lastPlace);
        if left.0 == left.1 then Ok(Attach(st, log, nodes, left.1))
        else Ok(st.(failed := st.failed + [log]))
  }

  function Run(m: Mapper, st: WorkerState, logs: seq<SingleLog>): Result<WorkerState>
    requires st.lastPlace >= 0
    decreases |logs|
  {
    if logs == [] then Ok(st)
    else
      match Step(m, st, logs[0])
      case Err(e) => Err(e)
      case Ok(st') => Run(m, st', logs[1..])
  }

  function Outcome(r: Result<WorkerState>): Result<Partition>
  {
    match r
    case Err(e) => Err(e)
    case Ok(st) => Ok(Partition(st.mapped, st.recheck, st.failed))
  }

  /** CheckWorker over one slice of the raw logs. */
  method CheckWorker(m: Mapper, logs: seq<SingleLog>) returns (r: Result<Partition>)
    ensures r == Outcome(Run(m, Initial, logs))
  {
    var lastPlace := 0;
    var mapped: seq<SingleLog> := [];
    var recheck: seq<SingleLog> := [];
    var failed: seq<SingleLog> := [];
    for i := 0 to |logs|
      invariant lastPlace >= 0
      invariant Run(m, WorkerState(lastPlace, mapped, recheck, failed), logs[i..]) == Run(m, Initial, logs)
    {
      var log := logs[i];
      assert logs[i..][0] == log && logs[i..][1..] == logs[i + 1..];
      if m.interOpPthreads.None? {
        return Err("AttributeError: inter_op_pthreads is None");
      }
      if log.parentPthreadId !in m.interOpPthreads.value {
        recheck := recheck + [log];
        continue;
      }
      var res := Check(m, log, Right, lastPlace);
      if res.None? {
        return Err("TypeError: cannot unpack None");
      }
      var (status, idx) := res.value;
      if status == idx {
        lastPlace := idx;
        mapped := mapped + [log.(schedular := Some(m.sortedNodeState.value[idx].1))];
        continue;
      }
      res := Check(m, log, Left, lastPlace);
      var (status', idx') := res.value;
      if status' == idx' {
        lastPlace := idx';
        mapped := mapped + [log.(schedular := Some(m.sortedNodeState.value[idx'].1))];
        continue;
      }
      failed := failed + [log];
    }
    assert logs[|logs|..] == [];
    return Ok(Partition(mapped, recheck, failed));
  }

  // ---------------------------------------------------------------------
  // Where CheckWorker routes the logs

  /** The logs whose parent is outside the inter-op pool, in order. */
  function NotInPool(pool: set<int>, logs: seq<SingleLog>): (r: seq<SingleLog>)
    ensures |r| <= |logs|
    decreases |logs|
  {
    if logs == [] then []
    else (if logs[0].parentPthreadId !in pool then [logs[0]] else []) + NotInPool(pool, logs[1..])
  }

  /** A mapped log: its scheduler is one of the nodes, on its parent's thread
      and covering its parent's scheduling time. */
  predicate Placed(nodes: seq<(int, NodeState)>, log: SingleLog)
  {
    log.schedular.Some? &&
    (exists j :: 0 <= j < |nodes| && nodes[j].1 == log.schedular.value) &&
    Hit(NodeInterval(log.schedular.value), log.parentPthreadId, log.parentSchedTime)
  }

  /** With both inputs present, CheckWorker succeeds. It places every log in
      exactly one list: recheck holds, in input order, exactly the logs
      whose parent is outside the inter-op pool; every mapped log carries a
      node on its parent's thread that covers the parent's scheduling time;
      every failed log has its parent in the pool. */
  lemma {:induction false} RunValid(m: Mapper, st: WorkerState, logs: seq<SingleLog>)
    requires m.Valid() && st.lastPlace >= 0
    ensures Run(m, st, logs).Ok?
    ensures var st' := Run(m, st, logs).value;
      var pool := m.interOpPthreads.value;
      st'.recheck == st.recheck + NotInPool(pool, logs) &&
      |st'.mapped| + |st'.recheck| + |st'.failed| == |st.mapped| + |st.recheck| + |st.failed| + |logs| &&
      |st.mapped| <= |st'.mapped| && st'.mapped[..|st.mapped|] == st.mapped &&
      |st.failed| <= |st'.failed| && st'.failed[..|st.failed|] == st.failed &&
      (forall k :: |st.mapped| <= k < |st'.mapped| ==> Placed(m.sortedNodeState.value, st'.mapped[k])) &&
      (forall k :: |st.failed| <= k < |st'.failed| ==> st'.failed[k].parentPthreadId in pool)
  {
    RunCounts(m, st, logs);
    RunPlaced(m, st, logs);
  }

  lemma {:induction false} RunCounts(m: Mapper, st: WorkerState, logs: seq<SingleLog>)
    requires m.Valid() && st.lastPlace >= 0
    ensures Run(m, st, logs).Ok?
    ensures var st' := Run(m, st, logs).value;
      st'.recheck == st.recheck + NotInPool(m.interOpPthreads.value, logs) &&
      |st'.mapped| + |st'.recheck| + |st'.failed| == |st.mapped| + |st.recheck| + |st.failed| + |logs|
    decreases |logs|
  {
    if logs != [] {
      StepValid(m, st, logs[0]);
      RunCounts(m, Step(m, st, logs[0]).value, logs[1..]);
    }
  }

  lemma {:induction false} RunPlaced(m: Mapper, st: WorkerState, logs: seq<SingleLog>)
    requires m.Valid() && st.lastPlace >= 0
    ensures Run(m, st, logs).Ok?
    ensures var st' := Run(m, st, logs).value;
      var pool := m.interOpPthreads.value;
      |st.mapped| <= |st'.mapped| && st'.mapped[..|st.mapped|] == st.mapped &&
      |st.failed| <= |st'.failed| && st'.failed[..|st.failed|] == st.failed &&
      (forall k :: |st.mapped| <= k < |st'.mapped| ==> Placed(m.sortedNodeState.value, st'.mapped[k])) &&
      (forall k :: |st.failed| <= k < |st'.failed| ==> st'.failed[k].parentPthreadId in pool)
    decreases |logs|
  {
    if logs != [] {
      var st1 := Step(m, st, logs[0]).value;
      StepValid(m, st, logs[0]);
      RunPlaced(m, st1, logs[1..]);
      var st' := Run(m, st, logs).value;
      assert st'.mapped[..|st.mapped|] == st1.mapped[..|st1.mapped|][..|st.mapped|];
      assert st'.failed[..|st.failed|] == st1.failed[..|st1.failed|][..|st.failed|];
    }
  }

  /** One step of RunValid. */
  lemma StepValid(m: Mapper, st: WorkerState, log: SingleLog)
    requires m.Valid() && st.lastPlace >= 0
    ensures Step(m, st, log).Ok?
    ensures var st1 := Step(m, st, log).value;
      var pool := m.interOpPthreads.value;
      st1.recheck == st.recheck + (if log.parentPthreadId !in pool then [log] else []) &&
      |st1.mapped| + |st1.recheck| + |st1.failed| == |st.mapped| + |st.recheck| + |st.failed| + 1 &&
      (st1.mapped == st.mapped || (st1.mapped == st.mapped + [st1.mapped[|st.mapped|]] &&
                                   Placed(m.sortedNodeState.value, st1.mapped[|st.mapped|]))) &&
      (st1.failed == st.failed || (st1.failed == st.failed + [log] && log.parentPthreadId in pool))
  {
    var pool := m.interOpPthreads.value;
    if log.parentPthreadId in pool {
      var nodes := m.sortedNodeState.value;
      var ivs := NodeIntervals(nodes);
      var right := Search(ivs, Right, log.parentPthreadId, log.parentSchedTime, st.lastPlace);
      var left := Search(ivs, Left, log.parentPthreadId, log.parentSchedTime, st.lastPlace);
      SearchFinds(ivs, Right, log.parentPthreadId, log.parentSchedTime, st.lastPlace);
      SearchFinds(ivs, Left, log.parentPthreadId, log.parentSchedTime, st.lastPlace);
      var i := if right.0 == right.1 then right.1 else left.1;
      if right.0 == right.1 || left.0 == left.1 {
        var placed := log.(schedular := Some(nodes[i].1));
        assert NodeInterval(placed.schedular.value) == ivs[i];
        assert Placed(nodes, placed);
      }
    }
  }

  /** The route a log takes when the node list is ordered by start time. */
  datatype Route = ToMapped | ToRecheck | ToFailed

  function RouteOf(m: Mapper, log: SingleLog): Route
    requires m.Valid()
  {
    if log.parentPthreadId !in m.interOpPthreads.value then ToRecheck
    else if Hittable(NodeIntervals(m.sortedNodeState.value), log.parentPthreadId, log.parentSchedTime) then ToMapped
    else ToFailed
  }

  /** The logs taking a route, in input order. */
  function Routed(m: Mapper, logs: seq<SingleLog>, route: Route): seq<SingleLog>
    requires m.Valid()
    decreases |logs|
  {
    if logs == [] then []
    else (if RouteOf(m, logs[0]) == route then [logs[0]] else []) + Routed(m, logs[1..], route)
  }

  /** The mapped logs are the given logs, in order, each with a node
      attached that places it. */
  predicate MappedFrom(nodes: seq<(int, NodeState)>, mapped: seq<SingleLog>, src: seq<SingleLog>)
  {
    |mapped| == |src| &&
    forall k :: 0 <= k < |mapped| ==>
      mapped[k] == src[k].(schedular := mapped[k].schedular) && Placed(nodes, mapped[k])
  }

  /** When the nodes are ordered by start time, CheckWorker's routing is
      determined log by log: a log goes to recheck exactly when its parent
      is outside the pool and fails exactly when its parent is in the pool
      and no node of the parent's thread covers its scheduling time; both
      lists keep input order. */
  lemma {:induction false} RunSorted(m: Mapper, st: WorkerState, logs: seq<SingleLog>)
    requires m.Valid() && SortedByBegin(NodeIntervals(m.sortedNodeState.value)) && st.lastPlace >= 0
    ensures Run(m, st, logs).Ok?
    ensures var st' := Run(m, st, logs).value;
      st'.recheck == st.recheck + Routed(m, logs, ToRecheck) &&
      st'.failed == st.failed + Routed(m, logs, ToFailed)
    decreases |logs|
  {
    if logs != [] {
      var log := logs[0];
      StepValid(m, st, log);
      StepSorted(m, st, log);
      RunSorted(m, Step(m, st, log).value, logs[1..]);
    }
  }

  /** ... and the mapped list holds exactly the logs some node covers, in
      input order, each with a covering node attached. */
  lemma {:induction false} RunSortedMapped(m: Mapper, st: WorkerState, logs: seq<SingleLog>)
    requires m.Valid() && SortedByBegin(NodeIntervals(m.sortedNodeState.value)) && st.lastPlace >= 0
    ensures Run(m, st, logs).Ok?
    ensures var st' := Run(m, st, logs).value;
      |st.mapped| <= |st'.mapped| && st'.mapped[..|st.mapped|] == st.mapped &&
      MappedFrom(m.sortedNodeState.value, st'.mapped[|st.mapped|..], Routed(m, logs, ToMapped))
    decreases |logs|
  {
    if logs == [] {
      assert st.mapped[|st.mapped|..] == [];
    } else {
      var log := logs[0];
      StepValid(m, st, log);
      StepSorted(m, st, log);
      var st1 := Step(m, st, log).value;
      RunSortedMapped(m, st1, logs[1..]);
      var st' := Run(m, st, logs).value;
      assert st'.mapped[..|st.mapped|] == st1.mapped[..|st1.mapped|][..|st.mapped|];
      var rest := Routed(m, logs[1..], ToMapped);
      var tail := st'.mapped[|st1.mapped|..];
      if RouteOf(m, log) == ToMapped {
        var x := st1.mapped[|st.mapped|];
        assert st'.mapped[|st.mapped|..] == [x] + tail;
        assert Routed(m, logs, ToMapped) == [log] + rest;
        MappedFromCons(m.sortedNodeState.value, x, tail, log, rest);
      } else {
        assert st'.mapped[|st.mapped|..] == tail;
        assert Routed(m, logs, ToMapped) == rest;
      }
    }
  }

  lemma MappedFromCons(nodes: seq<(int, NodeState)>, x: SingleLog, xs: seq<SingleLog>, s: SingleLog, ss: seq<SingleLog>)
    requires MappedFrom(nodes, xs, ss) && x == s.(schedular := x.schedular) && Placed(nodes, x)
    ensures MappedFrom(nodes, [x] + xs, [s] + ss)
  {
    forall k | 0 <= k < |xs| + 1
      ensures ([x] + xs)[k] == ([s] + ss)[k].(schedular := ([x] + xs)[k].schedular) && Placed(nodes, ([x] + xs)[k])
    {
      if k > 0 {
        assert ([x] + xs)[k] == xs[k - 1];
        assert ([s] + ss)[k] == ss[k - 1];
      }
    }
  }

  /** One step of RunSorted. */
  lemma StepSorted(m: Mapper, st: WorkerState, log: SingleLog)
    requires m.Valid() && SortedByBegin(NodeIntervals(m.sortedNodeState.value)) && st.lastPlace >= 0
    ensures Step(m, st, log).Ok?
    ensures var st1 := Step(m, st, log).value;
      var route := RouteOf(m, log);
      st1.failed == st.failed + (if route == ToFailed then [log] else []) &&
      (route == ToMapped ==> |st1.mapped| == |st.mapped| + 1 &&
                             st1.mapped[|st.mapped|] == log.(schedular := st1.mapped[|st.mapped|].schedular)) &&
      (route != ToMapped ==> st1.mapped == st.mapped)
  {
    if log.parentPthreadId in m.interOpPthreads.value {
      SortedSearchComplete(NodeIntervals(m.sortedNodeState.value), log.parentPthreadId, log.parentSchedTime, st.lastPlace);
    }
  }

  /** CheckWorker fails exactly when a log is reached without an inter-op
      pool, or with its parent in the pool and no node list. */
  lemma {:induction false} RunErrors(m: Mapper, st: WorkerState, logs: seq<SingleLog>)
    requires st.lastPlace >= 0
    ensures Run(m, st, logs).Ok? <==>
      logs == [] ||
      (m.interOpPthreads.Some? &&
       (m.sortedNodeState.Some? || forall k :: 0 <= k < |logs| ==> logs[k].parentPthreadId !in m.interOpPthreads.value))
    decreases |logs|
  {
    if logs != [] && m.interOpPthreads.Some? {
      if m.sortedNodeState.Some? {
        RunValid(m, st, logs);
      } else {
        var pool := m.interOpPthreads.value;
        if logs[0].parentPthreadId !in pool {
          RunErrors(m, Step(m, st, logs[0]).value, logs[1..]);
          if forall k :: 0 <= k < |logs[1..]| ==> logs[1..][k].parentPthreadId !in pool {
            forall k | 0 <= k < |logs| ensures logs[k].parentPthreadId !in pool {
              if k > 0 {
                assert logs[k] == logs[1..][k - 1];
              }
            }
          }
        }
      }
    }
  }
}
