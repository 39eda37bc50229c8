/** The profiler facade of cpp/mtmc_profiler.cpp: reference-counted Init and
    Close over one collector shared by every instance, the registry from
    kernel thread id to record storage, LogStart and LogEnd, the Finish
    line format and ExportThreadPoolInfo.

    Oracles: the environment variables are Option<string> parameters, the
    content of the config file and whether an output file opens are
    parameters, and the kernel thread id, the pthread id, the clock and the
    rdtscp auxiliary value are plain values passed in by the caller. The
    thread_local caches of GetParamsInfo, LogStart and LogEnd are objects
    the caller passes, one per thread and function, shared by every
    profiler instance on that thread as in the source. */
module MtmcProfiler {
  import opened Wrappers
  import opened Machine
  import opened Text
  import Env
  import opened PerfmonTypes
  import PerfmonConfig
  import opened PerfmonCollector
  import opened ProfileRecords
  import Util

  /** One thread's record vector: an element of profile_storage_. */
  class ProfileVector {
    var records: seq<SingleProfile>

    constructor()
      ensures records == []
    {
      records := [];
    }
  }

  /** ThreadInfo: the thread_local cache of LogStart or of LogEnd. */
  class ThreadInfo {
    var tid: int
    var pthreadId: int
    var storage: ProfileVector?

    constructor()
      ensures tid == -1 && pthreadId == -1 && storage == null
    {
      tid := -1;
      pthreadId := -1;
      storage := null;
    }
  }

  /** The thread_local ids GetParamsInfo caches. */
  class TidCache {
    var ktid: int
    var pthreadTid: int

    constructor()
      ensures ktid == -1 && pthreadTid == -1
    {
      ktid := -1;
      pthreadTid := -1;
    }
  }

  /** InitContext on a new collector, which has no agents yet, returns 1
      for these groups, cores and kernel answers. */
  predicate CollectorStarts(cfg: seq<InputConfig>, cpus: seq<int>, maxNumCore: int, k: Kernel, now: int)
  {
    AllValid(cfg) && InitAll(GrowStates([], maxNumCore), cfg, cpus, maxNumCore, k, now).0 == 1
  }

  /** ReadConfig over the file's lines into an empty vector, starting from
      the topdown flag `td`. */
  function ConfigRun(text: string, td: bool): PerfmonConfig.ReadOutcome
  {
    PerfmonConfig.Run(PerfmonConfig.Reader(PerfmonConfig.INIT, PerfmonConfig.EmptyGroup, [], td), Split(text, '\n'))
  }

  /** The groups the first Init hands to InitContext: the groups read, and
      the topdown group after them when the file asks for it. */
  function LoadedConfig(text: string, td: bool): seq<InputConfig>
  {
    var out := ConfigRun(text, td);
    if out.topdown then PerfmonConfig.PerfMetricConfig(out.configs, 1).1 else out.configs
  }

  /** The first Init succeeds: the config file exists, ReadConfig returns
      1, and InitContext on the new collector does not return -1. */
  predicate FirstInitSucceeds(configFile: Option<string>, td: bool, cpus: seq<int>, maxNumCore: int,
                              k: Kernel, now: int)
  {
    configFile.Some? && ConfigRun(configFile.value, td).ret == 1 &&
    CollectorStarts(LoadedConfig(configFile.value, td), cpus, maxNumCore, k, now)
  }

  /** The first Init can succeed: a config file holding one (empty) group
      reads with 1, and with no core listed InitContext answers 1 whatever
      the kernel does. */
  lemma FirstInitReachable(k: Kernel, now: int)
    ensures FirstInitSucceeds(Some("Group,g\nEnd"), false, [], 0, k, now)
  {
    var g := PerfmonConfig.EmptyGroup.(groupName := "g");
    OneGroupConfig();
    assert LoadedConfig("Group,g\nEnd", false) == [g];
    NoCoreStarts([g], k, now);
  }

  /** A file with one header and its "End" line reads as that one group. */
  lemma OneGroupConfig()
    ensures ConfigRun("Group,g\nEnd", false) ==
            PerfmonConfig.ReadOutcome(1, [PerfmonConfig.EmptyGroup.(groupName := "g")], false)
  {
    OneGroupLines();
    var rd := PerfmonConfig.Reader(PerfmonConfig.INIT, PerfmonConfig.EmptyGroup, [], false);
    var rd2 := rd.(state := PerfmonConfig.EVENTS, temp := rd.temp.(groupName := "g"));
    OneGroupHeader(rd);
    PerfmonConfig.EndLineClosesGroup(rd2, []);
  }

  /** The example file splits into its header and its "End" line. */
  lemma OneGroupLines()
    ensures Split("Group,g\nEnd", '\n') == ["Group,g", "End"]
  {
    assert NoneContain(["Group,g", "End"], '\n');
    SplitJoin(["Group,g", "End"], '\n');
    assert JoinOn(["Group,g", "End"], ['\n']) == "Group,g\nEnd";
  }

  /** The header line opens group "g". */
  lemma OneGroupHeader(rd: PerfmonConfig.Reader)
    requires rd.temp.Valid() && rd.state == PerfmonConfig.INIT
    ensures PerfmonConfig.Run(rd, ["Group,g", "End"]) ==
            PerfmonConfig.Run(rd.(state := PerfmonConfig.EVENTS, temp := rd.temp.(groupName := "g")), ["End"])
  {
    OneGroupFields();
    OneGroupPlainHeader();
    PerfmonConfig.HeaderLine(rd, "Group,g", ["End"]);
    assert ["Group,g"] + ["End"] == ["Group,g", "End"];
  }

  /** The header names the keyword and the group. */
  lemma OneGroupFields()
    ensures Split("Group,g", ',') == ["Group", "g"]
  {
    assert NoneContain(["Group", "g"], ',');
    SplitJoin(["Group", "g"], ',');
    assert JoinOn(["Group", "g"], [',']) == "Group,g";
  }

  /** The header is neither an "End" line nor the topdown switch. */
  lemma OneGroupPlainHeader()
    ensures !Contains("Group,g", "End") && !Contains("Group,g", "UseTopdownMetric")
  {
    PerfmonConfig.NotContainsEnd("Group,g", "End");
  }

  /** With no core listed, InitContext on a new collector answers 1. */
  lemma NoCoreStarts(cfg: seq<InputConfig>, k: Kernel, now: int)
    requires AllValid(cfg)
    ensures CollectorStarts(cfg, [], 0, k, now)
  {
    assert InitAll(GrowStates([], 0), cfg, [], 0, k, now).0 == 1;
  }

  /** A new collector whose context initialised, or none: a collector whose
      initialisation fails is dropped. Its destructor's CloseContext refuses
      a collector that is not ready, so the handles registered before the
      failure stay open. */
  method StartCollector(cfg: seq<InputConfig>, cpus: seq<int>, maxNumCore: int, k: Kernel, now: int)
    returns (c: PerfmonCollector?)
    requires AllValid(cfg)
    ensures c != null ==> fresh(c) && c.Valid() && c.ready
    ensures c != null <==> CollectorStarts(cfg, cpus, maxNumCore, k, now)
  {
    c := new PerfmonCollector();
    assert StatesOf(c.agents) == [];
    var ir := c.InitContext(cfg, cpus, maxNumCore, k, now);
    if ir == -1 {
      var closed, released := c.CloseContext(k);
      return null;
    }
  }

  /** The static members every MTMCProfiler shares: the Inited counter, the
      collector and the topdown flag of mtmc_setting_. `live` is the set of
      instances that are currently valid. */
  class Statics {
    var inited: int
    var collector: PerfmonCollector?
    var topdown: bool
    ghost var live: set<MTMCProfiler>

    ghost function CollectorRepr(): set<object>
      reads this, collector
    {
      if collector == null then {} else {collector as object} + set a: object | a in collector.agents
    }

    /** Inited counts the valid instances, and the collector exists exactly
        while one of them is valid. */
    ghost predicate Valid()
      reads this, live, collector, CollectorRepr()
    {
      inited == |live| &&
      (collector != null <==> inited >= 1) &&
      (forall p :: p in live ==> p.valid && p.statics == this) &&
      (collector != null ==> collector.Valid() && collector.ready)
    }

    constructor()
      ensures Valid() && inited == 0 && collector == null && !topdown && live == {}
    {
      inited := 0;
      collector := null;
      topdown := false;
      live := {};
    }

    /** The config read of the first Init, as PerfmonConfig::ReadConfig
        into an empty vector: the topdown flag is set from the file even
        when the read fails, and the topdown group is appended when it asks
        for it. */
    method LoadConfig(configFile: Option<string>) returns (ok: bool, cfg: seq<InputConfig>)
      modifies this
      ensures inited == old(inited) && live == old(live) && collector == old(collector)
      ensures AllValid(cfg)
      ensures configFile.None? ==> !ok && topdown == old(topdown)
      ensures configFile.Some? ==>
        var out := PerfmonConfig.Run(PerfmonConfig.Reader(PerfmonConfig.INIT, PerfmonConfig.EmptyGroup, [], old(topdown)),
                                     Split(configFile.value, '\n'));
        ok == (out.ret == 1) && topdown == out.topdown &&
        (ok ==> cfg == if topdown then PerfmonConfig.PerfMetricConfig(out.configs, 1).1 else out.configs)
    {
      var stat, td;
      stat, cfg, td := PerfmonConfig.ReadConfig(true, true, configFile, [], topdown);
      PerfmonConfig.RunKeepsGroupsValid(
        PerfmonConfig.Reader(PerfmonConfig.INIT, PerfmonConfig.EmptyGroup, [], topdown),
        if configFile.Some? then Split(configFile.value, '\n') else []);
      topdown := td;
      ok := stat == 1;
      if ok && topdown {
        cfg := PerfmonConfig.PerfMetricConfig(cfg, 1).1;
      }
    }

    /** The first-instance branch of Init: reads the config, then
        initialises a new collector, which is dropped again when its
        initialisation fails. */
    method InitCollector(configFile: Option<string>, cpus: seq<int>, maxNumCore: int, k: Kernel, now: int)
      returns (r: int)
      requires collector == null
      modifies this
      ensures inited == old(inited) && live == old(live)
      ensures r == 1 || r == -1
      ensures r == 1 ==> fresh(collector) && collector.Valid() && collector.ready
      ensures r == -1 ==> collector == null
      ensures configFile.None? ==> r == -1
      ensures r == 1 <==> FirstInitSucceeds(configFile, old(topdown), cpus, maxNumCore, k, now)
    {
      var ok, cfg := LoadConfig(configFile);
      if !ok {
        return -1;
      }
      var c := StartCollector(cfg, cpus, maxNumCore, k, now);
      if c == null {
        return -1;
      }
      collector := c;
      r := 1;
    }

    /** The locked part of Init once a collector exists: a newly valid
        instance joins the count. */
    method Join(p: MTMCProfiler)
      requires inited == |live| && collector != null && collector.Valid() && collector.ready
      requires forall q :: q in live ==> q.valid && q.statics == this
      requires p !in live && p.valid && p.statics == this
      modifies this
      ensures Valid() && live == old(live) + {p} && inited == old(inited) + 1
      ensures collector == old(collector) && topdown == old(topdown)
    {
      assert |live + {p}| == |live| + 1;
      inited := inited + 1;
      live := live + {p};
    }

    /** The locked part of Close: the instance leaves the count, and when it
        was the last one the collector is released, its destructor closing
        the context. */
    method Leave(p: MTMCProfiler, k: Kernel) returns (r: int, released: seq<(int, int)>)
      requires Valid() && p in live
      modifies this, collector
      ensures Valid() && live == old(live) - {p} && inited == old(inited) - 1 && topdown == old(topdown)
      ensures r == 1 || r == 2
      ensures r == 2 <==> old(inited) <= 1 && old(collector) != null
      ensures r == 2 <==> old(inited) == 1
      ensures r == 2 ==> collector == null && AgentsValid(old(collector.agents)) &&
                         released == AllHandles(old(collector.agents))
      ensures r == 1 ==> collector == old(collector) && released == []
    {
      if inited <= 1 && collector != null {
        released := Release(k);
        r := 2;
      } else {
        r, released := 1, [];
      }
      assert |live - {p}| == |live| - 1;
      inited := inited - 1;
      live := live - {p};
    }

    /** The collector's destructor: it closes its context and is dropped. */
    method Release(k: Kernel) returns (released: seq<(int, int)>)
      requires Valid() && collector != null
      modifies this, collector
      ensures collector == null && inited == old(inited) && live == old(live) && topdown == old(topdown)
      ensures AgentsValid(old(collector.agents)) && released == AllHandles(old(collector.agents))
    {
      var closed;
      closed, released := collector.CloseContext(k);
      collector := null;
    }

    /** perfmon_collector_->PerCoreRead: a counter read through the shared
        collector on the core of `aux`, whose status the profiler ignores. */
    method ReadCounters(isStart: bool, aux: int, hw: int -> MmapPage, k: Kernel, now: int, ret: seq<int>)
      returns (out: seq<int>, rd: ReadResult)
      requires Valid() && collector != null && IsU32(aux) && PagesOk(hw) && |ret| >= Env.GP_COUNTER
      modifies collector.AgentFor(aux)
      ensures Valid()
      ensures |out| == |ret| && 0 <= rd.numEvent <= Env.GP_COUNTER
      ensures rd.coreId == Env.GetCoreId(aux).pid && rd.prefix == Env.GetCoreId(aux).prefix
    {
      var status;
      status, out, rd := collector.PerCoreRead(isStart, aux, hw, k, now, ret);
    }
  }

  /** The MTMC_PROF_DISABLE test of Init: a value of length 1 or 4 that
      compares equal to "1" or "true". */
  predicate DisabledByEnv(flag: Option<string>)
  {
    flag.Some? && (|flag.value| == 1 || |flag.value| == 4) &&
    (flag.value == "1" || flag.value == "true")
  }

  /** The length test only short-cuts the comparison: exactly the values
      "1" and "true" disable the profiler. */
  lemma DisabledExactly(flag: Option<string>)
    ensures DisabledByEnv(flag) <==> flag == Some("1") || flag == Some("true")
  {
  }

  class MTMCProfiler {
    const statics: Statics
    var valid: bool
    var storage: seq<ProfileVector>
    var mapper: map<int, ProfileVector>
    /** The tid each vector of the list was created for. */
    ghost var owners: seq<int>

    /** The shared state is consistent, this instance is counted exactly
        while valid, and the tid map is a bijection onto the record list. */
    ghost predicate Valid()
      reads this, statics, statics.live, statics.collector, statics.CollectorRepr(), storage
    {
      statics.Valid() && (valid <==> this in statics.live) && Registry()
    }

    /** The tid map is a bijection onto the record list, and every stored
        record is well formed. */
    ghost predicate Registry()
      reads this, storage
    {
      (forall t :: t in mapper ==> mapper[t] in storage) &&
      (forall t, u :: t in mapper && u in mapper && t != u ==> mapper[t] != mapper[u]) &&
      (forall i, j :: 0 <= i < j < |storage| ==> storage[i] != storage[j]) &&
      |owners| == |storage| &&
      (forall i :: 0 <= i < |storage| ==> owners[i] in mapper && mapper[owners[i]] == storage[i]) &&
      (forall i :: 0 <= i < |storage| ==> AllWellFormed(storage[i].records))
    }

    constructor(statics: Statics)
      requires statics.Valid()
      ensures Valid() && !valid && storage == [] && mapper == map[]
      ensures this.statics == statics
    {
      this.statics := statics;
      valid := false;
      storage := [];
      mapper := map[];
      owners := [];
    }

    /** The objects a read through this auxiliary value may change. */
    ghost function ReadFrame(aux: int): set<object>
      requires IsU32(aux)
      reads this, statics, statics.collector
    {
      if statics.collector == null then {} else statics.collector.AgentFor(aux)
    }

    // -------------------------------------------------------------------
    // Init and Close

    /** Init. The first instance to initialise reads the config, appends
        the topdown group when the config asks for it and initialises a new
        collector; later instances only join the count. */
    method Init(disableFlag: Option<string>, configFile: Option<string>, cpus: seq<int>,
                maxNumCore: int, k: Kernel, now: int) returns (r: int)
      requires Valid()
      modifies this, statics
      ensures Valid() && storage == old(storage) && mapper == old(mapper)
      ensures r == 1 || r == -1
      ensures DisabledByEnv(disableFlag) ==> r == -1 && unchanged(statics)
      ensures r == 1 ==> valid && statics.live == old(statics.live) + {this}
      ensures r == 1 ==> statics.inited == old(statics.inited) + (if old(valid) then 0 else 1)
      ensures r == 1 && old(statics.inited) < 1 ==> fresh(statics.collector) && statics.collector.ready
      ensures r == 1 && old(statics.inited) >= 1 ==> statics.collector == old(statics.collector)
      ensures r == -1 ==> valid == old(valid) && statics.inited == old(statics.inited) &&
                          statics.live == old(statics.live) && statics.collector == old(statics.collector)
      ensures !DisabledByEnv(disableFlag) && old(statics.inited) >= 1 ==> r == 1
      ensures !DisabledByEnv(disableFlag) && old(statics.inited) < 1 ==>
                (r == 1 <==> FirstInitSucceeds(configFile, old(statics.topdown), cpus, maxNumCore, k, now))
    {
      if DisabledByEnv(disableFlag) {
        return -1;
      }
      if statics.inited < 1 {
        r := InitFirst(configFile, cpus, maxNumCore, k, now);
        return;
      } else if !valid {
        Enter();
      }
      r := 1;
    }

    /** The branch of Init that finds no instance initialised: this
        instance initialises the collector and joins the count, or fails
        and changes nothing the other instances see. */
    method InitFirst(configFile: Option<string>, cpus: seq<int>, maxNumCore: int, k: Kernel, now: int)
      returns (r: int)
      requires Valid() && statics.inited < 1
      modifies this, statics
      ensures Valid() && storage == old(storage) && mapper == old(mapper)
      ensures r == 1 || r == -1
      ensures r == 1 <==> FirstInitSucceeds(configFile, old(statics.topdown), cpus, maxNumCore, k, now)
      ensures r == 1 ==> valid && statics.live == old(statics.live) + {this}
      ensures r == 1 ==> statics.inited == old(statics.inited) + (if old(valid) then 0 else 1)
      ensures r == 1 ==> fresh(statics.collector) && statics.collector.ready
      ensures r == -1 ==> valid == old(valid) && statics.inited == old(statics.inited) &&
                          statics.live == old(statics.live) && statics.collector == old(statics.collector)
    {
      r := statics.InitCollector(configFile, cpus, maxNumCore, k, now);
      if r == -1 {
        return -1;
      }
      Enter();
    }

    /** `valid_ = true` with the count taken: an instance that was not yet
        valid joins the live ones over an initialised collector. */
    method Enter()
      requires !valid && Registry() && this !in statics.live
      requires statics.inited == |statics.live| && statics.collector != null
      requires statics.collector.Valid() && statics.collector.ready
      requires forall q :: q in statics.live ==> q.valid && q.statics == statics
      modifies this, statics
      ensures Valid() && valid && storage == old(storage) && mapper == old(mapper)
      ensures statics.live == old(statics.live) + {this} && statics.inited == old(statics.inited) + 1
      ensures statics.collector == old(statics.collector) && statics.topdown == old(statics.topdown)
    {
      valid := true;
      statics.Join(this);
      assert Registry();
    }

    /** Close. A valid instance leaves the count; the last one out releases
        the collector, whose destructor closes its context, and returns 2. */
    method Close(k: Kernel) returns (r: int, released: seq<(int, int)>)
      requires Valid()
      modifies this, statics, statics.collector
      ensures Valid() && !valid && storage == old(storage) && mapper == old(mapper)
      ensures r == 1 || r == 2
      ensures statics.live == old(statics.live) - {this}
      ensures statics.inited == old(statics.inited) - (if old(valid) then 1 else 0)
      ensures r == 2 <==> old(valid) && old(statics.inited) <= 1 && old(statics.collector) != null
      ensures r == 2 <==> old(valid) && old(statics.inited) == 1
      ensures r == 2 ==> statics.collector == null && AgentsValid(old(statics.collector.agents)) &&
                         released == AllHandles(old(statics.collector.agents))
      ensures r == 1 ==> statics.collector == old(statics.collector) && released == []
    {
      if valid {
        r, released := Exit(k);
        return;
      }
      r, released := 1, [];
    }

    /** The valid branch of Close: the instance leaves the count and is no
        longer valid; the last one out releases the collector. */
    method Exit(k: Kernel) returns (r: int, released: seq<(int, int)>)
      requires Valid() && valid
      modifies this, statics, statics.collector
      ensures Valid() && !valid && storage == old(storage) && mapper == old(mapper)
      ensures statics.live == old(statics.live) - {this} && statics.inited == old(statics.inited) - 1
      ensures r == 1 || r == 2
      ensures r == 2 <==> old(statics.inited) == 1
      ensures r == 2 <==> old(statics.inited) <= 1 && old(statics.collector) != null
      ensures r == 2 ==> statics.collector == null && AgentsValid(old(statics.collector.agents)) &&
                         released == AllHandles(old(statics.collector.agents))
      ensures r == 1 ==> statics.collector == old(statics.collector) && released == []
    {
      assert Registry();
      r, released := statics.Leave(this, k);
      valid := false;
      assert statics.Valid();
      assert Registry();
    }

    // -------------------------------------------------------------------
    // The thread registry

    /** RegisterPerThreadStorage: finds the vector of the thread's tid, or
        creates and registers an empty one when asked to, or reports none. */
    method RegisterPerThreadStorage(th: ThreadInfo, createAtAbsence: bool)
      requires Valid()
      modifies th, if createAtAbsence then {this} else {}
      ensures Valid() && valid == old(valid)
      ensures th.tid == old(th.tid) && th.pthreadId == old(th.pthreadId)
      ensures th.tid in old(mapper) ==>
                th.storage == old(mapper)[th.tid] && mapper == old(mapper) && storage == old(storage)
      ensures th.tid !in old(mapper) && createAtAbsence ==>
                fresh(th.storage) && th.storage.records == [] &&
                storage == old(storage) + [th.storage] && mapper == old(mapper)[th.tid := th.storage]
      ensures th.tid !in old(mapper) && !createAtAbsence ==>
                th.storage == null && mapper == old(mapper) && storage == old(storage)
    {
      if th.tid !in mapper {
        if createAtAbsence {
          var v := AddStorage(th.tid);
          th.storage := v;
        } else {
          th.storage := null;
        }
      } else {
        th.storage := mapper[th.tid];
      }
    }

    /** Creates an empty record vector and registers it under tid. */
    method AddStorage(tid: int) returns (v: ProfileVector)
      requires Valid() && tid !in mapper
      modifies this
      ensures Valid() && valid == old(valid)
      ensures fresh(v) && v.records == []
      ensures storage == old(storage) + [v] && mapper == old(mapper)[tid := v]
    {
      v := new ProfileVector();
      storage := storage + [v];
      owners := owners + [tid];
      mapper := mapper[tid := v];
      assert storage[|storage| - 1] == v && mapper[tid] == v;
    }

    /** The vector LogStart writes to: the cached one, else the one of the
        tid it is about to cache, else none (a new one is created). */
    ghost function StartSlot(th: ThreadInfo, ktid: int): ProfileVector?
      reads this, th
    {
      if th.tid != -1 then th.storage
      else if ktid in mapper then mapper[ktid]
      else null
    }

    /** The vector LogEnd writes to, or null when it finds none. */
    ghost function EndSlot(th: ThreadInfo, ktid: int): ProfileVector?
      reads this, th
    {
      var tid := if th.tid == -1 then ktid else th.tid;
      if th.storage != null then th.storage
      else if tid in mapper then mapper[tid]
      else null
    }

    // -------------------------------------------------------------------
    // GetParamsInfo, LogStart, LogEnd

    /** GetParamsInfo: all zero on an invalid instance; otherwise the cached
        kernel and pthread ids of the calling thread and the clock. */
    method GetParamsInfo(cache: TidCache, ktid: int, pthreadId: int, clockNs: int)
      returns (info: ParamsInfo)
      requires Valid()
      modifies cache
      ensures !valid ==> info == ZeroParams && unchanged(cache)
      ensures valid ==>
        cache.ktid == (if old(cache.ktid) == -1 then ktid else old(cache.ktid)) &&
        cache.pthreadTid == (if old(cache.pthreadTid) == -1 then pthreadId else old(cache.pthreadTid)) &&
        info == ParamsInfo(cache.ktid, cache.pthreadTid, clockNs, 0)
    {
      if !valid {
        return ZeroParams;
      }
      if cache.ktid == -1 {
        cache.ktid := ktid;
      }
      if cache.pthreadTid == -1 {
        cache.pthreadTid := pthreadId;
      }
      info := ParamsInfo(cache.ktid, cache.pthreadTid, clockNs, 0);
    }

    /** LogStart: appends one record to the thread's vector, registering the
        thread first if its cache is empty, and fills in the start read. The
        read's own outcome does not change the return code. */
    method LogStart(params: ParamsInfo, prefix: string, th: ThreadInfo, ktid: int, pthreadId: int,
                    clockNs: int, aux: int, hw: int -> MmapPage, k: Kernel, now: int)
      returns (r: int)
      requires Valid() && IsU32(aux) && PagesOk(hw)
      requires th.tid != -1 ==> th.storage != null
      requires th.storage != null ==> AllWellFormed(th.storage.records)
      modifies this, th, StartSlot(th, ktid), ReadFrame(aux)
      ensures Valid() && valid == old(valid)
      ensures !old(valid) ==> r == -1 && unchanged(th) && storage == old(storage) && mapper == old(mapper)
      ensures old(valid) ==>
        var slot := old(StartSlot(th, ktid));
        var before := if slot == null then [] else old(slot.records);
        r == 1 && th.storage != null &&
        th.tid == (if old(th.tid) == -1 then ktid else old(th.tid)) &&
        th.pthreadId == (if old(th.tid) == -1 then pthreadId else old(th.pthreadId)) &&
        (slot != null ==> th.storage == slot) && (slot == null ==> fresh(th.storage)) &&
        |th.storage.records| == |before| + 1 && th.storage.records[..|before|] == before &&
        AllWellFormed(th.storage.records) &&
        StartRecord(th.storage.records[|before|], params, prefix, th.tid, th.pthreadId, clockNs, aux)
    {
      if !valid {
        return -1;
      }
      var v := StartStorage(th, ktid, pthreadId);
      var rec := EmptyProfile.(prefix := prefix, parentInfo := params, tid := th.tid,
                               pthreadId := th.pthreadId, startTs := clockNs);
      var out, rd := statics.ReadCounters(true, aux, hw, k, now, rec.retStart);
      rec := rec.(retStart := out, rdStart := rd, hasStartInfo := true);
      Push(v, rec);
      r := 1;
    }

    /** Whether LogEnd finds a record to close: a vector that is not empty
        and whose last record has its start. */
    ghost predicate EndFound(th: ThreadInfo, ktid: int)
      reads this, th, EndSlot(th, ktid)
    {
      var v := EndSlot(th, ktid);
      v != null && |v.records| > 0 && Last(v.records).hasStartInfo
    }

    /** LogEnd: overwrites the end stamp and end read of the last record of
        the thread's vector; fails when there is no vector, it is empty, or
        its last record has no start. */
    method LogEnd(th: ThreadInfo, ktid: int, pthreadId: int, clockNs: int, aux: int,
                  hw: int -> MmapPage, k: Kernel, now: int)
      returns (r: int)
      requires Valid() && IsU32(aux) && PagesOk(hw)
      requires th.storage != null ==> AllWellFormed(th.storage.records)
      modifies th, EndSlot(th, ktid), ReadFrame(aux)
      ensures Valid()
      ensures r == 1 || r == -1
      ensures !valid ==> r == -1 && unchanged(th)
      ensures valid ==>
        th.tid == (if old(th.tid) == -1 then ktid else old(th.tid)) &&
        th.storage == old(EndSlot(th, ktid))
      ensures r == 1 <==> valid && old(EndFound(th, ktid))
      ensures r == -1 && old(EndSlot(th, ktid)) != null ==>
        old(EndSlot(th, ktid)).records == old(EndSlot(th, ktid).records)
      ensures r == 1 ==>
        var before := old(EndSlot(th, ktid).records);
        |th.storage.records| == |before| && AllWellFormed(th.storage.records) &&
        th.storage.records[..|before| - 1] == before[..|before| - 1] &&
        EndRecord(Last(th.storage.records), Last(before), clockNs, aux)
    {
      if !valid {
        return -1;
      }
      var v := EndStorage(th, ktid, pthreadId);
      if v == null || |v.records| == 0 {
        return -1;
      }
      if !v.records[|v.records| - 1].hasStartInfo {
        return -1;
      }
      EndLast(v, clockNs, aux, hw, k, now);
      r := 1;
    }

    /** The end of LogEnd once its record is found: the end read and the end
        stamp overwrite those of the vector's last record. */
    method EndLast(v: ProfileVector, clockNs: int, aux: int, hw: int -> MmapPage, k: Kernel, now: int)
      requires Valid() && valid && IsU32(aux) && PagesOk(hw)
      requires AllWellFormed(v.records) && |v.records| > 0
      modifies v, ReadFrame(aux)
      ensures Valid()
      ensures var before := old(v.records);
        |v.records| == |before| && AllWellFormed(v.records) &&
        v.records[..|before| - 1] == before[..|before| - 1] &&
        EndRecord(Last(v.records), Last(before), clockNs, aux)
    {
      var last := v.records[|v.records| - 1];
      var out, rd := statics.ReadCounters(false, aux, hw, k, now, last.retEnd);
      SetBack(v, last.(endTs := clockNs, retEnd := out, rdEnd := rd));
    }

    /** The first lines of LogStart: a thread seen for the first time caches
        its ids and its vector, created when the tid has none. */
    method StartStorage(th: ThreadInfo, ktid: int, pthreadId: int) returns (v: ProfileVector)
      requires Valid()
      requires th.tid != -1 ==> th.storage != null
      requires th.storage != null ==> AllWellFormed(th.storage.records)
      modifies this, th
      ensures Valid() && valid == old(valid) && v == th.storage
      ensures th.tid == (if old(th.tid) == -1 then ktid else old(th.tid))
      ensures th.pthreadId == (if old(th.tid) == -1 then pthreadId else old(th.pthreadId))
      ensures old(StartSlot(th, ktid)) != null ==>
                v == old(StartSlot(th, ktid)) && v.records == old(StartSlot(th, ktid).records)
      ensures old(StartSlot(th, ktid)) == null ==> fresh(v) && v.records == []
      ensures AllWellFormed(v.records)
    {
      if th.tid == -1 {
        th.tid := ktid;
        th.pthreadId := pthreadId;
        RegisterPerThreadStorage(th, true);
      }
      v := th.storage;
    }

    /** The first lines of LogEnd: a thread seen for the first time caches
        its ids, and a thread without a cached vector looks its tid up. */
    method EndStorage(th: ThreadInfo, ktid: int, pthreadId: int) returns (v: ProfileVector?)
      requires Valid()
      requires th.storage != null ==> AllWellFormed(th.storage.records)
      modifies th
      ensures Valid() && v == th.storage && v == old(EndSlot(th, ktid))
      ensures th.tid == (if old(th.tid) == -1 then ktid else old(th.tid))
      ensures v != null ==> AllWellFormed(v.records)
    {
      if th.tid == -1 {
        th.tid := ktid;
        th.pthreadId := pthreadId;
      }
      if th.storage == null {
        RegisterPerThreadStorage(th, false);
      }
      v := th.storage;
    }

    /** push_back on a thread's vector. */
    method Push(v: ProfileVector, rec: SingleProfile)
      requires Valid() && AllWellFormed(v.records) && rec.WellFormed()
      modifies v
      ensures Valid() && v.records == old(v.records) + [rec]
    {
      v.records := v.records + [rec];
    }

    /** Writing through back() of a thread's vector. */
    method SetBack(v: ProfileVector, rec: SingleProfile)
      requires Valid() && AllWellFormed(v.records) && |v.records| > 0 && rec.WellFormed()
      modifies v
      ensures Valid() && v.records == old(v.records)[..|old(v.records)| - 1] + [rec]
    {
      v.records := v.records[..|v.records| - 1] + [rec];
    }

    // -------------------------------------------------------------------
    // Finish

    /** The record vectors' contents, in list order. */
    ghost function Contents(): seq<seq<SingleProfile>>
      reads this, storage
    {
      var vs := storage;
      seq(|vs|, i requires 0 <= i < |vs| reads vs => vs[i].records)
    }

    /** Finish: -1 on an invalid instance or an output file that does not
        open; otherwise one line per kept record, vector by vector. */
    method Finish(fileOk: bool) returns (r: int, lines: seq<string>)
      requires Valid()
      ensures r == 1 || r == -1
      ensures r == -1 <==> !valid || !fileOk
      ensures r == -1 ==> lines == []
      ensures r == 1 ==> lines == FinishLines(Contents(), statics.topdown)
    {
      if !valid {
        return -1, [];
      }
      if !fileOk {
        return -1, [];
      }
      lines := [];
      var i := 0;
      while i < |storage|
        invariant 0 <= i <= |storage|
        invariant lines == FinishLines(Contents()[..i], statics.topdown)
      {
        var emitted := EmitRecords(storage[i].records, statics.topdown);
        assert Contents()[..i + 1][..i] == Contents()[..i];
        lines := lines + emitted;
        i := i + 1;
      }
      assert Contents()[..i] == Contents();
      r := 1;
    }
  }

  function Last<T>(s: seq<T>): T
    requires |s| > 0
  {
    s[|s| - 1]
  }

  /** The record LogStart appends: a value-initialised record with the
      caller's prefix and parent, the thread's ids, the start stamp, a start
      read taken on the core and prefix of `aux`, and the start flag. */
  ghost predicate StartRecord(rec: SingleProfile, params: ParamsInfo, prefix: string, tid: int,
                              pthreadId: int, clockNs: int, aux: int)
  {
    IsU32(aux) && rec.WellFormed() &&
    rec == EmptyProfile.(prefix := prefix, parentInfo := params, tid := tid, pthreadId := pthreadId,
                         startTs := clockNs, rdStart := rec.rdStart, retStart := rec.retStart,
                         hasStartInfo := true) &&
    rec.rdStart.coreId == Env.GetCoreId(aux).pid && rec.rdStart.prefix == Env.GetCoreId(aux).prefix
  }

  /** The record LogEnd leaves: the old one with only the end stamp and the
      end read replaced, the read taken on the core and prefix of `aux`. */
  ghost predicate EndRecord(rec: SingleProfile, old_: SingleProfile, clockNs: int, aux: int)
  {
    IsU32(aux) && rec.WellFormed() &&
    rec == old_.(endTs := clockNs, rdEnd := rec.rdEnd, retEnd := rec.retEnd) &&
    rec.rdEnd.coreId == Env.GetCoreId(aux).pid && rec.rdEnd.prefix == Env.GetCoreId(aux).prefix
  }

  // ---------------------------------------------------------------------
  // The Finish line format

  /** The record filter of Finish, corrected: equal start and end counts
      and, with topdown metrics on, at least the three topdown values. */
  predicate Kept(p: SingleProfile, topdown: bool)
  {
    p.rdStart.numEvent == p.rdEnd.numEvent && !(topdown && p.rdStart.numEvent < 3)
  }

  /** The record filter of Finish as written: with topdown metrics on it
      only drops counts below 2. */
  predicate KeptAsWritten(p: SingleProfile, topdown: bool)
  {
    p.rdStart.numEvent == p.rdEnd.numEvent && !(topdown && p.rdStart.numEvent - 2 < 0)
  }

  /** How many ordinary counter values follow the triple: with topdown
      metrics on, the last three values are written separately. */
  function ValueCount(p: SingleProfile, topdown: bool): int
  {
    if topdown then p.rdStart.numEvent - 3 else p.rdStart.numEvent
  }

  /** Each field followed by a comma. */
  function Fields(fs: seq<string>): string
  {
    if fs == [] then "" else Fields(fs[..|fs| - 1]) + fs[|fs| - 1] + ","
  }

  /** num_event, core id and prefix of a read. */
  function Triple(rd: ReadResult): string
  {
    DecI32(rd.numEvent) + "_" + DecU32(rd.coreId) + "_" + DecU32(rd.prefix)
  }

  /** The six topdown values: three from the start read, three from the end. */
  function TopdownField(p: SingleProfile, n: int): string
    requires p.WellFormed() && 0 <= n && n + 3 <= RET_SLOTS
  {
    JoinOn(DecU64s(p.retStart[n..n + 3]) + DecU64s(p.retEnd[n..n + 3]), "_")
  }

  /** The fields up to the first read: ids, stamps, parent information
      and the topdown values (an empty field without topdown metrics). */
  function HeaderFields(p: SingleProfile, topdown: bool): (fs: seq<string>)
    requires p.WellFormed() && Kept(p, topdown)
  {
    [DecI64(p.tid), DecU32(p.pthreadId), DecU64(p.startTs), DecU64(p.endTs),
     DecI64(p.parentInfo.parentTid), DecU32(p.parentInfo.parentPthreadId),
     DecU64(p.parentInfo.taskSchedTime),
     if topdown then TopdownField(p, ValueCount(p, topdown)) else ""]
  }

  /** The fields of one read: its triple, then its values joined by '_'
      when there are any. */
  function ReadFields(rd: ReadResult, vals: seq<int>): (fs: seq<string>)
  {
    [Triple(rd)] + if |vals| > 0 then [JoinOn(DecU64s(vals), "_")] else []
  }

  /** The fields of one kept record's line, in the order Finish writes them. */
  function LineFields(p: SingleProfile, topdown: bool): (fs: seq<string>)
    requires p.WellFormed() && Kept(p, topdown)
  {
    var n := ValueCount(p, topdown);
    HeaderFields(p, topdown) + ReadFields(p.rdStart, p.retStart[..n]) + ReadFields(p.rdEnd, p.retEnd[..n])
  }

  /** One line of the Finish output, without its newline. */
  function Line(p: SingleProfile, topdown: bool): string
    requires p.WellFormed() && Kept(p, topdown)
  {
    Fields(LineFields(p, topdown))
  }

  /** The lines of the kept records of one vector. */
  function KeptLines(ps: seq<SingleProfile>, topdown: bool): seq<string>
    requires AllWellFormed(ps)
  {
    if ps == [] then []
    else
      var p := ps[|ps| - 1];
      KeptLines(ps[..|ps| - 1], topdown) + (if Kept(p, topdown) then [Line(p, topdown)] else [])
  }

  /** The whole Finish output, vector by vector. */
  function FinishLines(vs: seq<seq<SingleProfile>>, topdown: bool): seq<string>
    requires forall i :: 0 <= i < |vs| ==> AllWellFormed(vs[i])
  {
    if vs == [] then []
    else FinishLines(vs[..|vs| - 1], topdown) + KeptLines(vs[|vs| - 1], topdown)
  }

  /** The inner loop of Finish over one vector. */
  method EmitRecords(ps: seq<SingleProfile>, topdown: bool) returns (lines: seq<string>)
    requires AllWellFormed(ps)
    ensures lines == KeptLines(ps, topdown)
  {
    lines := [];
    var j := 0;
    while j < |ps|
      invariant 0 <= j <= |ps|
      invariant lines == KeptLines(ps[..j], topdown)
    {
      var p := ps[j];
      assert ps[..j + 1][..j] == ps[..j];
      if Kept(p, topdown) {
        var line := WriteLine(p, topdown);
        lines := lines + [line];
      }
      j := j + 1;
    }
    assert ps[..j] == ps;
  }

  lemma FieldsSnoc(fs: seq<string>, x: string)
    ensures Fields(fs + [x]) == Fields(fs) + x + ","
  {
    assert (fs + [x])[..|fs|] == fs;
  }

  lemma {:induction false} FieldsAppend(a: seq<string>, b: seq<string>)
    ensures Fields(a + b) == Fields(a) + Fields(b)
    decreases |b|
  {
    if b == [] {
      assert a + b == a;
    } else {
      var init, x := b[..|b| - 1], b[|b| - 1];
      assert b == init + [x];
      assert a + b == (a + init) + [x];
      FieldsSnoc(a + init, x);
      FieldsAppend(a, init);
      FieldsSnoc(init, x);
      assert Fields(a) + Fields(init) + x + "," == Fields(a) + (Fields(init) + x + ",");
    }
  }

  /** The body of Finish for one kept record. */
  method WriteLine(p: SingleProfile, topdown: bool) returns (line: string)
    requires p.WellFormed() && Kept(p, topdown)
    ensures line == Line(p, topdown)
  {
    var n := p.rdStart.numEvent;
    if topdown {
      n := n - 3;
    }
    var h := WriteHeader(p, topdown);
    var s := WriteRead(p.rdStart, p.retStart[..n]);
    var e := WriteRead(p.rdEnd, p.retEnd[..n]);
    line := h + s + e;
    FieldsAppend(HeaderFields(p, topdown), ReadFields(p.rdStart, p.retStart[..n]));
    FieldsAppend(HeaderFields(p, topdown) + ReadFields(p.rdStart, p.retStart[..n]),
                 ReadFields(p.rdEnd, p.retEnd[..n]));
  }

  /** The seven id, stamp and parent fields and the topdown field, each
      followed by a comma. */
  method WriteHeader(p: SingleProfile, topdown: bool) returns (line: string)
    requires p.WellFormed() && Kept(p, topdown)
    ensures line == Fields(HeaderFields(p, topdown))
  {
    ghost var fs: seq<string> := [];
    line := "";
    var f := DecI64(p.tid);
    FieldsSnoc(fs, f); line, fs := line + f + ",", fs + [f];
    f := DecU32(p.pthreadId);
    FieldsSnoc(fs, f); line, fs := line + f + ",", fs + [f];
    f := DecU64(p.startTs);
    FieldsSnoc(fs, f); line, fs := line + f + ",", fs + [f];
    f := DecU64(p.endTs);
    FieldsSnoc(fs, f); line, fs := line + f + ",", fs + [f];
    f := DecI64(p.parentInfo.parentTid);
    FieldsSnoc(fs, f); line, fs := line + f + ",", fs + [f];
    f := DecU32(p.parentInfo.parentPthreadId);
    FieldsSnoc(fs, f); line, fs := line + f + ",", fs + [f];
    f := DecU64(p.parentInfo.taskSchedTime);
    FieldsSnoc(fs, f); line, fs := line + f + ",", fs + [f];
    f := "";
    if topdown {
      f := TopdownField(p, p.rdStart.numEvent - 3);
    }
    FieldsSnoc(fs, f); line, fs := line + f + ",", fs + [f];
    assert fs == HeaderFields(p, topdown);
  }

  /** One read: its triple and a comma, then its values. */
  method WriteRead(rd: ReadResult, vals: seq<int>) returns (line: string)
    ensures line == Fields(ReadFields(rd, vals))
  {
    var w := WriteValues(vals);
    line := Triple(rd) + "," + w;
    ReadFieldsLine(rd, vals);
  }

  lemma ReadFieldsLine(rd: ReadResult, vals: seq<int>)
    ensures Fields(ReadFields(rd, vals)) ==
            Triple(rd) + "," + if |vals| == 0 then "" else JoinOn(DecU64s(vals), "_") + ","
  {
    FieldsSnoc([], Triple(rd));
    assert [] + [Triple(rd)] == [Triple(rd)];
    if |vals| > 0 {
      FieldsSnoc([Triple(rd)], JoinOn(DecU64s(vals), "_"));
    }
  }

  /** The `for (i < num_event)` loop: each value followed by '_', the last
      by ','; nothing for no values. */
  method WriteValues(vals: seq<int>) returns (w: string)
    ensures w == if |vals| == 0 then "" else JoinOn(DecU64s(vals), "_") + ","
  {
    w := "";
    var i := 0;
    while i < |vals|
      invariant 0 <= i <= |vals|
      invariant 0 < i < |vals| ==> w == JoinOn(DecU64s(vals[..i]), "_") + "_"
      invariant i == 0 ==> w == ""
      invariant i == |vals| > 0 ==> w == JoinOn(DecU64s(vals), "_") + ","
    {
      var d := DecU64(vals[i]);
      if i > 0 {
        assert DecU64s(vals[..i + 1]) == DecU64s(vals[..i]) + [d];
        JoinOnSnoc(DecU64s(vals[..i]), d, "_");
      } else {
        assert DecU64s(vals[..1]) == [d];
      }
      if i != |vals| - 1 {
        w := w + d + "_";
      } else {
        w := w + d + ",";
        assert vals[..i + 1] == vals;
      }
      i := i + 1;
    }
  }

  // ---------------------------------------------------------------------
  // Properties of the line format and the filter

  /** Splitting a Finish line (as read back with its newline) on ',' gives
      its fields in order, then the newline. */
  lemma LineSplits(p: SingleProfile, topdown: bool)
    requires p.WellFormed() && Kept(p, topdown)
    ensures Split(Line(p, topdown) + "\n", ',') == LineFields(p, topdown) + ["\n"]
  {
    var fs := LineFields(p, topdown);
    forall i | 0 <= i < |fs| ensures ',' !in fs[i] {
      LineFieldFree(p, topdown, i);
    }
    SplitFields(fs, "\n");
    SplitPrefix("\n", "", ',');
    assert "\n" + "" == "\n" && Split("", ',') == [""];
  }

  lemma LineFieldFree(p: SingleProfile, topdown: bool, i: int)
    requires p.WellFormed() && Kept(p, topdown)
    requires 0 <= i < |LineFields(p, topdown)|
    ensures ',' !in LineFields(p, topdown)[i]
  {
    var n := ValueCount(p, topdown);
    var h, s, e := HeaderFields(p, topdown), ReadFields(p.rdStart, p.retStart[..n]), ReadFields(p.rdEnd, p.retEnd[..n]);
    assert LineFields(p, topdown) == h + s + e;
    if i < |h| {
      HeaderFieldFree(p, topdown, i);
    } else if i < |h| + |s| {
      ReadFieldFree(p.rdStart, p.retStart[..n], i - |h|);
    } else {
      ReadFieldFree(p.rdEnd, p.retEnd[..n], i - |h| - |s|);
    }
  }

  lemma HeaderFieldFree(p: SingleProfile, topdown: bool, i: int)
    requires p.WellFormed() && Kept(p, topdown)
    requires 0 <= i < |HeaderFields(p, topdown)|
    ensures ',' !in HeaderFields(p, topdown)[i]
  {
    DecFree(p.tid, ','); DecFree(p.pthreadId, ','); DecFree(p.startTs, ',');
    DecFree(p.endTs, ','); DecFree(p.parentInfo.parentTid, ',');
    DecFree(p.parentInfo.parentPthreadId, ','); DecFree(p.parentInfo.taskSchedTime, ',');
    if topdown {
      TopdownFieldFree(p, ValueCount(p, topdown));
    }
  }

  lemma TopdownFieldFree(p: SingleProfile, n: int)
    requires p.WellFormed() && 0 <= n && n + 3 <= RET_SLOTS
    ensures ',' !in TopdownField(p, n)
  {
    var a, b := p.retStart[n..n + 3], p.retEnd[n..n + 3];
    DecsFree(a + b, ',');
    assert DecU64s(a) + DecU64s(b) == DecU64s(a + b);
  }

  lemma ReadFieldFree(rd: ReadResult, vals: seq<int>, i: int)
    requires 0 <= i < |ReadFields(rd, vals)|
    ensures ',' !in ReadFields(rd, vals)[i]
  {
    DecFree(rd.numEvent, ','); DecFree(rd.coreId, ','); DecFree(rd.prefix, ',');
    if |vals| > 0 {
      DecsFree(vals, ',');
    }
  }

  /** The '_'-joined decimal forms of some values hold no comma. */
  lemma DecsFree(vals: seq<int>, c: char)
    requires c != '-' && c != '_' && !IsDigit(c)
    ensures c !in JoinOn(DecU64s(vals), "_")
  {
    forall i | 0 <= i < |vals| ensures c !in DecU64s(vals)[i] {
      DecFree(vals[i], c);
    }
    JoinOnFree(DecU64s(vals), "_", c);
  }

  lemma {:induction false} SplitFields(fs: seq<string>, tail: string)
    requires NoneContain(fs, ',')
    ensures Split(Fields(fs) + tail, ',') == fs + Split(tail, ',')
    decreases |fs|
  {
    if fs != [] {
      var init, last := fs[..|fs| - 1], fs[|fs| - 1];
      var t2 := last + "," + tail;
      assert NoneContain(init, ',') && ',' !in last;
      calc {
        Split(Fields(fs) + tail, ',');
        { assert Fields(fs) + tail == Fields(init) + t2; }
        Split(Fields(init) + t2, ',');
        { SplitFields(init, t2); }
        init + Split(t2, ',');
        { SplitAfterField(last, tail); }
        init + ([last] + Split(tail, ','));
        { assert fs == init + [last]; }
        fs + Split(tail, ',');
      }
    } else {
      assert Fields(fs) + tail == tail;
    }
  }

  /** A field free of commas and its comma split off as one field. */
  lemma SplitAfterField(f: string, tail: string)
    requires ',' !in f
    ensures Split(f + "," + tail, ',') == [f] + Split(tail, ',')
  {
    SplitPrefix(f, "," + tail, ',');
    assert ("," + tail)[0] == ',' && ("," + tail)[1..] == tail;
    assert Split("," + tail, ',') == [[]] + Split(tail, ',');
    assert f + [] == f;
    assert f + ("," + tail) == f + "," + tail;
  }

  /** Every index the corrected Finish reads lies inside the record's
      arrays: the topdown values and the ordinary values alike. */
  lemma KeptReadsInBounds(p: SingleProfile, topdown: bool)
    requires p.WellFormed() && Kept(p, topdown)
    ensures 0 <= ValueCount(p, topdown)
    ensures topdown ==> ValueCount(p, topdown) + 3 == p.rdStart.numEvent <= |p.retStart|
    ensures !topdown ==> ValueCount(p, topdown) == p.rdStart.numEvent <= |p.retStart|
    ensures ValueCount(p, topdown) <= |p.retEnd|
  {
  }

  /** The two filters differ exactly on topdown records with two values:
      the ones the filter as written keeps and then reads at index -1. */
  lemma AsWrittenKeepsTwo(p: SingleProfile, topdown: bool)
    ensures KeptAsWritten(p, topdown) && !Kept(p, topdown) <==>
            topdown && p.rdStart.numEvent == p.rdEnd.numEvent == 2
    ensures KeptAsWritten(p, topdown) && !Kept(p, topdown) ==> ValueCount(p, topdown) == -1
  {
  }

  /** A concrete record the filter as written keeps with topdown metrics on
      although its first topdown index is -1. */
  lemma AsWrittenReadsBeforeArray()
    ensures var p := EmptyProfile.(rdStart := ReadResult(2, 0, 0), rdEnd := ReadResult(2, 0, 0));
            p.WellFormed() && KeptAsWritten(p, true) && ValueCount(p, true) < 0
  {
  }

  // ---------------------------------------------------------------------
  // ExportThreadPoolInfo

  /** One line of the thread pool file: the pool index and the tid. */
  function PoolLine(i: int, tid: int): string
  {
    IntToString(i) + "," + DecI64(tid)
  }

  /** ExportThreadPoolInfo: -1 without MTMC_THREAD_EXPORT, for any negative
      tid, or when the joined path does not open; otherwise one line per
      tid, in order, written to `path`. */
  method ExportThreadPoolInfo(tids: seq<int>, fileName: string, exportEnv: Option<string>,
                              fileOk: string -> bool)
    returns (r: int, path: string, lines: seq<string>)
    requires forall i :: 0 <= i < |tids| ==> IsI64(tids[i])
    requires exportEnv.Some? ==> |exportEnv.value| > 0
    ensures r == 1 || r == -1
    ensures r == 1 <==> exportEnv.Some? && (forall i :: 0 <= i < |tids| ==> tids[i] >= 0) &&
                        fileOk(Util.PathJoin(exportEnv.value, fileName))
    ensures r == 1 ==> path == Util.PathJoin(exportEnv.value, fileName) && |lines| == |tids| &&
                       forall i :: 0 <= i < |tids| ==> lines[i] == PoolLine(i, tids[i])
    ensures r == -1 ==> lines == []
  {
    if exportEnv.None? {
      return -1, "", [];
    }
    var i := 0;
    while i < |tids|
      invariant 0 <= i <= |tids|
      invariant forall j :: 0 <= j < i ==> tids[j] >= 0
    {
      if tids[i] < 0 {
        return -1, "", [];
      }
      i := i + 1;
    }
    path := Util.PathJoin(exportEnv.value, fileName);
    if !fileOk(path) {
      return -1, path, [];
    }
    lines := [];
    i := 0;
    while i < |tids|
      invariant 0 <= i <= |tids| && |lines| == i
      invariant forall j :: 0 <= j < i ==> lines[j] == PoolLine(j, tids[j])
    {
      lines := lines + [PoolLine(i, tids[i])];
      i := i + 1;
    }
    r := 1;
  }

  /** Each thread pool line reads back as its index and its tid. */
  lemma PoolLineRoundTrip(i: int, tid: int)
    requires IsI64(tid)
    ensures |Split(PoolLine(i, tid), ',')| == 2
    ensures PyInt(Split(PoolLine(i, tid), ',')[0]) == Some(i)
    ensures PyInt(Split(PoolLine(i, tid), ',')[1]) == Some(tid)
  {
    IntToStringChars(i, ',');
    IntToStringChars(tid, ',');
    SplitJoin([IntToString(i), IntToString(tid)], ',');
    assert JoinOn([IntToString(i), IntToString(tid)], ",") == PoolLine(i, tid);
    IntRoundTrip(i);
    IntRoundTrip(tid);
  }

  // ---------------------------------------------------------------------
  // The call sequences of cpp/tests/mtmc_profiler_tests.cpp

  /** One instance initialised twice and closed twice: 1, 1, 2, 1 whenever
      the first Init succeeds; the count returns to 0 and the collector is
      released. */
  method InitTwiceCloseTwice(configFile: Option<string>, cpus: seq<int>, maxNumCore: int,
                             k: Kernel, now: int)
    returns (r0: int, r1: int, r2: int, r3: int)
    ensures r0 == 1 <==> FirstInitSucceeds(configFile, false, cpus, maxNumCore, k, now)
    ensures r0 == 1 ==> r1 == 1 && r2 == 2 && r3 == 1
  {
    var s := new Statics();
    var prof := new MTMCProfiler(s);
    r0 := prof.Init(None, configFile, cpus, maxNumCore, k, now);
    r1 := prof.Init(None, configFile, cpus, maxNumCore, k, now);
    var released;
    r2, released := prof.Close(k);
    r3, released := prof.Close(k);
  }

  /** Two instances over the same statics: the second Init joins the first
      and returns 1; the first Close returns 1 and the second releases the
      collector and returns 2. */
  method TwoInstances(configFile: Option<string>, cpus: seq<int>, maxNumCore: int, k: Kernel, now: int)
    returns (r0: int, r1: int, r2: int, r3: int)
    ensures r0 == 1 <==> FirstInitSucceeds(configFile, false, cpus, maxNumCore, k, now)
    ensures r0 == 1 ==> r1 == 1 && r2 == 1 && r3 == 2
  {
    var s := new Statics();
    var prof0 := new MTMCProfiler(s);
    var prof1 := new MTMCProfiler(s);
    r0 := prof0.Init(None, configFile, cpus, maxNumCore, k, now);
    r1 := prof1.Init(None, configFile, cpus, maxNumCore, k, now);
    var released;
    r2, released := prof0.Close(k);
    r3, released := prof1.Close(k);
  }

  /** Without Init every entry point refuses: zero parent info and -1 from
      LogStart, LogEnd and Finish. */
  method CallsBeforeInit(aux: int, hw: int -> MmapPage, k: Kernel, now: int)
    returns (info: ParamsInfo, rs: int, re: int, rf: int)
    requires IsU32(aux) && PagesOk(hw)
    ensures info == ZeroParams && rs == -1 && re == -1 && rf == -1
  {
    var s := new Statics();
    var prof := new MTMCProfiler(s);
    var cache := new TidCache();
    var thStart := new ThreadInfo();
    var thEnd := new ThreadInfo();
    info := prof.GetParamsInfo(cache, 7, 7, 0);
    rs := prof.LogStart(ZeroParams, "NULL", thStart, 7, 7, 0, aux, hw, k, now);
    re := prof.LogEnd(thEnd, 7, 7, 0, aux, hw, k, now);
    var lines;
    rf, lines := prof.Finish(true);
  }

  /** On a thread that has never called LogStart, LogEnd returns -1 and
      changes no record, initialised profiler or not. */
  method LogEndBeforeLogStart(prof: MTMCProfiler, ktid: int, aux: int, hw: int -> MmapPage,
                              k: Kernel, now: int)
    returns (re: int)
    requires prof.Valid() && IsU32(aux) && PagesOk(hw) && ktid !in prof.mapper
    modifies prof.ReadFrame(aux)
    ensures re == -1
  {
    var th := new ThreadInfo();
    re := prof.LogEnd(th, ktid, ktid, 0, aux, hw, k, now);
  }

  /** A LogEnd repeated after a successful one re-stamps the same record
      and returns 1 again, leaving the number of records unchanged. */
  method RepeatedLogEnd(prof: MTMCProfiler, th: ThreadInfo, ktid: int, pthreadId: int, t1: int,
                        t2: int, aux: int, hw: int -> MmapPage, k: Kernel, now: int)
    returns (r1: int, r2: int)
    requires prof.Valid() && IsU32(aux) && PagesOk(hw)
    requires th.storage != null ==> AllWellFormed(th.storage.records)
    modifies prof, th, th.storage, prof.storage, prof.ReadFrame(aux)
    ensures r1 == 1 ==> r2 == 1
  {
    r1 := prof.LogEnd(th, ktid, pthreadId, t1, aux, hw, k, now);
    if r1 == 1 {
      r2 := prof.LogEnd(th, ktid, pthreadId, t2, aux, hw, k, now);
    } else {
      r2 := -1;
    }
  }
}
