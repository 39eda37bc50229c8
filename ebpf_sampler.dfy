/** The eBPF context-switch sampler of cpp/ebpf_sampler.cpp: the per-core
    ring buffer the embedded program writes (its index advance), the rule
    by which the host-side collector thread copies the new slots of each
    core into its own storage, and the state machine guarding Init, Start,
    Stop and Close.

    The BCC compilation and attach calls, the batch lookup of the tables and
    the kernel-side reads are oracles: booleans for the calls that can fail,
    and functions for the counter table (index and wrap count per core) and
    the data table (the slot of a core). The collector thread is modelled
    by one iteration of its loop, run while the state is RUNNING. */
module EbpfSampler {
  import opened Machine

  /** EBPF_STATE. */
  const EXITING: int := -1
  const UNINITIALIZED: int := 0
  const WAITING: int := 1
  const RUNNING: int := 2

  /** sizeof(StoreData): two uint64 headers and a PmcData of 136 bytes
      (uint64, three 4-byte ints, 4 bytes of padding, uint64, 13 uint64). */
  const STORE_DATA_BYTES: nat := 152

  /** EbpfCtxScConfig. */
  datatype Config = Config(perCoreStorageLength: int, storageMaxByte: int, wakeUpIntvMs: int)

  /** EbpfCtxScConfig{}. */
  const DefaultConfig: Config := Config(1000, 1_000_000_000, 1000)

  /** PmcData: one context switch as the embedded program records it. */
  datatype PmcData = PmcData(
    timeStamp: int,
    prevPid: int,
    currPid: int,
    coreId: int,
    prevTaskState: int,
    pmcReading: seq<int>)

  /** StoreData: a copied slot, stamped with the core's counter header at
      the time of the copy. */
  datatype StoreData = StoreData(currIdx: int, warpAround: int, pmc: PmcData)

  // ---------------------------------------------------------------------
  // The embedded program's counter

  /** The per-core counter table: the next slot to write and how often the
      ring has wrapped. */
  datatype Counter = Counter(idx: int, wrap: int)

  /** The counter update after one write: the last slot resets the index
      and counts a wrap, any other slot moves the index on. */
  function Advance(c: Counter, len: int): (r: Counter)
    ensures 0 <= c.idx < len ==> 0 <= r.idx < len
    ensures 0 <= c.idx < len && len < TWO_64 && IsU64(c.wrap) ==>
            (r.idx == c.idx + 1 && r.wrap == c.wrap) || (r.idx == 0 && r.wrap == U64(c.wrap + 1))
  {
    if c.idx == len - 1 then Counter(0, U64(c.wrap + 1)) else Counter(U64(c.idx + 1), c.wrap)
  }

  /** The counter after `n` writes. */
  function AdvanceN(c: Counter, len: int, n: nat): Counter
  {
    if n == 0 then c else Advance(AdvanceN(c, len, n - 1), len)
  }

  /** The index of the next write, and the wrap count, after one more
      write: the Euclidean position moves on by one. */
  lemma DivModNext(m: nat, len: nat)
    requires len > 0
    ensures m % len == len - 1 ==> (m + 1) % len == 0 && (m + 1) / len == m / len + 1
    ensures m % len != len - 1 ==> (m + 1) % len == m % len + 1 && (m + 1) / len == m / len
  {
    var q, s := m / len, m % len;
    assert m == q * len + s;
    if s == len - 1 {
      DivModUnique(m + 1, len, q + 1, 0);
    } else {
      DivModUnique(m + 1, len, q, s + 1);
    }
  }

  /** From slot `i` and wrap count `w`, `n` writes leave the index at
      (i + n) mod len and add (i + n) div len wraps: the index always stays
      inside the ring. */
  lemma {:induction false} AdvanceFrom(i: nat, w: nat, len: nat, n: nat)
    requires i < len < TWO_64 && w + (i + n) / len < TWO_64
    ensures AdvanceN(Counter(i, w), len, n) == Counter((i + n) % len, w + (i + n) / len)
  {
    if n == 0 {
      DivModUnique(i, len, 0, i);
    } else {
      var m := i + n - 1;
      AdvanceStep(m, w, len);
      AdvanceFrom(i, w, len, n - 1);
    }
  }

  /** One write moves the counter of position m to that of m + 1. */
  lemma AdvanceStep(m: nat, w: nat, len: nat)
    requires 0 < len < TWO_64 && w + (m + 1) / len < TWO_64
    ensures w + m / len < TWO_64
    ensures Advance(Counter(m % len, w + m / len), len) == Counter((m + 1) % len, w + (m + 1) / len)
  {
    DivModNext(m, len);
  }

  // ---------------------------------------------------------------------
  // The host-side drain rule

  /** The slot numbers a..b-1, empty when a >= b. */
  function Range(a: int, b: int): (r: seq<int>)
    ensures |r| == if a < b then b - a else 0
    ensures forall k :: 0 <= k < |r| ==> r[k] == a + k
    decreases b - a
  {
    if a < b then Range(a, b - 1) + [b - 1] else []
  }

  /** The wrap count moved on by more than one since the last copy
      (a uint64 difference). */
  predicate WarpError(warp: int, lastWarp: int)
  {
    U64(warp - lastWarp) > 1
  }

  /** The ring slot `k` places after slot `last`. */
  function RingSlot(last: int, k: int, len: int): int
    requires len > 0
  {
    (last + k) % len
  }

  /** The slots copied for a core, given the index stamped on its last
      stored entry and the current index: only [0, curr) after a warp
      error, else the slots from last to curr going round the ring. */
  function CopiedSlots(lastId: int, currId: int, warpError: bool, len: int): seq<int>
  {
    if warpError then Range(0, currId)
    else if lastId > currId then Range(lastId, len) + Range(0, currId)
    else if currId > lastId then Range(lastId, currId)
    else []
  }

  /** The (curr_idx, warp_around) stamped on a core's last stored entry,
      or (0, 0) when it has none. */
  function LastHeader(storage: seq<StoreData>): (int, int)
  {
    if storage == [] then (0, 0)
    else (storage[|storage| - 1].currIdx, storage[|storage| - 1].warpAround)
  }

  /** The stored entries for the copied slots of core `cpu`. */
  function Stamp(slots: seq<int>, currId: int, warp: int, cpu: int, pmc: (int, int) -> PmcData): (r: seq<StoreData>)
    ensures |r| == |slots|
  {
    if slots == [] then []
    else Stamp(slots[..|slots| - 1], currId, warp, cpu, pmc) +
         [StoreData(currId, warp, pmc(slots[|slots| - 1], cpu))]
  }

  /** A core's storage after one drain. A storage holding more than
      kper_core_length entries takes nothing. */
  function DrainCore(storage: seq<StoreData>, currId: int, warp: int, len: int, kper: int,
                     cpu: int, pmc: (int, int) -> PmcData): seq<StoreData>
  {
    if |storage| > kper then storage
    else
      var last := LastHeader(storage);
      storage + Stamp(CopiedSlots(last.0, currId, WarpError(warp, last.1), len), currId, warp, cpu, pmc)
  }

  /** When the ring moved on by fewer than `len` writes since the last
      copy, the drain copies exactly the written slots, oldest first, and
      raises no warp error. */
  lemma DrainCopiesNewWrites(last: nat, lw: nat, len: nat, n: nat)
    requires last < len < TWO_64 && n < len && lw + 2 < TWO_64
    ensures var c := AdvanceN(Counter(last, lw), len, n);
            !WarpError(c.wrap, lw) &&
            |CopiedSlots(last, c.idx, false, len)| == n &&
            forall k :: 0 <= k < n ==> CopiedSlots(last, c.idx, false, len)[k] == RingSlot(last, k, len)
  {
    AdvanceFrom(last, lw, len, n);
    if last + n < len {
      DivModUnique(last + n, len, 0, last + n);
      InsideSlots(last, n, len);
    } else {
      DivModUnique(last + n, len, 1, last + n - len);
      AroundSlots(last, n, len);
    }
  }

  /** Writes that stay below the end of the ring are copied as [last, curr). */
  lemma InsideSlots(last: nat, n: nat, len: nat)
    requires last + n < len
    ensures |CopiedSlots(last, last + n, false, len)| == n
    ensures forall k :: 0 <= k < n ==> CopiedSlots(last, last + n, false, len)[k] == RingSlot(last, k, len)
  {
    forall k | 0 <= k < n ensures RingSlot(last, k, len) == last + k {
      DivModUnique(last + k, len, 0, last + k);
    }
  }

  /** Writes that pass the end of the ring are copied as [last, LEN) and
      then [0, curr). */
  lemma AroundSlots(last: nat, n: nat, len: nat)
    requires last < len <= last + n && n < len
    ensures |CopiedSlots(last, last + n - len, false, len)| == n
    ensures forall k :: 0 <= k < n ==> CopiedSlots(last, last + n - len, false, len)[k] == RingSlot(last, k, len)
  {
    var c := CopiedSlots(last, last + n - len, false, len);
    assert c == Range(last, len) + Range(0, last + n - len);
    forall k | 0 <= k < n ensures c[k] == RingSlot(last, k, len) {
      if last + k < len {
        DivModUnique(last + k, len, 0, last + k);
      } else {
        DivModUnique(last + k, len, 1, last + k - len);
      }
    }
  }

  /** A full lap of writes since the last copy leaves the index where it
      was and the wrap count one further on: the drain then copies nothing
      and raises no warp error, so the lap is lost without notice. */
  lemma FullLapCopiesNothing(last: nat, lw: nat, len: nat)
    requires last < len < TWO_64 && lw + 2 < TWO_64
    ensures var c := AdvanceN(Counter(last, lw), len, len);
            c.idx == last && !WarpError(c.wrap, lw) && CopiedSlots(last, c.idx, false, len) == []
  {
    AdvanceFrom(last, lw, len, len);
    DivModUnique(last + len, len, 1, last);
  }

  /** Two laps or more since the last copy raise the warp error, and then
      only the slots below the current index are copied. */
  lemma TwoLapsWarpError(last: nat, lw: nat, len: nat, n: nat)
    requires last < len < TWO_64 && 2 * len <= n && lw + (last + n) / len < TWO_64
    ensures var c := AdvanceN(Counter(last, lw), len, n);
            WarpError(c.wrap, lw) && CopiedSlots(last, c.idx, true, len) == Range(0, c.idx)
  {
    AdvanceFrom(last, lw, len, n);
    var a := last + n - 2 * len;
    DivNonNegative(a, len);
    DivPlusTwo(a, len);
    var c := AdvanceN(Counter(last, lw), len, n);
    assert c.wrap - lw == a / len + 2;
  }

  /** Two more laps add two to the quotient. */
  lemma DivPlusTwo(a: int, len: int)
    requires len > 0
    ensures (a + 2 * len) / len == a / len + 2
  {
    var q, s := a / len, a % len;
    assert a == q * len + s;
    assert (q + 2) * len == q * len + 2 * len;
    DivModUnique(a + 2 * len, len, q + 2, s);
  }

  /** The quotient of a non-negative number is non-negative. */
  lemma DivNonNegative(a: int, len: int)
    requires a >= 0 && len > 0
    ensures a / len >= 0
  {
    var q, s := a / len, a % len;
    assert a == q * len + s;
    if q < 0 {
      MulAtLeast(-q, len);
    }
  }

  /** The core's storage only grows, by the stamped copies of the slots
      the rule selects, each carrying the current header. */
  lemma DrainCoreAppends(storage: seq<StoreData>, currId: int, warp: int, len: int, kper: int,
                         cpu: int, pmc: (int, int) -> PmcData)
    ensures var r := DrainCore(storage, currId, warp, len, kper, cpu, pmc);
            |r| >= |storage| && r[..|storage|] == storage &&
            (|storage| > kper ==> r == storage) &&
            forall k :: |storage| <= k < |r| ==> r[k].currIdx == currId && r[k].warpAround == warp
  {
    var r := DrainCore(storage, currId, warp, len, kper, cpu, pmc);
    if |storage| <= kper {
      var last := LastHeader(storage);
      StampHeaders(CopiedSlots(last.0, currId, WarpError(warp, last.1), len), currId, warp, cpu, pmc);
      assert r[..|storage|] == storage;
    }
  }

  /** Every stamped entry carries the header it was stamped with and the
      data of its slot. */
  lemma {:induction false} StampHeaders(slots: seq<int>, currId: int, warp: int, cpu: int, pmc: (int, int) -> PmcData)
    ensures forall k :: 0 <= k < |slots| ==>
              Stamp(slots, currId, warp, cpu, pmc)[k] == StoreData(currId, warp, pmc(slots[k], cpu))
  {
    if slots != [] {
      StampHeaders(slots[..|slots| - 1], currId, warp, cpu, pmc);
    }
  }

  /** The copy loops of one core: with a warp error the slots [0, curr),
      else [last, LEN) and [0, curr) when last > curr, or [last, curr)
      when curr > last. */
  method DrainLoops(storage: seq<StoreData>, currId: int, warp: int, len: int, kper: int,
                    cpu: int, pmc: (int, int) -> PmcData) returns (r: seq<StoreData>)
    ensures r == DrainCore(storage, currId, warp, len, kper, cpu, pmc)
  {
    r := storage;
    if |storage| > kper {
      return;
    }
    var lastId, lastWarp := 0, 0;
    if storage != [] {
      lastId := storage[|storage| - 1].currIdx;
      lastWarp := storage[|storage| - 1].warpAround;
    }
    var warpError := U64(warp - lastWarp) > 1;
    assert LastHeader(storage) == (lastId, lastWarp) && warpError == WarpError(warp, lastWarp);
    if warpError {
      r := CopyRange(r, 0, currId, currId, warp, cpu, pmc);
      assert CopiedSlots(lastId, currId, warpError, len) == Range(0, currId);
    } else {
      r := CopyRing(r, lastId, currId, warp, len, cpu, pmc);
    }
    assert r == storage + Stamp(CopiedSlots(lastId, currId, warpError, len), currId, warp, cpu, pmc);
  }

  /** The copy loops without a warp error: round the ring from last to
      curr. */
  method CopyRing(storage: seq<StoreData>, lastId: int, currId: int, warp: int, len: int,
                  cpu: int, pmc: (int, int) -> PmcData) returns (r: seq<StoreData>)
    ensures r == storage + Stamp(CopiedSlots(lastId, currId, false, len), currId, warp, cpu, pmc)
  {
    r := storage;
    if lastId > currId {
      r := CopyRange(r, lastId, len, currId, warp, cpu, pmc);
      r := CopyRange(r, 0, currId, currId, warp, cpu, pmc);
      StampAppend(Range(lastId, len), Range(0, currId), currId, warp, cpu, pmc);
      assert r == storage + (Stamp(Range(lastId, len), currId, warp, cpu, pmc) +
                             Stamp(Range(0, currId), currId, warp, cpu, pmc));
    }
    if currId > lastId {
      r := CopyRange(r, lastId, currId, currId, warp, cpu, pmc);
    }
    if currId == lastId {
      assert r == storage + [];
    }
  }

  /** Stamping two runs of slots is stamping their concatenation. */
  lemma {:induction false} StampAppend(a: seq<int>, b: seq<int>, currId: int, warp: int, cpu: int, pmc: (int, int) -> PmcData)
    ensures Stamp(a + b, currId, warp, cpu, pmc) == Stamp(a, currId, warp, cpu, pmc) + Stamp(b, currId, warp, cpu, pmc)
    decreases |b|
  {
    if b != [] {
      var b' := b[..|b| - 1];
      assert (a + b)[..|a + b| - 1] == a + b';
      StampAppend(a, b', currId, warp, cpu, pmc);
    } else {
      assert a + b == a;
    }
  }

  /** Stamping one more slot appends its entry. */
  lemma StampRangeNext(from: int, i: int, currId: int, warp: int, cpu: int, pmc: (int, int) -> PmcData)
    requires from <= i
    ensures Stamp(Range(from, i + 1), currId, warp, cpu, pmc) ==
            Stamp(Range(from, i), currId, warp, cpu, pmc) + [StoreData(currId, warp, pmc(i, cpu))]
  {
    var s := Range(from, i + 1);
    assert s[..|s| - 1] == Range(from, i);
  }

  /** One copy loop: push slots from..to-1, stamped. */
  method CopyRange(storage: seq<StoreData>, from: int, to: int, currId: int, warp: int,
                   cpu: int, pmc: (int, int) -> PmcData) returns (r: seq<StoreData>)
    ensures r == storage + Stamp(Range(from, to), currId, warp, cpu, pmc)
  {
    r := storage;
    if from >= to {
      return;
    }
    var i := from;
    while i < to
      invariant from <= i <= to
      invariant r == storage + Stamp(Range(from, i), currId, warp, cpu, pmc)
    {
      StampRangeNext(from, i, currId, warp, cpu, pmc);
      r := r + [StoreData(currId, warp, pmc(i, cpu))];
      i := i + 1;
    }
  }

  // ---------------------------------------------------------------------
  // The per-core storage map

  /** ebpf_data_map_: one storage per online core, keyed by core id. */
  type Stores = seq<(int, seq<StoreData>)>

  predicate DistinctKeys(stores: Stores)
  {
    forall i, j :: 0 <= i < j < |stores| ==> stores[i].0 != stores[j].0
  }

  /** The position of core `cpu`, or |stores| when it has no storage. */
  function Find(stores: Stores, cpu: int): (n: nat)
    ensures n <= |stores|
    ensures n < |stores| ==> stores[n].0 == cpu
    ensures n == |stores| ==> forall i :: 0 <= i < |stores| ==> stores[i].0 != cpu
  {
    if stores == [] then 0
    else if stores[0].0 == cpu then 0
    else 1 + Find(stores[1..], cpu)
  }

  /** Looking a core up after one more entry. */
  lemma {:induction false} FindAppend(stores: Stores, e: (int, seq<StoreData>), cpu: int)
    ensures Find(stores + [e], cpu) ==
            if Find(stores, cpu) < |stores| then Find(stores, cpu)
            else if e.0 == cpu then |stores| else |stores| + 1
  {
    if stores != [] {
      assert (stores + [e])[1..] == stores[1..] + [e];
      FindAppend(stores[1..], e, cpu);
    }
  }

  /** The map after inserting an empty storage per listed core; a core
      already present is left as it is. */
  function InitStores(cpus: seq<int>): Stores
  {
    if cpus == [] then []
    else
      var prev := InitStores(cpus[..|cpus| - 1]);
      if Find(prev, cpus[|cpus| - 1]) < |prev| then prev else prev + [(cpus[|cpus| - 1], [])]
  }

  /** The initial map has one empty storage per distinct listed core and
      no other entry. */
  lemma {:induction false} InitStoresShape(cpus: seq<int>)
    ensures DistinctKeys(InitStores(cpus))
    ensures forall i :: 0 <= i < |InitStores(cpus)| ==> InitStores(cpus)[i].1 == []
    ensures forall c :: Find(InitStores(cpus), c) < |InitStores(cpus)| <==> c in cpus
  {
    if cpus != [] {
      var init := cpus[..|cpus| - 1];
      InitStoresShape(init);
      var prev := InitStores(init);
      var last := cpus[|cpus| - 1];
      assert cpus == init + [last];
      forall c ensures Find(InitStores(cpus), c) < |InitStores(cpus)| <==> c in cpus {
        assert c in cpus <==> c in init || c == last;
        if Find(prev, last) == |prev| {
          FindAppend(prev, (last, []), c);
        }
      }
    }
  }

  /** storage_usage: the summed bytes of all storages, in uint64. */
  function Usage(stores: Stores): (u: int)
    ensures IsU64(u)
  {
    if stores == [] then 0
    else U64(Usage(stores[..|stores| - 1]) + |stores[|stores| - 1].1| * STORE_DATA_BYTES)
  }

  /** One drain of every listed core, in list order; a core without
      storage is skipped. */
  function DrainAll(stores: Stores, cpus: seq<int>, counters: int -> Counter, len: int, kper: int,
                    pmc: (int, int) -> PmcData): (r: Stores)
    ensures |r| == |stores| && forall i :: 0 <= i < |r| ==> r[i].0 == stores[i].0
  {
    if cpus == [] then stores
    else
      var prev := DrainAll(stores, cpus[..|cpus| - 1], counters, len, kper, pmc);
      var cpu := cpus[|cpus| - 1];
      var n := Find(prev, cpu);
      if n == |prev| then prev
      else
        var c := counters(cpu);
        prev[n := (cpu, DrainCore(prev[n].1, U64(c.idx), U64(c.wrap), len, kper, cpu, pmc))]
  }

  /** A drain only appends to storages, and never touches the storage of
      a core that is not listed. */
  lemma {:induction false} DrainAllGrows(stores: Stores, cpus: seq<int>, counters: int -> Counter, len: int,
                                         kper: int, pmc: (int, int) -> PmcData)
    ensures var r := DrainAll(stores, cpus, counters, len, kper, pmc);
            forall i :: 0 <= i < |stores| ==>
              |r[i].1| >= |stores[i].1| && r[i].1[..|stores[i].1|] == stores[i].1 &&
              (stores[i].0 !in cpus ==> r[i] == stores[i])
  {
    if cpus != [] {
      var init := cpus[..|cpus| - 1];
      DrainAllGrows(stores, init, counters, len, kper, pmc);
      var prev := DrainAll(stores, init, counters, len, kper, pmc);
      var cpu := cpus[|cpus| - 1];
      var n := Find(prev, cpu);
      if n < |prev| {
        var c := counters(cpu);
        DrainCoreAppends(prev[n].1, U64(c.idx), U64(c.wrap), len, kper, cpu, pmc);
        var r := DrainAll(stores, cpus, counters, len, kper, pmc);
        forall i | 0 <= i < |stores|
          ensures |r[i].1| >= |stores[i].1| && r[i].1[..|stores[i].1|] == stores[i].1
          ensures stores[i].0 !in cpus ==> r[i] == stores[i]
        {
          if i == n {
            assert r[i].1[..|prev[i].1|] == prev[i].1;
            assert r[i].1[..|stores[i].1|] == r[i].1[..|prev[i].1|][..|stores[i].1|];
            assert stores[i].0 in cpus;
          } else {
            assert r[i] == prev[i];
            assert stores[i].0 in init ==> stores[i].0 in cpus;
          }
        }
      }
    }
  }

  // ---------------------------------------------------------------------
  // The sampler

  class Sampler {
    /** running_state_. */
    var state: int
    /** ebpf_collector_ is set and joinable. */
    var hasCollector: bool
    /** cpu_fd_pairs_.size(): one PMC table per entry. */
    var numEventPairs: nat
    var cpus: seq<int>
    var cfg: Config
    /** kper_core_length. */
    var kper: int
    /** *ebpf_data_map_. */
    var stores: Stores

    ghost predicate Valid()
      reads this
    {
      EXITING <= state <= RUNNING && DistinctKeys(stores)
    }

    /** EbpfSampler(): nothing initialised, no collector thread. */
    constructor ()
      ensures Valid() && state == UNINITIALIZED && !hasCollector && stores == []
    {
      state := UNINITIALIZED;
      hasCollector := false;
      numEventPairs := 0;
      cpus := [];
      cfg := DefaultConfig;
      kper := 0;
      stores := [];
    }

    /** EbpfCtxScInit. Rejected unless the state is at or below
        UNINITIALIZED; a failing compile or attach returns -1 with the
        state unchanged. `attachOk(k)` is the attach of PMC table k. A
        collector thread still held from before (one that stopped itself
        over budget) is joined before the new one replaces it, which is
        the corrected behaviour (see SelfExitAdmittedAsWritten). */
    method Init(config: Config, perfCpus: seq<int>, eventPairs: nat,
                bpfInitOk: bool, attachOk: int -> bool, kprobeOk: bool) returns (r: int)
      requires Valid() && |perfCpus| > 0
      modifies this
      ensures Valid()
      ensures r == 1 <==> old(state) <= UNINITIALIZED && bpfInitOk && kprobeOk &&
                          forall k :: 0 <= k < eventPairs ==> attachOk(k)
      ensures r != 1 ==> r == -1 && state == old(state) && hasCollector == old(hasCollector) &&
                         stores == old(stores)
      ensures r == 1 ==> state == WAITING && hasCollector && numEventPairs == eventPairs &&
                         stores == InitStores(perfCpus) && cpus == perfCpus && cfg == config &&
                         kper == config.storageMaxByte / (STORE_DATA_BYTES * |perfCpus|)
    {
      if state > UNINITIALIZED {
        return -1;
      }
      numEventPairs := eventPairs;
      if !bpfInitOk {
        return -1;
      }
      var k := 0;
      while k < eventPairs
        invariant 0 <= k <= eventPairs
        invariant forall j :: 0 <= j < k ==> attachOk(j)
        invariant state == old(state) && hasCollector == old(hasCollector) && stores == old(stores)
      {
        if !attachOk(k) {
          return -1;
        }
        k := k + 1;
      }
      if !kprobeOk {
        return -1;
      }
      cpus := perfCpus;
      cfg := config;
      kper := config.storageMaxByte / (STORE_DATA_BYTES * |perfCpus|);
      var s := BuildStores(perfCpus);
      InitStoresShape(perfCpus);
      stores := s;
      state := WAITING;
      if hasCollector {
        hasCollector := false;
      }
      StartCollector();
      r := 1;
    }

    /** Replacing ebpf_collector_ with a new thread: the thread dropped
        must not be joinable, since destroying a joinable std::thread
        terminates the process. */
    method StartCollector()
      requires !hasCollector
      modifies this
      ensures hasCollector
      ensures state == old(state) && stores == old(stores) && cpus == old(cpus) && cfg == old(cfg) &&
              kper == old(kper) && numEventPairs == old(numEventPairs)
    {
      hasCollector := true;
    }

    /** EbpfCtxStateChange: refused without a joinable collector thread
        or once the state is EXITING. */
    method StateChange(s: int) returns (r: int)
      requires Valid() && EXITING <= s <= RUNNING
      modifies this
      ensures Valid()
      ensures r == 1 <==> old(hasCollector) && old(state) != EXITING
      ensures r != 1 ==> r == -1
      ensures state == if r == 1 then s else old(state)
      ensures hasCollector == old(hasCollector) && stores == old(stores) && cpus == old(cpus) &&
              kper == old(kper) && cfg == old(cfg) && numEventPairs == old(numEventPairs)
    {
      if !hasCollector {
        return -1;
      }
      if state == EXITING {
        return -1;
      }
      state := s;
      return 1;
    }

    /** EbpfCtxScStart. */
    method Start() returns (r: int)
      requires Valid()
      modifies this
      ensures Valid()
      ensures r == 1 <==> old(hasCollector) && old(state) != EXITING
      ensures state == if r == 1 then RUNNING else old(state)
      ensures stores == old(stores)
    {
      r := StateChange(RUNNING);
    }

    /** EbpfCtxScStop. */
    method Stop() returns (r: int)
      requires Valid()
      modifies this
      ensures Valid()
      ensures r == 1 <==> old(hasCollector) && old(state) != EXITING
      ensures state == if r == 1 then WAITING else old(state)
      ensures stores == old(stores)
    {
      r := StateChange(WAITING);
    }

    /** EbpfCtxScClose. Rejected at or below UNINITIALIZED; otherwise it
        asks for EXITING, joins and drops the collector thread, and fails
        on the first failing detach. `detachOk(k)` is the detach of PMC
        table k. */
    method Close(detachOk: int -> bool, kprobeDetachOk: bool) returns (r: int)
      requires Valid()
      modifies this
      ensures Valid()
      ensures old(state) <= UNINITIALIZED ==> r == -1 && state == old(state) && hasCollector == old(hasCollector)
      ensures old(state) > UNINITIALIZED ==>
                !hasCollector && state == (if old(hasCollector) then EXITING else old(state)) &&
                (r == 1 <==> kprobeDetachOk && forall k :: 0 <= k < numEventPairs ==> detachOk(k))
      ensures r == 1 || r == -1
      ensures stores == old(stores)
    {
      if state <= UNINITIALIZED {
        return -1;
      }
      var success := StateChange(EXITING);
      if hasCollector {
        hasCollector := false;
      }
      var k := 0;
      while k < numEventPairs
        invariant 0 <= k <= numEventPairs
        invariant forall j :: 0 <= j < k ==> detachOk(j)
        invariant Valid() && !hasCollector && stores == old(stores)
        invariant state == (if old(hasCollector) then EXITING else old(state))
      {
        if !detachOk(k) {
          return -1;
        }
        k := k + 1;
      }
      if !kprobeDetachOk {
        return -1;
      }
      return 1;
    }

    /** One iteration of the collector thread while RUNNING: storage above
        StorageMaxByte moves the state to EXITING and copies nothing;
        otherwise every online core is drained. `counters(cpu)` is the
        core's row of the counter table and `pmc(i, cpu)` its slot i. */
    method CollectOnce(counters: int -> Counter, pmc: (int, int) -> PmcData)
      requires Valid() && state == RUNNING
      modifies this
      ensures Valid()
      ensures Usage(old(stores)) > cfg.storageMaxByte ==> state == EXITING && stores == old(stores)
      ensures Usage(old(stores)) <= cfg.storageMaxByte ==>
                state == RUNNING &&
                stores == DrainAll(old(stores), cpus, counters, cfg.perCoreStorageLength, kper, pmc)
      ensures cpus == old(cpus) && cfg == old(cfg) && kper == old(kper) && hasCollector == old(hasCollector)
    {
      var usage := UsageLoop(stores);
      if usage > cfg.storageMaxByte {
        state := EXITING;
        return;
      }
      var s := DrainLoop(stores, cpus, counters, cfg.perCoreStorageLength, kper, pmc);
      stores := s;
    }
  }

  /** The insertion loop of EbpfCtxScInit. */
  method BuildStores(cpus: seq<int>) returns (stores: Stores)
    ensures stores == InitStores(cpus)
  {
    stores := [];
    var i := 0;
    while i < |cpus|
      invariant 0 <= i <= |cpus|
      invariant stores == InitStores(cpus[..i])
    {
      assert cpus[..i + 1][..i] == cpus[..i];
      var n := Find(stores, cpus[i]);
      if n == |stores| {
        stores := stores + [(cpus[i], [])];
      }
      i := i + 1;
    }
    assert cpus[..|cpus|] == cpus;
  }

  /** The storage-size loop. */
  method UsageLoop(stores: Stores) returns (usage: int)
    ensures usage == Usage(stores)
  {
    usage := 0;
    var i := 0;
    while i < |stores|
      invariant 0 <= i <= |stores|
      invariant usage == Usage(stores[..i])
    {
      assert stores[..i + 1][..i] == stores[..i];
      usage := U64(usage + |stores[i].1| * STORE_DATA_BYTES);
      i := i + 1;
    }
    assert stores[..|stores|] == stores;
  }

  /** The per-core loop of the collector thread. */
  method DrainLoop(stores: Stores, cpus: seq<int>, counters: int -> Counter, len: int, kper: int,
                   pmc: (int, int) -> PmcData) returns (r: Stores)
    requires DistinctKeys(stores)
    ensures r == DrainAll(stores, cpus, counters, len, kper, pmc) && DistinctKeys(r)
  {
    r := stores;
    var i := 0;
    while i < |cpus|
      invariant 0 <= i <= |cpus|
      invariant r == DrainAll(stores, cpus[..i], counters, len, kper, pmc) && DistinctKeys(r)
    {
      assert cpus[..i + 1][..i] == cpus[..i];
      var cpu := cpus[i];
      var n := Find(r, cpu);
      if n < |r| {
        var c := counters(cpu);
        var drained := DrainLoops(r[n].1, U64(c.idx), U64(c.wrap), len, kper, cpu, pmc);
        r := r[n := (cpu, drained)];
      }
      i := i + 1;
    }
    assert cpus[..|cpus|] == cpus;
  }

  /** A sampler that was initialised and closed accepts Init again, while
      a second Close is refused. */
  method InitCloseInit(config: Config, perfCpus: seq<int>) returns (r1: int, r2: int, r3: int, r4: int)
    requires |perfCpus| > 0
    ensures r1 == 1 && r2 == 1 && r3 == -1 && r4 == 1
  {
    var s := new Sampler();
    r1 := s.Init(config, perfCpus, 2, true, k => true, true);
    r2 := s.Close(k => true, true);
    r3 := s.Close(k => true, true);
    r4 := s.Init(config, perfCpus, 2, true, k => true, true);
  }

  /** The admission test of EbpfCtxScInit as written: the state alone. */
  predicate InitAdmitsAsWritten(state: int)
  {
    state <= UNINITIALIZED
  }

  /** As written: when the collector thread stops itself over budget, the
      state is EXITING while the thread is still held and joinable, and the
      written test admits a new Init, whose reset of ebpf_collector_ then
      destroys a joinable std::thread. */
  method SelfExitAdmittedAsWritten(s: Sampler, counters: int -> Counter, pmc: (int, int) -> PmcData)
    requires s.Valid() && s.state == RUNNING && s.hasCollector && Usage(s.stores) > s.cfg.storageMaxByte
    modifies s
    ensures s.state == EXITING && InitAdmitsAsWritten(s.state) && s.hasCollector
  {
    s.CollectOnce(counters, pmc);
  }

  /** Corrected: after the collector thread stopped itself, Close is
      refused (the state is EXITING), and Init joins the finished thread
      and starts a new one. */
  method SelfExitReinit(s: Sampler, counters: int -> Counter, pmc: (int, int) -> PmcData,
                        config: Config, perfCpus: seq<int>) returns (r1: int, r2: int)
    requires s.Valid() && s.state == RUNNING && s.hasCollector && Usage(s.stores) > s.cfg.storageMaxByte
    requires |perfCpus| > 0
    modifies s
    ensures r1 == -1 && r2 == 1 && s.state == WAITING && s.hasCollector
  {
    s.CollectOnce(counters, pmc);
    r1 := s.Close(k => true, true);
    r2 := s.Init(config, perfCpus, 2, true, k => true, true);
  }
}
