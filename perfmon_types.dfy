/** Records and the event-select bit packing of cpp/perfmon_config.h. */
module PerfmonTypes {
  import opened Machine
  import Env

  /** The named bit fields of union x86_pmu_config, in declaration order. */
  datatype PmuConfigBits = PmuConfigBits(
    event: bv64, umask: bv64, usr: bv64, os: bv64, edge: bv64, pc: bv64,
    interrupt: bv64, reserved1: bv64, en: bv64, inv: bv64, cmask: bv64,
    event2: bv64, reserved2: bv64, go: bv64, ho: bv64)
  {
    /** Every field fits its declared width. */
    predicate Fits()
    {
      event < 0x100 && umask < 0x100 && usr < 2 && os < 2 && edge < 2 && pc < 2 &&
      interrupt < 2 && reserved1 < 2 && en < 2 && inv < 2 && cmask < 0x100 &&
      event2 < 0x10 && reserved2 < 0x10 && go < 2 && ho < 2
    }
  }

  /** The union's `value` view: GCC lays bit fields out on x86-64 from the
      least significant bit, so event is bits 0-7, umask 8-15, usr 16, os 17,
      edge 18, pc 19, interrupt 20, reserved 21, en 22, inv 23, cmask 24-31,
      event2 32-35, reserved 36-39, go 40 and ho 41. */
  function Pack(b: PmuConfigBits): bv64
  {
    b.event | (b.umask << 8) | (b.usr << 16) | (b.os << 17) | (b.edge << 18) |
    (b.pc << 19) | (b.interrupt << 20) | (b.reserved1 << 21) | (b.en << 22) |
    (b.inv << 23) | (b.cmask << 24) | (b.event2 << 32) | (b.reserved2 << 36) |
    (b.go << 40) | (b.ho << 41)
  }

  /** The `bits` view of a 64-bit `value`. */
  function Unpack(v: bv64): PmuConfigBits
  {
    PmuConfigBits(
      v & 0xff, (v >> 8) & 0xff, (v >> 16) & 1, (v >> 17) & 1, (v >> 18) & 1,
      (v >> 19) & 1, (v >> 20) & 1, (v >> 21) & 1, (v >> 22) & 1, (v >> 23) & 1,
      (v >> 24) & 0xff, (v >> 32) & 0xf, (v >> 36) & 0xf, (v >> 40) & 1, (v >> 41) & 1)
  }

  /** Reading the fields back from the packed value gives the fields written,
      and no bit above bit 41 is ever set. */
  lemma UnpackPack(b: PmuConfigBits)
    requires b.Fits()
    ensures Unpack(Pack(b)) == b
    ensures Pack(b) < 0x400_0000_0000
  {
  }

  /** X86_CONFIG(.event = e, .umask = u, .inv = i, .cmask = c): a
      designated-initialiser compound literal, so every other field is zero,
      and each value is truncated to its field's width. */
  function X86Config(e: bv64, u: bv64, i: bv64, c: bv64): (r: bv64)
    ensures Unpack(r) == PmuConfigBits(e & 0xff, u & 0xff, 0, 0, 0, 0, 0, 0, 0,
                                       i & 1, c & 0xff, 0, 0, 0, 0)
    ensures r < 0x1_0000_0000
  {
    var b := PmuConfigBits(e & 0xff, u & 0xff, 0, 0, 0, 0, 0, 0, 0, i & 1, c & 0xff, 0, 0, 0, 0);
    UnpackPack(b);
    Pack(b)
  }

  /** Event 0xad with umask 0x10 (INT_MISC.UOP_DROPPING) packs to 0x10ad. */
  lemma X86ConfigExample()
    ensures X86Config(0xad, 0x10, 0, 0) == 0x10ad
  {
  }

  /** ReadSetting: a negative reset interval (-1 in the configs) means the
      group is never reset; add_offset and sign_ext select the mmap-read
      arithmetic. */
  datatype ReadSetting = ReadSetting(minResetIntrvlNs: int, addOffset: bool, signExt: bool)

  const PERF_TYPE_RAW: int := 4

  /** The perf_event_attr fields the profiler sets. */
  datatype EventAttr = EventAttr(typ: int, config: bv64, excludeKernel: bool)

  const ZeroAttr := EventAttr(0, 0, false)

  /** InputConfig: one counter group as read from a config file. Each
      per-event array has GP_COUNTER slots. */
  datatype InputConfig = InputConfig(
    eventNum: int,
    names: seq<string>,
    attrs: seq<EventAttr>,
    cpus: seq<int>,
    pids: seq<int>,
    fds: seq<int>,
    groupName: string,
    rdSetting: ReadSetting,
    multiplexIntv: int)
  {
    /** The arrays have GP_COUNTER slots and event_num indexes within them. */
    predicate Valid()
    {
      |names| == Env.GP_COUNTER && |attrs| == Env.GP_COUNTER && |cpus| == Env.GP_COUNTER &&
      |pids| == Env.GP_COUNTER && |fds| == Env.GP_COUNTER &&
      0 <= eventNum <= Env.GP_COUNTER
    }
  }

  predicate AllValid(cs: seq<InputConfig>)
  {
    forall k :: 0 <= k < |cs| ==> cs[k].Valid()
  }

  /** EventCtx: the kernel handles of one registered group. */
  datatype EventCtx = EventCtx(
    eventNum: int,
    fds: seq<int>,
    addrs: seq<int>,
    ids: seq<int>,
    rdSetting: ReadSetting,
    lastResetTsc: int)
  {
    predicate Valid()
    {
      |fds| == Env.GP_COUNTER && |addrs| == Env.GP_COUNTER && |ids| == Env.GP_COUNTER &&
      0 <= eventNum <= Env.GP_COUNTER
    }
  }

  function Fill<T>(x: T, n: nat): (r: seq<T>)
    ensures |r| == n && forall i :: 0 <= i < n ==> r[i] == x
  {
    seq(n, _ => x)
  }

  /** util::CFG_FILE_TYPE. */
  datatype ConfigType = JSON | TXT | UNKNOWN

  /** ProfilerSetting. The std::set of constant names is kept as its
      iteration order (ascending, without duplicates). */
  datatype ProfilerSetting = ProfilerSetting(
    cfgType: ConfigType,
    perfCollectTopdown: bool,
    ebpfCollectCtxscPmc: bool,
    cnstVar: seq<string>,
    exportMode: int,
    traceHash: int,
    configsId: int)
}
