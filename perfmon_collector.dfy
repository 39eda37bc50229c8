/** The per-core counter collector of cpp/perfmon_collector.cpp: reading a
    counter through its perf mmap page, the per-core agent that owns the
    counter groups, and the collector that owns one agent per core.

    The kernel is an oracle. perf_event_open, ioctl and mmap answer through
    the functions of a `Kernel` value; a counter's mmap page, as it reads at
    the moment of the read, is a `MmapPage` value; the time stamp counter is
    a `now` parameter. */
module PerfmonCollector {
  import opened Machine
  import opened Wrappers
  import Env
  import opened PerfmonTypes

  // ---------------------------------------------------------------------
  // Reading one counter
  // ---------------------------------------------------------------------

  /** The fields of struct perf_event_mmap_page the read uses, and the value
      `pmc` that rdpmc(index - 1) returns while the page reads this way. */
  datatype MmapPage = MmapPage(index: int, pmcWidth: int, offset: int, capUserRdpmc: bool, pmc: int)
  {
    /** The declared widths: __u32 index, __u16 pmc_width, __s64 offset and
        the 64-bit register. */
    predicate Typed()
    {
      IsU32(index) && 0 <= pmcWidth < 0x1_0000 && IsI64(offset) && IsU64(pmc)
    }
  }

  /** `x << k` on uint64. */
  function ShlU64(x: int, k: nat): int { (x * Pow2(k)) % TWO_64 }

  /** `x >> k` on uint64 (logical shift). */
  function ShrU64(x: int, k: nat): int { x / Pow2(k) }

  /** `x << k` on int64 (the bits shifted out of the sign are lost). */
  function ShlI64(x: int, k: nat): int { I64(x * Pow2(k)) }

  /** `x >> k` on int64 (arithmetic shift: rounds toward minus infinity,
      which is Dafny's `/` for a positive divisor). */
  function SarI64(x: int, k: nat): int { x / Pow2(k) }

  /** The value of the low `w` bits of `x` read as a w-bit two's complement
      number. */
  function SignExtend(x: int, w: nat): (r: int)
    requires w >= 1
    ensures -(Pow2(w - 1) as int) <= r < Pow2(w - 1)
    ensures (r - x) % Pow2(w) == 0
  {
    var b := Pow2(w);
    LowBitsCongruent(x, b);
    if x % b < Pow2(w - 1) then x % b else x % b - b
  }

  /** The remainder modulo b, and the remainder less b, are congruent to x. */
  lemma LowBitsCongruent(x: int, b: int)
    requires b > 0
    ensures (x % b - x) % b == 0 && (x % b - b - x) % b == 0
  {
    var q := x / b;
    DivModUnique(0, b, 0, 0);
    Distrib(0, q, b);
    assert x % b - x == 0 + (0 - q) * b;
    ModAddMultiple(0, 0 - q, b);
    Distrib(0 - q, 1, b);
    assert x % b - b - x == 0 + (0 - q - 1) * b;
    ModAddMultiple(0, 0 - q - 1, b);
  }

  /** What the page's offset contributes: nothing without add_offset, its
      low pmc_width bits with sign_ext, all of it (as uint64) otherwise. */
  function OffsetPart(p: MmapPage, rs: ReadSetting): int
    requires p.Typed() && (rs.signExt ==> 1 <= p.pmcWidth <= 64)
  {
    if !rs.addOffset then 0
    else if rs.signExt then U64(p.offset) % Pow2(p.pmcWidth)
    else U64(p.offset)
  }

  /** What the counter register contributes: its pmc_width-bit value sign
      extended with sign_ext, its 64 bits as int64 otherwise. */
  function CounterPart(p: MmapPage, rs: ReadSetting): int
    requires p.Typed() && (rs.signExt ==> 1 <= p.pmcWidth <= 64)
  {
    if rs.signExt then SignExtend(p.pmc, p.pmcWidth) else I64(p.pmc)
  }

  /** ReadMmapPMC, one pass of its retry loop: the page is read as one
      consistent snapshot. The shifts of the source are written out; the
      contract says what they compute. A page that does not allow user
      rdpmc, or whose counter is not currently scheduled (index 0), reads 0. */
  function ReadMmapPMC(p: MmapPage, rs: ReadSetting): (r: int)
    requires p.Typed() && (rs.signExt ==> 1 <= p.pmcWidth <= 64)
    ensures IsU64(r)
    ensures !(p.capUserRdpmc && p.index != 0) ==> r == 0
    ensures p.capUserRdpmc && p.index != 0 ==> r == U64(OffsetPart(p, rs) + CounterPart(p, rs))
  {
    var k: nat := if rs.signExt then 64 - p.pmcWidth else 0;
    var count0 := if rs.addOffset then U64(p.offset) else 0;
    var count := if rs.signExt then ShrU64(ShlU64(count0, k), k) else count0;
    if p.capUserRdpmc && p.index != 0 then
      var pmc0 := I64(p.pmc);
      var pmc := if rs.signExt then SarI64(ShlI64(pmc0, k), k) else pmc0;
      assert rs.signExt ==> count == OffsetPart(p, rs) by {
        if rs.signExt { ShiftOutHigh(count0, k); }
      }
      assert pmc == CounterPart(p, rs) by {
        if rs.signExt {
          ShiftSignExtend(pmc0, k);
          SameLowBits(pmc0, p.pmc, p.pmcWidth);
        }
      }
      U64(count + pmc)
    else
      0
  }

  /** Pow2(k) * Pow2(64 - k) is 2^64. */
  lemma Pow2Split(k: nat)
    requires k <= 64
    ensures Pow2(k) * Pow2(64 - k) == TWO_64
  {
    Pow2Add(k, 64 - k);
    Pow2At64();
  }

  lemma Distrib(x: int, y: int, z: int)
    ensures (x - y) * z == x * z - y * z
    ensures (x + y) * z == x * z + y * z
  {
  }

  lemma Assoc(x: int, y: int, z: int)
    ensures x * (y * z) == (x * y) * z
  {
  }

  /** Multiplying by a keeps, modulo a * b, exactly the remainder modulo b. */
  lemma MulMod(x: int, a: int, b: int)
    requires a > 0 && b > 0
    ensures 0 <= (x % b) * a < a * b
    ensures (x * a) % (a * b) == (x % b) * a
  {
    var q, r := x / b, x % b;
    assert x == q * b + r;
    assert x * a == q * (a * b) + r * a;
    MulAtLeast(b - r, a);
    assert (b - r) * a == a * b - r * a;
    DivModUnique(x * a, a * b, q, r * a);
  }

  /** Adding a multiple of b does not change the remainder modulo b. */
  lemma ModAddMultiple(y: int, t: int, b: int)
    requires b > 0
    ensures (y + t * b) % b == y % b
  {
    var q, r := y / b, y % b;
    assert y + t * b == (q + t) * b + r;
    DivModUnique(y + t * b, b, q + t, r);
  }

  /** Shifting a uint64 left and back right by k keeps its low 64 - k bits. */
  lemma ShiftOutHigh(x: int, k: nat)
    requires IsU64(x) && k < 64
    ensures ShrU64(ShlU64(x, k), k) == x % Pow2(64 - k)
  {
    var a, b := Pow2(k), Pow2(64 - k);
    Pow2Split(k);
    MulMod(x, a, b);
    DivModUnique((x % b) * a, a, x % b, 0);
  }

  /** Shifting an int64 left and arithmetically back right by k sign-extends
      its low 64 - k bits. */
  lemma ShiftSignExtend(x: int, k: nat)
    requires IsI64(x) && k < 64
    ensures SarI64(ShlI64(x, k), k) == SignExtend(x, 64 - k)
  {
    var w: nat := 64 - k;
    var a, b, h := Pow2(k), Pow2(w), Pow2(w - 1);
    assert b == 2 * h;
    Pow2Split(k);
    Pow2Add(k, w - 1);
    Pow2At64();
    assert a * h == TWO_63;
    var r := x % b;
    MulMod(x, a, b);
    assert (x * a) % TWO_64 == r * a;
    if r < h {
      ShiftedLowHalf(r, a, h);
    } else {
      ShiftedHighHalf(r, a, b, h);
    }
  }

  /** A w-bit pattern without its top bit, moved to the top of 64 bits,
      is non-negative as int64 and shifts back exactly. */
  lemma ShiftedLowHalf(r: int, a: int, h: int)
    requires a > 0 && 0 <= r < h && a * h == TWO_63
    ensures 0 <= r * a < TWO_63 && (r * a) / a == r
  {
    MulAtLeast(h - r, a);
    Distrib(h, r, a);
    DivModUnique(r * a, a, r, 0);
  }

  /** A w-bit pattern with its top bit set, moved to the top of 64 bits,
      reads as the negative int64 (r - 2^w) * a, which shifts back to r - 2^w. */
  lemma ShiftedHighHalf(r: int, a: int, b: int, h: int)
    requires a > 0 && h <= r < b && b == 2 * h && a * h == TWO_63
    ensures TWO_63 <= r * a < TWO_64 && r * a - TWO_64 == (r - b) * a && ((r - b) * a) / a == r - b
  {
    MulAtLeast(r - h + 1, a);
    Distrib(r - h + 1, 1, a);
    Distrib(r, h, a);
    Distrib(r, b, a);
    DivModUnique((r - b) * a, a, r - b, 0);
  }

  /** Values that agree modulo 2^64 agree in their low w bits. */
  lemma SameLowBits(x: int, y: int, w: nat)
    requires w <= 64 && (x - y) % TWO_64 == 0
    ensures x % Pow2(w) == y % Pow2(w)
  {
    var b, c := Pow2(w), Pow2(64 - w);
    Pow2Split(64 - w);
    var t := (x - y) / TWO_64;
    assert x - y == t * TWO_64;
    Assoc(t, c, b);
    ModAddMultiple(y, t * c, b);
  }

  // ---------------------------------------------------------------------
  // The kernel as seen by the agent
  // ---------------------------------------------------------------------

  /** The ioctl requests the agent issues on an event fd. */
  datatype Request = IocId | IocEnable | IocDisable | IocReset | IocResetGroup

  /** MAP_FAILED, (void *) -1, as a 64-bit address. */
  const MAP_FAILED: int := TWO_64 - 1

  /** Oracle answers: perf_event_open(attr, pid, cpu, group_fd) gives an fd
      or a negative value; ioctl(fd, request) gives its return code; the id
      that PERF_EVENT_IOC_ID stores for an fd; and the address mmap returns
      for an fd. */
  datatype Kernel = Kernel(
    open: (EventAttr, int, int, int) -> int,
    ioctl: (int, Request) -> int,
    eventId: int -> int,
    mmap: int -> int)

  /** Which test decides that mmap failed: the null-pointer test of the
      source, or the comparison with MAP_FAILED that mmap's contract calls
      for. */
  datatype MmapCheck = NullCheck | FailedCheck

  predicate MmapFailed(addr: int, chk: MmapCheck)
  {
    if chk == NullCheck then addr == 0 else addr == MAP_FAILED
  }

  /** A value-initialised EventCtx, as std::vector::resize creates it. */
  const ZeroCtx := EventCtx(0, Fill(0, Env.GP_COUNTER), Fill(0, Env.GP_COUNTER), Fill(0, Env.GP_COUNTER),
                            ReadSetting(0, false, false), 0)

  predicate CtxsValid(cs: seq<EventCtx>)
  {
    forall i :: 0 <= i < |cs| ==> cs[i].Valid()
  }

  /** std::vector::resize: keeps the first n elements and appends
      value-initialised ones. */
  function Resize(cs: seq<EventCtx>, n: nat): (r: seq<EventCtx>)
    ensures |r| == n
    ensures forall i :: 0 <= i < n && i < |cs| ==> r[i] == cs[i]
    ensures forall i :: |cs| <= i < n ==> r[i] == ZeroCtx
  {
    if n <= |cs| then cs[..n] else cs + Fill(ZeroCtx, n - |cs|)
  }

  // ---------------------------------------------------------------------
  // Registration of the groups (PerfmonAgent::RegisterEvents)
  // ---------------------------------------------------------------------

  /** The fd the leader of a group gets: it is opened with group_fd -1. */
  function LeaderFd(cfg: InputConfig, k: Kernel): int
    requires cfg.Valid()
  {
    k.open(cfg.attrs[0], cfg.pids[0], cfg.cpus[0], -1)
  }

  /** The fd event j of a group gets: the leader opens alone, every other
      event joins the leader's group. */
  function FdOf(cfg: InputConfig, j: nat, k: Kernel): int
    requires cfg.Valid() && j < Env.GP_COUNTER
  {
    k.open(cfg.attrs[j], cfg.pids[j], cfg.cpus[j], if j == 0 then -1 else LeaderFd(cfg, k))
  }

  /** Event j of a group registers: it opens, its id can be read and its
      page can be mapped. */
  predicate EventOk(cfg: InputConfig, j: nat, k: Kernel, chk: MmapCheck)
    requires cfg.Valid() && j < Env.GP_COUNTER
  {
    var fd := FdOf(cfg, j, k);
    fd >= 0 && k.ioctl(fd, IocId) != -1 && !MmapFailed(k.mmap(fd), chk)
  }

  predicate GroupOk(cfg: InputConfig, k: Kernel, chk: MmapCheck)
    requires cfg.Valid()
  {
    forall j :: 0 <= j < cfg.eventNum ==> EventOk(cfg, j, k, chk)
  }

  /** The context of a group that registered: the kernel's handles for every
      event, the group's event count and read setting, never reset. */
  predicate Registered(cfg: InputConfig, c: EventCtx, k: Kernel)
    requires cfg.Valid() && c.Valid()
  {
    c.eventNum == cfg.eventNum && c.rdSetting == cfg.rdSetting && c.lastResetTsc == 0 &&
    forall j :: 0 <= j < cfg.eventNum ==>
      c.fds[j] == FdOf(cfg, j, k) && c.ids[j] == k.eventId(c.fds[j]) && c.addrs[j] == k.mmap(c.fds[j])
  }

  /** One pass of the inner loop of RegisterEvents: open event j, read its
      id, map its page. Every handle obtained is stored before the test that
      may abandon the group. */
  function EventStep(cfg: InputConfig, c: EventCtx, j: nat, k: Kernel, chk: MmapCheck): (r: (bool, EventCtx))
    requires cfg.Valid() && c.Valid() && j < cfg.eventNum
    ensures r.1 == c.(fds := r.1.fds, ids := r.1.ids, addrs := r.1.addrs) && r.1.Valid()
  {
    var fd := k.open(cfg.attrs[j], cfg.pids[j], cfg.cpus[j], c.fds[0]);
    var c1 := c.(fds := c.fds[j := fd]);
    if fd < 0 then (false, c1)
    else if k.ioctl(fd, IocId) == -1 then (false, c1)
    else
      var c2 := c1.(ids := c1.ids[j := k.eventId(fd)]);
      var addr := k.mmap(fd);
      (!MmapFailed(addr, chk), c2.(addrs := c2.addrs[j := addr]))
  }

  /** The group's context after the leader slot is cleared and the first n
      events are processed (stopping at the first failure). */
  function GroupPrefix(cfg: InputConfig, c0: EventCtx, n: nat, k: Kernel, chk: MmapCheck): (r: (bool, EventCtx))
    requires cfg.Valid() && c0.Valid() && n <= cfg.eventNum
    ensures r.1 == c0.(fds := r.1.fds, ids := r.1.ids, addrs := r.1.addrs) && r.1.Valid()
    decreases n
  {
    if n == 0 then (true, c0.(fds := c0.fds[0 := -1]))
    else
      var p := GroupPrefix(cfg, c0, n - 1, k, chk);
      if !p.0 then p else EventStep(cfg, p.1, n - 1, k, chk)
  }

  /** One pass of the outer loop of RegisterEvents. */
  function RegisterGroup(cfg: InputConfig, c0: EventCtx, k: Kernel, chk: MmapCheck): (r: (bool, EventCtx))
    requires cfg.Valid() && c0.Valid()
    ensures r.1.Valid()
    ensures r.1.eventNum == (if r.0 then cfg.eventNum else c0.eventNum)
  {
    var p := GroupPrefix(cfg, c0, cfg.eventNum, k, chk);
    if !p.0 then p
    else (true, p.1.(eventNum := cfg.eventNum, rdSetting := cfg.rdSetting, lastResetTsc := 0))
  }

  /** The outer loop of RegisterEvents from group i on. */
  function RegisterFrom(cfgs: seq<InputConfig>, cs: seq<EventCtx>, i: nat, k: Kernel, chk: MmapCheck): (r: (int, seq<EventCtx>))
    requires AllValid(cfgs) && CtxsValid(cs) && |cs| == |cfgs| && i <= |cfgs|
    ensures |r.1| == |cs| && CtxsValid(r.1)
    ensures forall g :: 0 <= g < |cs| ==> r.1[g].eventNum == cs[g].eventNum || r.1[g].eventNum == cfgs[g].eventNum
    decreases |cfgs| - i
  {
    if i == |cfgs| then (1, cs)
    else
      var g := RegisterGroup(cfgs[i], cs[i], k, chk);
      if !g.0 then (-1, cs[i := g.1])
      else RegisterFrom(cfgs, cs[i := g.1], i + 1, k, chk)
  }

  /** RegisterEvents as a function of the groups, the contexts before the
      call and the kernel's answers: the return code and the new contexts. */
  function RegisterSpec(cfgs: seq<InputConfig>, cs: seq<EventCtx>, k: Kernel, chk: MmapCheck): (r: (int, seq<EventCtx>))
    requires AllValid(cfgs) && CtxsValid(cs)
    ensures |r.1| == |cfgs| && CtxsValid(r.1)
    ensures forall g :: 0 <= g < |cfgs| ==>
      r.1[g].eventNum == cfgs[g].eventNum || (g < |cs| && r.1[g].eventNum == cs[g].eventNum) || r.1[g].eventNum == 0
  {
    RegisterFrom(cfgs, Resize(cs, |cfgs|), 0, k, chk)
  }

  /** Processing the first n events of a group succeeds exactly when each of
      them opens, gets an id and maps, and then each holds the handles the
      kernel gave it, the later ones joined to the leader's fd. */
  lemma {:induction false} GroupPrefixSpec(cfg: InputConfig, c0: EventCtx, n: nat, k: Kernel, chk: MmapCheck)
    requires cfg.Valid() && c0.Valid() && n <= cfg.eventNum
    ensures var p := GroupPrefix(cfg, c0, n, k, chk);
      (p.0 <==> forall j :: 0 <= j < n ==> EventOk(cfg, j, k, chk)) &&
      (p.0 && n == 0 ==> p.1.fds[0] == -1) &&
      (p.0 ==> forall j :: 0 <= j < n ==>
         p.1.fds[j] == FdOf(cfg, j, k) && p.1.ids[j] == k.eventId(p.1.fds[j]) && p.1.addrs[j] == k.mmap(p.1.fds[j]))
  {
    if n > 0 {
      GroupPrefixSpec(cfg, c0, n - 1, k, chk);
      var p := GroupPrefix(cfg, c0, n - 1, k, chk);
      if p.0 {
        assert p.1.fds[0] == (if n - 1 == 0 then -1 else LeaderFd(cfg, k));
        var fd := k.open(cfg.attrs[n - 1], cfg.pids[n - 1], cfg.cpus[n - 1], p.1.fds[0]);
        assert fd == FdOf(cfg, n - 1, k);
        var q := EventStep(cfg, p.1, n - 1, k, chk);
        assert q.0 <==> EventOk(cfg, n - 1, k, chk);
      }
    }
  }

  /** RegisterEvents from group i on returns 1 exactly when every remaining
      group registers; then each of them holds its kernel handles, and the
      groups before i are untouched. */
  lemma {:induction false} RegisterFromSpec(cfgs: seq<InputConfig>, cs: seq<EventCtx>, i: nat, k: Kernel, chk: MmapCheck)
    requires AllValid(cfgs) && CtxsValid(cs) && |cs| == |cfgs| && i <= |cfgs|
    ensures var r := RegisterFrom(cfgs, cs, i, k, chk);
      (r.0 == 1 || r.0 == -1) &&
      (r.0 == 1 <==> forall g :: i <= g < |cfgs| ==> GroupOk(cfgs[g], k, chk)) &&
      (r.0 == 1 ==> forall g :: i <= g < |cfgs| ==> Registered(cfgs[g], r.1[g], k)) &&
      r.1[..i] == cs[..i]
    decreases |cfgs| - i
  {
    if i < |cfgs| {
      RegisterGroupSpec(cfgs[i], cs[i], k, chk);
      var g := RegisterGroup(cfgs[i], cs[i], k, chk);
      if g.0 {
        var cs' := cs[i := g.1];
        RegisterFromSpec(cfgs, cs', i + 1, k, chk);
        var r := RegisterFrom(cfgs, cs', i + 1, k, chk);
        assert r.1[i] == r.1[..i + 1][i] == cs'[i];
        assert r.1[..i] == r.1[..i + 1][..i] == cs'[..i] == cs[..i];
      }
    }
  }

  /** One group registers exactly when each of its events does, and then
      its context holds the kernel's handles. */
  lemma RegisterGroupSpec(cfg: InputConfig, c0: EventCtx, k: Kernel, chk: MmapCheck)
    requires cfg.Valid() && c0.Valid()
    ensures var g := RegisterGroup(cfg, c0, k, chk);
      (g.0 <==> GroupOk(cfg, k, chk)) && (g.0 ==> Registered(cfg, g.1, k))
  {
    GroupPrefixSpec(cfg, c0, cfg.eventNum, k, chk);
  }

  /** RegisterEvents returns 1 exactly when every group registers, and then
      there is one context per group holding that group's kernel handles. */
  lemma RegisterSpecResult(cfgs: seq<InputConfig>, cs: seq<EventCtx>, k: Kernel, chk: MmapCheck)
    requires AllValid(cfgs) && CtxsValid(cs)
    ensures var r := RegisterSpec(cfgs, cs, k, chk);
      (r.0 == 1 || r.0 == -1) &&
      (r.0 == 1 <==> forall g :: 0 <= g < |cfgs| ==> GroupOk(cfgs[g], k, chk)) &&
      (r.0 == 1 ==> forall g :: 0 <= g < |cfgs| ==> Registered(cfgs[g], r.1[g], k))
  {
    RegisterFromSpec(cfgs, Resize(cs, |cfgs|), 0, k, chk);
  }

  /** With the corrected test a registered event never holds MAP_FAILED as
      the address of its page. */
  lemma RegisteredPagesMapped(cfgs: seq<InputConfig>, cs: seq<EventCtx>, k: Kernel)
    requires AllValid(cfgs) && CtxsValid(cs)
    ensures var r := RegisterSpec(cfgs, cs, k, FailedCheck);
      r.0 == 1 ==> forall g, j :: 0 <= g < |cfgs| && 0 <= j < r.1[g].eventNum ==> r.1[g].addrs[j] != MAP_FAILED
  {
    RegisterSpecResult(cfgs, cs, k, FailedCheck);
    var r := RegisterSpec(cfgs, cs, k, FailedCheck);
    if r.0 == 1 {
      forall g, j | 0 <= g < |cfgs| && 0 <= j < r.1[g].eventNum
        ensures r.1[g].addrs[j] != MAP_FAILED
      {
        assert GroupOk(cfgs[g], k, FailedCheck);
        assert EventOk(cfgs[g], j, k, FailedCheck);
      }
    }
  }

  /** The null test of the source lets a failed mmap through: a one-event
      group whose mmap returns MAP_FAILED registers with MAP_FAILED as its
      page address, which a later read dereferences. */
  lemma MmapFailureUndetected()
    ensures var cfg := InputConfig(1, Fill("", 12), Fill(ZeroAttr, 12), Fill(0, 12), Fill(-1, 12),
                                   Fill(-1, 12), "", ReadSetting(-1, true, true), 0);
            var k := Kernel((a, p, c, g) => 3, (fd, rq) => 0, fd => 7, fd => MAP_FAILED);
            var r := RegisterSpec([cfg], [], k, NullCheck);
            r.0 == 1 && r.1[0].addrs[0] == MAP_FAILED && RegisterSpec([cfg], [], k, FailedCheck).0 == -1
  {
    var cfg := InputConfig(1, Fill("", 12), Fill(ZeroAttr, 12), Fill(0, 12), Fill(-1, 12),
                           Fill(-1, 12), "", ReadSetting(-1, true, true), 0);
    var k := Kernel((a, p, c, g) => 3, (fd, rq) => 0, fd => 7, fd => MAP_FAILED);
    RegisterSpecResult([cfg], [], k, NullCheck);
    RegisterSpecResult([cfg], [], k, FailedCheck);
    assert EventOk(cfg, 0, k, NullCheck);
    assert !EventOk(cfg, 0, k, FailedCheck);
  }

  // ---------------------------------------------------------------------
  // Event counts, handles and reads over the contexts
  // ---------------------------------------------------------------------

  function SumEvents(cfgs: seq<InputConfig>): int
  {
    if |cfgs| == 0 then 0 else SumEvents(cfgs[..|cfgs| - 1]) + cfgs[|cfgs| - 1].eventNum
  }

  function SumCtxEvents(cs: seq<EventCtx>): int
  {
    if |cs| == 0 then 0 else SumCtxEvents(cs[..|cs| - 1]) + cs[|cs| - 1].eventNum
  }

  /** (fd, page address) of every event of one context. */
  function GroupHandles(c: EventCtx): (r: seq<(int, int)>)
    requires c.Valid()
    ensures |r| == c.eventNum
    ensures forall j :: 0 <= j < c.eventNum ==> r[j] == (c.fds[j], c.addrs[j])
  {
    seq(c.eventNum, j requires 0 <= j < c.eventNum => (c.fds[j], c.addrs[j]))
  }

  /** (fd, page address) of every event, context by context. */
  function Handles(cs: seq<EventCtx>): seq<(int, int)>
    requires CtxsValid(cs)
  {
    if |cs| == 0 then [] else Handles(cs[..|cs| - 1]) + GroupHandles(cs[|cs| - 1])
  }

  /** The ioctl calls one context's events receive: (fd, request) per
      event, in order. */
  function GroupCalls(c: EventCtx, rq: Request): (r: seq<(int, Request)>)
    requires c.Valid()
    ensures |r| == c.eventNum
    ensures forall j :: 0 <= j < c.eventNum ==> r[j] == (c.fds[j], rq)
  {
    seq(c.eventNum, j requires 0 <= j < c.eventNum => (c.fds[j], rq))
  }

  /** The ioctl calls of the *AllFd loops: one request on the fd of every
      event, context by context. */
  function Calls(cs: seq<EventCtx>, rq: Request): seq<(int, Request)>
    requires CtxsValid(cs)
  {
    if |cs| == 0 then [] else Calls(cs[..|cs| - 1], rq) + GroupCalls(cs[|cs| - 1], rq)
  }

  /** The calls go to exactly the fds whose handles are released, in the
      same order, each carrying the one request. */
  lemma {:induction false} CallsMatchHandles(cs: seq<EventCtx>, rq: Request)
    requires CtxsValid(cs)
    ensures |Calls(cs, rq)| == |Handles(cs)|
    ensures forall n :: 0 <= n < |Calls(cs, rq)| ==> Calls(cs, rq)[n] == (Handles(cs)[n].0, rq)
  {
    if |cs| > 0 {
      var init := cs[..|cs| - 1];
      var c := cs[|cs| - 1];
      CallsMatchHandles(init, rq);
      var a, h := Calls(cs, rq), Handles(cs);
      assert a == Calls(init, rq) + GroupCalls(c, rq);
      assert h == Handles(init) + GroupHandles(c);
      forall n | 0 <= n < |a|
        ensures a[n] == (h[n].0, rq)
      {
        if n >= |Calls(init, rq)| {
          var j := n - |Calls(init, rq)|;
          assert a[n] == GroupCalls(c, rq)[j] && h[n] == GroupHandles(c)[j];
        }
      }
    }
  }

  /** Every event of every context receives the request on its fd. */
  lemma CallsCover(cs: seq<EventCtx>, rq: Request, i: nat, j: nat)
    requires CtxsValid(cs) && i < |cs| && j < cs[i].eventNum
    ensures (cs[i].fds[j], rq) in Calls(cs, rq)
  {
    HandlesCover(cs, i, j);
    CallsMatchHandles(cs, rq);
    var n :| 0 <= n < |Handles(cs)| && Handles(cs)[n] == (cs[i].fds[j], cs[i].addrs[j]);
    assert Calls(cs, rq)[n] == (cs[i].fds[j], rq);
  }

  /** The kernel keeps every mmap page readable the way the read expects:
      the fields have their declared widths and the counter width is
      between 1 and 64. */
  ghost predicate PagesOk(hw: int -> MmapPage)
  {
    forall a :: hw(a).Typed() && 1 <= hw(a).pmcWidth <= 64
  }

  /** The values ReadMmapPMC gives for the events of one context, reading
      the page at each event's address in the snapshot `hw`. */
  function GroupReads(c: EventCtx, hw: int -> MmapPage): (r: seq<int>)
    requires c.Valid() && PagesOk(hw)
    ensures |r| == c.eventNum
    ensures forall j :: 0 <= j < c.eventNum ==> r[j] == ReadMmapPMC(PageAt(hw, c.addrs[j]), c.rdSetting)
  {
    seq(c.eventNum, j requires 0 <= j < c.eventNum => ReadMmapPMC(PageAt(hw, c.addrs[j]), c.rdSetting))
  }

  /** The page at an address in the snapshot. */
  function PageAt(hw: int -> MmapPage, a: int): (p: MmapPage)
    requires PagesOk(hw)
    ensures p == hw(a) && p.Typed() && 1 <= p.pmcWidth <= 64
  {
    hw(a)
  }

  /** The reads of every event, context by context. */
  function FlatReads(cs: seq<EventCtx>, hw: int -> MmapPage): seq<int>
    requires CtxsValid(cs) && PagesOk(hw)
  {
    if |cs| == 0 then [] else FlatReads(cs[..|cs| - 1], hw) + GroupReads(cs[|cs| - 1], hw)
  }

  /** There is one handle and one read per registered event. */
  lemma {:induction false} CountsAgree(cs: seq<EventCtx>, hw: int -> MmapPage)
    requires CtxsValid(cs) && PagesOk(hw)
    ensures |Handles(cs)| == SumCtxEvents(cs) && |FlatReads(cs, hw)| == SumCtxEvents(cs)
    ensures SumCtxEvents(cs) >= 0
  {
    if |cs| > 0 {
      CountsAgree(cs[..|cs| - 1], hw);
    }
  }

  /** Every event of every context has its handle in Handles. */
  lemma {:induction false} HandlesCover(cs: seq<EventCtx>, i: nat, j: nat)
    requires CtxsValid(cs) && i < |cs| && j < cs[i].eventNum
    ensures (cs[i].fds[j], cs[i].addrs[j]) in Handles(cs)
  {
    var n := |cs| - 1;
    if i < n {
      HandlesCover(cs[..n], i, j);
    } else {
      assert GroupHandles(cs[n])[j] == (cs[i].fds[j], cs[i].addrs[j]);
    }
  }

  /** Contexts with no more events than their groups count no more events
      in total. */
  lemma {:induction false} SumCtxAtMost(cs: seq<EventCtx>, cfgs: seq<InputConfig>)
    requires |cs| <= |cfgs|
    requires forall i :: 0 <= i < |cs| ==> 0 <= cs[i].eventNum <= cfgs[i].eventNum
    requires forall i :: 0 <= i < |cfgs| ==> cfgs[i].eventNum >= 0
    ensures 0 <= SumCtxEvents(cs) <= SumEvents(cfgs)
    decreases |cfgs|
  {
    if |cfgs| > 0 {
      var n := |cfgs| - 1;
      if |cs| == |cfgs| {
        SumCtxAtMost(cs[..n], cfgs[..n]);
      } else {
        SumCtxAtMost(cs, cfgs[..n]);
      }
    }
  }

  // ---------------------------------------------------------------------
  // Resetting (closed forms of the loops of ResetEvents and
  // CheckAndResetEventCtx)
  // ---------------------------------------------------------------------

  /** Every ioctl the agent issues for one context succeeds. */
  predicate CtxIoctlOk(c: EventCtx, rq: Request, k: Kernel)
    requires c.Valid()
  {
    forall ev :: 0 <= ev < c.eventNum ==> k.ioctl(c.fds[ev], rq) != -1
  }

  /** The contexts before i all take the request. */
  predicate AllOkBefore(cs: seq<EventCtx>, i: nat, rq: Request, k: Kernel)
    requires CtxsValid(cs) && i <= |cs|
  {
    forall g :: 0 <= g < i ==> CtxIoctlOk(cs[g], rq, k)
  }

  /** The contexts after ResetEvents: each one up to the first that fails
      to reset carries the new time stamp. */
  function AfterReset(cs: seq<EventCtx>, k: Kernel, now: int): (r: seq<EventCtx>)
    requires CtxsValid(cs)
    ensures |r| == |cs| && CtxsValid(r)
  {
    seq(|cs|, i requires 0 <= i < |cs| =>
      if AllOkBefore(cs, i + 1, IocReset, k) then cs[i].(lastResetTsc := now) else cs[i])
  }

  /** cs2 differs from cs at most in the reset time stamps. */
  predicate StampsOnly(cs: seq<EventCtx>, cs2: seq<EventCtx>)
  {
    |cs2| == |cs| && forall i :: 0 <= i < |cs| ==> cs2[i] == cs[i].(lastResetTsc := cs2[i].lastResetTsc)
  }

  lemma StampsKeepBounds(cs: seq<EventCtx>, cs2: seq<EventCtx>, cfgs: seq<InputConfig>)
    requires StampsOnly(cs, cs2) && CtxsValid(cs) && |cs| <= |cfgs|
    requires forall i :: 0 <= i < |cs| ==> cs[i].eventNum <= cfgs[i].eventNum
    ensures CtxsValid(cs2) && forall i :: 0 <= i < |cs2| ==> cs2[i].eventNum <= cfgs[i].eventNum
  {
    assert forall i :: 0 <= i < |cs| ==> cs2[i].eventNum == cs[i].eventNum && cs2[i].Valid();
  }

  lemma AfterResetStep(cs: seq<EventCtx>, i: nat, k: Kernel, now: int, out: seq<EventCtx>)
    requires CtxsValid(cs) && i < |cs| && AllOkBefore(cs, i, IocReset, k) && CtxIoctlOk(cs[i], IocReset, k)
    requires out == AfterReset(cs, k, now)[..i] + cs[i..]
    ensures out[i := cs[i].(lastResetTsc := now)] == AfterReset(cs, k, now)[..i + 1] + cs[i + 1..]
    ensures AllOkBefore(cs, i + 1, IocReset, k)
  {
    assert AllOkBefore(cs, i + 1, IocReset, k);
    assert AfterReset(cs, k, now)[i] == cs[i].(lastResetTsc := now);
  }

  lemma AfterResetStops(cs: seq<EventCtx>, i: nat, k: Kernel, now: int, out: seq<EventCtx>)
    requires CtxsValid(cs) && i < |cs| && !CtxIoctlOk(cs[i], IocReset, k)
    requires out == AfterReset(cs, k, now)[..i] + cs[i..]
    ensures out == AfterReset(cs, k, now)
    ensures !AllOkBefore(cs, |cs|, IocReset, k)
  {
    forall g | i <= g < |cs|
      ensures AfterReset(cs, k, now)[g] == cs[g]
    {
      assert !CtxIoctlOk(cs[i], IocReset, k);
    }
  }

  /** Resetting changes nothing but the time stamps. */
  lemma ResetsStampOnly(cs: seq<EventCtx>, k: Kernel, now: int)
    requires CtxsValid(cs)
    ensures StampsOnly(cs, AfterReset(cs, k, now)) && StampsOnly(cs, AfterCheckReset(cs, k, now))
  {
  }

  /** A context is due for a reset: it has a non-negative interval and more
      than that many ticks have passed (in uint64 arithmetic) since its last
      reset. */
  predicate Due(c: EventCtx, now: int)
  {
    c.rdSetting.minResetIntrvlNs >= 0 && U64(now - c.lastResetTsc) > c.rdSetting.minResetIntrvlNs
  }

  predicate ResetFails(c: EventCtx, k: Kernel, now: int)
    requires c.Valid()
  {
    Due(c, now) && k.ioctl(c.fds[0], IocResetGroup) == -1
  }

  predicate NoFailBefore(cs: seq<EventCtx>, i: nat, k: Kernel, now: int)
    requires CtxsValid(cs) && i <= |cs|
  {
    forall g :: 0 <= g < i ==> !ResetFails(cs[g], k, now)
  }

  /** The contexts after CheckAndResetEventCtx: each due context up to and
      including the first failing reset carries the new time stamp. */
  function AfterCheckReset(cs: seq<EventCtx>, k: Kernel, now: int): (r: seq<EventCtx>)
    requires CtxsValid(cs)
    ensures |r| == |cs| && CtxsValid(r)
  {
    seq(|cs|, i requires 0 <= i < |cs| =>
      if Due(cs[i], now) && NoFailBefore(cs, i, k, now) then cs[i].(lastResetTsc := now) else cs[i])
  }

  // ---------------------------------------------------------------------
  // PerfmonAgent
  // ---------------------------------------------------------------------

  /** The counter groups of one core: the configs added, the contexts
      registered for them and the read-out buffer. */
  class PerfmonAgent {
    var numEventsHere: int
    var cfgVec: seq<InputConfig>
    var ctxVec: seq<EventCtx>
    const pmcResult: array<int>

    /** At most GP_COUNTER events are added in all; each context belongs to
        the group at its index and has no more events than it. */
    ghost predicate Valid()
      reads this
    {
      pmcResult.Length == Env.GP_COUNTER &&
      AllValid(cfgVec) && numEventsHere == SumEvents(cfgVec) && numEventsHere <= Env.GP_COUNTER &&
      CtxsFit(ctxVec, cfgVec)
    }

    /** The guard of the enable, reset and disable calls. */
    predicate Empty()
      reads this
    {
      numEventsHere <= 0 || |cfgVec| == 0 || |ctxVec| == 0
    }

    constructor()
      ensures Valid() && fresh(pmcResult)
      ensures numEventsHere == 0 && cfgVec == [] && ctxVec == []
    {
      numEventsHere := 0;
      cfgVec := [];
      ctxVec := [];
      pmcResult := new int[Env.GP_COUNTER](_ => 0);
    }

    /** AddAttr: takes the group unless the agent would then hold more than
        GP_COUNTER events. */
    method AddAttr(cfg: InputConfig) returns (r: int)
      requires Valid() && cfg.Valid()
      modifies this
      ensures Valid()
      ensures old(numEventsHere) + cfg.eventNum > Env.GP_COUNTER ==>
        r == 0 && cfgVec == old(cfgVec) && numEventsHere == old(numEventsHere)
      ensures old(numEventsHere) + cfg.eventNum <= Env.GP_COUNTER ==>
        r == 1 && cfgVec == old(cfgVec) + [cfg] && numEventsHere == old(numEventsHere) + cfg.eventNum
      ensures ctxVec == old(ctxVec)
    {
      if cfg.eventNum + numEventsHere > Env.GP_COUNTER {
        return 0;
      }
      cfgVec := cfgVec + [cfg];
      assert cfgVec[..|cfgVec| - 1] == old(cfgVec);
      numEventsHere := numEventsHere + cfg.eventNum;
      return 1;
    }

    /** RegisterEvents: one context per group, every event opened, given an
        id and mapped; the first failure abandons the rest (the handles
        already obtained stay where they are). A failed mmap is recognised by
        MAP_FAILED. */
    method RegisterEvents(k: Kernel) returns (r: int)
      requires Valid()
      modifies this
      ensures Valid()
      ensures cfgVec == old(cfgVec) && numEventsHere == old(numEventsHere)
      ensures (r, ctxVec) == RegisterSpec(cfgVec, old(ctxVec), k, FailedCheck)
    {
      var cfgs := cfgVec;
      var cs := Resize(ctxVec, |cfgs|);
      var i := 0;
      while i < |cfgs|
        invariant 0 <= i <= |cfgs| && |cs| == |cfgs| && CtxsValid(cs)
        invariant RegisterFrom(cfgs, cs, i, k, FailedCheck) == RegisterSpec(cfgs, old(ctxVec), k, FailedCheck)
        invariant cfgVec == cfgs && numEventsHere == old(numEventsHere) && ctxVec == old(ctxVec)
      {
        var ok, c := RegisterGroupEvents(cfgs[i], cs[i], k);
        cs := cs[i := c];
        if !ok {
          ctxVec := cs;
          return -1;
        }
        i := i + 1;
      }
      ctxVec := cs;
      return 1;
    }

    /** UnregisterEvents: unmaps the page and closes the fd of every event;
        returns the handles released, in order. */
    method UnregisterEvents() returns (r: int, released: seq<(int, int)>)
      requires Valid()
      ensures r == 1 && released == Handles(ctxVec)
    {
      released := VisitEvents(ctxVec);
      r := 1;
    }

    /** EnableEvents: 1 exactly when there are registered events and every
        event of every context takes PERF_EVENT_IOC_ENABLE. */
    method EnableEvents(k: Kernel) returns (r: int)
      requires Valid()
      ensures r == 1 || r == -1
      ensures r == 1 <==> !Empty() && AllOkBefore(ctxVec, |ctxVec|, IocEnable, k)
    {
      if Empty() {
        return -1;
      }
      var i := 0;
      while i < |ctxVec|
        invariant 0 <= i <= |ctxVec| && AllOkBefore(ctxVec, i, IocEnable, k)
      {
        var s := IoctlSingleEventCtx(i, IocEnable, k);
        if s != 1 {
          return -1;
        }
        i := i + 1;
      }
      return 1;
    }

    /** ResetEvents: resets context by context, stamping each with the time
        of its reset, and stops at the first context that fails. */
    method ResetEvents(k: Kernel, now: int) returns (r: int)
      requires Valid()
      modifies this
      ensures Valid() && cfgVec == old(cfgVec) && numEventsHere == old(numEventsHere)
      ensures r == 1 || r == -1
      ensures r == 1 <==> !old(Empty()) && AllOkBefore(old(ctxVec), |old(ctxVec)|, IocReset, k)
      ensures ctxVec == if old(Empty()) then old(ctxVec) else AfterReset(old(ctxVec), k, now)
    {
      if Empty() {
        return -1;
      }
      var cs;
      r, cs := ResetContexts(ctxVec, k, now);
      StampsKeepBounds(ctxVec, cs, cfgVec);
      ctxVec := cs;
    }

    /** ResetEventsAllFd: resets every event on its own fd, ignoring the
        answers, and stamps every context. */
    method ResetEventsAllFd(now: int) returns (r: int, calls: seq<(int, Request)>)
      requires Valid()
      modifies this
      ensures Valid() && cfgVec == old(cfgVec) && numEventsHere == old(numEventsHere)
      ensures old(Empty()) ==> r == -1 && calls == [] && ctxVec == old(ctxVec)
      ensures !old(Empty()) ==> r == 1 && calls == Calls(old(ctxVec), IocReset)
      ensures !old(Empty()) ==> |ctxVec| == |old(ctxVec)|
      ensures !old(Empty()) ==> forall i :: 0 <= i < |ctxVec| ==> ctxVec[i] == old(ctxVec)[i].(lastResetTsc := now)
    {
      if Empty() {
        return -1, [];
      }
      calls := IssueRequests(ctxVec, IocReset);
      var cs := ctxVec;
      var stamped := seq(|cs|, i requires 0 <= i < |cs| => cs[i].(lastResetTsc := now));
      StampsKeepBounds(cs, stamped, cfgVec);
      ctxVec := stamped;
      r := 1;
    }

    /** EnableEventsAllFd: enables every event on its own fd, ignoring the
        answers. */
    method EnableEventsAllFd() returns (r: int, calls: seq<(int, Request)>)
      requires Valid()
      ensures Empty() ==> r == -1 && calls == []
      ensures !Empty() ==> r == 1 && calls == Calls(ctxVec, IocEnable)
    {
      if Empty() {
        return -1, [];
      }
      calls := IssueRequests(ctxVec, IocEnable);
      r := 1;
    }

    /** DisableEventsAllFd: disables every event on its own fd, ignoring the
        answers. */
    method DisableEventsAllFd() returns (r: int, calls: seq<(int, Request)>)
      requires Valid()
      ensures Empty() ==> r == -1 && calls == []
      ensures !Empty() ==> r == 1 && calls == Calls(ctxVec, IocDisable)
    {
      if Empty() {
        return -1, [];
      }
      calls := IssueRequests(ctxVec, IocDisable);
      r := 1;
    }

    /** DisableEvents: disables context by context and reports success
        whatever the kernel answers, as long as there are events. */
    method DisableEvents(k: Kernel) returns (r: int)
      requires Valid()
      ensures r == 1 <==> !Empty()
      ensures r == 1 || r == -1
    {
      if Empty() {
        return -1;
      }
      var i := 0;
      while i < |ctxVec|
        invariant 0 <= i <= |ctxVec|
      {
        var _ := IoctlSingleEventCtx(i, IocDisable, k);
        i := i + 1;
      }
      return 1;
    }

    /** IoctlSingleEventCtx: issues the request on every event of one
        context; 1 exactly when the index names a context (and a group) and
        every event takes the request. */
    method IoctlSingleEventCtx(ctxNum: int, rq: Request, k: Kernel) returns (r: int)
      requires Valid()
      ensures r == 1 || r == -1
      ensures r == 1 <==> 0 <= ctxNum < |ctxVec| && ctxNum < |cfgVec| && CtxIoctlOk(ctxVec[ctxNum], rq, k)
    {
      if ctxNum < 0 || |ctxVec| <= ctxNum || |cfgVec| <= ctxNum {
        return -1;
      }
      r := IoctlContext(ctxVec[ctxNum], rq, k);
    }

    /** GetEventContext: the context at an index, or nothing (a negative
        index converts to a huge unsigned one). */
    function GetEventContext(ctxNum: int): (r: Option<EventCtx>)
      reads this
      ensures r.Some? <==> 0 <= ctxNum < |ctxVec|
      ensures r.Some? ==> r.value == ctxVec[ctxNum]
    {
      if 0 <= ctxNum < |ctxVec| then Some(ctxVec[ctxNum]) else None
    }

    /** GetTesterConfig: the group at an index, or nothing. */
    function GetTesterConfig(ctxNum: int): (r: Option<InputConfig>)
      reads this
      ensures r.Some? <==> 0 <= ctxNum < |cfgVec|
      ensures r.Some? ==> r.value == cfgVec[ctxNum]
    {
      if 0 <= ctxNum < |cfgVec| then Some(cfgVec[ctxNum]) else None
    }

    /** ReadCounter: clears the buffer, then reads every event into it in
        order; returns how many were read. */
    method ReadCounter(hw: int -> MmapPage) returns (count: int)
      requires Valid() && PagesOk(hw)
      modifies pmcResult
      ensures count == SumCtxEvents(ctxVec) <= Env.GP_COUNTER
      ensures pmcResult[..] == FlatReads(ctxVec, hw) + Fill(0, Env.GP_COUNTER - count)
    {
      SumCtxAtMost(ctxVec, cfgVec);
      count := ReadIntoBuffer(pmcResult, ctxVec, hw);
    }

    /** CheckAndResetEventCtx: resets (as a group) every context that is
        due, stamping it whether or not the reset worked, and stops after
        the first reset that fails. */
    method CheckAndResetEventCtx(k: Kernel, now: int) returns (r: int)
      requires Valid()
      modifies this
      ensures Valid() && cfgVec == old(cfgVec) && numEventsHere == old(numEventsHere)
      ensures r == (if NoFailBefore(old(ctxVec), |old(ctxVec)|, k, now) then 1 else -1)
      ensures ctxVec == AfterCheckReset(old(ctxVec), k, now)
    {
      var cs;
      r, cs := CheckResetContexts(ctxVec, k, now);
      StampsKeepBounds(ctxVec, cs, cfgVec);
      ctxVec := cs;
    }
  }

  /** Each context fits its group: no more contexts than groups, and no
      context with more events than its group. */
  predicate CtxsFit(cs: seq<EventCtx>, cfgs: seq<InputConfig>)
  {
    |cs| <= |cfgs| && CtxsValid(cs) && forall i :: 0 <= i < |cs| ==> cs[i].eventNum <= cfgs[i].eventNum
  }

  /** One context's requests: every event in order, stopping at the first
      refusal. */
  method IoctlContext(c: EventCtx, rq: Request, k: Kernel) returns (r: int)
    requires c.Valid()
    ensures r == 1 || r == -1
    ensures r == 1 <==> CtxIoctlOk(c, rq, k)
  {
    var ev := 0;
    while ev < c.eventNum
      invariant 0 <= ev <= c.eventNum
      invariant forall e :: 0 <= e < ev ==> k.ioctl(c.fds[e], rq) != -1
    {
      if k.ioctl(c.fds[ev], rq) == -1 {
        return -1;
      }
      ev := ev + 1;
    }
    return 1;
  }

  /** Every event of every context, context by context. */
  method VisitEvents(cs: seq<EventCtx>) returns (hs: seq<(int, int)>)
    requires CtxsValid(cs)
    ensures hs == Handles(cs)
  {
    hs := [];
    var i := 0;
    while i < |cs|
      invariant 0 <= i <= |cs| && hs == Handles(cs[..i])
    {
      var c := cs[i];
      var ev := 0;
      while ev < c.eventNum
        invariant 0 <= ev <= c.eventNum && hs == Handles(cs[..i]) + GroupHandles(c)[..ev]
      {
        hs := hs + [(c.fds[ev], c.addrs[ev])];
        ev := ev + 1;
      }
      assert cs[..i + 1][..i] == cs[..i];
      assert GroupHandles(c)[..ev] == GroupHandles(c);
      i := i + 1;
    }
    assert cs[..i] == cs;
  }

  /** The nested loop of the *AllFd calls: one request per event, in
      order, whatever the kernel answers. */
  method IssueRequests(cs: seq<EventCtx>, rq: Request) returns (calls: seq<(int, Request)>)
    requires CtxsValid(cs)
    ensures calls == Calls(cs, rq)
  {
    calls := [];
    var i := 0;
    while i < |cs|
      invariant 0 <= i <= |cs| && calls == Calls(cs[..i], rq)
    {
      var c := cs[i];
      var ev := 0;
      while ev < c.eventNum
        invariant 0 <= ev <= c.eventNum && calls == Calls(cs[..i], rq) + GroupCalls(c, rq)[..ev]
      {
        calls := calls + [(c.fds[ev], rq)];
        ev := ev + 1;
      }
      assert cs[..i + 1][..i] == cs[..i];
      assert GroupCalls(c, rq)[..ev] == GroupCalls(c, rq);
      i := i + 1;
    }
    assert cs[..i] == cs;
  }

  /** The loop of ResetEvents over the contexts. */
  method ResetContexts(cs: seq<EventCtx>, k: Kernel, now: int) returns (r: int, out: seq<EventCtx>)
    requires CtxsValid(cs)
    ensures r == 1 || r == -1
    ensures r == 1 <==> AllOkBefore(cs, |cs|, IocReset, k)
    ensures out == AfterReset(cs, k, now) && StampsOnly(cs, out)
  {
    out := cs;
    ResetsStampOnly(cs, k, now);
    var i := 0;
    while i < |cs|
      invariant 0 <= i <= |cs| && AllOkBefore(cs, i, IocReset, k)
      invariant out == AfterReset(cs, k, now)[..i] + cs[i..]
    {
      var s := IoctlContext(cs[i], IocReset, k);
      if s != 1 {
        AfterResetStops(cs, i, k, now, out);
        return -1, out;
      }
      AfterResetStep(cs, i, k, now, out);
      out := out[i := cs[i].(lastResetTsc := now)];
      i := i + 1;
    }
    assert AfterReset(cs, k, now)[..i] == AfterReset(cs, k, now);
    r := 1;
  }

  /** The loop of CheckAndResetEventCtx over the contexts. */
  method CheckResetContexts(cs: seq<EventCtx>, k: Kernel, now: int) returns (r: int, out: seq<EventCtx>)
    requires CtxsValid(cs)
    ensures r == (if NoFailBefore(cs, |cs|, k, now) then 1 else -1)
    ensures out == AfterCheckReset(cs, k, now) && StampsOnly(cs, out)
  {
    out := cs;
    ResetsStampOnly(cs, k, now);
    var i := 0;
    while i < |cs|
      invariant 0 <= i <= |cs| && NoFailBefore(cs, i, k, now)
      invariant out == AfterCheckReset(cs, k, now)[..i] + cs[i..]
    {
      var c := cs[i];
      if Due(c, now) {
        var ret := k.ioctl(c.fds[0], IocResetGroup);
        if ret == -1 {
          CheckResetStops(cs, i, k, now);
          return -1, out[i := c.(lastResetTsc := now)];
        }
      }
      CheckResetStep(cs, i, k, now, out);
      if Due(c, now) {
        out := out[i := c.(lastResetTsc := now)];
      }
      i := i + 1;
    }
    assert AfterCheckReset(cs, k, now)[..i] == AfterCheckReset(cs, k, now);
    r := 1;
  }

  lemma CheckResetStep(cs: seq<EventCtx>, i: nat, k: Kernel, now: int, out: seq<EventCtx>)
    requires CtxsValid(cs) && i < |cs| && NoFailBefore(cs, i, k, now) && !ResetFails(cs[i], k, now)
    requires out == AfterCheckReset(cs, k, now)[..i] + cs[i..]
    ensures NoFailBefore(cs, i + 1, k, now)
    ensures (if Due(cs[i], now) then out[i := cs[i].(lastResetTsc := now)] else out)
      == AfterCheckReset(cs, k, now)[..i + 1] + cs[i + 1..]
  {
    assert NoFailBefore(cs, i + 1, k, now);
  }

  lemma CheckResetStops(cs: seq<EventCtx>, i: nat, k: Kernel, now: int)
    requires CtxsValid(cs) && i < |cs| && NoFailBefore(cs, i, k, now) && ResetFails(cs[i], k, now)
    ensures (AfterCheckReset(cs, k, now)[..i] + cs[i..])[i := cs[i].(lastResetTsc := now)] == AfterCheckReset(cs, k, now)
    ensures !NoFailBefore(cs, |cs|, k, now)
  {
    forall g | i < g < |cs|
      ensures AfterCheckReset(cs, k, now)[g] == cs[g]
    {
      assert !NoFailBefore(cs, g, k, now) by { assert ResetFails(cs[i], k, now); }
    }
  }

  /** The loop of ReadCounter: clears the buffer and reads every event into
      it in order. */
  method ReadIntoBuffer(a: array<int>, cs: seq<EventCtx>, hw: int -> MmapPage) returns (count: int)
    requires CtxsValid(cs) && PagesOk(hw) && a.Length == Env.GP_COUNTER && SumCtxEvents(cs) <= Env.GP_COUNTER
    modifies a
    ensures count == SumCtxEvents(cs)
    ensures a[..] == FlatReads(cs, hw) + Fill(0, Env.GP_COUNTER - count)
  {
    forall x | 0 <= x < a.Length {
      a[x] := 0;
    }
    assert a[..] == Fill(0, Env.GP_COUNTER);
    count := 0;
    var i := 0;
    while i < |cs|
      invariant 0 <= i <= |cs| && count == SumCtxEvents(cs[..i]) && 0 <= count <= a.Length
      invariant a[..] == FlatReads(cs[..i], hw) + Fill(0, Env.GP_COUNTER - count)
    {
      FlatReadsSnoc(cs, i, hw);
      SumCtxPrefixAtMost(cs, i + 1);
      ghost var before := a[..];
      var next := ReadGroupInto(a, cs[i], hw, count);
      ReadStep(before, FlatReads(cs[..i], hw), GroupReads(cs[i], hw), count, next);
      count, i := next, i + 1;
    }
    assert cs[..i] == cs;
  }

  /** One context's reads overwrite zeros right after the earlier reads. */
  lemma ReadStep(before: seq<int>, done: seq<int>, group: seq<int>, count: int, next: int)
    requires |done| == count && next == count + |group| && next <= |before|
    requires before == done + Fill(0, |before| - count)
    ensures before[..count] + group + before[next..] == done + group + Fill(0, |before| - next)
  {
    assert before[..count] == done;
  }

  /** The inner loop of ReadCounter: the reads of one context, stored from
      position `start` on. */
  method ReadGroupInto(a: array<int>, c: EventCtx, hw: int -> MmapPage, start: int) returns (next: int)
    requires c.Valid() && PagesOk(hw) && 0 <= start && start + c.eventNum <= a.Length
    modifies a
    ensures next == start + c.eventNum
    ensures a[..] == old(a[..start]) + GroupReads(c, hw) + old(a[next..])
  {
    next := start;
    var j := 0;
    while j < c.eventNum
      invariant 0 <= j <= c.eventNum && next == start + j
      invariant a[..start] == old(a[..start])
      invariant a[start..next] == GroupReads(c, hw)[..j]
      invariant a[start + c.eventNum..] == old(a[start + c.eventNum..])
    {
      a[next] := ReadMmapPMC(PageAt(hw, c.addrs[j]), c.rdSetting);
      next := next + 1;
      j := j + 1;
    }
    assert a[..] == a[..start] + a[start..next] + a[next..];
  }

  lemma {:induction false} GroupPrefixStops(cfg: InputConfig, c0: EventCtx, m: nat, n: nat, k: Kernel, chk: MmapCheck)
    requires cfg.Valid() && c0.Valid() && m <= n <= cfg.eventNum
    requires !GroupPrefix(cfg, c0, m, k, chk).0
    ensures GroupPrefix(cfg, c0, n, k, chk) == GroupPrefix(cfg, c0, m, k, chk)
    decreases n
  {
    if m < n {
      GroupPrefixStops(cfg, c0, m, n - 1, k, chk);
    }
  }

  /** The inner loop of RegisterEvents for one group. */
  method RegisterGroupEvents(cfg: InputConfig, c0: EventCtx, k: Kernel) returns (ok: bool, c: EventCtx)
    requires cfg.Valid() && c0.Valid()
    ensures (ok, c) == RegisterGroup(cfg, c0, k, FailedCheck)
  {
    c := c0.(fds := c0.fds[0 := -1]);
    var j := 0;
    while j < cfg.eventNum
      invariant 0 <= j <= cfg.eventNum
      invariant GroupPrefix(cfg, c0, j, k, FailedCheck) == (true, c)
    {
      var fd := k.open(cfg.attrs[j], cfg.pids[j], cfg.cpus[j], c.fds[0]);
      c := c.(fds := c.fds[j := fd]);
      if fd < 0 {
        GroupPrefixStops(cfg, c0, j + 1, cfg.eventNum, k, FailedCheck);
        return false, c;
      }
      var ret := k.ioctl(fd, IocId);
      if ret == -1 {
        GroupPrefixStops(cfg, c0, j + 1, cfg.eventNum, k, FailedCheck);
        return false, c;
      }
      c := c.(ids := c.ids[j := k.eventId(fd)]);
      c := c.(addrs := c.addrs[j := k.mmap(fd)]);
      if c.addrs[j] == MAP_FAILED {
        GroupPrefixStops(cfg, c0, j + 1, cfg.eventNum, k, FailedCheck);
        return false, c;
      }
      j := j + 1;
    }
    c := c.(eventNum := cfg.eventNum, rdSetting := cfg.rdSetting, lastResetTsc := 0);
    ok := true;
  }

  lemma FlatReadsSnoc(cs: seq<EventCtx>, i: nat, hw: int -> MmapPage)
    requires CtxsValid(cs) && PagesOk(hw) && i < |cs|
    ensures FlatReads(cs[..i + 1], hw) == FlatReads(cs[..i], hw) + GroupReads(cs[i], hw)
    ensures SumCtxEvents(cs[..i + 1]) == SumCtxEvents(cs[..i]) + cs[i].eventNum
  {
    assert cs[..i + 1][..i] == cs[..i];
  }

  /** A prefix of the contexts counts no more events than all of them. */
  lemma {:induction false} SumCtxPrefixAtMost(cs: seq<EventCtx>, n: nat)
    requires CtxsValid(cs) && n <= |cs|
    ensures 0 <= SumCtxEvents(cs[..n]) <= SumCtxEvents(cs)
    decreases |cs|
  {
    if |cs| > 0 {
      var m := |cs| - 1;
      if n == |cs| {
        SumCtxPrefixAtMost(cs[..m], m);
        assert cs[..m][..m] == cs[..m];
        assert cs[..n] == cs;
      } else {
        SumCtxPrefixAtMost(cs[..m], n);
        assert cs[..m][..n] == cs[..n];
      }
    }
  }

  // ---------------------------------------------------------------------
  // PerfmonCollector
  // ---------------------------------------------------------------------

  /** ReadResult: how many values a read produced and where it ran. */
  datatype ReadResult = ReadResult(numEvent: int, coreId: int, prefix: int)

  /** Every group an agent holds is pinned to the agent's own cpu. */
  predicate PinnedTo(cfgs: seq<InputConfig>, cpu: int)
  {
    forall g :: 0 <= g < |cfgs| ==> cfgs[g].cpus == Fill(cpu, Env.GP_COUNTER)
  }

  /** The agents are distinct objects, each consistent, and agent i holds
      only groups pinned to cpu i. */
  ghost predicate AgentsValid(agents: seq<PerfmonAgent>)
    reads agents
  {
    (forall i, j :: 0 <= i < j < |agents| ==> agents[i] != agents[j]) &&
    (forall i :: 0 <= i < |agents| ==> agents[i].Valid() && PinnedTo(agents[i].cfgVec, i))
  }

  /** The handles UnregisterEvents releases, agent by agent, for the agents
      that have contexts. */
  function AllHandles(agents: seq<PerfmonAgent>): seq<(int, int)>
    reads agents
    requires forall i :: 0 <= i < |agents| ==> CtxsValid(agents[i].ctxVec)
  {
    if |agents| == 0 then []
    else
      var last := agents[|agents| - 1];
      AllHandles(agents[..|agents| - 1]) + (if |last.ctxVec| > 0 then Handles(last.ctxVec) else [])
  }

  lemma {:induction false} SumEventsAppend(a: seq<InputConfig>, b: seq<InputConfig>)
    ensures SumEvents(a + b) == SumEvents(a) + SumEvents(b)
    decreases |b|
  {
    if |b| > 0 {
      assert (a + b)[..|a + b| - 1] == a + b[..|b| - 1];
      SumEventsAppend(a, b[..|b| - 1]);
    } else {
      assert a + b == a;
    }
  }

  /** The groups InitContext adds to the agent of `cpu`, whose groups hold
      `n` events: every input group in order, pinned to the cpu, except
      those AddAttr refuses because the agent would exceed GP_COUNTER. */
  function Accepted(n: int, gs: seq<InputConfig>, cpu: int): (r: seq<InputConfig>)
    requires AllValid(gs)
    ensures AllValid(r) && PinnedTo(r, cpu) && |r| <= |gs|
    decreases |gs|
  {
    if |gs| == 0 then []
    else
      var cfg := gs[0].(cpus := Fill(cpu, Env.GP_COUNTER));
      var rest := gs[1..];
      if n + cfg.eventNum > Env.GP_COUNTER then Accepted(n, rest, cpu)
      else [cfg] + Accepted(n + cfg.eventNum, rest, cpu)
  }

  /** The accepted groups never take the agent past GP_COUNTER events. */
  lemma {:induction false} AcceptedFits(n: int, gs: seq<InputConfig>, cpu: int)
    requires AllValid(gs)
    ensures SumEvents(Accepted(n, gs, cpu)) >= 0
    ensures n <= Env.GP_COUNTER ==> n + SumEvents(Accepted(n, gs, cpu)) <= Env.GP_COUNTER
    decreases |gs|
  {
    if |gs| > 0 {
      var cfg := gs[0].(cpus := Fill(cpu, Env.GP_COUNTER));
      if n + cfg.eventNum > Env.GP_COUNTER {
        AcceptedFits(n, gs[1..], cpu);
      } else {
        var rest := Accepted(n + cfg.eventNum, gs[1..], cpu);
        AcceptedFits(n + cfg.eventNum, gs[1..], cpu);
        SumEventsAppend([cfg], rest);
        assert SumEvents([cfg]) == cfg.eventNum by { assert [cfg][..0] == []; }
      }
    }
  }

  /** Every group pinned to the cpu, in order. */
  function PinAll(gs: seq<InputConfig>, cpu: int): (r: seq<InputConfig>)
    ensures |r| == |gs|
    decreases |gs|
  {
    if |gs| == 0 then [] else [gs[0].(cpus := Fill(cpu, Env.GP_COUNTER))] + PinAll(gs[1..], cpu)
  }

  /** PinAll keeps every group but its cpu list, which names the cpu in
      every slot. */
  lemma {:induction false} PinAllPins(gs: seq<InputConfig>, cpu: int)
    ensures forall i :: 0 <= i < |gs| ==> PinAll(gs, cpu)[i] == gs[i].(cpus := Fill(cpu, Env.GP_COUNTER))
    decreases |gs|
  {
    if |gs| > 0 {
      PinAllPins(gs[1..], cpu);
      forall i | 0 < i < |gs|
        ensures PinAll(gs, cpu)[i] == gs[i].(cpus := Fill(cpu, Env.GP_COUNTER))
      {
        assert PinAll(gs, cpu)[i] == PinAll(gs[1..], cpu)[i - 1];
      }
    }
  }

  /** Groups whose events fit together are all accepted, in order. */
  lemma {:induction false} AcceptedAll(n: int, gs: seq<InputConfig>, cpu: int)
    requires AllValid(gs) && n + SumEvents(gs) <= Env.GP_COUNTER
    ensures Accepted(n, gs, cpu) == PinAll(gs, cpu)
    decreases |gs|
  {
    if |gs| > 0 {
      SumEventsFront(gs);
      var cfg := gs[0].(cpus := Fill(cpu, Env.GP_COUNTER));
      assert Accepted(n, gs, cpu) == [cfg] + Accepted(n + cfg.eventNum, gs[1..], cpu);
      AcceptedAll(n + cfg.eventNum, gs[1..], cpu);
    } else {
      assert Accepted(n, gs, cpu) == PinAll(gs, cpu);
    }
  }

  lemma {:induction false} SumEventsFront(gs: seq<InputConfig>)
    requires AllValid(gs) && |gs| > 0
    ensures SumEvents(gs) == gs[0].eventNum + SumEvents(gs[1..]) && SumEvents(gs[1..]) >= 0
  {
    SumEventsAppend([gs[0]], gs[1..]);
    assert [gs[0]] + gs[1..] == gs;
    assert SumEvents([gs[0]]) == gs[0].eventNum by { assert [gs[0]][..0] == []; }
    SumEventsNonNeg(gs[1..]);
  }

  lemma {:induction false} SumEventsNonNeg(gs: seq<InputConfig>)
    requires AllValid(gs)
    ensures SumEvents(gs) >= 0
    decreases |gs|
  {
    if |gs| > 0 {
      SumEventsNonNeg(gs[..|gs| - 1]);
    }
  }

  /** The outcome of InitAgent on an agent holding the groups `cfgs` and
      the contexts `cs`: the return code, then the groups and the contexts
      afterwards. The accepted groups are added; RegisterEvents,
      ResetEvents and EnableEvents follow while each answers 1, and the
      code is 1 exactly when all three do. */
  function InitAgentSpec(cfgs: seq<InputConfig>, cs: seq<EventCtx>, inputConfig: seq<InputConfig>, cpu: int,
                         k: Kernel, now: int): (r: (int, seq<InputConfig>, seq<EventCtx>))
    requires AllValid(cfgs) && CtxsValid(cs) && AllValid(inputConfig) && SumEvents(cfgs) <= Env.GP_COUNTER
    ensures r.0 == 1 || r.0 == -1
    ensures AllValid(r.1) && CtxsValid(r.2) && SumEvents(r.1) <= Env.GP_COUNTER
    ensures |r.1| >= |cfgs| && r.1[..|cfgs|] == cfgs && PinnedTo(r.1[|cfgs|..], cpu)
    ensures r.0 == 1 ==> |r.2| > 0 && |r.2| == |r.1|
  {
    var added := Accepted(SumEvents(cfgs), inputConfig, cpu);
    AcceptedFits(SumEvents(cfgs), inputConfig, cpu);
    var groups := cfgs + added;
    SumEventsAppend(cfgs, added);
    assert groups[..|cfgs|] == cfgs && groups[|cfgs|..] == added;
    var reg := RegisterSpec(groups, cs, k, FailedCheck);
    if reg.0 != 1 || SumEvents(groups) <= 0 || |groups| == 0 || |reg.1| == 0 then (-1, groups, reg.1)
    else
      var reset := AfterReset(reg.1, k, now);
      if !AllOkBefore(reg.1, |reg.1|, IocReset, k) then (-1, groups, reset)
      else (if AllOkBefore(reset, |reset|, IocEnable, k) then 1 else -1, groups, reset)
  }

  /** The agents' states after the agent table grows to maxNumCore
      value-initialised agents. */
  function GrowStates(st: seq<AgentState>, maxNumCore: int): (r: seq<AgentState>)
    ensures |r| == (if maxNumCore > |st| then maxNumCore else |st|) && r[..|st|] == st
    ensures forall i :: |st| <= i < |r| ==> r[i] == AgentState([], [])
    ensures StatesOk(st) ==> StatesOk(r)
  {
    if maxNumCore > |st| then st + Fill(AgentState([], []), maxNumCore - |st|) else st
  }

  /** What InitContext needs of one agent's groups and contexts. */
  datatype AgentState = AgentState(cfgs: seq<InputConfig>, ctxs: seq<EventCtx>)
  {
    predicate Ok()
    {
      AllValid(cfgs) && CtxsValid(ctxs) && SumEvents(cfgs) <= Env.GP_COUNTER
    }
  }

  /** The groups and contexts of each agent. */
  function StatesOf(agents: seq<PerfmonAgent>): (r: seq<AgentState>)
    reads agents
    ensures |r| == |agents|
    ensures forall i :: 0 <= i < |agents| ==> r[i] == AgentState(agents[i].cfgVec, agents[i].ctxVec)
  {
    seq(|agents|, i requires 0 <= i < |agents| reads agents => AgentState(agents[i].cfgVec, agents[i].ctxVec))
  }

  predicate StatesOk(st: seq<AgentState>)
  {
    forall i :: 0 <= i < |st| ==> st[i].Ok()
  }

  /** The cpu loop of InitContext over the agents' states: each listed cpu
      within [0, maxNumCore) in turn has its agent initialised (a cpu listed
      twice twice), and the first failure stops the loop with -1. */
  function InitAll(st: seq<AgentState>, inputConfig: seq<InputConfig>, numCore: seq<int>, maxNumCore: int,
                   k: Kernel, now: int): (r: (int, seq<AgentState>))
    requires StatesOk(st) && AllValid(inputConfig) && maxNumCore <= |st|
    ensures r.0 == 1 || r.0 == -1
    ensures |r.1| == |st| && StatesOk(r.1)
    decreases |numCore|
  {
    if |numCore| == 0 then (1, st)
    else
      var cpu := numCore[0];
      if cpu >= maxNumCore || cpu < 0 then InitAll(st, inputConfig, numCore[1..], maxNumCore, k, now)
      else
        var o := InitAgentSpec(st[cpu].cfgs, st[cpu].ctxs, inputConfig, cpu, k, now);
        var st2 := st[cpu := AgentState(o.1, o.2)];
        if o.0 != 1 then (-1, st2) else InitAll(st2, inputConfig, numCore[1..], maxNumCore, k, now)
  }

  /** An agent whose cpu is not listed within range is left as it was. */
  lemma {:induction false} InitAllFrame(st: seq<AgentState>, inputConfig: seq<InputConfig>, numCore: seq<int>,
                                        maxNumCore: int, k: Kernel, now: int)
    requires StatesOk(st) && AllValid(inputConfig) && maxNumCore <= |st|
    ensures forall i :: 0 <= i < |st| && (i !in numCore || i >= maxNumCore) ==>
              InitAll(st, inputConfig, numCore, maxNumCore, k, now).1[i] == st[i]
    decreases |numCore|
  {
    if |numCore| > 0 {
      var cpu := numCore[0];
      if cpu >= maxNumCore || cpu < 0 {
        InitAllFrame(st, inputConfig, numCore[1..], maxNumCore, k, now);
      } else {
        var o := InitAgentSpec(st[cpu].cfgs, st[cpu].ctxs, inputConfig, cpu, k, now);
        var st2 := st[cpu := AgentState(o.1, o.2)];
        if o.0 == 1 {
          InitAllFrame(st2, inputConfig, numCore[1..], maxNumCore, k, now);
        }
      }
    }
  }

  /** On success every listed cpu within range has contexts, and each of its
      initialisations succeeded. */
  lemma {:induction false} InitAllReady(st: seq<AgentState>, inputConfig: seq<InputConfig>, numCore: seq<int>,
                                        maxNumCore: int, k: Kernel, now: int)
    requires StatesOk(st) && AllValid(inputConfig) && maxNumCore <= |st|
    ensures var r := InitAll(st, inputConfig, numCore, maxNumCore, k, now);
            r.0 == 1 ==> forall c :: c in numCore && 0 <= c < maxNumCore ==> |r.1[c].ctxs| > 0
    decreases |numCore|
  {
    if |numCore| > 0 {
      var cpu := numCore[0];
      if cpu >= maxNumCore || cpu < 0 {
        InitAllReady(st, inputConfig, numCore[1..], maxNumCore, k, now);
      } else {
        var o := InitAgentSpec(st[cpu].cfgs, st[cpu].ctxs, inputConfig, cpu, k, now);
        var st2 := st[cpu := AgentState(o.1, o.2)];
        if o.0 == 1 {
          InitAllReady(st2, inputConfig, numCore[1..], maxNumCore, k, now);
          InitAllFrame(st2, inputConfig, numCore[1..], maxNumCore, k, now);
        }
      }
    }
  }

  /** The collector: one agent per cpu and the ready flag. */
  class PerfmonCollector {
    var ready: bool
    var agents: seq<PerfmonAgent>

    ghost predicate Valid()
      reads this, agents
    {
      AgentsValid(agents) && StatesOk(StatesOf(agents))
    }

    /** The agent a read through this rdtscp auxiliary value uses. */
    function AgentFor(aux: int): set<PerfmonAgent>
      requires IsU32(aux)
      reads this
    {
      var c := Env.GetCoreId(aux).pid;
      if c < |agents| then {agents[c]} else {}
    }

    constructor()
      ensures Valid() && !ready && agents == []
    {
      ready := false;
      agents := [];
    }

    /** InitContext: grows the agent table to the number of cpus, then for
        every listed cpu within it adds each group pinned to that cpu,
        registers, resets and enables; the first failure ends the call with
        -1 and leaves the collector not ready. */
    method InitContext(inputConfig: seq<InputConfig>, numCore: seq<int>, maxNumCore: int, k: Kernel, now: int)
      returns (r: int)
      requires Valid() && AllValid(inputConfig)
      modifies this, agents
      ensures Valid()
      ensures r == 1 || r == -1
      ensures old(ready) ==> r == -1 && ready && agents == old(agents)
      ensures !old(ready) ==> (ready <==> r == 1)
      ensures !old(ready) ==> |agents| == (if maxNumCore > |old(agents)| then maxNumCore else |old(agents)|)
      ensures agents[..|old(agents)|] == old(agents)
      ensures r == 1 ==> forall c :: c in numCore && 0 <= c < maxNumCore ==> |agents[c].ctxVec| > 0
      ensures !old(ready) ==>
                (r, StatesOf(agents)) == InitAll(GrowStates(old(StatesOf(agents)), maxNumCore),
                                                 inputConfig, numCore, maxNumCore, k, now)
    {
      if ready {
        return -1;
      }
      r := GrowAndInit(inputConfig, numCore, maxNumCore, k, now);
      ready := r == 1;
    }

    /** InitContext past its ready test: the agent table grown, then the
        cpu loop. */
    method GrowAndInit(inputConfig: seq<InputConfig>, numCore: seq<int>, maxNumCore: int, k: Kernel, now: int)
      returns (r: int)
      requires Valid() && AllValid(inputConfig)
      modifies this, agents
      ensures Valid() && ready == old(ready)
      ensures r == 1 || r == -1
      ensures |agents| == (if maxNumCore > |old(agents)| then maxNumCore else |old(agents)|)
      ensures agents[..|old(agents)|] == old(agents)
      ensures r == 1 ==> forall c :: c in numCore && 0 <= c < maxNumCore ==> |agents[c].ctxVec| > 0
      ensures (r, StatesOf(agents)) == InitAll(GrowStates(old(StatesOf(agents)), maxNumCore),
                                               inputConfig, numCore, maxNumCore, k, now)
    {
      GrowAgents(maxNumCore);
      assert forall i :: 0 <= i < |agents| ==> (i < |old(agents)| && agents[i] == old(agents)[i]) || fresh(agents[i]);
      r := InitAgents(agents, inputConfig, numCore, maxNumCore, k, now);
    }

    /** The growth step of InitContext: value-initialised agents appended
        up to the number of cpus. */
    method GrowAgents(maxNumCore: int)
      requires Valid()
      modifies this
      ensures Valid() && ready == old(ready)
      ensures |agents| == (if maxNumCore > |old(agents)| then maxNumCore else |old(agents)|)
      ensures agents[..|old(agents)|] == old(agents)
      ensures forall i :: |old(agents)| <= i < |agents| ==> fresh(agents[i])
      ensures StatesOf(agents) == GrowStates(old(StatesOf(agents)), maxNumCore)
    {
      if maxNumCore > |agents| {
        var extra := NewAgents(maxNumCore - |agents|);
        assert forall i, j :: 0 <= i < |agents| && 0 <= j < |extra| ==> agents[i] != extra[j];
        agents := agents + extra;
        AgentsStatesOk(agents);
      }
    }

    /** PerCoreRead: finds the agent of the cpu the thread runs on (from the
        rdtscp auxiliary value), lets it reset what is due on a start read,
        then reads every event of every context into `ret` in order. A cpu
        without an agent or without contexts reads nothing and gives -1. */
    method PerCoreRead(isStart: bool, aux: int, hw: int -> MmapPage, k: Kernel, now: int, ret: seq<int>)
      returns (r: int, out: seq<int>, rd: ReadResult)
      requires Valid() && IsU32(aux) && PagesOk(hw) && |ret| >= Env.GP_COUNTER
      modifies AgentFor(aux)
      ensures Valid()
      ensures rd.coreId == Env.GetCoreId(aux).pid && rd.prefix == Env.GetCoreId(aux).prefix
      ensures r == 1 || r == -1
      ensures |out| == |ret|
      ensures r == -1 <==> rd.coreId >= |agents| || |old(agents[rd.coreId].ctxVec)| == 0
      ensures r == -1 ==> rd.numEvent == 0 && out == ret
      ensures r == -1 && rd.coreId < |agents| ==> unchanged(agents[rd.coreId])
      ensures r == 1 ==>
        var a := agents[rd.coreId];
        a.cfgVec == old(a.cfgVec) && a.numEventsHere == old(a.numEventsHere) &&
        a.ctxVec == (if isStart then AfterCheckReset(old(a.ctxVec), k, now) else old(a.ctxVec)) &&
        0 <= rd.numEvent == SumCtxEvents(a.ctxVec) <= Env.GP_COUNTER &&
        out == FlatReads(a.ctxVec, hw) + ret[rd.numEvent..]
    {
      var id := Env.GetCoreId(aux);
      if id.pid >= |agents| || |agents[id.pid].ctxVec| == 0 {
        return -1, ret, ReadResult(0, id.pid, id.prefix);
      }
      var agent := agents[id.pid];
      if isStart {
        ResetDueAt(id.pid, k, now);
      }
      SumCtxAtMost(agent.ctxVec, agent.cfgVec);
      var n;
      out, n := ReadContexts(agent.ctxVec, hw, ret);
      CountsAgree(agent.ctxVec, hw);
      return 1, out, ReadResult(n, id.pid, id.prefix);
    }

    /** The reset of a start read: CheckAndResetEventCtx on the agent of
        cpu c. */
    method ResetDueAt(c: int, k: Kernel, now: int)
      requires Valid() && 0 <= c < |agents|
      modifies agents[c]
      ensures Valid()
      ensures agents[c].cfgVec == old(agents[c].cfgVec) && agents[c].numEventsHere == old(agents[c].numEventsHere)
      ensures agents[c].ctxVec == AfterCheckReset(old(agents[c].ctxVec), k, now)
    {
      var _ := agents[c].CheckAndResetEventCtx(k, now);
      AgentsStatesOk(agents);
    }

    /** CloseContext: once, and only when ready, clears the flag and
        disables and unregisters every agent that has contexts; returns the
        handles released. */
    method CloseContext(k: Kernel) returns (r: int, released: seq<(int, int)>)
      requires Valid()
      modifies this
      ensures Valid() && agents == old(agents) && !ready
      ensures old(ready) ==> r == 1 && released == AllHandles(agents)
      ensures !old(ready) ==> r == -1 && released == []
    {
      if !ready {
        return -1, [];
      }
      ghost var st := StatesOf(agents);
      released := CloseAgents(agents, k);
      ready := false;
      assert StatesOf(agents) == st;
      r := 1;
    }
  }

  /** n value-initialised agents, new and distinct. */
  method NewAgents(n: nat) returns (ags: seq<PerfmonAgent>)
    ensures |ags| == n && forall i :: 0 <= i < n ==> fresh(ags[i])
    ensures forall i, j :: 0 <= i < j < n ==> ags[i] != ags[j]
    ensures forall i :: 0 <= i < n ==> ags[i].Valid() && ags[i].cfgVec == [] && ags[i].ctxVec == []
  {
    ags := [];
    while |ags| < n
      invariant |ags| <= n && forall i :: 0 <= i < |ags| ==> fresh(ags[i])
      invariant forall i, j :: 0 <= i < j < |ags| ==> ags[i] != ags[j]
      invariant forall i :: 0 <= i < |ags| ==> ags[i].Valid() && ags[i].cfgVec == [] && ags[i].ctxVec == []
    {
      var a := new PerfmonAgent();
      ags := ags + [a];
    }
  }

  /** The agent loop of CloseContext: every agent that has contexts is
      disabled and unregistered. */
  method CloseAgents(agents: seq<PerfmonAgent>, k: Kernel) returns (released: seq<(int, int)>)
    requires AgentsValid(agents)
    ensures released == AllHandles(agents)
  {
    released := [];
    var i := 0;
    while i < |agents|
      invariant 0 <= i <= |agents| && released == AllHandles(agents[..i])
    {
      var agent := agents[i];
      assert agents[..i + 1][..i] == agents[..i];
      if |agent.ctxVec| > 0 {
        var _ := agent.DisableEvents(k);
        var _, hs := agent.UnregisterEvents();
        released := released + hs;
      }
      i := i + 1;
    }
    assert agents[..i] == agents;
  }

  /** The cpu loop of InitContext. */
  method InitAgents(agents: seq<PerfmonAgent>, inputConfig: seq<InputConfig>, numCore: seq<int>, maxNumCore: int,
                    k: Kernel, now: int) returns (r: int)
    requires AgentsValid(agents) && AllValid(inputConfig) && maxNumCore <= |agents|
    requires StatesOk(StatesOf(agents))
    modifies agents
    ensures AgentsValid(agents)
    ensures r == 1 || r == -1
    ensures r == 1 ==> forall c :: c in numCore && 0 <= c < maxNumCore ==> |agents[c].ctxVec| > 0
    ensures (r, StatesOf(agents)) ==
            InitAll(old(StatesOf(agents)), inputConfig, numCore, maxNumCore, k, now)
  {
    ghost var st0 := StatesOf(agents);
    InitAllReady(st0, inputConfig, numCore, maxNumCore, k, now);
    var idx := 0;
    while idx < |numCore|
      invariant 0 <= idx <= |numCore| && AgentsValid(agents)
      invariant StatesOk(StatesOf(agents))
      invariant InitAll(StatesOf(agents), inputConfig, numCore[idx..], maxNumCore, k, now) ==
                InitAll(st0, inputConfig, numCore, maxNumCore, k, now)
    {
      var cpu := numCore[idx];
      assert numCore[idx..][1..] == numCore[idx + 1..];
      if cpu >= maxNumCore || cpu < 0 {
        idx := idx + 1;
        continue;
      }
      var s := InitAgentAt(agents, inputConfig, cpu, k, now);
      AgentsStatesOk(agents);
      if s != 1 {
        return -1;
      }
      idx := idx + 1;
    }
    r := 1;
  }

  /** Consistent agents have consistent states. */
  lemma AgentsStatesOk(agents: seq<PerfmonAgent>)
    requires AgentsValid(agents)
    ensures StatesOk(StatesOf(agents))
  {
    forall i | 0 <= i < |agents|
      ensures StatesOf(agents)[i].Ok()
    {
      assert agents[i].Valid();
    }
  }

  /** InitAgent on the agent of one cpu, the other agents untouched. */
  method InitAgentAt(agents: seq<PerfmonAgent>, inputConfig: seq<InputConfig>, cpu: int, k: Kernel, now: int)
    returns (r: int)
    requires AgentsValid(agents) && AllValid(inputConfig) && 0 <= cpu < |agents|
    modifies agents[cpu]
    ensures AgentsValid(agents)
    ensures r == 1 || r == -1
    ensures r == 1 ==> |agents[cpu].ctxVec| > 0
    ensures forall i :: 0 <= i < |agents| && i != cpu ==> agents[i].ctxVec == old(agents[i].ctxVec)
    ensures var o := InitAgentSpec(old(agents[cpu].cfgVec), old(agents[cpu].ctxVec), inputConfig, cpu, k, now);
            r == o.0 && StatesOf(agents) == old(StatesOf(agents))[cpu := AgentState(o.1, o.2)]
  {
    ghost var st := StatesOf(agents);
    r := InitAgent(agents[cpu], inputConfig, cpu, k, now);
    forall i | 0 <= i < |agents| && i != cpu
      ensures agents[i].cfgVec == old(agents[i].cfgVec) && agents[i].ctxVec == old(agents[i].ctxVec)
    {
      assert agents[i] != agents[cpu];
    }
    assert StatesOf(agents) == st[cpu := AgentState(agents[cpu].cfgVec, agents[cpu].ctxVec)];
  }

  /** The body of the cpu loop of InitContext: the groups pinned to the
      cpu added, then register, reset and enable, stopping at the first
      that does not answer 1. */
  method InitAgent(agent: PerfmonAgent, inputConfig: seq<InputConfig>, cpu: int, k: Kernel, now: int)
    returns (r: int)
    requires agent.Valid() && AllValid(inputConfig) && PinnedTo(agent.cfgVec, cpu)
    modifies agent
    ensures agent.Valid() && PinnedTo(agent.cfgVec, cpu)
    ensures r == 1 || r == -1
    ensures r == 1 ==> |agent.ctxVec| > 0
    ensures (r, agent.cfgVec, agent.ctxVec) ==
            InitAgentSpec(old(agent.cfgVec), old(agent.ctxVec), inputConfig, cpu, k, now)
  {
    var added := FillAgent(agent, inputConfig, cpu);
    r := agent.RegisterEvents(k);
    if r == 1 {
      r := agent.ResetEvents(k, now);
      if r == 1 {
        r := agent.EnableEvents(k);
      }
    }
    r := if r == 1 then 1 else -1;
  }

  /** The inner loop of InitContext: every group of the input, pinned to
      the cpu, offered to the agent (a refusal is ignored). */
  method FillAgent(agent: PerfmonAgent, inputConfig: seq<InputConfig>, cpu: int) returns (added: int)
    requires agent.Valid() && AllValid(inputConfig) && PinnedTo(agent.cfgVec, cpu)
    modifies agent
    ensures agent.Valid() && PinnedTo(agent.cfgVec, cpu) && agent.ctxVec == old(agent.ctxVec)
    ensures agent.cfgVec == old(agent.cfgVec) + Accepted(old(agent.numEventsHere), inputConfig, cpu)
    ensures added == |agent.cfgVec| - |old(agent.cfgVec)|
  {
    var g := 0;
    added := 0;
    while g < |inputConfig|
      invariant 0 <= g <= |inputConfig|
      invariant agent.Valid() && PinnedTo(agent.cfgVec, cpu) && agent.ctxVec == old(agent.ctxVec)
      invariant added == |agent.cfgVec| - |old(agent.cfgVec)|
      invariant agent.cfgVec + Accepted(agent.numEventsHere, inputConfig[g..], cpu) ==
                old(agent.cfgVec) + Accepted(old(agent.numEventsHere), inputConfig, cpu)
    {
      var s := OfferGroup(agent, inputConfig, g, cpu);
      added := added + s;
      g := g + 1;
    }
  }


  /** One step of FillAgent: group g of the input, pinned to the cpu,
      offered to the agent. */
  method OfferGroup(agent: PerfmonAgent, inputConfig: seq<InputConfig>, g: nat, cpu: int) returns (s: int)
    requires agent.Valid() && AllValid(inputConfig) && PinnedTo(agent.cfgVec, cpu) && g < |inputConfig|
    modifies agent
    ensures agent.Valid() && PinnedTo(agent.cfgVec, cpu) && agent.ctxVec == old(agent.ctxVec)
    ensures s == |agent.cfgVec| - |old(agent.cfgVec)|
    ensures agent.cfgVec + Accepted(agent.numEventsHere, inputConfig[g + 1..], cpu) ==
            old(agent.cfgVec) + Accepted(old(agent.numEventsHere), inputConfig[g..], cpu)
  {
    var cfg := inputConfig[g].(cpus := Fill(cpu, Env.GP_COUNTER));
    assert inputConfig[g..][1..] == inputConfig[g + 1..];
    s := agent.AddAttr(cfg);
  }

  /** The read loop of PerCoreRead: every event of every context, into the
      caller's buffer from position 0 on. */
  method ReadContexts(cs: seq<EventCtx>, hw: int -> MmapPage, ret: seq<int>) returns (out: seq<int>, n: int)
    requires CtxsValid(cs) && PagesOk(hw) && 0 <= SumCtxEvents(cs) <= |ret|
    ensures n == SumCtxEvents(cs)
    ensures out == FlatReads(cs, hw) + ret[n..]
  {
    out := ret;
    n := 0;
    var i := 0;
    while i < |cs|
      invariant 0 <= i <= |cs| && n == SumCtxEvents(cs[..i]) && 0 <= n <= |ret|
      invariant |out| == |ret|
      invariant out[..n] == FlatReads(cs[..i], hw) && out[n..] == ret[n..]
    {
      var c := cs[i];
      FlatReadsSnoc(cs, i, hw);
      SumCtxPrefixAtMost(cs, i + 1);
      out := ReadGroupIntoSeq(c, hw, out, n);
      n := n + c.eventNum;
      i := i + 1;
    }
    assert cs[..i] == cs;
    assert out == out[..n] + out[n..];
  }

  /** The inner read loop of PerCoreRead: the events of one context, in
      order, into the buffer from `start` on. */
  method ReadGroupIntoSeq(c: EventCtx, hw: int -> MmapPage, buf: seq<int>, start: int) returns (out: seq<int>)
    requires c.Valid() && PagesOk(hw) && 0 <= start && start + c.eventNum <= |buf|
    ensures out == buf[..start] + GroupReads(c, hw) + buf[start + c.eventNum..]
  {
    out := buf;
    var j := 0;
    while j < c.eventNum
      invariant 0 <= j <= c.eventNum && |out| == |buf|
      invariant out[..start] == buf[..start]
      invariant out[start..start + j] == GroupReads(c, hw)[..j]
      invariant out[start + c.eventNum..] == buf[start + c.eventNum..]
    {
      ghost var prev := out;
      out := out[start + j := ReadMmapPMC(PageAt(hw, c.addrs[j]), c.rdSetting)];
      assert out[start..start + j + 1] == prev[start..start + j] + [GroupReads(c, hw)[j]];
      assert GroupReads(c, hw)[..j + 1] == GroupReads(c, hw)[..j] + [GroupReads(c, hw)[j]];
      j := j + 1;
    }
    assert out == out[..start] + out[start..start + c.eventNum] + out[start + c.eventNum..];
  }
}
