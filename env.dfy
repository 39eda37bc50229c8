/** Register-word arithmetic of the environment helpers (cpp/env.h). The
    instructions themselves (rdtsc, rdtscp) and the clock are oracles: their
    raw outputs are parameters. */
module Env {
  import opened Machine

  /** Number of general-purpose counters: the cap on events per group and
      per hardware context. */
  const GP_COUNTER: nat := 12

  /** rdtsc: the EDX:EAX pair combined into one 64-bit time stamp. */
  function Rdtsc(hi: int, lo: int): (r: int)
    requires IsU32(hi) && IsU32(lo)
    ensures IsU64(r)
    ensures r / TWO_32 == hi && r % TWO_32 == lo
  {
    hi * TWO_32 + lo
  }

  /** The two halves of the rdtscp auxiliary value: the low 12 bits (`pid`)
      and the bits above them (`prefix`). */
  datatype CoreId = CoreId(pid: int, prefix: int)
  {
    /** The union's 64-bit view: pid in the low word, prefix in the high word. */
    function Full(): int { pid + prefix * TWO_32 }
  }

  /** Env::GetCoreId: prefix = aux >> 12 and pid = (aux << 20) >> 20 in 32-bit
      unsigned arithmetic. */
  function GetCoreId(aux: int): (r: CoreId)
    requires IsU32(aux)
    ensures 0 <= r.pid < 4096 && 0 <= r.prefix < 0x10_0000
    ensures r.prefix * 4096 + r.pid == aux
  {
    var shifted := U32(aux * 0x10_0000);
    CoreId(shifted / 0x10_0000, aux / 4096)
  }

  /** Env::GetCoreIdNew: the same split, returned as the union. */
  function GetCoreIdNew(aux: int): (r: CoreId)
    requires IsU32(aux)
    ensures r == GetCoreId(aux)
    ensures r.Full() % TWO_32 == aux % 4096 && r.Full() / TWO_32 == aux / 4096
  {
    var shifted := U32(aux * 0x10_0000);
    CoreId(shifted / 0x10_0000, aux / 4096)
  }

  /** Env::GetClockTimeNs: tv_sec * 10^9 + tv_nsec in uint64 arithmetic. */
  function ClockTimeNs(sec: int, nsec: int): (r: int)
    requires IsI64(sec) && 0 <= nsec < 1_000_000_000
    ensures IsU64(r)
    ensures 0 <= sec && sec * 1_000_000_000 + nsec < TWO_64 ==>
              r / 1_000_000_000 == sec && r % 1_000_000_000 == nsec
  {
    U64(U64(sec) * 1_000_000_000 + nsec)
  }
}
