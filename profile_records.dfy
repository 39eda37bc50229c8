/** The record the profiler keeps for one measured region (SingleProfile of
    cpp/mtmc_profiler.h), the parent information a caller hands to LogStart
    (ParamsInfo of cpp/mtmc_temp_profiler.h), and the decimal formatting of
    the C++ integer types these records hold. */
module ProfileRecords {
  import opened Machine
  import opened Text
  import Env
  import opened PerfmonTypes
  import opened PerfmonCollector

  /** Slots of ret_start and ret_end. */
  const RET_SLOTS: nat := 16

  /** ParamsInfo. `parentCtxHashId` is the field the OpenTelemetry exporter
      reads; the profiler leaves it 0. */
  datatype ParamsInfo = ParamsInfo(
    parentTid: int,
    parentPthreadId: int,
    taskSchedTime: int,
    parentCtxHashId: int)

  /** ParamsInfo{}: every field zero. */
  const ZeroParams: ParamsInfo := ParamsInfo(0, 0, 0, 0)

  /** ReadResult{}: every field zero. */
  const ZeroRead: ReadResult := ReadResult(0, 0, 0)

  /** SingleProfile. `hashId`, `intPrefix` and `multiplexIdx` are the fields
      the exporters read that the profiler never writes. */
  datatype SingleProfile = SingleProfile(
    prefix: string,
    parentInfo: ParamsInfo,
    tid: int,
    pthreadId: int,
    startTs: int,
    endTs: int,
    rdStart: ReadResult,
    retStart: seq<int>,
    rdEnd: ReadResult,
    retEnd: seq<int>,
    hasStartInfo: bool,
    hashId: int,
    intPrefix: int,
    multiplexIdx: int)
  {
    /** Both counter arrays have their 16 slots and both reads produced at
        most GP_COUNTER values, which is what every reader of the record
        indexes by. */
    predicate WellFormed()
    {
      |retStart| == RET_SLOTS && |retEnd| == RET_SLOTS &&
      0 <= rdStart.numEvent <= Env.GP_COUNTER && 0 <= rdEnd.numEvent <= Env.GP_COUNTER
    }
  }

  /** SingleProfile(): a value-initialised record, all zero and without
      start information. */
  const EmptyProfile: SingleProfile :=
    SingleProfile("", ZeroParams, 0, 0, 0, 0, ZeroRead, Fill(0, RET_SLOTS), ZeroRead,
                  Fill(0, RET_SLOTS), false, 0, 0, 0)

  predicate AllWellFormed(ps: seq<SingleProfile>)
  {
    forall i :: 0 <= i < |ps| ==> ps[i].WellFormed()
  }

  // ---------------------------------------------------------------------
  // Formatting a stored value in decimal (operator<< and std::to_string)

  function DecU64(x: int): string { NatToString(U64(x)) }
  function DecI64(x: int): string { IntToString(I64(x)) }
  function DecU32(x: int): string { NatToString(U32(x)) }
  function DecI32(x: int): string { IntToString(I32(x)) }

  /** The decimal forms of a run of uint64 counter values. */
  function DecU64s(vals: seq<int>): (r: seq<string>)
    ensures |r| == |vals| && forall i :: 0 <= i < |vals| ==> r[i] == DecU64(vals[i])
  {
    seq(|vals|, i requires 0 <= i < |vals| => DecU64(vals[i]))
  }

  /** No decimal form holds a character that is neither a digit nor '-'. */
  lemma DecFree(x: int, c: char)
    requires c != '-' && !IsDigit(c)
    ensures c !in DecU64(x) && c !in DecI64(x) && c !in DecU32(x) && c !in DecI32(x)
  {
    IntToStringChars(U64(x), c);
    IntToStringChars(I64(x), c);
    IntToStringChars(U32(x), c);
    IntToStringChars(I32(x), c);
  }
}
