/** ShmExporter::Export of cpp/exporter.cpp: selects the records worth
    exporting, sizes a shared-memory segment for them, copies them in after
    the status header, describes the segment and the run's constants in a
    ShmIpcLoad sent over the channel, and polls the status header for the
    receiver's done flag.

    Oracles: whether the channel, the segment and the send are valid, the
    done flag as seen at each poll, the TSC frequency and the byte size of
    one record are parameters. */
module Exporter {
  import opened Machine
  import opened Text
  import opened Wrappers
  import opened PerfmonTypes
  import opened ProfileRecords
  import MtmcProfiler

  /** sizeof(ShmIpcStatus): an int and 60 placeholder bytes. */
  const STATUS_BYTES: nat := 64
  /** The slots of ShmIpcLoad::cnsts. */
  const CNST_SLOTS: nat := 16
  /** How many times the done flag is polled. */
  const POLLS: nat := 1000

  /** The uint64 codes of the constant names: the TSC frequency, -2 for the
      duration constant, -1 for anything else. */
  function CnstCode(name: string, tscHz: int): (c: int)
    requires IsU64(tscHz)
    ensures IsU64(c)
    ensures name == "SYSTEM_TSC_FREQ" ==> c == tscHz
    ensures name == "DURATIONTIMEINMILLISECONDS" ==> c == TWO_64 - 2
    ensures name != "SYSTEM_TSC_FREQ" && name != "DURATIONTIMEINMILLISECONDS" ==> c == TWO_64 - 1
  {
    if name == "SYSTEM_TSC_FREQ" then tscHz
    else if name == "DURATIONTIMEINMILLISECONDS" then U64(-2)
    else U64(-1)
  }

  /** The record filter: equal start and end counts and, with topdown
      metrics on, a count that is not below 2. */
  predicate Selected(p: SingleProfile, topdown: bool)
  {
    MtmcProfiler.KeptAsWritten(p, topdown)
  }

  /** The selected records of one vector, in order. */
  function Filter(ps: seq<SingleProfile>, topdown: bool): seq<SingleProfile>
  {
    if ps == [] then []
    else
      var p := ps[|ps| - 1];
      Filter(ps[..|ps| - 1], topdown) + (if Selected(p, topdown) then [p] else [])
  }

  /** The selected records of the whole storage, vector by vector. */
  function Selection(storage: seq<seq<SingleProfile>>, topdown: bool): seq<SingleProfile>
  {
    if storage == [] then []
    else Selection(storage[..|storage| - 1], topdown) + Filter(storage[|storage| - 1], topdown)
  }

  /** The bytes asked for: the records and the status header, plus that
      sum modulo 256. */
  function PayloadBytes(n: nat, recordBytes: nat): nat
  {
    var s := n * recordBytes + STATUS_BYTES;
    s + s % 256
  }

  /** ShmIpcLoad, without the segment's generated name. */
  datatype Load = Load(
    msg: string,
    shmSize: nat,
    dataOffset: nat,
    numData: nat,
    cnstsLength: int,
    cnsts: seq<int>,
    traceHash: int,
    configsId: int)

  /** The load Export sends for `n` selected records. */
  function LoadFor(n: nat, recordBytes: nat, setting: ProfilerSetting, tscHz: int): Load
    requires IsU64(tscHz) && |setting.cnstVar| <= CNST_SLOTS
  {
    var size := PayloadBytes(n, recordBytes);
    Load(NatToString(size), size, 0, n, |setting.cnstVar|, CnstSlots(setting.cnstVar, tscHz),
         setting.traceHash, setting.configsId)
  }

  /** The sixteen constant slots: the codes of the names, then zeros. */
  function CnstSlots(names: seq<string>, tscHz: int): (r: seq<int>)
    requires IsU64(tscHz) && |names| <= CNST_SLOTS
    ensures |r| == CNST_SLOTS
  {
    seq(CNST_SLOTS, i requires 0 <= i < CNST_SLOTS => if i < |names| then CnstCode(names[i], tscHz) else 0)
  }

  // ---------------------------------------------------------------------
  // Export

  /** Export. -1 when the channel is invalid, the segment cannot be
      created, there are more constants than slots, the send fails or no
      done flag appears within the polls; 0 otherwise. `sent` is the load
      when it was sent and `shm` the records copied after the header. */
  method Export(storage: seq<seq<SingleProfile>>, setting: ProfilerSetting, recordBytes: nat,
                tscHz: int, channelOk: bool, shmOk: bool, sendOk: bool, doneAt: int -> bool)
    returns (r: int, sent: Option<Load>, shm: seq<SingleProfile>)
    requires IsU64(tscHz)
    ensures r == 0 || r == -1
    ensures r == 0 <==> channelOk && shmOk && |setting.cnstVar| <= CNST_SLOTS && sendOk &&
                        exists i :: 0 <= i < POLLS && doneAt(i)
    ensures sent.Some? <==> channelOk && shmOk && |setting.cnstVar| <= CNST_SLOTS
    ensures sent.Some? ==>
      shm == Selection(storage, setting.perfCollectTopdown) &&
      sent.value == LoadFor(|shm|, recordBytes, setting, tscHz)
  {
    sent, shm := None, [];
    if !channelOk {
      return -1, sent, shm;
    }
    var toExport := SelectAll(storage, setting.perfCollectTopdown);
    var bytes := |toExport| * recordBytes + STATUS_BYTES;
    bytes := bytes + bytes % 256;
    if !shmOk {
      return -1, sent, shm;
    }
    var seg := CopyRecords(toExport);
    shm := seg[..];
    if |setting.cnstVar| > CNST_SLOTS {
      return -1, sent, shm;
    }
    var cnsts := FillCnsts(setting.cnstVar, tscHz);
    sent := Some(Load(NatToString(bytes), bytes, 0, |toExport|, |setting.cnstVar|, cnsts[..],
                      setting.traceHash, setting.configsId));
    assert cnsts[..] == CnstSlots(setting.cnstVar, tscHz);
    if !sendOk {
      return -1, sent, shm;
    }
    r := WaitDone(doneAt);
  }

  /** The selection loop over every vector: the records kept, in order. */
  method SelectAll(storage: seq<seq<SingleProfile>>, topdown: bool) returns (toExport: seq<SingleProfile>)
    ensures toExport == Selection(storage, topdown)
  {
    toExport := [];
    var v := 0;
    while v < |storage|
      invariant 0 <= v <= |storage|
      invariant toExport == Selection(storage[..v], topdown)
    {
      assert storage[..v + 1][..v] == storage[..v];
      var more := SelectVector(storage[v], topdown);
      toExport := toExport + more;
      v := v + 1;
    }
    assert storage[..v] == storage;
  }

  /** The inner loop over the records of one vector. */
  method SelectVector(ps: seq<SingleProfile>, topdown: bool) returns (sel: seq<SingleProfile>)
    ensures sel == Filter(ps, topdown)
  {
    sel := [];
    var i := 0;
    while i < |ps|
      invariant 0 <= i <= |ps|
      invariant sel == Filter(ps[..i], topdown)
    {
      assert ps[..i + 1][..i] == ps[..i];
      if Selected(ps[i], topdown) {
        sel := sel + [ps[i]];
      }
      i := i + 1;
    }
    assert ps[..i] == ps;
  }

  /** The zeroed segment and the memcpy of each selected record to its
      slot after the header. */
  method CopyRecords(toExport: seq<SingleProfile>) returns (seg: array<SingleProfile>)
    ensures fresh(seg) && seg[..] == toExport
  {
    seg := new SingleProfile[|toExport|](_ => EmptyProfile);
    var i := 0;
    while i < |toExport|
      invariant 0 <= i <= |toExport|
      invariant forall j :: 0 <= j < i ==> seg[j] == toExport[j]
      modifies seg
    {
      seg[i] := toExport[i];
      i := i + 1;
    }
  }

  /** The constant loop, on a value-initialised load: one code per name,
      in the set's order, the remaining slots zero. */
  method FillCnsts(names: seq<string>, tscHz: int) returns (cnsts: array<int>)
    requires IsU64(tscHz) && |names| <= CNST_SLOTS
    ensures fresh(cnsts) && cnsts.Length == CNST_SLOTS
    ensures forall i :: 0 <= i < |names| ==> cnsts[i] == CnstCode(names[i], tscHz)
    ensures forall i :: |names| <= i < CNST_SLOTS ==> cnsts[i] == 0
  {
    cnsts := new int[CNST_SLOTS](_ => 0);
    var cntr := 0;
    while cntr < |names|
      invariant 0 <= cntr <= |names|
      invariant forall i :: 0 <= i < cntr ==> cnsts[i] == CnstCode(names[i], tscHz)
      invariant forall i :: cntr <= i < CNST_SLOTS ==> cnsts[i] == 0
      modifies cnsts
    {
      cnsts[cntr] := CnstCode(names[cntr], tscHz);
      cntr := cntr + 1;
    }
  }

  /** The done-flag poll: 0 as soon as the flag is seen within the polls,
      -1 after the last poll without it. */
  method WaitDone(doneAt: int -> bool) returns (r: int)
    ensures r == 0 || r == -1
    ensures r == 0 <==> exists i :: 0 <= i < POLLS && doneAt(i)
  {
    var i := 0;
    while i < POLLS
      invariant 0 <= i <= POLLS
      invariant forall j :: 0 <= j < i ==> !doneAt(j)
    {
      if doneAt(i) {
        return 0;
      }
      if i == POLLS - 1 {
        assert forall j :: 0 <= j < POLLS ==> !doneAt(j);
        return -1;
      }
      i := i + 1;
    }
    r := -1;
  }

  // ---------------------------------------------------------------------
  // Properties

  /** A record is selected exactly when its counts agree and, with topdown
      metrics on, there are at least two. */
  lemma SelectedIff(p: SingleProfile, topdown: bool)
    ensures Selected(p, topdown) <==>
            p.rdStart.numEvent == p.rdEnd.numEvent && (topdown ==> p.rdStart.numEvent >= 2)
  {
  }

  /** Filtering distributes over concatenation, so the selected records keep
      their storage order. */
  lemma {:induction false} FilterAppend(a: seq<SingleProfile>, b: seq<SingleProfile>, topdown: bool)
    ensures Filter(a + b, topdown) == Filter(a, topdown) + Filter(b, topdown)
    decreases |b|
  {
    if b == [] {
      assert a + b == a;
    } else {
      var init := b[..|b| - 1];
      assert (a + b)[..|a + b| - 1] == a + init;
      assert (a + b)[|a + b| - 1] == b[|b| - 1];
      FilterAppend(a, init, topdown);
    }
  }

  /** The filter keeps exactly the selected records. */
  lemma {:induction false} FilterMembers(ps: seq<SingleProfile>, topdown: bool, p: SingleProfile)
    ensures p in Filter(ps, topdown) <==> p in ps && Selected(p, topdown)
  {
    if ps != [] {
      FilterMembers(ps[..|ps| - 1], topdown, p);
      assert ps == ps[..|ps| - 1] + [ps[|ps| - 1]];
    }
  }

  /** The size covers the records and the header and exceeds them by less
      than 256 bytes; it is not, in general, a multiple of 256. */
  lemma PayloadBounds(n: nat, recordBytes: nat)
    ensures var s := n * recordBytes + STATUS_BYTES;
            s <= PayloadBytes(n, recordBytes) < s + 256 &&
            PayloadBytes(n, recordBytes) % 256 == (2 * s) % 256
  {
  }

  /** One record of 236 bytes gives a 300-byte sum and a 344-byte segment. */
  lemma PayloadNotAligned()
    ensures PayloadBytes(1, 236) == 344 && PayloadBytes(1, 236) % 256 != 0
  {
  }

  // ---------------------------------------------------------------------
  // The constant loop as written

  /** The constant loop as written, on the words of ShmIpcLoad from
      cnsts[0] on: the sixteen slots and then trace_hash, which a
      seventeenth constant reaches. */
  method FillCnstsAsWritten(words: array<int>, names: seq<string>, tscHz: int)
    requires IsU64(tscHz) && words.Length == CNST_SLOTS + 1 && |names| <= words.Length
    modifies words
    ensures forall i :: 0 <= i < |names| ==> words[i] == CnstCode(names[i], tscHz)
    ensures forall i :: |names| <= i < words.Length ==> words[i] == old(words[i])
  {
    var cntr := 0;
    while cntr < |names|
      invariant 0 <= cntr <= |names|
      invariant forall i :: 0 <= i < cntr ==> words[i] == CnstCode(names[i], tscHz)
      invariant forall i :: cntr <= i < words.Length ==> words[i] == old(words[i])
    {
      words[cntr] := CnstCode(names[cntr], tscHz);
      cntr := cntr + 1;
    }
  }

  /** Seventeen distinct constant names, in ascending order: "a" to "q". */
  function SeventeenNames(): (names: seq<string>)
    ensures |names| == CNST_SLOTS + 1
  {
    seq(CNST_SLOTS + 1, i requires 0 <= i < CNST_SLOTS + 1 => [(97 + i) as char])
  }

  /** With seventeen constants the load as written carries the code of the
      last one, -1 as a uint64, where the run's trace hash 5 should be. */
  method AsWrittenTraceHashOverwritten() returns (traceHashSent: int)
    ensures traceHashSent == TWO_64 - 1 && traceHashSent != 5
  {
    var words := new int[CNST_SLOTS + 1](_ => 0);
    words[CNST_SLOTS] := 5;
    var names := SeventeenNames();
    FillCnstsAsWritten(words, names, 0);
    assert names[CNST_SLOTS] == ['q'];
    traceHashSent := words[CNST_SLOTS];
  }
}
