/** The text configuration reader (cpp/perfmon_config.cpp): a line-driven
    state machine that turns a file of counter groups into InputConfig
    records, and the fixed topdown metric group. */
module PerfmonConfig {
  import opened Wrappers
  import opened Machine
  import opened Text
  import opened CppStd
  import opened PerfmonTypes
  import Env

  datatype ReadState = INIT | EVENTS

  const RawAttr := EventAttr(PERF_TYPE_RAW, 0, true)

  /** The template group `a`: no events, raw user-space-only attributes,
      pid -1, fd -1, cpu 0, and a read setting that never resets but adds the
      offset and sign-extends. */
  const EmptyGroup: InputConfig := InputConfig(
    0, Fill("", Env.GP_COUNTER), Fill(RawAttr, Env.GP_COUNTER), Fill(0, Env.GP_COUNTER),
    Fill(-1, Env.GP_COUNTER), Fill(-1, Env.GP_COUNTER), "", ReadSetting(-1, true, true), 0)

  /** One base-16 event field: std::stol(sub, nullptr, 16), where an
      invalid_argument, an out_of_range or a negative value are all failures. */
  function EventField(sub: string): (r: Option<int>)
    ensures r.Some? ==> 0 <= r.value <= LONG_MAX
  {
    match StoL(sub, 16, LONG_MIN, LONG_MAX)
    case Converted(v) => if v < 0 then None else Some(v)
    case _ => None
  }

  /** The fields of an event line (name, event, umask, inv, cmask); extra
      fields are ignored. */
  function EventLine(f: seq<string>): (r: Option<(string, bv64)>)
  {
    if |f| < 5 then None
    else
      match (EventField(f[1]), EventField(f[2]), EventField(f[3]), EventField(f[4]))
      case (Some(e), Some(u), Some(i), Some(c)) =>
        Some((f[0], X86Config(e as bv64, u as bv64, i as bv64, c as bv64)))
      case _ => None
  }

  /** The reader's state between lines. */
  datatype Reader = Reader(state: ReadState, temp: InputConfig, configs: seq<InputConfig>, topdown: bool)

  datatype LineOutcome = Next(next: Reader) | Stop(last: Reader) | Fail(failed: Reader)

  /** What one line of the file does. */
  function StepLine(rd: Reader, line: string): (r: LineOutcome)
    requires rd.temp.Valid()
    ensures r.Next? ==> r.next.temp.Valid()
  {
    if Contains(line, "EndConfig") then Stop(rd)
    else if Contains(line, "End") then
      Next(Reader(INIT, EmptyGroup, rd.configs + [rd.temp], rd.topdown))
    else if Contains(line, "UseTopdownMetric") then Next(rd.(topdown := true))
    else
      var f := Split(line, ',');
      match rd.state
      case INIT =>
        if f[0] == "Group" && |f| >= 2 then Next(rd.(state := EVENTS, temp := rd.temp.(groupName := f[1])))
        else Fail(rd)
      case EVENTS => EventStep(rd, EventLine(f))
  }

  /** An event line in the events state: refused at the cap or when
      malformed, otherwise stored at index event_num. */
  function EventStep(rd: Reader, ev: Option<(string, bv64)>): (r: LineOutcome)
    requires rd.temp.Valid()
    ensures r.Next? ==> r.next.temp.Valid()
  {
    if rd.temp.eventNum >= Env.GP_COUNTER then Fail(rd)
    else
      match ev
      case None => Fail(rd)
      case Some((name, config)) =>
        var n := rd.temp.eventNum;
        var t := rd.temp.(eventNum := n + 1, names := rd.temp.names[n := name],
                          attrs := rd.temp.attrs[n := rd.temp.attrs[n].(config := config)]);
        Next(rd.(temp := t))
  }

  /** Outcome of a whole read: the return code, the vector and the topdown flag. */
  datatype ReadOutcome = ReadOutcome(ret: int, configs: seq<InputConfig>, topdown: bool)

  function Finish(rd: Reader): ReadOutcome
  {
    ReadOutcome(if |rd.configs| == 0 then -1 else 1, rd.configs, rd.topdown)
  }

  /** The remaining lines processed from reader state rd. */
  function Run(rd: Reader, lines: seq<string>): ReadOutcome
    requires rd.temp.Valid()
    decreases |lines|
  {
    if lines == [] then Finish(rd)
    else
      match StepLine(rd, lines[0])
      case Next(r) => Run(r, lines[1..])
      case Stop(r) => Finish(r)
      case Fail(r) => ReadOutcome(-1, r.configs, r.topdown)
  }

  /** PerfmonConfig::ReadConfig. `hasConfigVec` and `hasSetting` say whether
      the two output pointers are non-null; `file` is the content of the
      opened file, None when open(O_NOFOLLOW) fails. The lines are what the
      `while (!eof) getline` loop produces, which includes a final empty line
      when the file ends with a newline. */
  method ReadConfig(hasConfigVec: bool, hasSetting: bool, file: Option<string>,
                    configVec: seq<InputConfig>, topdown: bool)
    returns (ret: int, outVec: seq<InputConfig>, outTopdown: bool)
    ensures !hasConfigVec || !hasSetting || file.None? ==>
              ret == -1 && outVec == configVec && outTopdown == topdown
    ensures hasConfigVec && hasSetting && file.Some? ==>
              ReadOutcome(ret, outVec, outTopdown) ==
              Run(Reader(INIT, EmptyGroup, configVec, topdown), Split(file.value, '\n'))
  {
    if !hasConfigVec || !hasSetting {
      return -1, configVec, topdown;
    }
    if file.None? {
      return -1, configVec, topdown;
    }
    var lines := Split(file.value, '\n');
    var rd := Reader(INIT, EmptyGroup, configVec, topdown);
    var i := 0;
    while i < |lines|
      invariant 0 <= i <= |lines| && rd.temp.Valid()
      invariant Run(Reader(INIT, EmptyGroup, configVec, topdown), lines) == Run(rd, lines[i..])
    {
      assert lines[i..][0] == lines[i] && lines[i..][1..] == lines[i + 1..];
      var outcome := ReadLine(rd, lines[i]);
      match outcome {
        case Stop(_) =>
          break;
        case Fail(r) =>
          return -1, r.configs, r.topdown;
        case Next(r) =>
          rd := r;
      }
      i := i + 1;
    }
    ret := if |rd.configs| == 0 then -1 else 1;
    outVec := rd.configs;
    outTopdown := rd.topdown;
  }

  /** The body of ReadConfig's loop for one line. */
  method ReadLine(rd: Reader, line: string) returns (r: LineOutcome)
    requires rd.temp.Valid()
    ensures r == StepLine(rd, line)
  {
    if Contains(line, "EndConfig") {
      return Stop(rd);
    }
    if Contains(line, "End") {
      return Next(Reader(INIT, EmptyGroup, rd.configs + [rd.temp], rd.topdown));
    }
    if Contains(line, "UseTopdownMetric") {
      return Next(rd.(topdown := true));
    }
    var fields := Split(line, ',');
    var temp := rd.temp;
    if rd.state == INIT {
      if fields[0] == "Group" && |fields| >= 2 {
        temp := temp.(groupName := fields[1]);
        return Next(rd.(state := EVENTS, temp := temp));
      }
      return Fail(rd);
    }
    if temp.eventNum >= Env.GP_COUNTER {
      return Fail(rd);
    }
    var ev := EventLine(fields);
    if ev.None? {
      return Fail(rd);
    }
    var n := temp.eventNum;
    temp := temp.(eventNum := n + 1, names := temp.names[n := ev.value.0],
                  attrs := temp.attrs[n := temp.attrs[n].(config := ev.value.1)]);
    return Next(rd.(temp := temp));
  }

  /** Every group the reader appends has GP_COUNTER slots and at most
      GP_COUNTER events, so the per-event arrays can be indexed by event_num;
      a successful read returns at least one group. */
  lemma {:induction false} RunKeepsGroupsValid(rd: Reader, lines: seq<string>)
    requires rd.temp.Valid() && AllValid(rd.configs)
    ensures AllValid(Run(rd, lines).configs)
    ensures Run(rd, lines).ret == 1 ==> |Run(rd, lines).configs| > 0
    ensures Run(rd, lines).ret in {-1, 1}
    ensures |rd.configs| <= |Run(rd, lines).configs| && Run(rd, lines).configs[..|rd.configs|] == rd.configs
    decreases |lines|
  {
    if lines != [] {
      StepKeepsGroupsValid(rd, lines[0]);
      match StepLine(rd, lines[0])
      case Next(r) =>
        RunKeepsGroupsValid(r, lines[1..]);
      case Stop(r) =>
      case Fail(r) =>
    }
  }

  /** One line keeps the groups read so far and appends at most a valid one. */
  lemma StepKeepsGroupsValid(rd: Reader, line: string)
    requires rd.temp.Valid() && AllValid(rd.configs)
    ensures StepLine(rd, line).Next? ==>
      var r := StepLine(rd, line).next;
      AllValid(r.configs) && |rd.configs| <= |r.configs| && r.configs[..|rd.configs|] == rd.configs
    ensures StepLine(rd, line).Stop? ==> StepLine(rd, line).last == rd
    ensures StepLine(rd, line).Fail? ==> StepLine(rd, line).failed == rd
  {
    var r := StepLine(rd, line);
    if r.Next? {
      assert r.next.configs[..|rd.configs|] == rd.configs;
    }
  }

  /** A line holding "End" (but not "EndConfig") closes the current group,
      with or without a header before it. */
  lemma EndLineClosesGroup(rd: Reader, rest: seq<string>)
    requires rd.temp.Valid()
    ensures Run(rd, ["End"] + rest) == Run(Reader(INIT, EmptyGroup, rd.configs + [rd.temp], rd.topdown), rest)
  {
    assert Contains("End", "End");
    assert !Contains("End", "EndConfig");
    assert (["End"] + rest)[1..] == rest;
  }

  /** A "UseTopdownMetric" line only sets the topdown flag. */
  lemma TopdownLineSetsFlag(rd: Reader, rest: seq<string>)
    requires rd.temp.Valid()
    ensures Run(rd, ["UseTopdownMetric"] + rest) == Run(rd.(topdown := true), rest)
  {
    var line := "UseTopdownMetric";
    TopdownKeyword();
    assert StepLine(rd, line) == Next(rd.(topdown := true));
    assert ([line] + rest)[0] == line && ([line] + rest)[1..] == rest;
  }

  lemma TopdownKeyword()
    ensures !Contains("UseTopdownMetric", "EndConfig") && !Contains("UseTopdownMetric", "End")
    ensures Contains("UseTopdownMetric", "UseTopdownMetric")
  {
    NoEInTopdown();
    NotContainsEnd("UseTopdownMetric", "EndConfig");
    NotContainsEnd("UseTopdownMetric", "End");
    ContainsSelf("UseTopdownMetric");
  }

  lemma NoEInTopdown() ensures 'E' !in "UseTopdownMetric" {}

  lemma ContainsSelf(s: string) ensures Contains(s, s) { assert s[..|s|] == s; }

  /** An "EndConfig" line ends the read, whatever follows. */
  lemma EndConfigStops(rd: Reader, rest: seq<string>)
    requires rd.temp.Valid()
    ensures Run(rd, ["EndConfig"] + rest) == Finish(rd)
  {
    assert Contains("EndConfig", "EndConfig");
  }

  /** A string without an 'E' contains nothing that starts with 'E'. */
  lemma {:induction false} NotContainsEnd(s: string, t: string)
    requires |t| > 0 && t[0] == 'E' && 'E' !in s
    ensures !Contains(s, t)
    decreases |s|
  {
    if |s| >= |t| {
      assert s[..|t|][0] != 'E';
      if |s| > 0 { NotContainsEnd(s[1..], t); }
    }
  }

  /** In the events state with GP_COUNTER events already read, any further
      line that is not a keyword line fails the read. */
  lemma ThirteenthEventFails(rd: Reader, line: string, rest: seq<string>)
    requires rd.temp.Valid() && rd.state == EVENTS && rd.temp.eventNum == Env.GP_COUNTER
    requires !Contains(line, "End") && !Contains(line, "UseTopdownMetric")
    ensures Run(rd, [line] + rest).ret == -1
  {
    assert !Contains(line, "EndConfig") by {
      if Contains(line, "EndConfig") { ContainsPrefix(line, "EndConfig", "End"); }
    }
  }

  /** Whatever contains t contains every prefix of t. */
  lemma {:induction false} ContainsPrefix(s: string, t: string, p: string)
    requires Contains(s, t) && |p| <= |t| && t[..|p|] == p
    ensures Contains(s, p)
    decreases |s|
  {
    if s[..|t|] == t {
      assert s[..|p|] == t[..|p|];
    } else {
      ContainsPrefix(s[1..], t, p);
    }
  }

  /** In the header state a line whose first comma field is not "Group", or
      that has no comma after it, fails the read; otherwise the second field
      names the group. */
  lemma HeaderLine(rd: Reader, line: string, rest: seq<string>)
    requires rd.temp.Valid() && rd.state == INIT
    requires !Contains(line, "End") && !Contains(line, "UseTopdownMetric")
    ensures var f := Split(line, ',');
      Run(rd, [line] + rest) ==
        if f[0] == "Group" && |f| >= 2 then Run(rd.(state := EVENTS, temp := rd.temp.(groupName := f[1])), rest)
        else ReadOutcome(-1, rd.configs, rd.topdown)
  {
    NotEndConfig(line);
    assert ([line] + rest)[1..] == rest;
  }

  /** A line without "End" holds no "EndConfig" either. */
  lemma NotEndConfig(line: string)
    requires !Contains(line, "End")
    ensures !Contains(line, "EndConfig")
  {
    if Contains(line, "EndConfig") { ContainsPrefix(line, "EndConfig", "End"); }
  }

  /** An event line below the cap stores its name and packed config at index
      event_num and advances event_num; a malformed one fails the read. */
  lemma EventLineStored(rd: Reader, line: string, rest: seq<string>)
    requires rd.temp.Valid() && rd.state == EVENTS && rd.temp.eventNum < Env.GP_COUNTER
    requires !Contains(line, "End") && !Contains(line, "UseTopdownMetric")
    ensures var ev := EventLine(Split(line, ','));
      var n := rd.temp.eventNum;
      Run(rd, [line] + rest) ==
        if ev.None? then ReadOutcome(-1, rd.configs, rd.topdown)
        else Run(rd.(temp := rd.temp.(eventNum := n + 1, names := rd.temp.names[n := ev.value.0],
                     attrs := rd.temp.attrs[n := rd.temp.attrs[n].(config := ev.value.1)])), rest)
  {
    EventLineStep(rd, line);
    var lines := [line] + rest;
    assert lines[0] == line && lines[1..] == rest;
    var ev := EventLine(Split(line, ','));
    assert Run(rd, lines) == match EventStep(rd, ev)
      case Next(r) => Run(r, rest)
      case Stop(r) => Finish(r)
      case Fail(r) => ReadOutcome(-1, r.configs, r.topdown);
  }

  /** In the events state, a line without a keyword is an event line. */
  lemma EventLineStep(rd: Reader, line: string)
    requires rd.temp.Valid() && rd.state == EVENTS
    requires !Contains(line, "End") && !Contains(line, "UseTopdownMetric")
    ensures StepLine(rd, line) == EventStep(rd, EventLine(Split(line, ',')))
  {
    NotEndConfig(line);
  }

  /** An empty line, such as the one after a file's final newline when no
      "EndConfig" line came before it, fails the read in either state. */
  lemma EmptyLineFails(rd: Reader)
    requires rd.temp.Valid()
    ensures Run(rd, [""]).ret == -1
  {
    assert Split("", ',') == [""];
    assert !Contains("", "End") && !Contains("", "EndConfig") && !Contains("", "UseTopdownMetric");
  }

  /** PerfmonConfig::PerfMetricConfig: appends the three-event topdown group
      (slots 0x400, metrics 0x8000, INT_MISC.UOP_DROPPING) with the given reset
      interval and neither offset nor sign extension. */
  function PerfMetricConfig(configVec: seq<InputConfig>, resetIntrvlNs: int): (r: (int, seq<InputConfig>))
    ensures r.0 == 1 && |r.1| == |configVec| + 1 && r.1[..|configVec|] == configVec
    ensures var g := r.1[|configVec|];
      g.Valid() && g.eventNum == 3 &&
      g.names[..3] == ["Perf_Slots", "Perf_Metrics", "INT_MISC.UOP_DROPPING"] &&
      g.attrs[0].config == 0x400 && g.attrs[1].config == 0x8000 && g.attrs[2].config == 0x10ad &&
      (forall k :: 0 <= k < 3 ==> g.attrs[k].typ == PERF_TYPE_RAW && g.attrs[k].excludeKernel) &&
      g.rdSetting == ReadSetting(resetIntrvlNs, false, false)
  {
    var a := EventAttr(PERF_TYPE_RAW, 0, true);
    X86ConfigExample();
    var g := InputConfig(
      3,
      ["Perf_Slots", "Perf_Metrics", "INT_MISC.UOP_DROPPING"] + Fill("", Env.GP_COUNTER - 3),
      [a.(config := 0x400), a.(config := 0x8000), a.(config := X86Config(0xad, 0x10, 0, 0))] + Fill(ZeroAttr, Env.GP_COUNTER - 3),
      Fill(0, Env.GP_COUNTER), Fill(-1, Env.GP_COUNTER), Fill(-1, Env.GP_COUNTER), "",
      ReadSetting(resetIntrvlNs, false, false), 0);
    (1, configVec + [g])
  }
}
