/** PerfmonParser in post_processing/perfmon_parser.py: reading the JSON
    PMU configuration, mapping each equation's constants to their positions
    in OverallCnsts, building the parser, and CalPmu, which adds one
    "Met-." entry per metric (or, when the equations are unusable, per
    event) to a span's argument dict.

    GetMetricPrec and ReadPmuConfig are the same code as in
    post_processing.py and are modelled once, in PostProcessing.

    Oracles: the equation lookup of the TMA calculator the parser is built
    with, and the value each compiled equation evaluates to. The JSON
    document is given parsed. */
module PerfmonParser {
  import opened Wrappers

  // ---------------------------------------------------------------------
  // ReadPmuConfigJson

  /** The JSON values AlwaysSampleTopdown may hold. */
  datatype JsonValue = JInt(i: int) | JBool(b: bool) | JStr(s: string)

  /** `v == 1` in Python: true for the integer 1 and for True. */
  predicate EqualsOne(v: JsonValue)
  {
    v == JInt(1) || v == JBool(true)
  }

  /** One entry of Configs; a missing key is None. */
  datatype ConfigEntry = ConfigEntry(eventList: Option<seq<string>>, metrics: Option<seq<string>>,
                                     constants: Option<seq<string>>)

  /** The top level of the configuration document. */
  datatype ConfigJson = ConfigJson(alwaysSampleTopdown: Option<JsonValue>, configs: Option<seq<ConfigEntry>>,
                                   overallCnsts: Option<seq<string>>)

  /** What ReadPmuConfigJson returns. */
  datatype PmuJson = PmuJson(eventNames: seq<seq<string>>, metrics: seq<seq<string>>, alwaysTopdown: bool,
                             cnstsList: seq<seq<string>>, overallCnsts: seq<string>)

  predicate Complete(e: ConfigEntry)
  {
    e.eventList.Some? && e.metrics.Some? && e.constants.Some?
  }

  /** The lists of the first n entries, which must all be complete. */
  function EntriesUpTo(cs: seq<ConfigEntry>, n: nat): Result<(seq<seq<string>>, seq<seq<string>>, seq<seq<string>>)>
    requires n <= |cs|
  {
    if n == 0 then Ok(([], [], []))
    else
      match EntriesUpTo(cs, n - 1)
      case Err(e) => Err(e)
      case Ok((ev, me, co)) =>
        var c := cs[n - 1];
        if !Complete(c) then Err("KeyError")
        else Ok((ev + [c.eventList.value], me + [c.metrics.value], co + [c.constants.value]))
  }

  /** ReadPmuConfigJson: a KeyError for a missing Configs or a missing key
      of an entry, and an UnboundLocalError at the return when OverallCnsts
      is missing. */
  function JsonOf(data: ConfigJson): Result<PmuJson>
  {
    var always := data.alwaysSampleTopdown.Some? && EqualsOne(data.alwaysSampleTopdown.value);
    if data.configs.None? then Err("KeyError")
    else
      match EntriesUpTo(data.configs.value, |data.configs.value|)
      case Err(e) => Err(e)
      case Ok((ev, me, co)) =>
        if data.overallCnsts.None? then Err("UnboundLocalError")
        else Ok(PmuJson(ev, me, always, co, data.overallCnsts.value))
  }

  method ReadPmuConfigJson(data: ConfigJson) returns (r: Result<PmuJson>)
    ensures r == JsonOf(data)
  {
    var alwaysTopdown := false;
    var events: seq<seq<string>> := [];
    var metrics: seq<seq<string>> := [];
    var cnsts: seq<seq<string>> := [];
    if data.alwaysSampleTopdown.Some? && EqualsOne(data.alwaysSampleTopdown.value) {
      alwaysTopdown := true;
    }
    if data.configs.None? {
      return Err("KeyError");
    }
    var cs := data.configs.value;
    for i := 0 to |cs|
      invariant EntriesUpTo(cs, i) == Ok((events, metrics, cnsts))
    {
      var c := cs[i];
      if !Complete(c) {
        EntriesUpToErr(cs, i + 1, |cs|);
        return Err("KeyError");
      }
      events := events + [c.eventList.value];
      metrics := metrics + [c.metrics.value];
      cnsts := cnsts + [c.constants.value];
    }
    if data.overallCnsts.None? {
      return Err("UnboundLocalError");
    }
    return Ok(PmuJson(events, metrics, alwaysTopdown, cnsts, data.overallCnsts.value));
  }

  lemma {:induction false} EntriesUpToErr(cs: seq<ConfigEntry>, n: nat, m: nat)
    requires n <= m <= |cs|
    requires EntriesUpTo(cs, n).Err?
    ensures EntriesUpTo(cs, m) == EntriesUpTo(cs, n)
  {
    if m > n {
      EntriesUpToErr(cs, n, m - 1);
    }
  }

  lemma {:induction false} EntriesUpToSpec(cs: seq<ConfigEntry>, n: nat)
    requires n <= |cs|
    ensures EntriesUpTo(cs, n).Ok? <==> forall i :: 0 <= i < n ==> Complete(cs[i])
    ensures EntriesUpTo(cs, n).Ok? ==>
      var (ev, me, co) := EntriesUpTo(cs, n).value;
      |ev| == n && |me| == n && |co| == n &&
      forall i :: 0 <= i < n ==>
        ev[i] == cs[i].eventList.value && me[i] == cs[i].metrics.value && co[i] == cs[i].constants.value
  {
    if n > 0 {
      EntriesUpToSpec(cs, n - 1);
    }
  }

  /** ReadPmuConfigJson succeeds exactly when Configs is present with every
      entry complete and OverallCnsts is present. It then returns one
      event, metric and constant list per entry, in order, the overall
      constants as given, and always_topdown true exactly when
      AlwaysSampleTopdown is present and equal to 1. */
  lemma JsonOfSpec(data: ConfigJson)
    ensures JsonOf(data).Ok? <==>
      data.configs.Some? && (forall i :: 0 <= i < |data.configs.value| ==> Complete(data.configs.value[i])) &&
      data.overallCnsts.Some?
    ensures JsonOf(data).Ok? ==>
      var j := JsonOf(data).value;
      var cs := data.configs.value;
      |j.eventNames| == |cs| && |j.metrics| == |cs| && |j.cnstsList| == |cs| &&
      (forall i :: 0 <= i < |cs| ==>
        j.eventNames[i] == cs[i].eventList.value && j.metrics[i] == cs[i].metrics.value &&
        j.cnstsList[i] == cs[i].constants.value) &&
      (j.alwaysTopdown <==> data.alwaysSampleTopdown.Some? && EqualsOne(data.alwaysSampleTopdown.value)) &&
      j.overallCnsts == data.overallCnsts.value
  {
    if data.configs.Some? {
      EntriesUpToSpec(data.configs.value, |data.configs.value|);
    }
  }

  // ---------------------------------------------------------------------
  // The constant-index mapping of __init__

  /** list.index: the first position of x, or None for the ValueError. */
  function IndexOf(xs: seq<string>, x: string): (r: Option<nat>)
    ensures r.Some? ==> r.value < |xs| && xs[r.value] == x && forall k :: 0 <= k < r.value ==> xs[k] != x
    ensures r.None? ==> x !in xs
  {
    if xs == [] then None
    else if xs[0] == x then Some(0)
    else match IndexOf(xs[1..], x)
      case None => None
      case Some(k) => Some(k + 1)
  }

  /** The names of a config's Constants that the equation's constant dict
      defines, in the order of Constants. */
  function KeptNames(names: seq<string>, d: map<string, string>): (r: seq<string>)
    ensures forall k :: 0 <= k < |r| ==> r[k] in d
  {
    if names == [] then []
    else KeptNames(names[..|names| - 1], d) + (if names[|names| - 1] in d then [names[|names| - 1]] else [])
  }

  predicate AllIn(xs: seq<string>, overall: seq<string>)
  {
    forall k :: 0 <= k < |xs| ==> xs[k] in overall
  }

  /** The alias list and the index list of one equation's constant dict:
      the dict's value and the OverallCnsts position of each kept name; a
      kept name missing from OverallCnsts raises ValueError. */
  function ConstantsOf(names: seq<string>, d: map<string, string>, overall: seq<string>)
    : Result<(seq<string>, seq<int>)>
  {
    var kept := KeptNames(names, d);
    if !AllIn(kept, overall) then Err("ValueError: not in list")
    else Ok((seq(|kept|, k requires 0 <= k < |kept| => d[kept[k]]),
             seq(|kept|, k requires 0 <= k < |kept| && kept[k] in overall => IndexOf(overall, kept[k]).value)))
  }

  /** The inner loop over a config's Constants. */
  method MapConstants(names: seq<string>, d: map<string, string>, overall: seq<string>)
    returns (r: Result<(seq<string>, seq<int>)>)
    ensures r == ConstantsOf(names, d, overall)
  {
    var alias: seq<string> := [];
    var idx: seq<int> := [];
    ghost var kept: seq<string> := [];
    for i := 0 to |names|
      invariant kept == KeptNames(names[..i], d) && AllIn(kept, overall)
      invariant alias == seq(|kept|, k requires 0 <= k < |kept| => d[kept[k]])
      invariant idx == seq(|kept|, k requires 0 <= k < |kept| && kept[k] in overall => IndexOf(overall, kept[k]).value)
    {
      assert names[..i + 1][..i] == names[..i];
      var name := names[i];
      if name in d {
        var pos := IndexOf(overall, name);
        if pos.None? {
          KeptNamesPrefix(names, d, i + 1);
          assert KeptNames(names, d)[|kept|] == name;
          return Err("ValueError: not in list");
        }
        alias := alias + [d[name]];
        idx := idx + [pos.value];
        kept := kept + [name];
      }
    }
    assert names[..|names|] == names;
    r := Ok((alias, idx));
  }

  /** The names kept from a prefix of Constants begin the names kept from
      all of it. */
  lemma {:induction false} KeptNamesPrefix(names: seq<string>, d: map<string, string>, n: nat)
    requires n <= |names|
    ensures |KeptNames(names[..n], d)| <= |KeptNames(names, d)|
    ensures KeptNames(names, d)[..|KeptNames(names[..n], d)|] == KeptNames(names[..n], d)
    decreases |names| - n
  {
    if n < |names| {
      KeptNamesPrefix(names, d, n + 1);
      assert names[..n + 1][..n] == names[..n];
    } else {
      assert names[..n] == names;
    }
  }

  /** A name is kept exactly when it is one of the config's Constants that
      the dict defines. */
  lemma {:induction false} KeptNamesMembers(names: seq<string>, d: map<string, string>, x: string)
    ensures x in KeptNames(names, d) <==> x in names && x in d
  {
    if names != [] {
      var init := names[..|names| - 1];
      KeptNamesMembers(init, d, x);
      assert names == init + [names[|names| - 1]];
    }
  }

  /** For each equation the alias list and the index list have equal
      length, follow the order of the config's Constants, and each index is
      the first position of its name in OverallCnsts; the mapping fails
      exactly when a kept name is missing from OverallCnsts. */
  lemma ConstantsOfSpec(names: seq<string>, d: map<string, string>, overall: seq<string>)
    ensures ConstantsOf(names, d, overall).Ok? <==> forall x :: x in names && x in d ==> x in overall
    ensures ConstantsOf(names, d, overall).Ok? ==>
      var (alias, idx) := ConstantsOf(names, d, overall).value;
      var kept := KeptNames(names, d);
      |alias| == |idx| == |kept| &&
      forall k :: 0 <= k < |kept| ==>
        alias[k] == d[kept[k]] && 0 <= idx[k] < |overall| && overall[idx[k]] == kept[k] &&
        forall q :: 0 <= q < idx[k] ==> overall[q] != kept[k]
  {
    var kept := KeptNames(names, d);
    forall x | x in names && x in d
      ensures x in kept
    {
      KeptNamesMembers(names, d, x);
    }
    forall k | 0 <= k < |kept|
      ensures kept[k] in names
    {
      KeptNamesMembers(names, d, kept[k]);
    }
  }

  // ---------------------------------------------------------------------
  // The parser

  /** What the TMA calculator's EquLookup returns once unpacked: the
      equations, the perf equations and one constant dict per equation. */
  datatype Lookup = Lookup(equs: seq<string>, perfEqus: seq<string>, cnsts: seq<map<string, string>>)

  /** The parser's fields. The compiled equations are kept as their text. */
  datatype Parser = Parser(
    eventNames: seq<seq<string>>,
    metrics: seq<seq<string>>,
    alwaysTopdown: bool,
    cnstsList: seq<seq<string>>,
    overallCnsts: seq<string>,
    equs: seq<seq<string>>,
    perfEqus: seq<seq<string>>,
    sortedCnstsAlias: seq<seq<seq<string>>>,
    sortedCnstsIdx: seq<seq<seq<int>>>,
    equValid: bool)
  {
    /** One entry per config in every per-config list, and alias and index
        lists of equal shape. */
    predicate WellFormed()
    {
      var n := |metrics|;
      |eventNames| == n && |cnstsList| == n && |equs| == n && |perfEqus| == n &&
      |sortedCnstsAlias| == n && |sortedCnstsIdx| == n &&
      forall i :: 0 <= i < n ==>
        |sortedCnstsAlias[i]| == |sortedCnstsIdx[i]| &&
        forall j :: 0 <= j < |sortedCnstsAlias[i]| ==> |sortedCnstsAlias[i][j]| == |sortedCnstsIdx[i][j]|
    }
  }

  /** The alias and index lists of the first m constant dicts of a config. */
  function DictsUpTo(names: seq<string>, ds: seq<map<string, string>>, overall: seq<string>, m: nat)
    : Result<(seq<seq<string>>, seq<seq<int>>)>
    requires m <= |ds|
  {
    if m == 0 then Ok(([], []))
    else
      match DictsUpTo(names, ds, overall, m - 1)
      case Err(e) => Err(e)
      case Ok((al, ix)) =>
        match ConstantsOf(names, ds[m - 1], overall)
        case Err(e) => Err(e)
        case Ok((a, x)) => Ok((al + [a], ix + [x]))
  }

  /** The per-config tables of __init__. */
  datatype Tables = Tables(equs: seq<seq<string>>, perfEqus: seq<seq<string>>,
                           alias: seq<seq<seq<string>>>, idx: seq<seq<seq<int>>>)

  /** The tables of the first n configs; a lookup that does not unpack into
      three raises ValueError. */
  function ConfigsUpTo(j: PmuJson, lookup: (seq<string>, seq<string>) -> Option<Lookup>, n: nat): Result<Tables>
    requires n <= |j.metrics| == |j.eventNames| == |j.cnstsList|
  {
    if n == 0 then Ok(Tables([], [], [], []))
    else
      match ConfigsUpTo(j, lookup, n - 1)
      case Err(e) => Err(e)
      case Ok(t) =>
        match lookup(j.metrics[n - 1], j.eventNames[n - 1])
        case None => Err("ValueError: not enough values to unpack")
        case Some(lk) =>
          match DictsUpTo(j.cnstsList[n - 1], lk.cnsts, j.overallCnsts, |lk.cnsts|)
          case Err(e) => Err(e)
          case Ok((al, ix)) => Ok(Tables(t.equs + [lk.equs], t.perfEqus + [lk.perfEqus], t.alias + [al], t.idx + [ix]))
  }

  /** PerfmonParser(tma_cal, config): the JSON read, the length assertion,
      the per-config tables, and equ_valid from the first config (an
      IndexError when there is none). */
  function ParserOf(data: ConfigJson, lookup: (seq<string>, seq<string>) -> Option<Lookup>): Result<Parser>
  {
    match JsonOf(data)
    case Err(e) => Err(e)
    case Ok(j) =>
      if |j.eventNames| != |j.metrics| || |j.cnstsList| != |j.metrics| then Err("AssertionError")
      else
        match ConfigsUpTo(j, lookup, |j.metrics|)
        case Err(e) => Err(e)
        case Ok(t) =>
          if |j.metrics| == 0 then Err("IndexError: list index out of range")
          else Ok(Parser(j.eventNames, j.metrics, j.alwaysTopdown, j.cnstsList, j.overallCnsts,
                         t.equs, t.perfEqus, t.alias, t.idx, |j.metrics[0]| == |t.equs[0]|))
  }

  /** The loop over the constant dicts of one config. */
  method MapDicts(names: seq<string>, ds: seq<map<string, string>>, overall: seq<string>)
    returns (r: Result<(seq<seq<string>>, seq<seq<int>>)>)
    ensures r == DictsUpTo(names, ds, overall, |ds|)
  {
    var cfgAlias: seq<seq<string>> := [];
    var cfgIdx: seq<seq<int>> := [];
    for m := 0 to |ds|
      invariant DictsUpTo(names, ds, overall, m) == Ok((cfgAlias, cfgIdx))
    {
      var mapped := MapConstants(names, ds[m], overall);
      if mapped.Err? {
        DictsUpToErr(names, ds, overall, m + 1, |ds|);
        return Err(mapped.msg);
      }
      cfgAlias := cfgAlias + [mapped.value.0];
      cfgIdx := cfgIdx + [mapped.value.1];
    }
    return Ok((cfgAlias, cfgIdx));
  }

  method NewParser(data: ConfigJson, lookup: (seq<string>, seq<string>) -> Option<Lookup>) returns (r: Result<Parser>)
    ensures r == ParserOf(data, lookup)
  {
    var read := ReadPmuConfigJson(data);
    if read.Err? {
      return Err(read.msg);
    }
    var j := read.value;
    if |j.eventNames| != |j.metrics| || |j.cnstsList| != |j.metrics| {
      return Err("AssertionError");
    }
    var tables := BuildTables(j, lookup);
    if tables.Err? {
      return Err(tables.msg);
    }
    var t := tables.value;
    if |j.metrics| == 0 {
      return Err("IndexError: list index out of range");
    }
    return Ok(Parser(j.eventNames, j.metrics, j.alwaysTopdown, j.cnstsList, j.overallCnsts,
                     t.equs, t.perfEqus, t.alias, t.idx, |j.metrics[0]| == |t.equs[0]|));
  }

  /** The loop over the configs. */
  method BuildTables(j: PmuJson, lookup: (seq<string>, seq<string>) -> Option<Lookup>) returns (r: Result<Tables>)
    requires |j.metrics| == |j.eventNames| == |j.cnstsList|
    ensures r == ConfigsUpTo(j, lookup, |j.metrics|)
  {
    var t := Tables([], [], [], []);
    for i := 0 to |j.metrics|
      invariant ConfigsUpTo(j, lookup, i) == Ok(t)
    {
      var next := BuildConfig(j, lookup, i, t);
      if next.Err? {
        ConfigsUpToErr(j, lookup, i + 1, |j.metrics|);
        return next;
      }
      t := next.value;
    }
    return Ok(t);
  }

  /** One pass of the loop over the configs: config i's tables appended to
      those of the configs before it. */
  method BuildConfig(j: PmuJson, lookup: (seq<string>, seq<string>) -> Option<Lookup>, i: nat, t: Tables)
    returns (r: Result<Tables>)
    requires i < |j.metrics| == |j.eventNames| == |j.cnstsList|
    requires ConfigsUpTo(j, lookup, i) == Ok(t)
    ensures r == ConfigsUpTo(j, lookup, i + 1)
  {
    var lk := lookup(j.metrics[i], j.eventNames[i]);
    if lk.None? {
      return Err("ValueError: not enough values to unpack");
    }
    var dicts := MapDicts(j.cnstsList[i], lk.value.cnsts, j.overallCnsts);
    if dicts.Err? {
      return Err(dicts.msg);
    }
    r := Ok(Tables(t.equs + [lk.value.equs], t.perfEqus + [lk.value.perfEqus],
                   t.alias + [dicts.value.0], t.idx + [dicts.value.1]));
  }

  /** Once a config fails, the constructor fails with its error. */
  lemma {:induction false} ConfigsUpToErr(j: PmuJson, lookup: (seq<string>, seq<string>) -> Option<Lookup>, n: nat, m: nat)
    requires n <= m <= |j.metrics| == |j.eventNames| == |j.cnstsList|
    requires ConfigsUpTo(j, lookup, n).Err?
    ensures ConfigsUpTo(j, lookup, m) == ConfigsUpTo(j, lookup, n)
  {
    if m > n {
      ConfigsUpToErr(j, lookup, n, m - 1);
    }
  }

  /** Once a constant dict fails, its config fails with its error. */
  lemma {:induction false} DictsUpToErr(names: seq<string>, ds: seq<map<string, string>>, overall: seq<string>, n: nat, m: nat)
    requires n <= m <= |ds|
    requires DictsUpTo(names, ds, overall, n).Err?
    ensures DictsUpTo(names, ds, overall, m) == DictsUpTo(names, ds, overall, n)
  {
    if m > n {
      DictsUpToErr(names, ds, overall, n, m - 1);
    }
  }

  lemma {:induction false} DictsUpToSpec(names: seq<string>, ds: seq<map<string, string>>, overall: seq<string>, m: nat)
    requires m <= |ds|
    ensures DictsUpTo(names, ds, overall, m).Ok? <==> forall k :: 0 <= k < m ==> ConstantsOf(names, ds[k], overall).Ok?
    ensures DictsUpTo(names, ds, overall, m).Ok? ==>
      var (al, ix) := DictsUpTo(names, ds, overall, m).value;
      |al| == m && |ix| == m &&
      forall k :: 0 <= k < m ==> (al[k], ix[k]) == ConstantsOf(names, ds[k], overall).value
  {
    if m > 0 {
      DictsUpToSpec(names, ds, overall, m - 1);
    }
  }

  /** Config i can be set up: its lookup unpacks and every constant of its
      equations is in OverallCnsts. */
  predicate ConfigOk(j: PmuJson, lookup: (seq<string>, seq<string>) -> Option<Lookup>, i: nat)
  {
    i < |j.metrics| && i < |j.eventNames| && i < |j.cnstsList| &&
    lookup(j.metrics[i], j.eventNames[i]).Some? &&
    var lk := lookup(j.metrics[i], j.eventNames[i]).value;
    forall k :: 0 <= k < |lk.cnsts| ==> ConstantsOf(j.cnstsList[i], lk.cnsts[k], j.overallCnsts).Ok?
  }

  /** Row i of the tables holds config i's equations and the constant
      mapping of each of its constant dicts. */
  predicate RowMatches(j: PmuJson, lookup: (seq<string>, seq<string>) -> Option<Lookup>, t: Tables, i: nat)
  {
    ConfigOk(j, lookup, i) &&
    i < |t.equs| && i < |t.perfEqus| && i < |t.alias| && i < |t.idx| &&
    var lk := lookup(j.metrics[i], j.eventNames[i]).value;
    t.equs[i] == lk.equs && t.perfEqus[i] == lk.perfEqus &&
    |t.alias[i]| == |lk.cnsts| && |t.idx[i]| == |lk.cnsts| &&
    forall k :: 0 <= k < |lk.cnsts| ==>
      (t.alias[i][k], t.idx[i][k]) == ConstantsOf(j.cnstsList[i], lk.cnsts[k], j.overallCnsts).value
  }

  lemma {:induction false} ConfigsUpToOk(j: PmuJson, lookup: (seq<string>, seq<string>) -> Option<Lookup>, n: nat)
    requires n <= |j.metrics| == |j.eventNames| == |j.cnstsList|
    ensures ConfigsUpTo(j, lookup, n).Ok? <==> forall i :: 0 <= i < n ==> ConfigOk(j, lookup, i)
  {
    if n > 0 {
      ConfigsUpToOk(j, lookup, n - 1);
      var lk := lookup(j.metrics[n - 1], j.eventNames[n - 1]);
      if lk.Some? {
        DictsUpToSpec(j.cnstsList[n - 1], lk.value.cnsts, j.overallCnsts, |lk.value.cnsts|);
        assert ConfigOk(j, lookup, n - 1) <==> DictsUpTo(j.cnstsList[n - 1], lk.value.cnsts, j.overallCnsts, |lk.value.cnsts|).Ok?;
      } else {
        assert !ConfigOk(j, lookup, n - 1);
      }
    }
  }

  lemma {:induction false} ConfigsUpToRows(j: PmuJson, lookup: (seq<string>, seq<string>) -> Option<Lookup>, n: nat)
    requires n <= |j.metrics| == |j.eventNames| == |j.cnstsList|
    requires ConfigsUpTo(j, lookup, n).Ok?
    ensures var t := ConfigsUpTo(j, lookup, n).value;
      |t.equs| == n && |t.perfEqus| == n && |t.alias| == n && |t.idx| == n &&
      forall i :: 0 <= i < n ==> RowMatches(j, lookup, t, i)
  {
    if n > 0 {
      ConfigsUpToRows(j, lookup, n - 1);
      var lk := lookup(j.metrics[n - 1], j.eventNames[n - 1]).value;
      DictsUpToSpec(j.cnstsList[n - 1], lk.cnsts, j.overallCnsts, |lk.cnsts|);
      var t0 := ConfigsUpTo(j, lookup, n - 1).value;
      var t := ConfigsUpTo(j, lookup, n).value;
      forall i | 0 <= i < n
        ensures RowMatches(j, lookup, t, i)
      {
        if i < n - 1 {
          assert RowMatches(j, lookup, t0, i);
          assert t.equs[i] == t0.equs[i] && t.perfEqus[i] == t0.perfEqus[i];
          assert t.alias[i] == t0.alias[i] && t.idx[i] == t0.idx[i];
        }
      }
    }
  }

  /** The constructor succeeds exactly when the JSON reads, there is at
      least one config, and every config can be set up. The parser then
      keeps the JSON's lists, holds one row of equations and constant
      mappings per config, and has equ_valid exactly when the first
      config has as many metrics as equations. */
  lemma ParserOfSpec(data: ConfigJson, lookup: (seq<string>, seq<string>) -> Option<Lookup>)
    ensures ParserOf(data, lookup).Ok? <==>
      JsonOf(data).Ok? && |JsonOf(data).value.metrics| > 0 &&
      forall i :: 0 <= i < |JsonOf(data).value.metrics| ==> ConfigOk(JsonOf(data).value, lookup, i)
    ensures ParserOf(data, lookup).Ok? ==>
      JsonOf(data).Ok? &&
      var p := ParserOf(data, lookup).value;
      var j := JsonOf(data).value;
      p.WellFormed() && |p.metrics| > 0 &&
      p.eventNames == j.eventNames && p.metrics == j.metrics && p.alwaysTopdown == j.alwaysTopdown &&
      p.cnstsList == j.cnstsList && p.overallCnsts == j.overallCnsts &&
      (forall i :: 0 <= i < |p.metrics| ==>
        RowMatches(j, lookup, Tables(p.equs, p.perfEqus, p.sortedCnstsAlias, p.sortedCnstsIdx), i)) &&
      (p.equValid <==> |p.metrics[0]| == |p.equs[0]|)
  {
    JsonOfSpec(data);
    if JsonOf(data).Ok? {
      var j := JsonOf(data).value;
      ConfigsUpToOk(j, lookup, |j.metrics|);
      if ParserOf(data, lookup).Ok? {
        ConfigsUpToRows(j, lookup, |j.metrics|);
        var p := ParserOf(data, lookup).value;
        var t := ConfigsUpTo(j, lookup, |j.metrics|).value;
        assert t == Tables(p.equs, p.perfEqus, p.sortedCnstsAlias, p.sortedCnstsIdx);
        forall i | 0 <= i < |p.metrics|
          ensures |p.sortedCnstsAlias[i]| == |p.sortedCnstsIdx[i]|
          ensures forall k :: 0 <= k < |p.sortedCnstsAlias[i]| ==> |p.sortedCnstsAlias[i][k]| == |p.sortedCnstsIdx[i][k]|
        {
          assert RowMatches(j, lookup, t, i);
          var lk := lookup(j.metrics[i], j.eventNames[i]).value;
          forall k | 0 <= k < |lk.cnsts|
            ensures |t.alias[i][k]| == |t.idx[i][k]|
          {
            ConstantsOfSpec(j.cnstsList[i], lk.cnsts[k], j.overallCnsts);
          }
        }
      }
    }
  }

  // ---------------------------------------------------------------------
  // CalPmu

  /** pmu_end - pmu_begin on numpy arrays: element by element for equal
      lengths, broadcast from a one-element side, and a ValueError (None)
      otherwise. */
  function Delta(b: seq<int>, e: seq<int>): (r: Option<seq<int>>)
  {
    if |b| == |e| then Some(seq(|b|, i requires 0 <= i < |b| => e[i] - b[i]))
    else if |b| == 1 then Some(seq(|e|, i requires 0 <= i < |e| => e[i] - b[0]))
    else if |e| == 1 then Some(seq(|b|, i requires 0 <= i < |b| => e[0] - b[i]))
    else None
  }

  /** A Python list index: negative counts from the end; None is the
      IndexError. */
  function PyIndex(n: int, i: int): (r: Option<nat>)
    ensures r.Some? ==> r.value < n
    ensures r.Some? <==> -n <= i < n
  {
    if 0 <= i < n then Some(i) else if -n <= i < 0 then Some(n + i) else None
  }

  /** "Met-." + key. */
  function MetKey(key: string): string
  {
    "Met-." + key
  }

  /** The fallback loop over the first n event names: each sets its key to
      its delta; an event beyond the deltas raises IndexError. */
  function Fallback(out: map<string, real>, names: seq<string>, delta: seq<int>, n: nat): Result<map<string, real>>
    requires n <= |names|
  {
    if n == 0 then Ok(out)
    else
      match Fallback(out, names, delta, n - 1)
      case Err(e) => Err(e)
      case Ok(o) =>
        if n - 1 >= |delta| then Err("IndexError: index out of bounds")
        else Ok(o[MetKey(names[n - 1]) := delta[n - 1] as real])
  }

  /** The constants an equation reads are all there: each alias is the
      duration, which dur_ms supplies, or indexes cnsts. */
  predicate ConstantsAvailable(aliases: seq<string>, idxs: seq<int>, cnsts: seq<int>, durMs: Option<real>)
  {
    forall i :: 0 <= i < |aliases| ==>
      (durMs.Some? && aliases[i] == "durationtimeinmilliseconds") ||
      (i < |idxs| && PyIndex(|cnsts|, idxs[i]).Some?)
  }

  /** What a compiled equation is evaluated with: its config and metric
      index, the counter deltas, the constants and the duration. */
  datatype EquInput = EquInput(cfg: int, metric: int, delta: seq<int>, cnsts: seq<int>, durMs: Option<real>)

  /** The equation loop over the first n metrics of config c: each sets its
      key to the value of its equation once its constants are bound. */
  function EquMetrics(p: Parser, c: nat, delta: seq<int>, out: map<string, real>, cnsts: seq<int>, durMs: Option<real>,
                      eval: EquInput -> real, n: nat): Result<map<string, real>>
    requires p.WellFormed() && c < |p.metrics| && n <= |p.metrics[c]|
  {
    if n == 0 then Ok(out)
    else
      match EquMetrics(p, c, delta, out, cnsts, durMs, eval, n - 1)
      case Err(e) => Err(e)
      case Ok(o) =>
        var k := n - 1;
        if k >= |p.sortedCnstsAlias[c]| then Err("IndexError: list index out of range")
        else if !ConstantsAvailable(p.sortedCnstsAlias[c][k], p.sortedCnstsIdx[c][k], cnsts, durMs) then
          Err("IndexError: list index out of range")
        else if k >= |p.equs[c]| then Err("IndexError: list index out of range")
        else Ok(o[MetKey(p.metrics[c][k]) := eval(EquInput(c, k, delta, cnsts, durMs))])
  }

  /** CalPmu(pmu_begin, pmu_end, dict_to_append, cfg_idx, cnsts, dur_ms). */
  function CalPmuOf(p: Parser, begin: seq<int>, end: seq<int>, out: map<string, real>, cfgIdx: int,
                    cnsts: seq<int>, durMs: Option<real>, eval: EquInput -> real): Result<map<string, real>>
    requires p.WellFormed()
  {
    match Delta(begin, end)
    case None => Err("ValueError: operands could not be broadcast together")
    case Some(delta) =>
      match PyIndex(|p.perfEqus|, cfgIdx)
      case None => Err("IndexError: list index out of range")
      case Some(c) =>
        if p.equValid then EquMetrics(p, c, delta, out, cnsts, durMs, eval, |p.metrics[c]|)
        else Fallback(out, p.eventNames[c], delta, |p.eventNames[c]|)
  }

  /** The inner loop binding an equation's constants; false for the
      IndexError. */
  method BindConstants(aliases: seq<string>, idxs: seq<int>, cnsts: seq<int>, durMs: Option<real>)
    returns (ok: bool)
    ensures ok == ConstantsAvailable(aliases, idxs, cnsts, durMs)
  {
    for i := 0 to |aliases|
      invariant ConstantsAvailable(aliases[..i], idxs, cnsts, durMs)
    {
      if !(durMs.Some? && aliases[i] == "durationtimeinmilliseconds") {
        if i >= |idxs| || PyIndex(|cnsts|, idxs[i]).None? {
          assert !ConstantsAvailable(aliases, idxs, cnsts, durMs) by {
            assert aliases[i] == aliases[i];
          }
          return false;
        }
      }
      assert forall k :: 0 <= k < i + 1 ==> aliases[..i + 1][k] == aliases[k];
    }
    assert aliases[..|aliases|] == aliases;
    return true;
  }

  method CalPmu(p: Parser, begin: seq<int>, end: seq<int>, out: map<string, real>, cfgIdx: int,
                cnsts: seq<int>, durMs: Option<real>, eval: EquInput -> real)
    returns (r: Result<map<string, real>>)
    requires p.WellFormed()
    ensures r == CalPmuOf(p, begin, end, out, cfgIdx, cnsts, durMs, eval)
  {
    var delta := Delta(begin, end);
    if delta.None? {
      return Err("ValueError: operands could not be broadcast together");
    }
    var c := PyIndex(|p.perfEqus|, cfgIdx);
    if c.None? {
      return Err("IndexError: list index out of range");
    }
    var ci := c.value;
    if p.equValid {
      r := EquLoop(p, ci, delta.value, out, cnsts, durMs, eval);
    } else {
      r := FallbackLoop(out, p.eventNames[ci], delta.value);
    }
  }

  /** The metric loop of CalPmu for config c. */
  method EquLoop(p: Parser, c: nat, delta: seq<int>, out: map<string, real>, cnsts: seq<int>,
                 durMs: Option<real>, eval: EquInput -> real) returns (r: Result<map<string, real>>)
    requires p.WellFormed() && c < |p.metrics|
    ensures r == EquMetrics(p, c, delta, out, cnsts, durMs, eval, |p.metrics[c]|)
  {
    var o := out;
    for k := 0 to |p.metrics[c]|
      invariant EquMetrics(p, c, delta, out, cnsts, durMs, eval, k) == Ok(o)
    {
      if k >= |p.sortedCnstsAlias[c]| {
        EquMetricsErr(p, c, delta, out, cnsts, durMs, eval, k + 1, |p.metrics[c]|);
        return Err("IndexError: list index out of range");
      }
      var bound := BindConstants(p.sortedCnstsAlias[c][k], p.sortedCnstsIdx[c][k], cnsts, durMs);
      if !bound {
        EquMetricsErr(p, c, delta, out, cnsts, durMs, eval, k + 1, |p.metrics[c]|);
        return Err("IndexError: list index out of range");
      }
      if k >= |p.equs[c]| {
        EquMetricsErr(p, c, delta, out, cnsts, durMs, eval, k + 1, |p.metrics[c]|);
        return Err("IndexError: list index out of range");
      }
      o := o[MetKey(p.metrics[c][k]) := eval(EquInput(c, k, delta, cnsts, durMs))];
    }
    return Ok(o);
  }

  /** The event loop of CalPmu when the equations are unusable. */
  method FallbackLoop(out: map<string, real>, names: seq<string>, delta: seq<int>) returns (r: Result<map<string, real>>)
    ensures r == Fallback(out, names, delta, |names|)
  {
    var o := out;
    for k := 0 to |names|
      invariant Fallback(out, names, delta, k) == Ok(o)
    {
      if k >= |delta| {
        FallbackErr(out, names, delta, k + 1, |names|);
        return Err("IndexError: index out of bounds");
      }
      o := o[MetKey(names[k]) := delta[k] as real];
    }
    return Ok(o);
  }

  lemma {:induction false} FallbackErr(out: map<string, real>, names: seq<string>, delta: seq<int>, n: nat, m: nat)
    requires n <= m <= |names|
    requires Fallback(out, names, delta, n).Err?
    ensures Fallback(out, names, delta, m) == Fallback(out, names, delta, n)
  {
    if m > n {
      FallbackErr(out, names, delta, n, m - 1);
    }
  }

  lemma {:induction false} EquMetricsErr(p: Parser, c: nat, delta: seq<int>, out: map<string, real>, cnsts: seq<int>,
                                         durMs: Option<real>, eval: EquInput -> real, n: nat, m: nat)
    requires p.WellFormed() && c < |p.metrics| && n <= m <= |p.metrics[c]|
    requires EquMetrics(p, c, delta, out, cnsts, durMs, eval, n).Err?
    ensures EquMetrics(p, c, delta, out, cnsts, durMs, eval, m) == EquMetrics(p, c, delta, out, cnsts, durMs, eval, n)
  {
    if m > n {
      EquMetricsErr(p, c, delta, out, cnsts, durMs, eval, n, m - 1);
    }
  }

  lemma MetKeyInjective(a: string, b: string)
    ensures MetKey(a) == MetKey(b) <==> a == b
  {
    if MetKey(a) == MetKey(b) {
      assert a == MetKey(a)[5..];
    }
  }

  /** The fallback succeeds exactly when there are as many deltas as event
      names. It adds one key per event name and leaves every other key as
      it was; the value under an event's key is the delta of its last
      occurrence among the names. */
  lemma {:induction false} FallbackSpec(out: map<string, real>, names: seq<string>, delta: seq<int>, n: nat)
    requires n <= |names|
    ensures Fallback(out, names, delta, n).Ok? <==> n <= |delta|
    ensures Fallback(out, names, delta, n).Ok? ==>
      var o := Fallback(out, names, delta, n).value;
      (forall key :: key in o <==> key in out || exists k :: 0 <= k < n && key == MetKey(names[k])) &&
      (forall key :: key in out && (forall k :: 0 <= k < n ==> key != MetKey(names[k])) ==> o[key] == out[key]) &&
      (forall k :: 0 <= k < n && (forall j :: k < j < n ==> names[j] != names[k]) ==>
         o[MetKey(names[k])] == delta[k] as real)
  {
    if n > 0 {
      FallbackSpec(out, names, delta, n - 1);
      if n <= |delta| {
        var o := Fallback(out, names, delta, n - 1).value;
        forall k | 0 <= k < n - 1 && names[n - 1] != names[k]
          ensures MetKey(names[n - 1]) != MetKey(names[k])
        {
          MetKeyInjective(names[n - 1], names[k]);
        }
      }
    }
  }

  /** With the equations unusable, CalPmu on equally long begin and end
      reads, a config index in range and at least as many reads as event
      names succeeds and maps "Met-." + each event name to end[i] -
      begin[i] for the name's last position i; the other keys of the dict
      are left as they were. */
  lemma CalPmuFallback(p: Parser, begin: seq<int>, end: seq<int>, out: map<string, real>, cfgIdx: int,
                       cnsts: seq<int>, durMs: Option<real>, eval: EquInput -> real)
    requires p.WellFormed() && !p.equValid
    requires |begin| == |end| && 0 <= cfgIdx < |p.metrics| && |p.eventNames[cfgIdx]| <= |begin|
    ensures CalPmuOf(p, begin, end, out, cfgIdx, cnsts, durMs, eval).Ok?
    ensures var o := CalPmuOf(p, begin, end, out, cfgIdx, cnsts, durMs, eval).value;
      var names := p.eventNames[cfgIdx];
      (forall key :: key in out && (forall k :: 0 <= k < |names| ==> key != MetKey(names[k])) ==>
         key in o && o[key] == out[key]) &&
      forall k :: 0 <= k < |names| && (forall j :: k < j < |names| ==> names[j] != names[k]) ==>
        MetKey(names[k]) in o && o[MetKey(names[k])] == (end[k] - begin[k]) as real
  {
    var names := p.eventNames[cfgIdx];
    var delta := Delta(begin, end).value;
    FallbackSpec(out, names, delta, |names|);
  }

  /** With the equations usable, a CalPmu that succeeds maps "Met-." + each
      metric of the config to the value of its equation (the last one for a
      repeated metric) and leaves every other key as it was; it fails
      exactly when the reads cannot be subtracted, the config index is out
      of range, an equation's constant is neither the duration nor present
      in cnsts, or the config has fewer compiled equations than metrics. */
  lemma {:induction false} EquMetricsSpec(p: Parser, c: nat, delta: seq<int>, out: map<string, real>, cnsts: seq<int>,
                                          durMs: Option<real>, eval: EquInput -> real, n: nat)
    requires p.WellFormed() && c < |p.metrics| && n <= |p.metrics[c]|
    ensures EquMetrics(p, c, delta, out, cnsts, durMs, eval, n).Ok? <==>
      n <= |p.sortedCnstsAlias[c]| && n <= |p.equs[c]| &&
      forall k :: 0 <= k < n ==> ConstantsAvailable(p.sortedCnstsAlias[c][k], p.sortedCnstsIdx[c][k], cnsts, durMs)
    ensures EquMetrics(p, c, delta, out, cnsts, durMs, eval, n).Ok? ==>
      var o := EquMetrics(p, c, delta, out, cnsts, durMs, eval, n).value;
      var names := p.metrics[c];
      (forall key :: key in out && (forall k :: 0 <= k < n ==> key != MetKey(names[k])) ==>
         key in o && o[key] == out[key]) &&
      (forall k :: 0 <= k < n && (forall j :: k < j < n ==> names[j] != names[k]) ==>
         MetKey(names[k]) in o && o[MetKey(names[k])] == eval(EquInput(c, k, delta, cnsts, durMs)))
  {
    EquMetricsOk(p, c, delta, out, cnsts, durMs, eval, n);
    EquMetricsKeeps(p, c, delta, out, cnsts, durMs, eval, n);
    EquMetricsSets(p, c, delta, out, cnsts, durMs, eval, n);
  }

  /** A config with more metrics than compiled equations raises IndexError
      at its first metric without an equation, even though equ_valid only
      compared the counts of config 0. */
  lemma MissingEquationRaises(eval: EquInput -> real)
    ensures var p := Parser([[], []], [["m"], ["x", "y"]], false, [[], []], [], [["e0"], ["e1"]], [[], []],
                            [[[]], [[], []]], [[[]], [[], []]], true);
      p.WellFormed() && CalPmuOf(p, [], [], map[], 1, [], None, eval) == Err("IndexError: list index out of range")
  {
    var p := Parser([[], []], [["m"], ["x", "y"]], false, [[], []], [], [["e0"], ["e1"]], [[], []],
                    [[[]], [[], []]], [[[]], [[], []]], true);
    assert ConstantsAvailable([], [], [], None);
    assert EquMetrics(p, 1, [], map[], [], None, eval, 1).Ok?;
    assert EquMetrics(p, 1, [], map[], [], None, eval, 2).Err?;
  }

  lemma {:induction false} EquMetricsOk(p: Parser, c: nat, delta: seq<int>, out: map<string, real>, cnsts: seq<int>,
                                        durMs: Option<real>, eval: EquInput -> real, n: nat)
    requires p.WellFormed() && c < |p.metrics| && n <= |p.metrics[c]|
    ensures EquMetrics(p, c, delta, out, cnsts, durMs, eval, n).Ok? <==>
      n <= |p.sortedCnstsAlias[c]| && n <= |p.equs[c]| &&
      forall k :: 0 <= k < n ==> ConstantsAvailable(p.sortedCnstsAlias[c][k], p.sortedCnstsIdx[c][k], cnsts, durMs)
  {
    if n > 0 {
      EquMetricsOk(p, c, delta, out, cnsts, durMs, eval, n - 1);
    }
  }

  lemma {:induction false} EquMetricsKeeps(p: Parser, c: nat, delta: seq<int>, out: map<string, real>, cnsts: seq<int>,
                                           durMs: Option<real>, eval: EquInput -> real, n: nat)
    requires p.WellFormed() && c < |p.metrics| && n <= |p.metrics[c]|
    ensures EquMetrics(p, c, delta, out, cnsts, durMs, eval, n).Ok? ==>
      var o := EquMetrics(p, c, delta, out, cnsts, durMs, eval, n).value;
      forall key :: key in out && (forall k :: 0 <= k < n ==> key != MetKey(p.metrics[c][k])) ==>
        key in o && o[key] == out[key]
  {
    if n > 0 {
      EquMetricsKeeps(p, c, delta, out, cnsts, durMs, eval, n - 1);
    }
  }

  lemma {:induction false} EquMetricsSets(p: Parser, c: nat, delta: seq<int>, out: map<string, real>, cnsts: seq<int>,
                                          durMs: Option<real>, eval: EquInput -> real, n: nat)
    requires p.WellFormed() && c < |p.metrics| && n <= |p.metrics[c]|
    ensures EquMetrics(p, c, delta, out, cnsts, durMs, eval, n).Ok? ==>
      var o := EquMetrics(p, c, delta, out, cnsts, durMs, eval, n).value;
      var names := p.metrics[c];
      forall k :: 0 <= k < n && (forall j :: k < j < n ==> names[j] != names[k]) ==>
        MetKey(names[k]) in o && o[MetKey(names[k])] == eval(EquInput(c, k, delta, cnsts, durMs))
  {
    if n > 0 {
      EquMetricsSets(p, c, delta, out, cnsts, durMs, eval, n - 1);
      var names := p.metrics[c];
      forall k | 0 <= k < n - 1 && names[n - 1] != names[k]
        ensures MetKey(names[n - 1]) != MetKey(names[k])
      {
        MetKeyInjective(names[n - 1], names[k]);
      }
    }
  }
}
