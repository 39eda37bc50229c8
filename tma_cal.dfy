/** The placeholder TMA calculator of post_processing/tma_cal.py: MAX and
    MIN, an equation lookup that returns an empty list, and a top-down
    calculation that reports that no level-1 or level-2 metric is
    available. */
module TmaCal {
  import opened Wrappers
  import PerfmonParser

  /** MAX(a, b): the larger argument. */
  function Max(a: int, b: int): (r: int)
    ensures r >= a && r >= b
    ensures r == a || r == b
  {
    if a >= b then a else b
  }

  /** MIN(a, b): the smaller argument. */
  function Min(a: int, b: int): (r: int)
    ensures r <= a && r <= b
    ensures r == a || r == b
  {
    if a <= b then a else b
  }

  /** The calculator object. */
  datatype TmaCal = TmaCal(equationDict: map<string, string>)

  /** TmaCal(): no equation is known. */
  function NewTmaCal(): (c: TmaCal)
    ensures c.equationDict == map[]
  {
    TmaCal(map[])
  }

  /** One item of the list an equation lookup returns; the parser unpacks
      the list into equations, perf equations and constant dicts. */
  datatype LookupItem =
    | Equs(equs: seq<string>)
    | PerfEqus(perfEqus: seq<string>)
    | Cnsts(cnsts: seq<map<string, string>>)

  /** The three-way unpack the parser applies to a lookup's result: it
      needs exactly three items. */
  function Unpack(items: seq<LookupItem>): (r: Option<PerfmonParser.Lookup>)
    ensures r.Some? ==> |items| == 3
    ensures |items| == 3 && items[0].Equs? && items[1].PerfEqus? && items[2].Cnsts? ==>
      r == Some(PerfmonParser.Lookup(items[0].equs, items[1].perfEqus, items[2].cnsts))
  {
    if |items| == 3 && items[0].Equs? && items[1].PerfEqus? && items[2].Cnsts? then
      Some(PerfmonParser.Lookup(items[0].equs, items[1].perfEqus, items[2].cnsts))
    else None
  }

  /** EquLookup(metrics, event_names): always the empty list. */
  function EquLookup(c: TmaCal, metrics: seq<string>, eventNames: seq<string>): seq<LookupItem>
  {
    []
  }

  /** The lookup the parser sees when built with this calculator. */
  function LookupOf(c: TmaCal): (seq<string>, seq<string>) -> Option<PerfmonParser.Lookup>
  {
    (metrics: seq<string>, eventNames: seq<string>) => Unpack(EquLookup(c, metrics, eventNames))
  }

  /** No lookup of this calculator unpacks. */
  lemma LookupNeverUnpacks(c: TmaCal, metrics: seq<string>, eventNames: seq<string>)
    ensures LookupOf(c)(metrics, eventNames).None?
  {
  }

  /** A parser can never be built with this calculator: whatever the
      configuration, either the configuration is unreadable or has no
      config, or the unpack of the first config's lookup fails. */
  lemma ParserNeverBuilt(c: TmaCal, data: PerfmonParser.ConfigJson)
    ensures PerfmonParser.ParserOf(data, LookupOf(c)).Err?
  {
    PerfmonParser.ParserOfSpec(data, LookupOf(c));
    if PerfmonParser.ParserOf(data, LookupOf(c)).Ok? {
      var j := PerfmonParser.JsonOf(data).value;
      assert PerfmonParser.ConfigOk(j, LookupOf(c), 0);
      LookupNeverUnpacks(c, j.metrics[0], j.eventNames[0]);
    }
  }

  /** CalTopDown(...): the metric names and their values. */
  function CalTopDown(c: TmaCal, slotA: int, metricA: int, uopDropA: int, slotB: int, metricB: int, uopDropB: int)
    : (r: (seq<string>, seq<int>))
    ensures |r.0| == |r.1| && |r.0| > 0
  {
    (["L1,L2 Metrics not available"], [0])
  }
}
