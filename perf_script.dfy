/** The sched_switch handler of post_processing/perf-script.py: perf calls
    it once per context switch, and it files the switch under the cpu it
    happened on and under the two threads involved, the one switched out
    ('e', end) and the one switched in ('b', begin). The two dictionaries
    are pickled when the trace ends; that file write is not part of this
    model. */
module PerfScript {

  /** One context switch: cpu, time in nanoseconds, then the previous and
      the next thread's pid and command. */
  datatype Switch = Switch(cpu: int, time: int, prevPid: int, prevComm: string, nextPid: int, nextComm: string)

  /** The mark of a thread's entry: 'e' when it is switched out, 'b' when
      it is switched in. */
  datatype Mark = End | Begin

  datatype ThreadEvent = ThreadEvent(mark: Mark, data: Switch)

  /** The list under k with v appended, created on first use. */
  function Append<K, V>(m: map<K, seq<V>>, k: K, v: V): (r: map<K, seq<V>>)
    ensures r.Keys == m.Keys + {k}
    ensures r[k] == (if k in m then m[k] else []) + [v]
    ensures forall k' :: k' in m && k' != k ==> r[k'] == m[k']
  {
    if k in m then m[k := m[k] + [v]] else m[k := [v]]
  }

  /** Appending keeps every list as a prefix of its new value. */
  lemma AppendGrows<K, V>(m: map<K, seq<V>>, k: K, v: V, x: K)
    requires x in m
    ensures x in Append(m, k, v) && m[x] <= Append(m, k, v)[x]
  {
  }

  /** The switch the handler records for its arguments. */
  function SwitchOf(cpu: int, secs: int, nsecs: int, prevComm: string, prevPid: int, nextComm: string, nextPid: int)
    : (s: Switch)
    ensures s.cpu == cpu && s.time == secs * 1_000_000_000 + nsecs
    ensures s.prevPid == prevPid && s.nextPid == nextPid && s.prevComm == prevComm && s.nextComm == nextComm
  {
    Switch(cpu, secs * 1000 * 1000 * 1000 + nsecs, prevPid, prevComm, nextPid, nextComm)
  }

  /** output_core after the switches `evs`, in order. */
  function CoreOf(evs: seq<Switch>): map<int, seq<Switch>>
  {
    if evs == [] then map[]
    else Append(CoreOf(evs[..|evs| - 1]), evs[|evs| - 1].cpu, evs[|evs| - 1])
  }

  /** output_thread after the switches `evs`, in order. */
  function ThreadOf(evs: seq<Switch>): map<int, seq<ThreadEvent>>
  {
    if evs == [] then map[]
    else
      var last := evs[|evs| - 1];
      Append(Append(ThreadOf(evs[..|evs| - 1]), last.prevPid, ThreadEvent(End, last)), last.nextPid, ThreadEvent(Begin, last))
  }

  /** The switches that happened on cpu c, in arrival order. */
  function OnCore(evs: seq<Switch>, c: int): seq<Switch>
  {
    if evs == [] then []
    else OnCore(evs[..|evs| - 1], c) + (if evs[|evs| - 1].cpu == c then [evs[|evs| - 1]] else [])
  }

  /** What thread t took part in, in arrival order: for each switch its
      'e' entry when t was switched out, then its 'b' entry when t was
      switched in. */
  function OfThread(evs: seq<Switch>, t: int): seq<ThreadEvent>
  {
    if evs == [] then []
    else
      var last := evs[|evs| - 1];
      OfThread(evs[..|evs| - 1], t) +
      (if last.prevPid == t then [ThreadEvent(End, last)] else []) +
      (if last.nextPid == t then [ThreadEvent(Begin, last)] else [])
  }

  /** output_core holds a list for a cpu exactly when a switch happened
      on it, and that list is every such switch in arrival order. */
  lemma {:induction false} CoreOfSpec(evs: seq<Switch>, c: int)
    ensures c in CoreOf(evs) <==> OnCore(evs, c) != []
    ensures c in CoreOf(evs) ==> CoreOf(evs)[c] == OnCore(evs, c)
  {
    if evs != [] {
      CoreOfSpec(evs[..|evs| - 1], c);
    }
  }

  /** output_thread holds a list for a pid exactly when that thread was
      switched out or in, and that list is its 'e' and 'b' entries in
      arrival order. */
  lemma {:induction false} ThreadOfSpec(evs: seq<Switch>, t: int)
    ensures t in ThreadOf(evs) <==> OfThread(evs, t) != []
    ensures t in ThreadOf(evs) ==> ThreadOf(evs)[t] == OfThread(evs, t)
  {
    if evs != [] {
      ThreadOfSpec(evs[..|evs| - 1], t);
    }
  }

  /** A switch of a thread to itself files its 'e' entry and then its 'b'
      entry, both under that thread. */
  lemma SelfSwitch(evs: seq<Switch>, s: Switch)
    requires s.prevPid == s.nextPid
    ensures var t := ThreadOf(evs + [s]);
      s.prevPid in t && |t[s.prevPid]| >= 2 &&
      t[s.prevPid][|t[s.prevPid]| - 2..] == [ThreadEvent(End, s), ThreadEvent(Begin, s)]
  {
    assert (evs + [s])[..|evs|] == evs;
  }

  /** A cpu's list only grows at its end: after more switches it starts
      with the list before them. */
  lemma {:induction false} CoreAppendOnly(evs: seq<Switch>, more: seq<Switch>, c: int)
    requires c in CoreOf(evs)
    ensures c in CoreOf(evs + more) && CoreOf(evs)[c] <= CoreOf(evs + more)[c]
    decreases |more|
  {
    if more == [] {
      assert evs + more == evs;
    } else {
      var init := more[..|more| - 1];
      CoreAppendOnly(evs, init, c);
      var all := evs + more;
      assert all[..|all| - 1] == evs + init;
      assert CoreOf(all) == Append(CoreOf(evs + init), all[|all| - 1].cpu, all[|all| - 1]);
    }
  }

  /** A thread's entries after more switches start with its entries
      before them. */
  lemma {:induction false} OfThreadGrows(evs: seq<Switch>, more: seq<Switch>, t: int)
    ensures OfThread(evs, t) <= OfThread(evs + more, t)
    decreases |more|
  {
    if more == [] {
      assert evs + more == evs;
    } else {
      var init := more[..|more| - 1];
      OfThreadGrows(evs, init, t);
      var all := evs + more;
      assert all[..|all| - 1] == evs + init;
    }
  }

  /** A thread's list only grows at its end: after more switches it
      starts with the list before them. */
  lemma ThreadAppendOnly(evs: seq<Switch>, more: seq<Switch>, t: int)
    requires t in ThreadOf(evs)
    ensures t in ThreadOf(evs + more) && ThreadOf(evs)[t] <= ThreadOf(evs + more)[t]
  {
    ThreadOfSpec(evs, t);
    ThreadOfSpec(evs + more, t);
    OfThreadGrows(evs, more, t);
  }

  /** One more switch extends both dictionaries as the handler does. */
  lemma SwitchStep(evs: seq<Switch>, data: Switch)
    ensures CoreOf(evs + [data]) == Append(CoreOf(evs), data.cpu, data)
    ensures ThreadOf(evs + [data]) ==
      Append(Append(ThreadOf(evs), data.prevPid, ThreadEvent(End, data)), data.nextPid, ThreadEvent(Begin, data))
  {
    assert (evs + [data])[..|evs|] == evs;
  }

  /** The handler's state: the two dictionaries, and the switches seen so
      far. */
  class SchedTrace {
    var outputCore: map<int, seq<Switch>>
    var outputThread: map<int, seq<ThreadEvent>>
    ghost var events: seq<Switch>

    ghost predicate Valid()
      reads this
    {
      outputCore == CoreOf(events) && outputThread == ThreadOf(events)
    }

    constructor ()
      ensures Valid() && events == []
      ensures outputCore == map[] && outputThread == map[]
    {
      outputCore := map[];
      outputThread := map[];
      events := [];
    }

    /** sched__sched_switch: file the switch under its cpu, then under the
        previous thread as 'e', then under the next thread as 'b'. */
    method SchedSwitch(cpu: int, secs: int, nsecs: int, prevComm: string, prevPid: int, nextComm: string, nextPid: int)
      requires Valid()
      modifies this
      ensures Valid()
      ensures events == old(events) + [SwitchOf(cpu, secs, nsecs, prevComm, prevPid, nextComm, nextPid)]
      ensures var data := SwitchOf(cpu, secs, nsecs, prevComm, prevPid, nextComm, nextPid);
        outputCore == Append(old(outputCore), cpu, data) &&
        outputThread == Append(Append(old(outputThread), prevPid, ThreadEvent(End, data)), nextPid, ThreadEvent(Begin, data))
    {
      var data := Switch(cpu, secs * 1000 * 1000 * 1000 + nsecs, prevPid, prevComm, nextPid, nextComm);
      outputCore := Append(outputCore, data.cpu, data);
      outputThread := Append(outputThread, data.prevPid, ThreadEvent(End, data));
      outputThread := Append(outputThread, data.nextPid, ThreadEvent(Begin, data));
      SwitchStep(events, data);
      events := events + [data];
    }
  }
}
