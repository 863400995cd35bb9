/**
 The two trace handlers of the distinct-footprint analyser as classes whose
 methods update their fields in place, each proved against the functions of
 Footprint, Events and Query.
 */
module Dissys {
  import opened Keys
  import opened Lines
  import opened Options
  import opened Footprint
  import opened Events
  import opened Query

  /** Tracks footprints per call instance and reduces them into per-entry-point stats. */
  class DistinctSyscalls {
    var tagToPc: map<u64, u64>
    var pcToStats: map<u64, SysStats>
    var tagToDistinctSet: map<u64, set<Addr>>
    /** `current_`: the tag running on each CPU, 0 when none; its length is `MAX_CPUS`. */
    const current: array<u64>

    function View(): Tables
      reads this
    {
      Tables(tagToPc, pcToStats, tagToDistinctSet)
    }

    function Abs(): Tracker
      reads this, current
    {
      Tracker(current[..], View())
    }

    /** Every aggregate row was created by a reduction, so its call count is positive. */
    predicate Valid()
      reads this
    {
      CallsPositive(pcToStats)
    }

    constructor (maxCpus: nat)
      ensures Valid() && fresh(current)
      ensures Abs() == Initial(maxCpus)
    {
      current := new u64[maxCpus](_ => 0);
      tagToPc, pcToStats, tagToDistinctSet := map[], map[], map[];
      new;
      assert current[..] == Initial(maxCpus).current;
    }

    /** `handle(entry)`: apply one trace entry; `ok` is false where the source dies. */
    method Handle(e: Entry, enabled: bool) returns (ok: bool)
      requires Valid()
      requires SlotInRange(e, enabled, current.Length)
      modifies this, current
      ensures Valid()
      ensures ok <==> Step(old(Abs()), e, enabled).Some?
      ensures Abs() == if ok then Step(old(Abs()), e, enabled).value else old(Abs())
    {
      ok := true;
      if !enabled {
        return;
      }
      match e {
        case Access(cpu, traffic, a) =>
          if traffic {
            var tag := current[cpu];
            var s := if tag in tagToDistinctSet then tagToDistinctSet[tag] else {};
            tagToDistinctSet := tagToDistinctSet[tag := s + {LineOf(a)}];
          }
        case Fcall(cpu, state, tag, pc) =>
          match state {
            case Resume =>
              current[cpu] := tag;
            case Start =>
              current[cpu] := tag;
              tagToPc := tagToPc[current[cpu] := pc];
            case Pause =>
              current[cpu] := 0;
            case Done =>
              CountTag(current[cpu]);
              current[cpu] := 0;
            case Unknown(_) =>
              ok := false;
          }
        case Other(_) =>
      }
    }

    /** `count_tag(tag)`: reduce one call instance into the aggregate. */
    method CountTag(tag: u64)
      requires Valid()
      modifies this
      ensures Valid()
      ensures View() == Footprint.CountTag(old(View()), tag)
    {
      var sets, t2p, stats := tagToDistinctSet, tagToPc, pcToStats;
      var n := if tag in sets then |sets[tag]| else 0;
      sets := sets - {tag};
      var pc := if tag in t2p then t2p[tag] else 0;
      t2p := t2p - {tag};
      if pc !in stats {
        stats := stats[pc := SysStats(0, 0)];
      }
      var st := stats[pc];
      assert st == StatsOf(pcToStats, pc);
      stats := stats[pc := SysStats(st.distinct + n, st.calls + 1)];
      assert stats == pcToStats[pc := SysStats(st.distinct + n, st.calls + 1)];
      CountTagGrows(View(), tag);
      tagToDistinctSet, tagToPc, pcToStats := sets, t2p, stats;
    }

    /**
     `exit`: reduce every live set, first tag first, then list the aggregate
     in ascending entry-point order.
     */
    method Exit(lookup: Lookup) returns (rows: seq<Row>)
      requires Valid()
      modifies this
      ensures Valid()
      ensures View() == Flush(old(View()))
      ensures |rows| == |pcToStats|
      ensures forall i :: 0 <= i < |rows| ==>
        var pc := SortedKeys(pcToStats.Keys)[i]; rows[i] == RowOf(pc, pcToStats[pc], lookup)
      ensures forall i :: 0 <= i < |rows| ==> rows[i].calls >= 1
    {
      while tagToDistinctSet != map[]
        invariant Valid()
        invariant Flush(View()) == Flush(old(View()))
        decreases |tagToDistinctSet|
      {
        var tag := MinKey(tagToDistinctSet.Keys);
        MapRemoveSize(tagToDistinctSet, tag);
        CountTag(tag);
      }
      rows := Report(lookup);
    }

    /** The report loop of `exit`: one row per aggregate entry, in ascending pc order. */
    method Report(lookup: Lookup) returns (rows: seq<Row>)
      requires Valid()
      ensures |rows| == |pcToStats|
      ensures forall i :: 0 <= i < |rows| ==>
        var pc := SortedKeys(pcToStats.Keys)[i]; rows[i] == RowOf(pc, pcToStats[pc], lookup)
      ensures forall i :: 0 <= i < |rows| ==> rows[i].calls >= 1
    {
      var pcs := SortedKeys(pcToStats.Keys);
      SortedKeysSpec(pcToStats.Keys);
      rows := [];
      var i := 0;
      while i < |pcs|
        invariant 0 <= i <= |pcs|
        invariant |rows| == i
        invariant forall j :: 0 <= j < i ==> rows[j] == RowOf(pcs[j], pcToStats[pcs[j]], lookup)
      {
        var pc := pcs[i];
        rows := rows + [RowOf(pc, pcToStats[pc], lookup)];
        i := i + 1;
      }
      forall j | 0 <= j < |rows|
        ensures rows[j].calls >= 1
      {
        assert rows[j].calls == pcToStats[pcs[j]].calls;
      }
    }

    /** `distinct(name)`: the distinct count of the first entry point resolving to `name`, or -1. */
    method Distinct(name: string, lookup: Lookup) returns (r: int)
      ensures r == DistinctOf(pcToStats, lookup, name)
    {
      var pcs := SortedKeys(pcToStats.Keys);
      var i := 0;
      while i < |pcs|
        invariant 0 <= i <= |pcs|
        invariant forall j :: 0 <= j < i ==> lookup(pcs[j]) != Some(name)
      {
        var pc := pcs[i];
        if lookup(pc) == Some(name) {
          DistinctOfFirstMatch(pcToStats, lookup, name, i);
          return pcToStats[pc].distinct;
        }
        i := i + 1;
      }
      DistinctOfNoMatch(pcToStats, lookup, name);
      return -1;
    }
  }

  /** The outcome of `DistinctOps::exit`. */
  datatype OpsSummary =
    | Unconfigured                          // the application is not in the table: report and return
    | MissingFunction(name: string)         // a configured function has no stats: die
    | Summary(ops: nat, distincts: nat)     // the operation count and the summed distinct count

  /** The functions of interest for each application, as configured in the constructor. */
  function AppConfig(): map<string, set<string>>
  {
    map["procy" := {"stub_clone", "sys_exit_group", "sys_wait4"}]
  }

  /** Sums the distinct counts of an application's functions of interest. */
  class DistinctOps {
    const ds: DistinctSyscalls
    var appnameToSyscalls: map<string, set<string>>

    constructor (ds: DistinctSyscalls)
      ensures this.ds == ds
      ensures appnameToSyscalls == AppConfig()
    {
      this.ds := ds;
      appnameToSyscalls := AppConfig();
    }

    /**
     `exit` for the application summary `(appName, appOps)`: no summary for an
     application absent from the table, death when a configured function has
     no stats, and otherwise the sum of `distinct(f)` over its functions.
     */
    method Exit(appName: string, appOps: nat, lookup: Lookup) returns (r: OpsSummary)
      ensures appName !in appnameToSyscalls <==> r.Unconfigured?
      ensures appName in appnameToSyscalls ==>
        var names := appnameToSyscalls[appName];
        && (r.MissingFunction? <==> exists f :: f in names && DistinctOf(ds.pcToStats, lookup, f) < 0)
        && (r.MissingFunction? ==> r.name in names && DistinctOf(ds.pcToStats, lookup, r.name) < 0)
        && (r.Summary? ==> r.ops == appOps && r.distincts == SumDistinct(names, ds.pcToStats, lookup))
    {
      if appName !in appnameToSyscalls {
        return Unconfigured;
      }
      var missing, n := SumConfigured(appnameToSyscalls[appName], lookup);
      if missing.Some? {
        return MissingFunction(missing.value);
      }
      return Summary(appOps, n);
    }

    /**
     The loop of `exit`: `distinct(f)` for each configured name `f`, stopping
     at the first name that has no stats.
     */
    method SumConfigured(names: set<string>, lookup: Lookup) returns (missing: Option<string>, n: nat)
      ensures missing.None? <==> forall f :: f in names ==> DistinctOf(ds.pcToStats, lookup, f) >= 0
      ensures missing.Some? ==> missing.value in names && DistinctOf(ds.pcToStats, lookup, missing.value) < 0
      ensures missing.None? ==> n == SumDistinct(names, ds.pcToStats, lookup)
    {
      var remaining := names;
      n := 0;
      while remaining != {}
        invariant remaining <= names
        invariant forall f :: f in names - remaining ==> DistinctOf(ds.pcToStats, lookup, f) >= 0
        invariant n == SumDistinct(names - remaining, ds.pcToStats, lookup)
        decreases |remaining|
      {
        var f :| f in remaining;
        var d := ds.Distinct(f, lookup);
        if d < 0 {
          return Some(f), n;
        }
        var done := names - remaining;
        SumDistinctRemove(done + {f}, f, ds.pcToStats, lookup);
        assert done + {f} - {f} == done;
        assert names - (remaining - {f}) == done + {f};
        n := n + d;
        remaining := remaining - {f};
      }
      assert names - remaining == names;
      return None, n;
    }
  }
}
