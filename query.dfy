/**
 Read-only queries over the aggregate table: the report rows of
 `DistinctSyscalls::exit`, the lookup `distinct(name)` and the sum that
 `DistinctOps::exit` forms over an application's functions.
 */
module Query {
  import opened Keys
  import opened Footprint
  import opened Options

  /**
   The symbol resolver `addr2line->lookup`, reduced to what the analyser
   uses: the function name of an entry point, or `None` when resolution fails.
   */
  type Lookup = u64 -> Option<string>

  /** How a report row names its entry point. */
  datatype Label = UnknownFunction | Function(name: string) | Address(pc: u64)

  /** One report row: the label, the calls and the distinct count (the average is their quotient). */
  datatype Row = Row(func: Label, calls: nat, distinct: nat)

  /** pc 0 is "(unknown)"; otherwise the resolved name, or the raw address when resolution fails. */
  function LabelOf(pc: u64, lookup: Lookup): Label
  {
    if pc == 0 then UnknownFunction
    else match lookup(pc)
      case Some(name) => Function(name)
      case None => Address(pc)
  }

  function RowOf(pc: u64, st: SysStats, lookup: Lookup): Row
  {
    Row(LabelOf(pc, lookup), st.calls, st.distinct)
  }

  /** The entry points of the aggregate whose resolved name is `name`. */
  function MatchingPcs(stats: map<u64, SysStats>, lookup: Lookup, name: string): set<u64>
  {
    set pc | pc in stats.Keys && lookup(pc) == Some(name)
  }

  /**
   What `distinct(name)` answers: the distinct count of the first (smallest)
   entry point whose resolved name is `name`, or -1 when there is none.
   */
  function DistinctOf(stats: map<u64, SysStats>, lookup: Lookup, name: string): int
  {
    var ms := MatchingPcs(stats, lookup, name);
    if ms == {} then -1 else stats[MinKey(ms)].distinct
  }

  /** -1 exactly when no entry point resolves to `name`; otherwise the count of the smallest one that does. */
  lemma DistinctOfSpec(stats: map<u64, SysStats>, lookup: Lookup, name: string)
    ensures DistinctOf(stats, lookup, name) == -1 <==> forall pc :: pc in stats ==> lookup(pc) != Some(name)
    ensures DistinctOf(stats, lookup, name) != -1 ==> exists pc ::
      && pc in stats && lookup(pc) == Some(name) && DistinctOf(stats, lookup, name) == stats[pc].distinct
      && forall q :: q in stats && q < pc ==> lookup(q) != Some(name)
  {
    var ms := MatchingPcs(stats, lookup, name);
    assert forall pc :: pc in stats && lookup(pc) == Some(name) ==> pc in ms;
    if ms != {} {
      var pc := MinKey(ms);
      assert pc in stats && lookup(pc) == Some(name);
    }
  }

  /** Walking the entry points in ascending order, the first match is the answer. */
  lemma DistinctOfFirstMatch(stats: map<u64, SysStats>, lookup: Lookup, name: string, i: nat)
    requires i < |SortedKeys(stats.Keys)|
    requires lookup(SortedKeys(stats.Keys)[i]) == Some(name)
    requires forall j :: 0 <= j < i ==> lookup(SortedKeys(stats.Keys)[j]) != Some(name)
    ensures DistinctOf(stats, lookup, name) == stats[SortedKeys(stats.Keys)[i]].distinct
  {
    var pcs := SortedKeys(stats.Keys);
    SortedKeysSpec(stats.Keys);
    var ms := MatchingPcs(stats, lookup, name);
    var pc := pcs[i];
    assert pc in ms;
    forall q | q in ms
      ensures pc <= q
    {
      var k :| 0 <= k < |pcs| && pcs[k] == q;
      assert lookup(pcs[k]) == Some(name);
      assert k >= i;
      assert k == i || pcs[i] < pcs[k];
    }
    var m := MinKey(ms);
    assert m <= pc && pc <= m;
  }

  /** Walking all entry points without a match answers -1. */
  lemma DistinctOfNoMatch(stats: map<u64, SysStats>, lookup: Lookup, name: string)
    requires forall j :: 0 <= j < |SortedKeys(stats.Keys)| ==> lookup(SortedKeys(stats.Keys)[j]) != Some(name)
    ensures DistinctOf(stats, lookup, name) == -1
  {
    var pcs := SortedKeys(stats.Keys);
    SortedKeysSpec(stats.Keys);
    forall pc | pc in stats
      ensures lookup(pc) != Some(name)
    {
      var k :| 0 <= k < |pcs| && pcs[k] == pc;
    }
  }

  /** The sum of `distinct(f)` over the function names `names`, taken in any order. */
  ghost function SumDistinct(names: set<string>, stats: map<u64, SysStats>, lookup: Lookup): int
  {
    if names == {} then 0
    else
      var f :| f in names;
      DistinctOf(stats, lookup, f) + SumDistinct(names - {f}, stats, lookup)
  }

  /** Any name can be taken out of the sum first, whatever order the set is walked in. */
  lemma {:induction false} SumDistinctRemove(names: set<string>, f: string, stats: map<u64, SysStats>, lookup: Lookup)
    requires f in names
    ensures SumDistinct(names, stats, lookup) == DistinctOf(stats, lookup, f) + SumDistinct(names - {f}, stats, lookup)
    decreases |names|
  {
    var g :| g in names && SumDistinct(names, stats, lookup) == DistinctOf(stats, lookup, g) + SumDistinct(names - {g}, stats, lookup);
    if g != f {
      SumDistinctRemove(names - {g}, f, stats, lookup);
      SumDistinctRemove(names - {f}, g, stats, lookup);
      assert names - {g} - {f} == names - {f} - {g};
    }
  }
}
