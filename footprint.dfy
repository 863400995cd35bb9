/**
 The three tables of the distinct-footprint analyser and the reduction that
 folds one call instance's footprint into the per-function aggregate
 (`count_tag`), plus the end-of-stream flush that reduces every live set.
 */
module Footprint {
  import opened Keys
  import opened Lines

  /** The aggregate kept per entry point (`SysStats`). */
  datatype SysStats = SysStats(distinct: nat, calls: nat)

  /**
   The analyser's maps: `tag_to_pc_`, `pc_to_stats_` and
   `tag_to_distinct_set_`.
   */
  datatype Tables = Tables(
    tagToPc: map<u64, u64>,
    pcToStats: map<u64, SysStats>,
    sets: map<u64, set<Addr>>)

  /** The set stored for `tag`, or the empty set that `operator[]` would create. */
  function SetOf(sets: map<u64, set<Addr>>, tag: u64): set<Addr>
  {
    if tag in sets then sets[tag] else {}
  }

  /** The entry point recorded for `tag`, or the 0 that `operator[]` would create. */
  function PcOf(tagToPc: map<u64, u64>, tag: u64): u64
  {
    if tag in tagToPc then tagToPc[tag] else 0
  }

  /** The stats stored for `pc`, or the `{0, 0}` entry created on first use. */
  function StatsOf(stats: map<u64, SysStats>, pc: u64): SysStats
  {
    if pc in stats then stats[pc] else SysStats(0, 0)
  }

  /** The sets after an access with traffic under `tag` touched `a`. */
  function Record(sets: map<u64, set<Addr>>, tag: u64, a: Addr): map<u64, set<Addr>>
  {
    sets[tag := SetOf(sets, tag) + {LineOf(a)}]
  }

  /** `count_tag(tag)`: fold the tag's set size into its pc's stats and forget the tag. */
  function CountTag(t: Tables, tag: u64): Tables
  {
    var pc := PcOf(t.tagToPc, tag);
    var st := StatsOf(t.pcToStats, pc);
    Tables(
      t.tagToPc - {tag},
      t.pcToStats[pc := SysStats(st.distinct + |SetOf(t.sets, tag)|, st.calls + 1)],
      t.sets - {tag})
  }

  /** The loop at the start of `exit`: reduce the first live tag until no set is left. */
  function Flush(t: Tables): (r: Tables)
    ensures r.sets == map[]
    ensures r.tagToPc == t.tagToPc - t.sets.Keys
    ensures Grows(t.pcToStats, r.pcToStats)
    decreases |t.sets|
  {
    if t.sets == map[] then t
    else
      var k := MinKey(t.sets.Keys);
      MapRemoveSize(t.sets, k);
      CountTagGrows(t, k);
      var r := Flush(CountTag(t, k));
      assert t.tagToPc - {k} - (t.sets.Keys - {k}) == t.tagToPc - t.sets.Keys;
      r
  }

  function DistinctField(s: SysStats): nat { s.distinct }
  function CallsField(s: SysStats): nat { s.calls }
  function SizeField(s: set<Addr>): nat { |s| }

  /** The distinct counts already folded into the aggregate. */
  function TotalDistinct(stats: map<u64, SysStats>): nat { SumOf(stats, DistinctField) }

  /** The reductions already folded into the aggregate. */
  function TotalCalls(stats: map<u64, SysStats>): nat { SumOf(stats, CallsField) }

  /** The addresses still held in live footprint sets. */
  function TotalLive(sets: map<u64, set<Addr>>): nat { SumOf(sets, SizeField) }

  /** No entry of `a` is lost or decreases in `b`. */
  predicate Grows(a: map<u64, SysStats>, b: map<u64, SysStats>)
  {
    forall p :: p in a ==>
      p in b && a[p].distinct <= b[p].distinct && a[p].calls <= b[p].calls
  }

  /** Every aggregate row stems from at least one reduction, so its average is defined. */
  predicate CallsPositive(stats: map<u64, SysStats>)
  {
    forall p :: p in stats ==> stats[p].calls >= 1
  }

  /**
   What `count_tag` does to each table: the tag leaves both tag maps, every
   other tag keeps its pc and its set, its
   pc (0 when none was recorded) gains one call and the size of its set
   (0 when it has none), and every other stats entry stays as it was.
   */
  lemma CountTagEffect(t: Tables, tag: u64)
    ensures var r := CountTag(t, tag);
      var pc := PcOf(t.tagToPc, tag);
      && tag !in r.tagToPc && tag !in r.sets
      && (forall x :: x != tag ==> (x in r.tagToPc <==> x in t.tagToPc))
      && (forall x :: x != tag && x in t.tagToPc ==> r.tagToPc[x] == t.tagToPc[x])
      && (forall x :: x != tag ==> (x in r.sets <==> x in t.sets))
      && (forall x :: x != tag && x in t.sets ==> r.sets[x] == t.sets[x])
      && r.pcToStats.Keys == t.pcToStats.Keys + {pc}
      && r.pcToStats[pc].calls == StatsOf(t.pcToStats, pc).calls + 1
      && r.pcToStats[pc].distinct == StatsOf(t.pcToStats, pc).distinct + |SetOf(t.sets, tag)|
      && (forall q :: q in t.pcToStats && q != pc ==> r.pcToStats[q] == t.pcToStats[q])
  {
  }

  /** Reduction only ever adds to the aggregate and keeps every row's call count positive. */
  lemma CountTagGrows(t: Tables, tag: u64)
    ensures Grows(t.pcToStats, CountTag(t, tag).pcToStats)
    ensures CallsPositive(t.pcToStats) ==> CallsPositive(CountTag(t, tag).pcToStats)
  {
  }

  /**
   Reduction moves a tag's addresses from the live sets into the aggregate
   without losing or inventing any, and adds exactly one call.
   */
  lemma CountTagConserves(t: Tables, tag: u64)
    ensures var r := CountTag(t, tag);
      && TotalDistinct(r.pcToStats) + TotalLive(r.sets) == TotalDistinct(t.pcToStats) + TotalLive(t.sets)
      && TotalCalls(r.pcToStats) == TotalCalls(t.pcToStats) + 1
  {
    var r := CountTag(t, tag);
    var pc := PcOf(t.tagToPc, tag);
    var st := StatsOf(t.pcToStats, pc);
    var v := SysStats(st.distinct + |SetOf(t.sets, tag)|, st.calls + 1);
    SumOfUpdate(t.pcToStats, DistinctField, pc, v);
    SumOfUpdate(t.pcToStats, CallsField, pc, v);
    if tag in t.sets {
      SumOfRemove(t.sets, SizeField, tag);
    } else {
      assert t.sets - {tag} == t.sets;
    }
  }

  /**
   The flush folds every live address and one call per live tag into the
   aggregate.
   */
  lemma {:induction false} FlushConserves(t: Tables)
    ensures TotalDistinct(Flush(t).pcToStats) == TotalDistinct(t.pcToStats) + TotalLive(t.sets)
    ensures TotalCalls(Flush(t).pcToStats) == TotalCalls(t.pcToStats) + |t.sets|
    decreases |t.sets|
  {
    if t.sets != map[] {
      var k := MinKey(t.sets.Keys);
      MapRemoveSize(t.sets, k);
      CountTagConserves(t, k);
      FlushConserves(CountTag(t, k));
    }
  }

  /** The flush keeps every aggregate row's call count positive. */
  lemma {:induction false} FlushCallsPositive(t: Tables)
    requires CallsPositive(t.pcToStats)
    ensures CallsPositive(Flush(t).pcToStats)
    decreases |t.sets|
  {
    if t.sets != map[] {
      var k := MinKey(t.sets.Keys);
      MapRemoveSize(t.sets, k);
      CountTagGrows(t, k);
      FlushCallsPositive(CountTag(t, k));
    }
  }

  /**
   With no live set, the tag-0 bucket included, the flush changes nothing,
   and flushing twice counts nothing again. Every call ending with `done` is
   not enough: accesses made while no call is active stay in tag 0's set.
   */
  lemma FlushIdempotent(t: Tables)
    ensures t.sets == map[] ==> Flush(t) == t
    ensures Flush(Flush(t)) == Flush(t)
  {
  }
}
