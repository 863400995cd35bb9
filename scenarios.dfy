/** Concrete traces and what the analyser makes of them. */
module Scenarios {
  import opened Keys
  import opened Lines
  import opened Options
  import opened Footprint
  import opened Events
  import opened Query

  function On(e: Entry): TraceItem { TraceItem(e, true) }

  /** CPU 0 starts tag 1 at 0x1000 and touches 0x40, 0x7F (the same line as 0x40) and 0x80. */
  lemma OneCallAccesses()
    ensures var s1 := Step(Initial(1), Fcall(0, Start, 1, 0x1000), true).value;
      var s2 := Step(s1, Access(0, true, 0x40), true).value;
      var s3 := Step(s2, Access(0, true, 0x7F), true).value;
      var s4 := Step(s3, Access(0, true, 0x80), true).value;
      s4 == Tracker([1], Tables(map[1 := 0x1000], map[], map[1 := {0x40, 0x80}]))
  {
    var s1 := Step(Initial(1), Fcall(0, Start, 1, 0x1000), true).value;
    assert s1 == Tracker([1], Tables(map[1 := 0x1000], map[], map[]));
    var s2 := Step(s1, Access(0, true, 0x40), true).value;
    assert {} + {LineOf(0x40)} == {0x40};
    assert s2.tables.sets == map[1 := {0x40}];
    var s3 := Step(s2, Access(0, true, 0x7F), true).value;
    assert {0x40} + {LineOf(0x7F)} == {0x40};
    assert s3 == s2;
    var s4 := Step(s3, Access(0, true, 0x80), true).value;
    assert {0x40} + {LineOf(0x80)} == {0x40, 0x80};
  }

  /** `done` folds the two lines into the entry point's stats and clears the slot. */
  lemma OneCallDone()
    ensures Step(Tracker([1], Tables(map[1 := 0x1000], map[], map[1 := {0x40, 0x80}])), Fcall(0, Done, 0, 0), true)
      == Some(Tracker([0], Tables(map[], map[0x1000 := SysStats(2, 1)], map[])))
  {
    var t := Tables(map[1 := 0x1000], map[], map[1 := {0x40, 0x80}]);
    assert |{0x40 as Addr, 0x80}| == 2;
    assert PcOf(t.tagToPc, 1) == 0x1000 && StatsOf(t.pcToStats, 0x1000) == SysStats(0, 0);
    assert map[1 := 0x1000] - {1} == map[];
    assert map[1 := {0x40 as Addr, 0x80}] - {1} == map[];
    assert CountTag(t, 1) == Tables(map[], map[0x1000 := SysStats(2, 1)], map[]);
    assert [1][0 := 0] == [0];
  }

  /**
   The whole trace: start, three accesses covering two lines, done. The
   entry point 0x1000 ends with one call and two distinct lines.
   */
  lemma OneCallTwoLines()
    ensures Run(Initial(1), [
        On(Fcall(0, Start, 1, 0x1000)),
        On(Access(0, true, 0x40)),
        On(Access(0, true, 0x7F)),
        On(Access(0, true, 0x80)),
        On(Fcall(0, Done, 0, 0))])
      == Some(Tracker([0], Tables(map[], map[0x1000 := SysStats(2, 1)], map[])))
  {
    OneCallAccesses();
    OneCallDone();
    var s0 := Initial(1);
    var s1 := Step(s0, Fcall(0, Start, 1, 0x1000), true).value;
    var s2 := Step(s1, Access(0, true, 0x40), true).value;
    var s3 := Step(s2, Access(0, true, 0x7F), true).value;
    var s4 := Step(s3, Access(0, true, 0x80), true).value;
    RunFive([On(Fcall(0, Start, 1, 0x1000)), On(Access(0, true, 0x40)), On(Access(0, true, 0x7F)),
        On(Access(0, true, 0x80)), On(Fcall(0, Done, 0, 0))],
      s0, s1, s2, s3, s4, Tracker([0], Tables(map[], map[0x1000 := SysStats(2, 1)], map[])));
  }

  /**
   An access while no call is active lands in the set of tag 0, and the
   end-of-stream flush files it under entry point 0, "(unknown)".
   */
  lemma UnknownBucket()
    ensures var s1 := Step(Initial(1), Access(0, true, 0x1234), true).value;
      && s1.tables.sets == map[0 := {0x1200}]
      && Flush(s1.tables) == Tables(map[], map[0 := SysStats(1, 1)], map[])
  {
    var s1 := Step(Initial(1), Access(0, true, 0x1234), true).value;
    assert {} + {LineOf(0x1234)} == {0x1200};
    assert s1.tables.sets == map[0 := {0x1200}];
    var t1 := CountTag(s1.tables, 0);
    assert |{0x1200 as Addr}| == 1;
    assert map[0 := {0x1200 as Addr}] - {0} == map[];
    assert t1 == Tables(map[], map[0 := SysStats(1, 1)], map[]);
    assert MinKey({0}) == 0;
  }

  /** Two configured functions with 10 and 15 distinct lines sum to 25. */
  lemma TwoFunctionsSum()
    ensures var stats := map[0x100 := SysStats(10, 2), 0x200 := SysStats(15, 3)];
      var lookup := (pc: u64) => if pc == 0x100 then Some("f") else if pc == 0x200 then Some("g") else None;
      SumDistinct({"f", "g"}, stats, lookup) == 25
  {
    var stats := map[0x100 := SysStats(10, 2), 0x200 := SysStats(15, 3)];
    var lookup := (pc: u64) => if pc == 0x100 then Some("f") else if pc == 0x200 then Some("g") else None;
    assert MatchingPcs(stats, lookup, "f") == {0x100};
    assert MatchingPcs(stats, lookup, "g") == {0x200};
    assert MinKey({0x100}) == 0x100 && MinKey({0x200}) == 0x200;
    SumDistinctRemove({"f", "g"}, "f", stats, lookup);
    assert {"f", "g"} - {"f"} == {"g"};
    SumDistinctRemove({"g"}, "g", stats, lookup);
    assert {"g"} - {"g"} == {};
  }
  /** One call of entry point 0x1000 on CPU 0, under `tag`, touching the lines 0x40, 0x80 and 0xC0. */
  function ThreeLineCall(tag: u64): seq<TraceItem>
  {
    [On(Fcall(0, Start, tag, 0x1000)), On(Access(0, true, 0x40)), On(Access(0, true, 0x85)),
     On(Access(0, true, 0xC0)), On(Fcall(0, Done, 0, 0))]
  }

  /** Such a call only names CPU 0. */
  lemma ThreeLineCallInRange(tag: u64)
    ensures TraceInRange(ThreeLineCall(tag), 1)
  {
  }

  /** The tracker during such a call, with `lines` the lines touched so far. */
  function InCall(stats: map<u64, SysStats>, tag: u64, lines: set<Addr>): Tracker
  {
    Tracker([tag], Tables(map[tag := 0x1000], stats, map[tag := lines]))
  }

  /** The start and the three accesses of such a call, one entry at a time. */
  lemma ThreeLineAccesses(stats: map<u64, SysStats>, tag: u64)
    ensures Step(Tracker([0], Tables(map[], stats, map[])), Fcall(0, Start, tag, 0x1000), true)
      == Some(Tracker([tag], Tables(map[tag := 0x1000], stats, map[])))
    ensures Step(Tracker([tag], Tables(map[tag := 0x1000], stats, map[])), Access(0, true, 0x40), true)
      == Some(InCall(stats, tag, {0x40}))
    ensures Step(InCall(stats, tag, {0x40}), Access(0, true, 0x85), true) == Some(InCall(stats, tag, {0x40, 0x80}))
    ensures Step(InCall(stats, tag, {0x40, 0x80}), Access(0, true, 0xC0), true)
      == Some(InCall(stats, tag, {0x40, 0x80, 0xC0}))
  {
    assert [0 as u64][0 := tag] == [tag];
    assert map[][tag := 0x1000 as u64] == map[tag := 0x1000];
    assert {} + {LineOf(0x40)} == {0x40};
    assert map[][tag := {0x40 as Addr}] == map[tag := {0x40}];
    assert {0x40} + {LineOf(0x85)} == {0x40, 0x80};
    assert map[tag := {0x40 as Addr}][tag := {0x40, 0x80}] == map[tag := {0x40, 0x80}];
    assert {0x40, 0x80} + {LineOf(0xC0)} == {0x40, 0x80, 0xC0};
    assert map[tag := {0x40 as Addr, 0x80}][tag := {0x40, 0x80, 0xC0}] == map[tag := {0x40, 0x80, 0xC0}];
  }

  /** The `done` of such a call folds its three lines into the stats of 0x1000. */
  lemma ThreeLineDone(stats: map<u64, SysStats>, tag: u64)
    ensures var st := StatsOf(stats, 0x1000);
      Step(InCall(stats, tag, {0x40, 0x80, 0xC0}), Fcall(0, Done, 0, 0), true)
      == Some(Tracker([0], Tables(map[], stats[0x1000 := SysStats(st.distinct + 3, st.calls + 1)], map[])))
  {
    assert |{0x40 as Addr, 0x80, 0xC0}| == 3;
    assert map[tag := 0x1000 as u64] - {tag} == map[];
    assert map[tag := {0x40 as Addr, 0x80, 0xC0}] - {tag} == map[];
    assert [tag][0 := 0] == [0];
  }

  /** Such a call adds one call and three distinct lines to whatever 0x1000 already had. */
  lemma ThreeLineCallEffect(stats: map<u64, SysStats>, tag: u64)
    ensures var st := StatsOf(stats, 0x1000);
      Run(Tracker([0], Tables(map[], stats, map[])), ThreeLineCall(tag))
      == Some(Tracker([0], Tables(map[], stats[0x1000 := SysStats(st.distinct + 3, st.calls + 1)], map[])))
  {
    ThreeLineAccesses(stats, tag);
    ThreeLineDone(stats, tag);
    ThreeLineCallInRange(tag);
    var st := StatsOf(stats, 0x1000);
    RunFive(ThreeLineCall(tag), Tracker([0], Tables(map[], stats, map[])),
      Tracker([tag], Tables(map[tag := 0x1000], stats, map[])),
      InCall(stats, tag, {0x40}), InCall(stats, tag, {0x40, 0x80}), InCall(stats, tag, {0x40, 0x80, 0xC0}),
      Tracker([0], Tables(map[], stats[0x1000 := SysStats(st.distinct + 3, st.calls + 1)], map[])));
  }

  /**
   Two back-to-back calls of one entry point, under any two tags, each
   touching three lines, give it two calls and six distinct lines: the footprints are counted per
   call, so the same lines touched again count again.
   */
  lemma TwoCallsOnePc(tag1: u64, tag2: u64)
    ensures Run(Initial(1), ThreeLineCall(tag1) + ThreeLineCall(tag2))
      == Some(Tracker([0], Tables(map[], map[0x1000 := SysStats(6, 2)], map[])))
  {
    var c1, c2 := ThreeLineCall(tag1), ThreeLineCall(tag2);
    ThreeLineCallInRange(tag1);
    ThreeLineCallInRange(tag2);
    var s0 := Tracker([0], Tables(map[], map[], map[]));
    assert Initial(1) == s0;
    ThreeLineCallEffect(map[], tag1);
    var stats1 := map[0x1000 := SysStats(3, 1)];
    assert StatsOf(map[], 0x1000) == SysStats(0, 0);
    assert map[][0x1000 := SysStats(3, 1)] == stats1;
    assert Run(s0, c1) == Some(Tracker([0], Tables(map[], stats1, map[])));
    ThreeLineCallEffect(stats1, tag2);
    assert stats1[0x1000 := SysStats(6, 2)] == map[0x1000 := SysStats(6, 2)];
    RunAppend(s0, c1, c2);
  }

  /**
   Pausing when no call is active leaves the slot at 0, so later accesses
   keep landing in tag 0's set: the bucket is not preserved across a pause.
   */
  lemma PausedBucketGrows()
    ensures var s1 := Step(Initial(1), Access(0, true, 0x40), true).value;
      var s2 := Step(s1, Fcall(0, Pause, 0, 0), true).value;
      var s3 := Step(s2, Access(0, true, 0x80), true).value;
      s3.tables.sets == map[0 := {0x40, 0x80}]
  {
    assert {} + {LineOf(0x40)} == {0x40};
    assert {0x40} + {LineOf(0x80)} == {0x40, 0x80};
    assert [0 as u64][0 := 0] == [0];
  }

  /**
   Every call has ended with `done`, yet an access after it is left in tag
   0's set, and the end-of-stream flush still files it under pc 0.
   */
  lemma DoneLeavesBucket()
    ensures var s1 := Step(Initial(1), Fcall(0, Start, 1, 0x1000), true).value;
      var s2 := Step(s1, Fcall(0, Done, 0, 0), true).value;
      var s3 := Step(s2, Access(0, true, 0x40), true).value;
      && s3.tables.sets == map[0 := {0x40}]
      && Flush(s3.tables) != s3.tables
      && Flush(s3.tables).pcToStats[0] == SysStats(1, 1)
  {
    var s1 := Step(Initial(1), Fcall(0, Start, 1, 0x1000), true).value;
    assert s1 == Tracker([1], Tables(map[1 := 0x1000], map[], map[]));
    var s2 := Step(s1, Fcall(0, Done, 0, 0), true).value;
    assert map[1 := 0x1000 as u64] - {1} == map[];
    assert s2 == Tracker([0], Tables(map[], map[0x1000 := SysStats(0, 1)], map[]));
    var s3 := Step(s2, Access(0, true, 0x40), true).value;
    assert {} + {LineOf(0x40)} == {0x40};
    assert s3.tables.sets == map[0 := {0x40}];
    var t := CountTag(s3.tables, 0);
    assert |{0x40 as Addr}| == 1;
    assert map[0 := {0x40 as Addr}] - {0} == map[];
    assert t.sets == map[] && t.pcToStats[0] == SysStats(1, 1);
    assert MinKey({0}) == 0;
  }
}
