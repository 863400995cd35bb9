/**
 Trace events and the effect of `DistinctSyscalls::handle` on the whole
 tracker state: the per-CPU current-tag slots together with the three tables.
 */
module Events {
  import opened Keys
  import opened Lines
  import opened Footprint
  import opened Options

  /** The `state` of a function-call entry; any value other than the four named ones is `Unknown`. */
  datatype CallState = Resume | Start | Pause | Done | Unknown(code: int)

  /** The parts of a trace entry the analyser reads. */
  datatype Entry =
    | Access(cpu: nat, traffic: bool, guestAddr: Addr)
    | Fcall(cpu: nat, state: CallState, tag: u64, pc: u64)
    | Other(cpu: nat)

  /** The tracker: `current_` (one slot per CPU, 0 = no active call) and the tables. */
  datatype Tracker = Tracker(current: seq<u64>, tables: Tables)

  /** The tracker as constructed: every slot 0, every map empty. */
  function Initial(cpus: nat): (s: Tracker)
    ensures |s.current| == cpus && forall c :: 0 <= c < cpus ==> s.current[c] == 0
    ensures s.tables == Tables(map[], map[], map[])
  {
    Tracker(seq(cpus, _ => 0), Tables(map[], map[], map[]))
  }

  /**
   The entries that read or write a CPU slot: with tracing enabled, an access
   with traffic and a call in one of the four known states.
   */
  predicate IndexesSlot(e: Entry, enabled: bool)
  {
    enabled && ((e.Access? && e.traffic) || (e.Fcall? && !e.state.Unknown?))
  }

  /** An entry that indexes a CPU slot names a CPU that has one. */
  predicate SlotInRange(e: Entry, enabled: bool, cpus: nat)
  {
    IndexesSlot(e, enabled) ==> e.cpu < cpus
  }

  /**
   `handle(entry)` with the enable flag `enabled`: `None` is the fatal
   `die` on an unrecognised call state.
   */
  function Step(s: Tracker, e: Entry, enabled: bool): (r: Option<Tracker>)
    requires SlotInRange(e, enabled, |s.current|)
    ensures r.None? <==> enabled && e.Fcall? && e.state.Unknown?
    ensures r.Some? ==> |r.value.current| == |s.current|
  {
    if !enabled then Some(s)
    else
      match e
      case Access(cpu, traffic, a) =>
        if traffic then
          Some(s.(tables := s.tables.(sets := Record(s.tables.sets, s.current[cpu], a))))
        else Some(s)
      case Fcall(cpu, state, tag, pc) =>
        (match state
        case Resume => Some(s.(current := s.current[cpu := tag]))
        case Start => Some(Tracker(s.current[cpu := tag], s.tables.(tagToPc := s.tables.tagToPc[tag := pc])))
        case Pause => Some(s.(current := s.current[cpu := 0]))
        case Done => Some(Tracker(s.current[cpu := 0], CountTag(s.tables, s.current[cpu])))
        case Unknown(_) => None)
      case Other(_) => Some(s)
  }

  /** With tracing disabled no event changes anything, not even a call event. */
  lemma DisabledIsNoOp(s: Tracker, e: Entry)
    ensures Step(s, e, false) == Some(s)
  {
  }

  /**
   An access with traffic adds exactly its cache line to the set of the
   CPU's current tag (creating it if absent) and touches nothing else; an
   access without traffic changes nothing.
   */
  lemma AccessEffect(s: Tracker, cpu: nat, traffic: bool, a: Addr)
    requires cpu < |s.current|
    ensures var r := Step(s, Access(cpu, traffic, a), true).value;
      var tag := s.current[cpu];
      && r.current == s.current
      && r.tables.tagToPc == s.tables.tagToPc
      && r.tables.pcToStats == s.tables.pcToStats
      && (traffic ==> tag in r.tables.sets && r.tables.sets[tag] == SetOf(s.tables.sets, tag) + {LineOf(a)})
      && (traffic ==> r.tables.sets.Keys == s.tables.sets.Keys + {tag})
      && (!traffic ==> r == s)
      && (forall t :: t in s.tables.sets && t != tag ==> r.tables.sets[t] == s.tables.sets[t])
  {
  }

  /** Two accesses on one CPU within one cache line leave the same footprint as the first alone. */
  lemma SameLineCollapses(s: Tracker, cpu: nat, a: Addr, b: Addr)
    requires cpu < |s.current|
    requires a / 64 == b / 64
    ensures var s1 := Step(s, Access(cpu, true, a), true).value;
      Step(s1, Access(cpu, true, b), true) == Some(s1)
  {
    SameLine(a, b);
    var s1 := Step(s, Access(cpu, true, a), true).value;
    var tag := s.current[cpu];
    assert SetOf(s1.tables.sets, tag) + {LineOf(b)} == SetOf(s1.tables.sets, tag);
    assert Record(s1.tables.sets, tag, b) == s1.tables.sets;
  }

  /**
   The four call states: `start` sets the slot and the tag's entry point,
   `resume` only the slot, `pause` clears the slot, `done` reduces the
   slot's tag and then clears the slot. None of them adds to a footprint set.
   */
  lemma CallEffect(s: Tracker, cpu: nat, state: CallState, tag: u64, pc: u64)
    requires cpu < |s.current|
    requires !state.Unknown?
    ensures var r := Step(s, Fcall(cpu, state, tag, pc), true).value;
      && (state.Start? ==> r == Tracker(s.current[cpu := tag], s.tables.(tagToPc := s.tables.tagToPc[tag := pc])))
      && (state.Resume? ==> r == s.(current := s.current[cpu := tag]))
      && (state.Pause? ==> r == s.(current := s.current[cpu := 0]))
      && (state.Done? ==> r == Tracker(s.current[cpu := 0], CountTag(s.tables, s.current[cpu])))
      && (!state.Done? ==> r.tables.sets == s.tables.sets && r.tables.pcToStats == s.tables.pcToStats)
  {
  }

  /**
   Per-CPU isolation: an event changes no other CPU's slot, and it changes
   no footprint set other than the one of its own CPU's current tag.
   */
  lemma StepIsolation(s: Tracker, e: Entry, enabled: bool)
    requires SlotInRange(e, enabled, |s.current|)
    requires Step(s, e, enabled).Some?
    ensures var r := Step(s, e, enabled).value;
      && (forall c :: 0 <= c < |s.current| && c != e.cpu ==> r.current[c] == s.current[c])
      && (forall t :: (!IndexesSlot(e, enabled) || t != s.current[e.cpu]) ==>
            (t in r.tables.sets <==> t in s.tables.sets) && SetOf(r.tables.sets, t) == SetOf(s.tables.sets, t))
  {
  }

  /** Every event keeps the aggregate growing and every row's call count positive. */
  lemma StepGrows(s: Tracker, e: Entry, enabled: bool)
    requires SlotInRange(e, enabled, |s.current|)
    requires Step(s, e, enabled).Some?
    ensures Grows(s.tables.pcToStats, Step(s, e, enabled).value.tables.pcToStats)
    ensures CallsPositive(s.tables.pcToStats) ==> CallsPositive(Step(s, e, enabled).value.tables.pcToStats)
  {
    if enabled && e.Fcall? && e.state.Done? {
      CountTagGrows(s.tables, s.current[e.cpu]);
    }
  }

  /** One trace entry together with the value the enable flag has when it is handled. */
  datatype TraceItem = TraceItem(entry: Entry, enabled: bool)

  predicate TraceInRange(trace: seq<TraceItem>, cpus: nat)
  {
    forall i :: 0 <= i < |trace| ==> SlotInRange(trace[i].entry, trace[i].enabled, cpus)
  }

  /** `handle` applied to each entry in arrival order; `None` once an entry is fatal. */
  function Run(s: Tracker, trace: seq<TraceItem>): (r: Option<Tracker>)
    requires TraceInRange(trace, |s.current|)
    ensures r.Some? ==> |r.value.current| == |s.current|
    decreases |trace|
  {
    if trace == [] then Some(s)
    else
      match Step(s, trace[0].entry, trace[0].enabled)
      case None => None
      case Some(s1) => Run(s1, trace[1..])
  }

  /** Running a trace is handling its first entry and then running the rest. */
  lemma RunCons(s: Tracker, x: TraceItem, rest: seq<TraceItem>)
    requires SlotInRange(x.entry, x.enabled, |s.current|)
    requires Step(s, x.entry, x.enabled).Some?
    requires TraceInRange(rest, |s.current|)
    ensures TraceInRange([x] + rest, |s.current|)
    ensures Run(s, [x] + rest) == Run(Step(s, x.entry, x.enabled).value, rest)
  {
    assert ([x] + rest)[1..] == rest;
  }

  /** A five-entry trace whose entries lead from `s0` through `s1` … `s4` to `s5` ends in `s5`. */
  lemma RunFive(c: seq<TraceItem>, s0: Tracker, s1: Tracker, s2: Tracker, s3: Tracker, s4: Tracker, s5: Tracker)
    requires |c| == 5 && TraceInRange(c, |s0.current|)
    requires |s1.current| == |s2.current| == |s3.current| == |s4.current| == |s0.current|
    requires Step(s0, c[0].entry, c[0].enabled) == Some(s1)
    requires Step(s1, c[1].entry, c[1].enabled) == Some(s2)
    requires Step(s2, c[2].entry, c[2].enabled) == Some(s3)
    requires Step(s3, c[3].entry, c[3].enabled) == Some(s4)
    requires Step(s4, c[4].entry, c[4].enabled) == Some(s5)
    ensures Run(s0, c) == Some(s5)
  {
    assert forall i :: 0 <= i < |c[4..]| ==> c[4..][i] == c[i + 4];
    assert forall i :: 0 <= i < |c[3..]| ==> c[3..][i] == c[i + 3];
    assert forall i :: 0 <= i < |c[2..]| ==> c[2..][i] == c[i + 2];
    assert forall i :: 0 <= i < |c[1..]| ==> c[1..][i] == c[i + 1];
    assert c[4..][1..] == [];
    assert Run(s4, c[4..]) == Some(s5);
    assert c[3..][1..] == c[4..];
    assert Run(s3, c[3..]) == Some(s5);
    assert c[2..][1..] == c[3..];
    assert Run(s2, c[2..]) == Some(s5);
    assert c[1..][1..] == c[2..];
    assert Run(s1, c[1..]) == Some(s5);
  }

  /** Running `a + b` is running `a` and then running `b` on the result. */
  lemma {:induction false} RunAppend(s: Tracker, a: seq<TraceItem>, b: seq<TraceItem>)
    requires TraceInRange(a, |s.current|) && TraceInRange(b, |s.current|)
    requires Run(s, a).Some?
    ensures TraceInRange(a + b, |s.current|)
    ensures Run(s, a + b) == Run(Run(s, a).value, b)
    decreases |a|
  {
    assert forall i :: 0 <= i < |a + b| ==> (a + b)[i] == if i < |a| then a[i] else b[i - |a|];
    if a != [] {
      var s1 := Step(s, a[0].entry, a[0].enabled).value;
      assert forall i :: 0 <= i < |a[1..]| ==> a[1..][i] == a[i + 1];
      assert Run(s, a) == Run(s1, a[1..]);
      RunAppend(s1, a[1..], b);
      assert (a + b)[0] == a[0];
      assert (a + b)[1..] == a[1..] + b;
      assert Run(s, a + b) == Run(s1, a[1..] + b);
    } else {
      assert a + b == b;
    }
  }

  /** Monotonicity: over any trace, no aggregate row is lost and no count decreases. */
  lemma {:induction false} RunGrows(s: Tracker, trace: seq<TraceItem>)
    requires TraceInRange(trace, |s.current|)
    requires Run(s, trace).Some?
    ensures Grows(s.tables.pcToStats, Run(s, trace).value.tables.pcToStats)
    ensures CallsPositive(s.tables.pcToStats) ==> CallsPositive(Run(s, trace).value.tables.pcToStats)
    decreases |trace|
  {
    if trace != [] {
      var s1 := Step(s, trace[0].entry, trace[0].enabled).value;
      StepGrows(s, trace[0].entry, trace[0].enabled);
      assert TraceInRange(trace[1..], |s1.current|) by {
        forall i | 0 <= i < |trace[1..]|
          ensures SlotInRange(trace[1..][i].entry, trace[1..][i].enabled, |s1.current|)
        {
          assert trace[1..][i] == trace[i + 1];
        }
      }
      RunGrows(s1, trace[1..]);
    }
  }

  /**
   Pausing the CPU's current call and resuming it later restores the slot;
   neither step touches a footprint set or the aggregate.
   */
  lemma PauseResumeRestores(s: Tracker, cpu: nat, pc: u64, pc2: u64)
    requires cpu < |s.current|
    ensures var p := Step(s, Fcall(cpu, Pause, 0, pc), true).value;
      && p.tables == s.tables
      && Step(p, Fcall(cpu, Resume, s.current[cpu], pc2), true) == Some(s)
  {
    assert s.current[cpu := 0][cpu := s.current[cpu]] == s.current;
  }

  /** The entry neither starts nor resumes the call `tag`. */
  predicate LeavesCallAlone(e: Entry, tag: u64)
  {
    e.Fcall? && (e.state.Start? || e.state.Resume?) ==> e.tag != tag
  }

  /**
   While the call `tag` is paused (no CPU-`cpu` slot holds it), entries on
   that CPU that do not start or resume it leave its footprint set and its
   entry point alone, and do not put it back in the slot. Tag 0 is excluded:
   it is the "no active call" bucket that accesses fall into while paused.
   */
  lemma {:induction false} PausedUntouched(s: Tracker, cpu: nat, tag: u64, mid: seq<TraceItem>)
    requires cpu < |s.current| && tag != 0 && s.current[cpu] != tag
    requires forall i :: 0 <= i < |mid| ==> mid[i].entry.cpu == cpu && LeavesCallAlone(mid[i].entry, tag)
    requires TraceInRange(mid, |s.current|)
    requires Run(s, mid).Some?
    ensures var q := Run(s, mid).value;
      && |q.current| == |s.current| && q.current[cpu] != tag
      && SetOf(q.tables.sets, tag) == SetOf(s.tables.sets, tag)
      && PcOf(q.tables.tagToPc, tag) == PcOf(s.tables.tagToPc, tag)
    decreases |mid|
  {
    if mid != [] {
      var x := mid[0];
      var s1 := Step(s, x.entry, x.enabled).value;
      assert s1.current[cpu] != tag;
      assert SetOf(s1.tables.sets, tag) == SetOf(s.tables.sets, tag);
      assert PcOf(s1.tables.tagToPc, tag) == PcOf(s.tables.tagToPc, tag);
      assert forall i :: 0 <= i < |mid[1..]| ==> mid[1..][i] == mid[i + 1];
      PausedUntouched(s1, cpu, tag, mid[1..]);
    }
  }

  /**
   A call paused on CPU `cpu`, followed by any entries on that CPU that do
   not start or resume it, and then resumed: it is back in the slot with the
   footprint set and entry point it had when paused, so its `done` counts
   everything it touched before the pause.
   */
  lemma PauseMidResume(s: Tracker, cpu: nat, pc: u64, mid: seq<TraceItem>, pc2: u64)
    requires cpu < |s.current| && s.current[cpu] != 0
    requires forall i :: 0 <= i < |mid| ==> mid[i].entry.cpu == cpu && LeavesCallAlone(mid[i].entry, s.current[cpu])
    requires TraceInRange(mid, |s.current|)
    requires Run(Step(s, Fcall(cpu, Pause, 0, pc), true).value, mid).Some?
    ensures var tag := s.current[cpu];
      var q := Run(Step(s, Fcall(cpu, Pause, 0, pc), true).value, mid).value;
      var r := Step(q, Fcall(cpu, Resume, tag, pc2), true).value;
      && r.current[cpu] == tag
      && SetOf(r.tables.sets, tag) == SetOf(s.tables.sets, tag)
      && PcOf(r.tables.tagToPc, tag) == PcOf(s.tables.tagToPc, tag)
  {
    var p := Step(s, Fcall(cpu, Pause, 0, pc), true).value;
    PausedUntouched(p, cpu, s.current[cpu], mid);
  }

  /** With tracing disabled throughout, a trace leaves the tracker exactly as it was. */
  lemma {:induction false} DisabledRunIsNoOp(s: Tracker, trace: seq<TraceItem>)
    requires forall i :: 0 <= i < |trace| ==> !trace[i].enabled
    ensures TraceInRange(trace, |s.current|)
    ensures Run(s, trace) == Some(s)
    decreases |trace|
  {
    if trace != [] {
      assert forall i :: 0 <= i < |trace[1..]| ==> trace[1..][i] == trace[i + 1];
      DisabledRunIsNoOp(s, trace[1..]);
    }
  }
}
