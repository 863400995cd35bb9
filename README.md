# mtrace distinct-footprint analyser, modelled in Dafny

This project models the distinct-footprint analyser of the mtrace tools
(`mtrace-tools/dissys.hh`). The analyser reads a stream of trace entries. There
are two kinds of entry. A memory access carries a CPU, a "traffic" flag and a
guest address. A function-call lifecycle event carries a CPU, a state
(`resume`, `start`, `pause` or `done`), a tag and a pc.

For every traced function, named by its entry pc, the analyser computes two
numbers: the sum, over its call instances, of the number of distinct 64-byte
cache lines each instance touched (a line touched again by a later call counts
again), and how often it was called.

It is made of two handlers:

- `DistinctSyscalls` holds one "current tag" slot per CPU and three ordered maps:
  - tag → entry pc;
  - tag → set of cache-line addresses;
  - pc → `{distinct, calls}`.

  `handle` applies one entry. `count_tag` folds one tag's set into its pc's
  stats. `exit` flushes the sets that are still live and lists the table.
  `distinct(name)` looks up the stats by resolved function name.
- `DistinctOps` has a fixed table from application name to function names. It
  sums `distinct(f)` over the functions of the application named in the run
  summary.

Layout:

- `keys.dfy` (module `Keys`): 64-bit keys, the smallest key (`begin()`), keys
  in iteration order, and sums over map values.
- `lines.dfy` (module `Lines`): guest addresses as `bv64` and the mask `& ~63`.
- `options.dfy` (module `Options`): the `Option` type.
- `footprint.dfy` (module `Footprint`): the three maps as a value, `count_tag`
  and the flush loop as functions, and their conservation and monotonicity laws.
- `events.dfy` (module `Events`): trace entries, `handle` as the function
  `Step` over the slots plus the maps, `Run` over a whole trace with its
  composition laws, and the per-event lemmas.
- `query.dfy` (module `Query`): report rows, the answer of `distinct(name)`, and
  the sum formed by `DistinctOps`.
- `dissys.dfy` (module `Dissys`): the classes `DistinctSyscalls` and
  `DistinctOps`. Their fields are updated in place. Each method is proved
  against the functions above.
- `scenarios.dfy` (module `Scenarios`): concrete traces.

External inputs are parameters:

- the enable flag `mtrace_enable.access.value` is a `bool` given to every
  `Handle` call;
- the run summary `mtrace_summary` is the pair `(appName, appOps)`;
- the symbol resolver `addr2line->lookup` is a total function from pc to
  `Option<string>`, the function name or `None`;
- `MAX_CPUS` is the length of the slot array given to the constructor. Its value
  is defined in a header that is not part of this model.

The model follows the code as written, including these points:

- The enable check gates every entry, call events included, not only accesses
  (`dissys.hh:14-15`).
- In `count_tag`, a tag with no set counts 0 distinct lines. A tag with no
  recorded pc is filed under pc 0. Both come from `operator[]` and neither is
  an error (`dissys.hh:105-108`).
- `start` records the pc only; it does not create a set (`dissys.hh:30-33`).
  So a set can exist without a pc entry (an access before any `start`), and a
  pc entry can exist without a set (a call that touched nothing, or a tag
  started again after its `done`). The flush loop walks the sets only, so the
  pc entries of the tags that hold no set when it starts stay behind
  (`Footprint.Flush`).
- Accesses made while a CPU has no active call go into tag 0's set, and no
  `done` of a real call removes it. So even when every call has ended with
  `done`, the flush at the end still files that bucket under pc 0
  (`Scenarios.DoneLeavesBucket`).
- For an application that is absent from the configuration table,
  `DistinctOps::exit` prints a message and returns. It does not die
  (`dissys.hh:138-143`). An application configured with an empty set of
  functions gets a summary with a sum of 0.
- The slots `current_` are taken as initially 0.
- A `done` on a CPU with no active call runs `count_tag(0)`. That reduces
  whatever the unknown bucket (tag 0) holds and counts one call for
  `tag_to_pc_[0]`, which is usually 0.

## Model

| member | source | states |
|---|---|---|
| Lines.LineOf | mtrace-tools/dissys.hh:22 | `guest_addr & ~63` is 64-byte aligned, is at most the address, and lies less than 64 below it |
| Lines.SameLine | mtrace-tools/dissys.hh:22 | two addresses mask to the same line exactly when they lie in the same 64-byte block (both directions) |
| Keys.MinKey | mtrace-tools/dissys.hh:50 | `begin()` of a non-empty ordered map yields a key that is in the map and no larger than any other key |
| Keys.SortedKeys | mtrace-tools/dissys.hh:55-56 | the keys of an ordered map in iteration order: as many as there are keys, each of them a key |
| Keys.SortedKeysSpec | mtrace-tools/dissys.hh:55-56 | walking an ordered map visits every key, in strictly ascending order |
| Footprint.Record | mtrace-tools/dissys.hh:22 | the insert of the masked line into the current tag's set, creating the set if absent; its effect is stated by `Events.AccessEffect` |
| Footprint.CountTag | mtrace-tools/dissys.hh:101-116 | `count_tag(tag)` on the maps as values, with the `operator[]` defaults; its effect is stated by `Footprint.CountTagEffect`, `CountTagGrows` and `CountTagConserves` |
| Footprint.CountTagEffect | mtrace-tools/dissys.hh:101-116 | `count_tag(t)` removes `t` from both tag maps and leaves the other tags alone; the pc recorded for `t` (0 if none) gains exactly one call and the size of `t`'s set (0 if none); it is created as `{0,0}` first if absent; every other stats entry is unchanged |
| Footprint.CountTagGrows | mtrace-tools/dissys.hh:110-115 | a reduction only adds to the aggregate: no stats entry disappears or decreases, and every entry keeps a call count of at least 1 |
| Footprint.CountTagConserves | mtrace-tools/dissys.hh:105-115 | the distinct total in the stats plus the sizes of all live sets stays the same across a reduction, and the total call count rises by exactly 1 |
| Footprint.Flush | mtrace-tools/dissys.hh:49-50 | the flush loop ends with no live set; it leaves behind exactly the pc entries of the tags that hold no set when the flush starts, and the aggregate only grows |
| Footprint.FlushConserves | mtrace-tools/dissys.hh:49-50 | the flush adds every live address to the distinct total and one call per live tag |
| Footprint.FlushCallsPositive | mtrace-tools/dissys.hh:49-50 | after the flush, every stats row still has at least one call, so the average printed for it is defined |
| Footprint.FlushIdempotent | mtrace-tools/dissys.hh:49-50 | with no live set, the tag-0 bucket included, the flush changes nothing, and flushing twice is flushing once |
| Events.Initial | mtrace-tools/dissys.hh:123-128 | a new tracker has one slot per CPU, all 0, and empty maps |
| Events.Step | mtrace-tools/dissys.hh:11-46 | `handle` is fatal exactly on an enabled call event with an unrecognised state, and it never changes the number of CPU slots |
| Events.DisabledIsNoOp | mtrace-tools/dissys.hh:14-15 | with the enable flag off, any entry, call events included, leaves the slots and all three maps as they were |
| Events.AccessEffect | mtrace-tools/dissys.hh:19-22 | an access with traffic adds exactly its masked line to the set of the CPU's current tag, creating that set if needed; no other set, no slot, tag pc or stats entry changes; an access without traffic changes nothing |
| Events.SameLineCollapses | mtrace-tools/dissys.hh:22 | a second access on the same CPU, in the same cache line as the first, leaves the state unchanged |
| Events.CallEffect | mtrace-tools/dissys.hh:26-40 | `start` sets the slot and the tag's pc; `resume` sets the slot only; `pause` zeroes the slot only; `done` reduces the slot's tag and then zeroes the slot; only `done` touches a set or the stats |
| Events.StepIsolation | mtrace-tools/dissys.hh:17-44 | an entry changes no other CPU's slot, and it changes no footprint set except the one of its own CPU's current tag |
| Events.StepGrows | mtrace-tools/dissys.hh:37-40 | no entry removes or decreases a stats entry, and positive call counts stay positive |
| Events.PauseResumeRestores | mtrace-tools/dissys.hh:27-36 | pausing a CPU and then resuming its tag restores the exact state; the paused call's set and pc are untouched |
| Events.PausedUntouched | mtrace-tools/dissys.hh:19-40 | while a call with a non-zero tag is out of the slot, any trace of entries on that CPU that do not start or resume it leaves its footprint set and its pc unchanged and does not put it back in the slot |
| Events.PauseMidResume | mtrace-tools/dissys.hh:27-36 | a call paused, followed by any such entries on its CPU, and then resumed is back in the slot with exactly the set and pc it had when paused, so its `done` counts everything it touched before the pause |
| Events.Run | mtrace-tools/dissys.hh:11-46 | handling a trace that does not die never changes the number of CPU slots |
| Events.RunCons | mtrace-tools/dissys.hh:11-46 | a trace is handled by handling its first entry and then the rest |
| Events.RunFive | mtrace-tools/dissys.hh:11-46 | a five-entry trace whose entries step through given states ends in the last of them |
| Events.RunAppend | mtrace-tools/dissys.hh:11-46 | handling two traces one after the other is handling their concatenation |
| Events.RunGrows | mtrace-tools/dissys.hh:11-46 | over any trace that does not die, the stats only grow (monotonicity), and positive call counts stay positive |
| Events.DisabledRunIsNoOp | mtrace-tools/dissys.hh:14-15 | a whole trace handled while tracing is disabled leaves the tracker unchanged, whatever it contains |
| Query.LabelOf | mtrace-tools/dissys.hh:67-74 | the label of a report row: "(unknown)" for pc 0, else the resolved name, else the raw pc; `Dissys.DistinctSyscalls.Report` states the rows built from it |
| Query.DistinctOf | mtrace-tools/dissys.hh:82-98 | the answer of `distinct(name)`, defined through the smallest matching pc; its meaning is stated by `Query.DistinctOfSpec` |
| Query.DistinctOfSpec | mtrace-tools/dissys.hh:82-98 | the answer of `distinct(name)` is -1 exactly when no pc resolves to `name`; otherwise it is the distinct count of the smallest pc that does |
| Query.DistinctOfFirstMatch | mtrace-tools/dissys.hh:92-94 | the first match met in ascending pc order gives that answer |
| Query.DistinctOfNoMatch | mtrace-tools/dissys.hh:97 | a walk over all pcs without a match gives -1 |
| Query.SumDistinct | mtrace-tools/dissys.hh:149-154 | the sum of `distinct(f)` over a set of names, its order left open; `Query.SumDistinctRemove` shows that any order gives the same sum |
| Query.SumDistinctRemove | mtrace-tools/dissys.hh:149-154 | the sum over the configured names does not depend on the order the set is walked in |
| Dissys.DistinctSyscalls.constructor | mtrace-tools/dissys.hh:123-128 | starts as `Events.Initial`: all slots 0, all maps empty |
| Dissys.DistinctSyscalls.Handle | mtrace-tools/dissys.hh:11-46 | updates the slot array and the maps in place to exactly `Events.Step` of the old state; returns false, changing nothing, where the source dies |
| Dissys.DistinctSyscalls.CountTag | mtrace-tools/dissys.hh:101-116 | updates the three maps in place to exactly `Footprint.CountTag` of the old maps, and keeps every call count positive |
| Dissys.DistinctSyscalls.Exit | mtrace-tools/dissys.hh:48-80 | the `while` loop leaves the maps equal to `Footprint.Flush` of the old maps; the rows then list every stats entry in ascending pc order, each with a call count of at least 1 |
| Dissys.DistinctSyscalls.Report | mtrace-tools/dissys.hh:55-79 | one row per stats entry, in ascending pc order; each row is labelled "(unknown)" for pc 0, else with the resolved name, else with the raw pc; each row carries that entry's calls and distinct count, with calls at least 1 |
| Dissys.DistinctSyscalls.Distinct | mtrace-tools/dissys.hh:82-98 | the ascending walk returns `Query.DistinctOf`: the distinct count of the smallest pc resolving to `name`, or -1 |
| Dissys.DistinctOps.constructor | mtrace-tools/dissys.hh:133-135 | configures only `procy`, with `stub_clone`, `sys_exit_group` and `sys_wait4` |
| Dissys.DistinctOps.Exit | mtrace-tools/dissys.hh:137-160 | for an application absent from the table, no summary. Otherwise: if some configured function has a negative `distinct`, it dies naming such a function; if not, it returns the application's op count and the exact sum of `distinct(f)` over the configured functions |
| Scenarios.OneCallAccesses | mtrace-tools/dissys.hh:19-33 | after `start(1, 0x1000)` on CPU 0 and accesses to 0x40, 0x7F and 0x80, tag 1's set is `{0x40, 0x80}` |
| Scenarios.OneCallDone | mtrace-tools/dissys.hh:37-40 | `done` then gives pc 0x1000 the stats `{distinct 2, calls 1}` and clears the slot and both tag maps |
| Scenarios.OneCallTwoLines | mtrace-tools/dissys.hh:11-46 | handling that five-entry trace in order ends with exactly that state |
| Dissys.DistinctOps.SumConfigured | mtrace-tools/dissys.hh:145-154 | the loop reports a missing function exactly when some configured name has a negative `distinct`, and the name it reports is such a name; otherwise it returns the sum `SumDistinct` of `distinct(f)` over all configured names |
| Scenarios.UnknownBucket | mtrace-tools/dissys.hh:22 | an access made while no call is active goes into tag 0's set, and the flush files it under pc 0 as one call with one distinct line |
| Scenarios.TwoFunctionsSum | mtrace-tools/dissys.hh:149-154 | two configured functions with 10 and 15 distinct lines sum to 25 |
| Scenarios.ThreeLineAccesses | mtrace-tools/dissys.hh:19-33 | `start(tag, 0x1000)` on CPU 0 and accesses to 0x40, 0x85 and 0xC0 leave tag's set at `{0x40, 0x80, 0xC0}`, whatever the stats already hold |
| Scenarios.ThreeLineDone | mtrace-tools/dissys.hh:37-40 | the `done` of that call adds one call and three distinct lines to 0x1000's stats (starting from `{0, 0}` if absent) and clears the slot and both tag maps |
| Scenarios.ThreeLineCallEffect | mtrace-tools/dissys.hh:11-46 | the whole five-entry call, handled in order, has exactly that effect |
| Scenarios.TwoCallsOnePc | mtrace-tools/dissys.hh:11-46 | two back-to-back such calls, under any two tags, give 0x1000 the stats `{distinct 6, calls 2}`: lines touched again by a second call count again |
| Scenarios.DoneLeavesBucket | mtrace-tools/dissys.hh:19-50 | after `start(1, 0x1000)` and its `done` on CPU 0, a later access still lands in tag 0's set, so even with every call ended by `done` the flush is not a no-op: it files that line under pc 0 |
| Scenarios.PausedBucketGrows | mtrace-tools/dissys.hh:19-36 | with no call active, a pause keeps the slot at 0, so accesses before and after it both land in tag 0's set |

## Left out

- `mtrace-tools/mtrace-magic.c` is not part of this model. It is a command-line wrapper that checks its arguments and calls a foreign function to toggle tracing.
- Output formatting is not modelled: `printf`/`fprintf`, column widths, and the header line (`dissys.hh:52-53`, `68-78`, `141`, `158-159`). `Report` returns the rows as values instead.
- The floating-point averages are not modelled (`dissys.hh:64-65`, `156`). Each report row carries the integers `calls` and `distinct` instead. `DistinctOps.Exit` returns the pair `(ops, distincts)`, namely `app_ops` and the sum `n`.
- Dissys.DistinctSyscalls.Distinct: the model returns the count as an unbounded integer. The source returns the `uint64_t` count as an `int64_t`, so a count of 2^63 or more would come back negative.
- Footprint.CountTag: the `distinct` and `calls` counters are unbounded. The source's 64-bit counters could wrap: `calls` after 2^64 reductions of one pc, and `distinct` once the lines folded into one pc total 2^64.
- Dissys.DistinctOps.Exit: the sum `n` is unbounded. The source adds into a `uint64_t`, which would wrap once the summed distinct counts reach 2^64.
- The symbol resolver is a total, pure function from pc to an optional name. Its internals, the file and line it also returns, and the `free` of the returned strings are not modelled.
- Trace entries are a datatype holding only the fields the analyser reads. Call states other than the four named ones become `Unknown`, and entry types other than accesses and calls become `Other`. The binary layout of `union mtrace_entry` is not modelled.
- The trace is pushed one entry at a time by code outside this file. `Run` stands for that loop. It lets the enable flag differ from entry to entry, because the flag is toggled from outside.
- `die` is not modelled as process termination. `Handle` returns `false` with the state unchanged, and `DistinctOps.Exit` returns `MissingFunction`. Nothing that happens after the process would have exited is modelled.
- `DistinctOps` walks a `set<const char *>`, whose order is that of the pointers. The model walks the name set in an arbitrary order. The sum is the same in every order (`Query.SumDistinctRemove`). When several names are missing, which one the fatal message names is left open.
- The bound on CPU ids is a precondition (`Events.SlotInRange`): `cpu < MAX_CPUS` is required only of the entries that read or write a slot, namely, with tracing enabled, an access with traffic and a call in one of the four known states. The source does not check it.
- The `EntryHandler` base class and its virtual dispatch are not modelled.
