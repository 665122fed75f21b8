// The eBPF side: the shared maps and counters, updated in place by the tracepoint
// handlers with every early return of the source. `Valid` couples the maps to the model
// of SchedModel; each handler moves the model by exactly one step.
module Tracer {
  import opened Types
  import opened Counting
  import opened WakeupStore
  import opened SchedModel
  import opened SchedRuns
  import opened SchedLaws

  const DROP_WAKEUP_DATA_INSERT_FAILED: nat := 0
  const DROP_RINGBUF_RESERVE_FAILED: nat := 1
  const DROP_WAKEUP_DATA_STALE_ENTRY: nat := 4
  const DROP_WAKEUP_DATA_REPLACED_ENTRY: nat := 6
  const DROP_WAKEUP_DATA_CONSUMED_READ_FAILED: nat := 7
  const DROP_CPU_ACCOUNTING_UNTRACKED: nat := 8
  const DROP_COUNTERS_MAX: nat := 11

  datatype RecordResult = InsertFailed | NewPending | ReplacedSameCpu | ReplacedMovedCpu

  datatype ConsumeResult = ConsumeNone | ConsumeOk | CursorInsertFailed

  // "Present in WAKEUP_DATA and not exactly equal to the consumed cursor."
  predicate PendingIn(data: map<u32, WakeupData>, cursor: map<u32, WakeupData>, t: u32) {
    t in data && !(t in cursor && cursor[t] == data[t])
  }

  // The two wakeup maps hold what the history says is stored.
  ghost predicate Holds(data: map<u32, WakeupData>, cursor: map<u32, WakeupData>, s: Store)
    requires Indexed(s)
  {
    && data.Keys == s.ids.Keys
    && (forall t :: t in s.ids ==> data[t] == s.log[s.ids[t]].data)
    && (forall t :: t in cursor <==> t in s.ids && !s.log[s.ids[t]].fate.Waiting?)
    && (forall t :: t in cursor ==> cursor[t] == data[t])
  }

  lemma HoldsAccept(data: map<u32, WakeupData>, cursor: map<u32, WakeupData>, s: Store, t: u32, d: WakeupData)
    requires StoreInv(s) && Holds(data, cursor, s) && ValidTid(t)
    ensures Indexed(Accept(s, t, d)) && Holds(data[t := d], cursor - {t}, Accept(s, t, d))
  {
    hide StoredRecord;
    var r := Accept(s, t, d);
    forall u | u in s.ids && u != t
      ensures r.log[s.ids[u]] == s.log[s.ids[u]]
    {
      AcceptKeepsOthers(s, t, d, u);
    }
    assert Indexed(r);
  }

  lemma HoldsFinish(data: map<u32, WakeupData>, cursor: map<u32, WakeupData>, s: Store, t: u32, f: Fate)
    requires StoreInv(s) && Holds(data, cursor, s) && IsPending(s, t) && !f.Waiting?
    ensures Indexed(Finish(s, t, f))
    ensures f.Consumed? ==> Holds(data, cursor[t := data[t]], Finish(s, t, f))
    ensures !f.Consumed? ==> Holds(data - {t}, cursor - {t}, Finish(s, t, f))
  {
    hide StoredRecord;
    var r := Finish(s, t, f);
    forall u | u in s.ids && u != t
      ensures r.log[s.ids[u]] == s.log[s.ids[u]]
    {
      MarkKeepsOthers(s, t, f, u);
    }
    assert Indexed(r);
  }

  // What the drop counters count.
  ghost predicate DropsMatch(drops: seq<nat>, m: Model) {
    && |drops| == DROP_COUNTERS_MAX
    && drops[DROP_WAKEUP_DATA_INSERT_FAILED] == m.insertFailures
    && drops[DROP_RINGBUF_RESERVE_FAILED] == m.lostMigrations + Fates(m.store.log, Consumed(RingFull))
    && drops[DROP_WAKEUP_DATA_STALE_ENTRY] == Fates(m.store.log, Consumed(Stale))
    && drops[DROP_WAKEUP_DATA_REPLACED_ENTRY] == Fates(m.store.log, Replaced)
    && drops[DROP_WAKEUP_DATA_CONSUMED_READ_FAILED] == Fates(m.store.log, Consumed(ReadFailed))
    && drops[DROP_CPU_ACCOUNTING_UNTRACKED] == m.untracked
  }

  // An accepted wakeup bumps the replaced counter iff it replaces, and the untracked
  // counter iff its CPU could not be tracked.
  lemma DropsAfterWakeup(drops: seq<nat>, m: Model, x: WakeupCtx)
    requires Inv(m) && DropsMatch(drops, m)
    requires Relevant(m.targets, x) && x.seqInsertOk && x.dataInsertOk
    ensures DropsMatch(
      Bump(Bump(drops, DROP_WAKEUP_DATA_REPLACED_ENTRY, IsPending(m.store, x.pid.value)),
           DROP_CPU_ACCOUNTING_UNTRACKED,
           !Tracked(m.runnable, x.pid.value, x.targetCpu.value, x.runnableInsertOk)),
      StepWakeup(m, x))
  {
    hide Accept, SlotsAfterWakeup, Fates, PlacedOn, OriginInv, StoredRecord;
    var t, d := x.pid.value, DataOf(m.seqs, x);
    FatesAccept(m.store, t, d, Replaced);
    FatesAccept(m.store, t, d, Consumed(RingFull));
    FatesAccept(m.store, t, d, Consumed(Stale));
    FatesAccept(m.store, t, d, Consumed(ReadFailed));
  }

  // The array counts, per CPU, the TIDs the reverse index puts there.
  ghost predicate DepthCounts(depth: seq<u32>, runnable: map<u32, u32>) {
    && |depth| == MAX_TRACKED_CPUS
    && (forall t :: t in runnable ==> ValidTid(t) && ValidCpu(runnable[t]))
    && (forall c :: 0 <= c < MAX_TRACKED_CPUS ==> depth[c] == CountAt(runnable, c))
  }

  // Moving one TID's count in the array is moving the TID in the index; nothing saturates.
  lemma DepthAfterPlace(depth: seq<u32>, runnable: map<u32, u32>, t: u32, cpu: u32)
    requires DepthCounts(depth, runnable) && ValidTid(t) && ValidCpu(cpu)
    ensures t !in runnable ==> DepthCounts(Inc(depth, cpu), runnable[t := cpu])
    ensures t in runnable && runnable[t] != cpu ==>
              DepthCounts(Inc(Dec(depth, runnable[t]), cpu), runnable[t := cpu])
  {
    if t in runnable {
      CountPositive(runnable, t);
    }
    forall c | 0 <= c < MAX_TRACKED_CPUS
      ensures CountAt(runnable, c) <= 0x8000_0000
      ensures t !in runnable ==> Inc(depth, cpu)[c] == CountAt(runnable[t := cpu], c)
      ensures t in runnable && runnable[t] != cpu ==>
                Inc(Dec(depth, runnable[t]), cpu)[c] == CountAt(runnable[t := cpu], c)
    {
      BoundedSet(KeysAt(runnable, c), 0x8000_0000);
      BoundedSet(KeysAt(runnable, cpu), 0x8000_0000);
      CountAfterPut(runnable, t, cpu, c);
    }
  }

  lemma DepthAfterRemove(depth: seq<u32>, runnable: map<u32, u32>, t: u32)
    requires DepthCounts(depth, runnable) && t in runnable
    ensures DepthCounts(Dec(depth, runnable[t]), runnable - {t})
  {
    CountPositive(runnable, t);
    forall c | 0 <= c < MAX_TRACKED_CPUS
      ensures Dec(depth, runnable[t])[c] == CountAt(runnable - {t}, c)
    {
      CountAfterRemove(runnable, t, c);
    }
  }

  // The contents of every map and array at one moment.
  datatype View = View(
    targets: set<u32>, data: map<u32, WakeupData>, cursor: map<u32, WakeupData>,
    seqs: map<u32, u32>, runnable: map<u32, u32>, depth: seq<u32>, slots: seq<u32>,
    drops: seq<nat>, events: seq<SchedulerEvent>, migrations: seq<MigrationEvent>)

  // The coupling between the implementation's state and the model.
  ghost predicate Coupled(v: View, m: Model) {
    && Inv(m)
    && v.targets == m.targets
    && Holds(v.data, v.cursor, m.store)
    && v.seqs == m.seqs
    && v.runnable == m.runnable
    && v.slots == m.slots
    && DepthCounts(v.depth, v.runnable)
    && DropsMatch(v.drops, m)
    && v.events == m.events
    && v.migrations == m.migrations
  }

  function Bump(drops: seq<nat>, reason: nat, hit: bool): (r: seq<nat>)
    requires reason < |drops|
    ensures |r| == |drops|
  {
    if hit then drops[reason := drops[reason] + 1] else drops
  }

  lemma BumpNot(drops: seq<nat>, reason: nat)
    requires reason < |drops|
    ensures Bump(drops, reason, false) == drops
  {
  }

  lemma MigrateIgnored(m: Model, x: MigrateCtx)
    ensures (x.pid.None? || x.pid.value <= 0 || x.pid.value !in m.targets || x.origCpu.None? || x.destCpu.None?)
            ==> StepMigrate(m, x) == m
  {
  }

  lemma WakeupIgnored(m: Model, x: WakeupCtx)
    requires Indexed(m.store) && |m.slots| == MAX_TRACKED_CPUS
    ensures !Relevant(m.targets, x) ==> StepWakeup(m, x) == m
  {
  }

  lemma SwitchIgnored(m: Model, x: SwitchCtx)
    requires Indexed(m.store) && |m.slots| == MAX_TRACKED_CPUS
    ensures !Consumes(m.store, x) ==> StepSwitch(m, x) == m
  {
  }

  lemma SwitchEvents(m: Model, x: SwitchCtx)
    requires Indexed(m.store) && |m.slots| == MAX_TRACKED_CPUS
    ensures Consumes(m.store, x) ==>
      var t := x.nextPid.value;
      var d := m.store.log[m.store.ids[t]].data;
      StepSwitch(m, x).events == m.events + (if SwitchFate(m.targets, x) == Consumed(Emitted)
        then [EventFor(t, d, x, Dec(m.slots, d.targetCpu), m.runnable - {t})] else [])
  {
    hide Dec, EventFor, Finish;
  }

  // What the coupling gives, each part by name.
  lemma CoupledElim(v: View, m: Model)
    requires Coupled(v, m)
    ensures Inv(m) && StoreInv(m.store) && Indexed(m.store)
    ensures |v.slots| == MAX_TRACKED_CPUS && |v.drops| == DROP_COUNTERS_MAX
    ensures v.targets == m.targets && v.seqs == m.seqs && v.slots == m.slots && v.runnable == m.runnable
    ensures v.events == m.events && v.migrations == m.migrations
    ensures DepthCounts(v.depth, v.runnable)
    ensures Holds(v.data, v.cursor, m.store)
    ensures DropsMatch(v.drops, m)
  {
    hide StoredRecord, OriginInv, RunnableInv, DepthCounts, Fates;
  }

  // What the stored record of one TID is, and whether it is pending, on both sides.
  lemma CoupledAt(v: View, m: Model, t: u32)
    requires Coupled(v, m) && Indexed(m.store)
    ensures PendingIn(v.data, v.cursor, t) <==> IsPending(m.store, t)
    ensures t in v.data <==> t in m.store.ids
    ensures t in v.data ==> v.data[t] == m.store.log[m.store.ids[t]].data
  {
    hide Inv, DepthCounts, DropsMatch;
  }

  lemma CoupledIntro(v: View, m: Model)
    requires Inv(m) && Indexed(m.store) && Holds(v.data, v.cursor, m.store)
    requires DepthCounts(v.depth, v.runnable) && DropsMatch(v.drops, m)
    requires v.targets == m.targets && v.seqs == m.seqs && v.slots == m.slots && v.runnable == m.runnable
    requires v.events == m.events && v.migrations == m.migrations
    ensures Coupled(v, m)
  {
  }

  // The wakeup handler when the record could not be installed.
  lemma CoupledInsertFailed(v: View, m: Model, x: WakeupCtx)
    requires Coupled(v, m) && |v.drops| == DROP_COUNTERS_MAX && Indexed(m.store) && |m.slots| == MAX_TRACKED_CPUS
    requires Relevant(m.targets, x) && !(x.seqInsertOk && x.dataInsertOk)
    ensures Coupled(
      v.(drops := Bump(v.drops, DROP_WAKEUP_DATA_INSERT_FAILED, true),
         seqs := if x.seqInsertOk then v.seqs[x.pid.value := NextSeq(v.seqs, x.pid.value)] else v.seqs),
      StepWakeup(m, x))
  {
    hide Inv, Holds, DepthCounts, Fates, Accept, SlotsAfterWakeup;
    CoupledElim(v, m);
    WakeupKeepsInv(m, x);
  }

  // The wakeup handler when the record was installed.
  lemma CoupledAccepted(v: View, m: Model, x: WakeupCtx, w: View)
    requires Coupled(v, m) && |v.drops| == DROP_COUNTERS_MAX && Indexed(m.store) && |v.slots| == MAX_TRACKED_CPUS
    requires Relevant(m.targets, x) && x.seqInsertOk && x.dataInsertOk
    requires var t, cpu := x.pid.value, x.targetCpu.value;
      var tracked := Tracked(v.runnable, t, cpu, x.runnableInsertOk);
      && w.data == v.data[t := DataOf(v.seqs, x)]
      && w.cursor == v.cursor - {t}
      && w.seqs == v.seqs[t := NextSeq(v.seqs, t)]
      && w.runnable == PlacedOn(v.runnable, t, cpu, x.runnableInsertOk)
      && DepthCounts(w.depth, w.runnable)
      && w.slots == SlotsAfterWakeup(v.slots, m.store, t, cpu, tracked)
      && w.drops == Bump(Bump(v.drops, DROP_WAKEUP_DATA_REPLACED_ENTRY, IsPending(m.store, t)),
                         DROP_CPU_ACCOUNTING_UNTRACKED, !tracked)
      && w.targets == v.targets && w.events == v.events && w.migrations == v.migrations
    ensures |m.slots| == MAX_TRACKED_CPUS && Coupled(w, StepWakeup(m, x))
  {
    hide Coupled, Inv, StoreInv, Holds, DepthCounts, DropsMatch, Bump, Accept, SlotsAfterWakeup, PlacedOn, Tracked;
    CoupledElim(v, m);
    WakeupKeepsInv(m, x);
    HoldsAccept(v.data, v.cursor, m.store, x.pid.value, DataOf(m.seqs, x));
    DropsAfterWakeup(v.drops, m, x);
    CoupledIntro(w, StepWakeup(m, x));
  }

  lemma CoupledMigrated(v: View, m: Model, x: MigrateCtx, w: View)
    requires Coupled(v, m) && |v.drops| == DROP_COUNTERS_MAX
    requires x.pid.Some? && x.pid.value > 0 && x.pid.value in m.targets && x.origCpu.Some? && x.destCpu.Some?
    requires var t, dest := x.pid.value, AsU32(x.destCpu.value);
      var moves := t in v.runnable && v.runnable[t] != dest;
      && w.runnable == (if moves then PlacedOn(v.runnable, t, dest, x.runnableInsertOk) else v.runnable)
      && DepthCounts(w.depth, w.runnable)
      && w.drops == Bump(Bump(v.drops, DROP_CPU_ACCOUNTING_UNTRACKED,
                              t in v.runnable && v.runnable[t] != dest
                              && !Tracked(v.runnable, t, dest, x.runnableInsertOk)),
                         DROP_RINGBUF_RESERVE_FAILED, !x.reserveOk)
      && w.migrations == v.migrations + (if x.reserveOk
           then [MigrationEvent(t, AsU32(x.origCpu.value), dest, x.now)] else [])
      && w.data == v.data && w.cursor == v.cursor && w.seqs == v.seqs && w.slots == v.slots
      && w.targets == v.targets && w.events == v.events
    ensures Coupled(w, StepMigrate(m, x))
  {
    hide Coupled, Inv, StoreInv, Holds, DepthCounts, DropsMatch, Bump, PlacedOn, Tracked;
    CoupledElim(v, m);
    MigrateKeepsInv(m, x);
    DropsAfterMigrate(v.drops, m, x);
    CoupledIntro(w, StepMigrate(m, x));
  }

  lemma DropsAfterMigrate(drops: seq<nat>, m: Model, x: MigrateCtx)
    requires DropsMatch(drops, m)
    requires x.pid.Some? && x.pid.value > 0 && x.pid.value in m.targets && x.origCpu.Some? && x.destCpu.Some?
    ensures var t, dest := x.pid.value, AsU32(x.destCpu.value);
      var lost := t in m.runnable && m.runnable[t] != dest && !Tracked(m.runnable, t, dest, x.runnableInsertOk);
      DropsMatch(Bump(Bump(drops, DROP_CPU_ACCOUNTING_UNTRACKED, lost), DROP_RINGBUF_RESERVE_FAILED, !x.reserveOk),
                 StepMigrate(m, x))
  {
    hide Fates, PlacedOn, Tracked;
  }

  // The drop counter that counts a fate, if there is one.
  function DropOf(f: Fate): Option<nat> {
    match f
    case Consumed(Stale) => Some(DROP_WAKEUP_DATA_STALE_ENTRY)
    case Consumed(ReadFailed) => Some(DROP_WAKEUP_DATA_CONSUMED_READ_FAILED)
    case Consumed(RingFull) => Some(DROP_RINGBUF_RESERVE_FAILED)
    case CursorDropped => Some(DROP_WAKEUP_DATA_INSERT_FAILED)
    case _ => None
  }

  function DropsAfter(drops: seq<nat>, f: Fate): (r: seq<nat>)
    requires |drops| == DROP_COUNTERS_MAX
    ensures |r| == |drops|
  {
    match DropOf(f) case Some(reason) => Bump(drops, reason, true) case None => drops
  }

  // A drop counter moves with the fate it counts.
  lemma DropsAfterFinish(drops: seq<nat>, m: Model, r: Model, t: u32, f: Fate)
    requires Indexed(m.store) && DropsMatch(drops, m) && IsPending(m.store, t) && !f.Waiting? && !f.Replaced?
    requires r.store == Finish(m.store, t, f)
    requires r.untracked == m.untracked && r.lostMigrations == m.lostMigrations
    requires r.insertFailures == m.insertFailures + if f == CursorDropped then 1 else 0
    ensures DropsMatch(DropsAfter(drops, f), r)
  {
    hide Mark, Fates;
    var i := m.store.ids[t];
    FatesMark(m.store.log, i, f, Replaced);
    FatesMark(m.store.log, i, f, Consumed(RingFull));
    FatesMark(m.store.log, i, f, Consumed(Stale));
    FatesMark(m.store.log, i, f, Consumed(ReadFailed));
  }

  lemma CoupledSwitched(v: View, m: Model, x: SwitchCtx, w: View)
    requires Coupled(v, m) && |v.drops| == DROP_COUNTERS_MAX && |m.slots| == MAX_TRACKED_CPUS
    requires Indexed(m.store) && Consumes(m.store, x) && x.nextPid.value in v.data
    requires var t := x.nextPid.value;
      && w.data == (if x.cursorInsertOk then v.data else v.data - {t})
      && w.cursor == (if x.cursorInsertOk then v.cursor[t := v.data[t]] else v.cursor - {t})
      && w.runnable == v.runnable - {t}
      && DepthCounts(w.depth, w.runnable)
      && w.slots == Dec(m.slots, v.data[t].targetCpu)
      && w.drops == DropsAfter(v.drops, SwitchFate(m.targets, x))
      && w.events == StepSwitch(m, x).events
      && w.targets == v.targets && w.seqs == v.seqs && w.migrations == v.migrations
    ensures Coupled(w, StepSwitch(m, x))
  {
    hide Coupled, Inv, StoreInv, Holds, DepthCounts, DropsMatch, DropsAfter, Finish, Dec, EventFor, OutcomeOf;
    var t, f := x.nextPid.value, SwitchFate(m.targets, x);
    CoupledElim(v, m);
    CoupledAt(v, m, t);
    SwitchKeepsInv(m, x);
    HoldsFinish(v.data, v.cursor, m.store, t, f);
    DropsAfterFinish(v.drops, m, StepSwitch(m, x), t, f);
    CoupledIntro(w, StepSwitch(m, x));
  }

  lemma CoupledExited(v: View, m: Model, t: u32, w: View)
    requires Coupled(v, m) && |m.slots| == MAX_TRACKED_CPUS && Indexed(m.store)
    requires w.data == v.data - {t} && w.cursor == v.cursor - {t} && w.seqs == v.seqs - {t}
    requires w.runnable == v.runnable - {t} && DepthCounts(w.depth, w.runnable)
    requires w.slots == if PendingIn(v.data, v.cursor, t) then Dec(m.slots, v.data[t].targetCpu) else m.slots
    requires w.targets == v.targets && w.drops == v.drops && w.events == v.events && w.migrations == v.migrations
    ensures Coupled(w, StepExit(m, t))
  {
    hide Coupled, Inv, StoreInv, Holds, DepthCounts, DropsMatch, Finish, Dec;
    CoupledElim(v, m);
    CoupledAt(v, m, t);
    ExitKeepsInv(m, t);
    if IsPending(m.store, t) {
      HoldsFinish(v.data, v.cursor, m.store, t, Exited);
      DropsAfterFinish(v.drops, m, StepExit(m, t), t, Exited);
    } else {
      HoldsForget(v.data, v.cursor, m.store, t);
      SameLogDrops(v.drops, m, StepExit(m, t));
    }
    CoupledIntro(w, StepExit(m, t));
  }

  lemma SameLogDrops(drops: seq<nat>, m: Model, r: Model)
    requires DropsMatch(drops, m) && r.store.log == m.store.log
    requires r.untracked == m.untracked && r.lostMigrations == m.lostMigrations && r.insertFailures == m.insertFailures
    ensures DropsMatch(drops, r)
  {
  }

  lemma HoldsForget(data: map<u32, WakeupData>, cursor: map<u32, WakeupData>, s: Store, t: u32)
    requires Indexed(s) && Holds(data, cursor, s)
    ensures Indexed(Forget(s, t)) && Holds(data - {t}, cursor - {t}, Forget(s, t))
  {
  }

  class Tracer {
    var targetPids: set<u32>
    var wakeupData: map<u32, WakeupData>
    var wakeupConsumed: map<u32, WakeupData>
    var wakeupSeq: map<u32, u32>
    var runnableTaskCpu: map<u32, u32>
    const cpuRunnableDepth: array<u32>
    const targetPendingWakeups: array<u32>
    var drops: seq<nat>
    var events: seq<SchedulerEvent>
    var migrations: seq<MigrationEvent>
    ghost var model: Model

    ghost predicate Shaped()
      reads this
    {
      && cpuRunnableDepth.Length == targetPendingWakeups.Length == MAX_TRACKED_CPUS
      && cpuRunnableDepth != targetPendingWakeups
      && |drops| == DROP_COUNTERS_MAX
    }

    ghost function Contents(): View
      reads this, cpuRunnableDepth, targetPendingWakeups
    {
      View(targetPids, wakeupData, wakeupConsumed, wakeupSeq, runnableTaskCpu,
           cpuRunnableDepth[..], targetPendingWakeups[..], drops, events, migrations)
    }

    ghost predicate Valid()
      reads this, cpuRunnableDepth, targetPendingWakeups
    {
      Shaped() && Coupled(Contents(), model)
    }

    constructor ()
      ensures Valid() && model == Initial()
      ensures fresh(cpuRunnableDepth) && fresh(targetPendingWakeups)
    {
      targetPids := {};
      wakeupData, wakeupConsumed, wakeupSeq, runnableTaskCpu := map[], map[], map[], map[];
      cpuRunnableDepth := new u32[MAX_TRACKED_CPUS](_ => 0);
      targetPendingWakeups := new u32[MAX_TRACKED_CPUS](_ => 0);
      drops := seq(DROP_COUNTERS_MAX, _ => 0);
      events, migrations := [], [];
      model := Initial();
      new;
      InitialInv();
      assert targetPendingWakeups[..] == Initial().slots;
      forall c | 0 <= c < MAX_TRACKED_CPUS
        ensures cpuRunnableDepth[..][c] == CountAt(map[], c)
      {
        assert KeysAt(map[], c) == {};
      }
    }

    method IncrementDropCounter(reason: nat)
      requires reason < |drops|
      modifies `drops
      ensures drops == Bump(old(drops), reason, true)
    {
      drops := drops[reason := drops[reason] + 1];
    }

    // ---- wakeup_data ------------------------------------------------------------------

    method NextWakeupSeq(pid: u32, insertOk: bool) returns (r: Option<u32>)
      modifies `wakeupSeq
      ensures insertOk ==> r == Some(NextSeq(old(wakeupSeq), pid))
                           && wakeupSeq == old(wakeupSeq)[pid := NextSeq(old(wakeupSeq), pid)]
      ensures !insertOk ==> r == None && wakeupSeq == old(wakeupSeq)
    {
      var next: u32 := 1;
      if pid in wakeupSeq {
        next := if wakeupSeq[pid] == U32_MAX then 0 else wakeupSeq[pid] + 1;
      }
      if !insertOk {
        return None;
      }
      wakeupSeq := wakeupSeq[pid := next];
      return Some(next);
    }

    function SameWakeupConsumed(pid: u32, data: WakeupData): bool
      reads this
    {
      pid in wakeupConsumed && wakeupConsumed[pid] == data
    }

    method RecordWakeup(pid: u32, data: WakeupData, insertOk: bool) returns (r: RecordResult, prev: Option<WakeupData>)
      modifies `wakeupData, `wakeupConsumed
      ensures !insertOk ==> r == InsertFailed && unchanged(`wakeupData) && unchanged(`wakeupConsumed)
      ensures insertOk ==> wakeupData == old(wakeupData)[pid := data] && wakeupConsumed == old(wakeupConsumed) - {pid}
      ensures insertOk && !old(PendingIn(wakeupData, wakeupConsumed, pid)) ==> r == NewPending
      ensures insertOk && old(PendingIn(wakeupData, wakeupConsumed, pid)) ==>
                prev == Some(old(wakeupData)[pid])
                && r == if old(wakeupData)[pid].targetCpu == data.targetCpu then ReplacedSameCpu else ReplacedMovedCpu
    {
      var hadPendingOld := false;
      prev := None;
      if pid in wakeupData {
        prev := Some(wakeupData[pid]);
        hadPendingOld := !SameWakeupConsumed(pid, wakeupData[pid]);
      }
      if !insertOk {
        return InsertFailed, prev;
      }
      wakeupData := wakeupData[pid := data];
      wakeupConsumed := wakeupConsumed - {pid};
      if !hadPendingOld {
        return NewPending, prev;
      }
      r := if prev.value.targetCpu == data.targetCpu then ReplacedSameCpu else ReplacedMovedCpu;
    }

    method ConsumePendingWakeup(pid: u32, insertOk: bool) returns (r: ConsumeResult, out: Option<WakeupData>)
      modifies `wakeupConsumed
      ensures !old(PendingIn(wakeupData, wakeupConsumed, pid)) ==> r == ConsumeNone && unchanged(`wakeupConsumed)
      ensures old(PendingIn(wakeupData, wakeupConsumed, pid)) ==>
        && out == Some(wakeupData[pid])
        && r == (if insertOk then ConsumeOk else CursorInsertFailed)
        && wakeupConsumed == (if insertOk then old(wakeupConsumed)[pid := wakeupData[pid]] else old(wakeupConsumed))
    {
      if pid !in wakeupData {
        return ConsumeNone, None;
      }
      out := Some(wakeupData[pid]);
      if SameWakeupConsumed(pid, out.value) {
        return ConsumeNone, out;
      }
      if !insertOk {
        return CursorInsertFailed, out;
      }
      wakeupConsumed := wakeupConsumed[pid := out.value];
      r := ConsumeOk;
    }

    method DropPendingWakeupAfterCursorFailure(pid: u32, expected: WakeupData) returns (dropped: bool)
      modifies `wakeupData, `wakeupConsumed
      ensures dropped == old(PendingIn(wakeupData, wakeupConsumed, pid) && wakeupData[pid] == expected)
      ensures dropped ==> wakeupData == old(wakeupData) - {pid} && wakeupConsumed == old(wakeupConsumed) - {pid}
      ensures !dropped ==> unchanged(`wakeupData) && unchanged(`wakeupConsumed)
    {
      if pid !in wakeupData {
        return false;
      }
      if wakeupData[pid] != expected || SameWakeupConsumed(pid, expected) {
        return false;
      }
      wakeupData := wakeupData - {pid};
      wakeupConsumed := wakeupConsumed - {pid};
      return true;
    }

    method RemoveForExit(pid: u32) returns (wasPending: bool, out: Option<WakeupData>)
      modifies `wakeupData, `wakeupConsumed, `wakeupSeq
      ensures wasPending == old(PendingIn(wakeupData, wakeupConsumed, pid))
      ensures wasPending ==> out == Some(old(wakeupData)[pid])
      ensures wakeupData == old(wakeupData) - {pid}
      ensures wakeupConsumed == old(wakeupConsumed) - {pid}
      ensures wakeupSeq == old(wakeupSeq) - {pid}
    {
      wasPending, out := false, None;
      if pid in wakeupData {
        out := Some(wakeupData[pid]);
        wasPending := !SameWakeupConsumed(pid, wakeupData[pid]);
        wakeupData := wakeupData - {pid};
      }
      wakeupConsumed := wakeupConsumed - {pid};
      wakeupSeq := wakeupSeq - {pid};
    }

    // ---- runnable_depth ---------------------------------------------------------------

    method IncrementCpuRunnableDepth(cpu: u32)
      requires Shaped()
      modifies cpuRunnableDepth
      ensures cpuRunnableDepth[..] == Inc(old(cpuRunnableDepth[..]), cpu)
    {
      if ValidCpu(cpu) {
        cpuRunnableDepth[cpu] := if cpuRunnableDepth[cpu] < U32_MAX then cpuRunnableDepth[cpu] + 1 else U32_MAX;
      }
    }

    method DecrementCpuRunnableDepth(cpu: u32)
      requires Shaped()
      modifies cpuRunnableDepth
      ensures cpuRunnableDepth[..] == Dec(old(cpuRunnableDepth[..]), cpu)
    {
      if ValidCpu(cpu) {
        cpuRunnableDepth[cpu] := if cpuRunnableDepth[cpu] > 0 then cpuRunnableDepth[cpu] - 1 else 0;
      }
    }

    method IncrementTargetPending(cpu: u32)
      requires Shaped()
      modifies targetPendingWakeups, `drops
      ensures targetPendingWakeups[..] == Inc(old(targetPendingWakeups[..]), cpu)
      ensures drops == Bump(old(drops), DROP_CPU_ACCOUNTING_UNTRACKED, !ValidCpu(cpu))
    {
      if !ValidCpu(cpu) {
        IncrementDropCounter(DROP_CPU_ACCOUNTING_UNTRACKED);
        return;
      }
      targetPendingWakeups[cpu] :=
        if targetPendingWakeups[cpu] < U32_MAX then targetPendingWakeups[cpu] + 1 else U32_MAX;
    }

    method DecrementTargetPending(cpu: u32)
      requires Shaped()
      modifies targetPendingWakeups
      ensures targetPendingWakeups[..] == Dec(old(targetPendingWakeups[..]), cpu)
    {
      if ValidCpu(cpu) {
        targetPendingWakeups[cpu] := if targetPendingWakeups[cpu] > 0 then targetPendingWakeups[cpu] - 1 else 0;
      }
    }

    method MarkTaskRunnable(pid: u32, targetCpu: u32, insertOk: bool) returns (tracked: bool)
      requires Shaped() && ValidTid(pid)
      requires DepthCounts(cpuRunnableDepth[..], runnableTaskCpu)
      modifies `runnableTaskCpu, `drops, cpuRunnableDepth
      ensures DepthCounts(cpuRunnableDepth[..], runnableTaskCpu)
      ensures runnableTaskCpu == PlacedOn(old(runnableTaskCpu), pid, targetCpu, insertOk)
      ensures tracked == Tracked(old(runnableTaskCpu), pid, targetCpu, insertOk)
      ensures drops == Bump(old(drops), DROP_CPU_ACCOUNTING_UNTRACKED, !tracked)
    {
      if !ValidCpu(targetCpu) {
        IncrementDropCounter(DROP_CPU_ACCOUNTING_UNTRACKED);
        return false;
      }
      DepthAfterPlace(cpuRunnableDepth[..], runnableTaskCpu, pid, targetCpu);
      if pid in runnableTaskCpu {
        var oldCpu := runnableTaskCpu[pid];
        if oldCpu == targetCpu {
          assert runnableTaskCpu == runnableTaskCpu[pid := targetCpu];
          return true;
        }
        if !insertOk {
          IncrementDropCounter(DROP_CPU_ACCOUNTING_UNTRACKED);
          return false;
        }
        runnableTaskCpu := runnableTaskCpu[pid := targetCpu];
        DecrementCpuRunnableDepth(oldCpu);
        IncrementCpuRunnableDepth(targetCpu);
        return true;
      }
      if !insertOk {
        IncrementDropCounter(DROP_CPU_ACCOUNTING_UNTRACKED);
        return false;
      }
      runnableTaskCpu := runnableTaskCpu[pid := targetCpu];
      IncrementCpuRunnableDepth(targetCpu);
      return true;
    }

    method MarkTaskRunning(pid: u32, currentCpu: u32)
      requires Shaped() && DepthCounts(cpuRunnableDepth[..], runnableTaskCpu)
      modifies `runnableTaskCpu, cpuRunnableDepth
      ensures DepthCounts(cpuRunnableDepth[..], runnableTaskCpu)
      ensures runnableTaskCpu == old(runnableTaskCpu) - {pid}
    {
      if pid == 0 {
        return;
      }
      if pid in runnableTaskCpu {
        var storedCpu := runnableTaskCpu[pid];
        DepthAfterRemove(cpuRunnableDepth[..], runnableTaskCpu, pid);
        DecrementCpuRunnableDepth(if ValidCpu(storedCpu) then storedCpu else currentCpu);
        runnableTaskCpu := runnableTaskCpu - {pid};
      }
    }

    method RemoveRunnableTaskIfPresent(pid: u32)
      requires Shaped() && DepthCounts(cpuRunnableDepth[..], runnableTaskCpu)
      modifies `runnableTaskCpu, cpuRunnableDepth
      ensures DepthCounts(cpuRunnableDepth[..], runnableTaskCpu)
      ensures runnableTaskCpu == old(runnableTaskCpu) - {pid}
    {
      if pid == 0 {
        return;
      }
      if pid in runnableTaskCpu {
        DepthAfterRemove(cpuRunnableDepth[..], runnableTaskCpu, pid);
        DecrementCpuRunnableDepth(runnableTaskCpu[pid]);
        runnableTaskCpu := runnableTaskCpu - {pid};
      }
    }

    // ---- handlers ---------------------------------------------------------------------

    // The accounting of an installed wakeup, by what it replaced.
    method AccountWakeup(pid: u32, targetCpu: u32, insertOk: bool, r: RecordResult, prev: Option<WakeupData>)
      requires Shaped() && ValidTid(pid)
      requires DepthCounts(cpuRunnableDepth[..], runnableTaskCpu)
      requires !r.InsertFailed? && (r.NewPending? || prev.Some?)
      modifies `runnableTaskCpu, `drops, cpuRunnableDepth, targetPendingWakeups
      ensures Shaped() && DepthCounts(cpuRunnableDepth[..], runnableTaskCpu)
      ensures runnableTaskCpu == PlacedOn(old(runnableTaskCpu), pid, targetCpu, insertOk)
      ensures var tracked := Tracked(old(runnableTaskCpu), pid, targetCpu, insertOk);
        && drops == Bump(Bump(old(drops), DROP_WAKEUP_DATA_REPLACED_ENTRY, !r.NewPending?),
                         DROP_CPU_ACCOUNTING_UNTRACKED, !tracked)
        && var slots := old(targetPendingWakeups[..]);
        && (r.NewPending? ==> targetPendingWakeups[..] == if tracked then Inc(slots, targetCpu) else slots)
        && (r.ReplacedSameCpu? ==> targetPendingWakeups[..] == slots)
        && (r.ReplacedMovedCpu? ==>
              targetPendingWakeups[..] == if tracked then Inc(Dec(slots, prev.value.targetCpu), targetCpu)
                                          else Dec(slots, prev.value.targetCpu))
    {
      hide DepthCounts, Inc, Dec;
      match r {
        case NewPending =>
          var tracked := MarkTaskRunnable(pid, targetCpu, insertOk);
          if tracked {
            IncrementTargetPending(targetCpu);
          }
        case ReplacedMovedCpu =>
          IncrementDropCounter(DROP_WAKEUP_DATA_REPLACED_ENTRY);
          DecrementTargetPending(prev.value.targetCpu);
          var tracked := MarkTaskRunnable(pid, targetCpu, insertOk);
          if tracked {
            IncrementTargetPending(targetCpu);
          }
        case ReplacedSameCpu =>
          var _ := MarkTaskRunnable(pid, targetCpu, insertOk);
          IncrementDropCounter(DROP_WAKEUP_DATA_REPLACED_ENTRY);
      }
    }

    method TrySchedWakeup(x: WakeupCtx) returns (ret: u32)
      requires Valid()
      modifies this, cpuRunnableDepth, targetPendingWakeups
      ensures Valid() && model == StepWakeup(old(model), x)
      ensures ret == if x.pid.None? || x.targetCpu.None? then 1 else 0
    {
      hide Coupled, Inv, StoreInv, Holds, DepthCounts, DropsMatch, Inc, Dec, PlacedOn, Tracked, Bump, StepWakeup;
      ghost var v, m := Contents(), model;
      CoupledElim(v, m);
      WakeupIgnored(m, x);
      if x.pid.None? || x.targetCpu.None? {
        return 1;
      }
      ret := 0;
      if x.pid.value <= 0 {
        return;
      }
      var pid, targetCpu := x.pid.value, x.targetCpu.value;
      if pid !in targetPids {
        return;
      }
      var seqno := NextWakeupSeq(pid, x.seqInsertOk);
      if seqno.None? {
        IncrementDropCounter(DROP_WAKEUP_DATA_INSERT_FAILED);
        CoupledInsertFailed(v, m, x);
        model := StepWakeup(m, x);
        return;
      }
      var data := WakeupData(x.now, targetCpu, x.wakerTid, seqno.value);
      CoupledAt(v, m, pid);
      var r, prev := RecordWakeup(pid, data, x.dataInsertOk);
      if r.InsertFailed? {
        IncrementDropCounter(DROP_WAKEUP_DATA_INSERT_FAILED);
        CoupledInsertFailed(v, m, x);
        model := StepWakeup(m, x);
        return;
      }
      AccountWakeup(pid, targetCpu, x.runnableInsertOk, r, prev);
      CoupledAccepted(v, m, x, Contents());
      model := StepWakeup(m, x);
    }

    function ReadCpuRunnableDepth(cpu: u32): u32
      requires Shaped()
      reads this, cpuRunnableDepth
    {
      if ValidCpu(cpu) then cpuRunnableDepth[cpu] else 0
    }

    // The switch handler once it holds a consumed wakeup: every exit counts the wakeup out
    // of both per-CPU accounts exactly once.
    method ReportConsumed(pid: u32, wakeup: WakeupData, x: SwitchCtx) returns (ret: u32)
      requires Shaped() && DepthCounts(cpuRunnableDepth[..], runnableTaskCpu)
      modifies `runnableTaskCpu, `drops, `events, cpuRunnableDepth, targetPendingWakeups
      ensures Shaped() && DepthCounts(cpuRunnableDepth[..], runnableTaskCpu)
      ensures runnableTaskCpu == old(runnableTaskCpu) - {pid}
      ensures targetPendingWakeups[..] == Dec(old(targetPendingWakeups[..]), wakeup.targetCpu)
      ensures drops == DropsAfter(old(drops), Consumed(OutcomeOf(targetPids, x, pid)))
      ensures events == old(events) + (if OutcomeOf(targetPids, x, pid).Emitted?
        then [EventFor(pid, wakeup, x, targetPendingWakeups[..], runnableTaskCpu)] else [])
      ensures ret == if OutcomeOf(targetPids, x, pid).ReadFailed? then 1 else 0
    {
      hide Bump, Dec;
      if pid !in targetPids {
        IncrementDropCounter(DROP_WAKEUP_DATA_STALE_ENTRY);
        DecrementTargetPending(wakeup.targetCpu);
        RemoveRunnableTaskIfPresent(pid);
        return 0;
      }
      if x.prevPid.None? {
        IncrementDropCounter(DROP_WAKEUP_DATA_CONSUMED_READ_FAILED);
        DecrementTargetPending(wakeup.targetCpu);
        RemoveRunnableTaskIfPresent(pid);
        return 1;
      }
      if x.prevState.None? {
        IncrementDropCounter(DROP_WAKEUP_DATA_CONSUMED_READ_FAILED);
        DecrementTargetPending(wakeup.targetCpu);
        RemoveRunnableTaskIfPresent(pid);
        return 1;
      }
      var switchPrevPid: u32 := if x.prevPid.value > 0 then x.prevPid.value else 0;
      MarkTaskRunning(pid, x.cpu);
      var observedRunnableDepth := ReadCpuRunnableDepth(x.cpu);
      DecrementTargetPending(wakeup.targetCpu);
      var pendingHere: u32 := if ValidCpu(x.cpu) then targetPendingWakeups[x.cpu] else 0;
      var latencyNs := SaturatingSub(x.now, wakeup.ts);
      if x.prio.None? {
        IncrementDropCounter(DROP_WAKEUP_DATA_CONSUMED_READ_FAILED);
        return 1;
      }
      if x.comm.None? {
        IncrementDropCounter(DROP_WAKEUP_DATA_CONSUMED_READ_FAILED);
        return 1;
      }
      if !x.reserveOk {
        IncrementDropCounter(DROP_RINGBUF_RESERVE_FAILED);
        return 0;
      }
      events := events + [SchedulerEvent(
        pid, x.cpu, wakeup.targetCpu, x.prio.value, wakeup.wakerTid, pendingHere, observedRunnableDepth,
        wakeup.ts, x.now, latencyNs, x.comm.value, switchPrevPid, x.prevState.value)];
      return 0;
    }

    method TrySchedSwitch(x: SwitchCtx) returns (ret: u32)
      requires Valid()
      modifies this, cpuRunnableDepth, targetPendingWakeups
      ensures Valid() && model == StepSwitch(old(model), x)
      ensures ret == 1 <==>
        x.nextPid.None? ||
        (Consumes(old(model.store), x) && SwitchFate(old(model.targets), x) == Consumed(ReadFailed))
    {
      hide Coupled, Inv, StoreInv, Holds, DepthCounts, DropsMatch, Bump, Dec, EventFor, StepSwitch, OutcomeOf, IsPending;
      ghost var v, m := Contents(), model;
      CoupledElim(v, m);
      if x.nextPid.None? {
        SwitchIgnored(m, x);
        return 1;
      }
      if x.nextPid.value <= 0 {
        SwitchIgnored(m, x);
        return 0;
      }
      var pid := x.nextPid.value;
      CoupledAt(v, m, pid);
      SwitchEvents(m, x);
      var r, out := ConsumePendingWakeup(pid, x.cursorInsertOk);
      match r {
        case CursorInsertFailed =>
          IncrementDropCounter(DROP_WAKEUP_DATA_INSERT_FAILED);
          var dropped := DropPendingWakeupAfterCursorFailure(pid, out.value);
          if dropped {
            DecrementTargetPending(out.value.targetCpu);
            RemoveRunnableTaskIfPresent(pid);
          }
          ret := 0;
        case ConsumeNone =>
          SwitchIgnored(m, x);
          return 0;
        case ConsumeOk =>
          ret := ReportConsumed(pid, out.value, x);
      }
      CoupledSwitched(v, m, x, Contents());
      model := StepSwitch(m, x);
    }

    method TrySchedMigrateTask(x: MigrateCtx) returns (ret: u32)
      requires Valid()
      modifies this, cpuRunnableDepth
      ensures Valid() && model == StepMigrate(old(model), x)
      ensures ret == 1 <==>
        x.pid.None? ||
        (x.pid.value > 0 && x.pid.value in old(targetPids) && (x.origCpu.None? || x.destCpu.None?))
    {
      hide Coupled, Inv, StoreInv, Holds, DepthCounts, DropsMatch, PlacedOn, Tracked, Bump, StepMigrate;
      ghost var v, m := Contents(), model;
      CoupledElim(v, m);
      MigrateIgnored(m, x);
      if x.pid.None? {
        return 1;
      }
      if x.pid.value <= 0 {
        return 0;
      }
      var pid := x.pid.value;
      if pid !in targetPids {
        return 0;
      }
      if x.origCpu.None? || x.destCpu.None? {
        return 1;
      }
      ret := 0;
      var newCpu := AsU32(x.destCpu.value);
      BumpNot(drops, DROP_CPU_ACCOUNTING_UNTRACKED);
      if pid in runnableTaskCpu && runnableTaskCpu[pid] != newCpu {
        var _ := MarkTaskRunnable(pid, newCpu, x.runnableInsertOk);
      }
      BumpNot(drops, DROP_RINGBUF_RESERVE_FAILED);
      if x.reserveOk {
        migrations := migrations + [MigrationEvent(pid, AsU32(x.origCpu.value), newCpu, x.now)];
      } else {
        IncrementDropCounter(DROP_RINGBUF_RESERVE_FAILED);
      }
      CoupledMigrated(v, m, x, Contents());
      model := StepMigrate(m, x);
    }

    method TrySchedProcessExit(tid: u32)
      requires Valid()
      modifies this, cpuRunnableDepth, targetPendingWakeups
      ensures Valid() && model == StepExit(old(model), tid)
    {
      hide Coupled, Inv, StoreInv, Holds, DepthCounts, DropsMatch, Dec;
      ghost var v, m := Contents(), model;
      CoupledElim(v, m);
      RemoveRunnableTaskIfPresent(tid);
      var wasPending, prev := RemoveForExit(tid);
      if wasPending {
        DecrementTargetPending(prev.value.targetCpu);
      }
      CoupledExited(v, m, tid, Contents());
      model := StepExit(m, tid);
    }

    // Userspace rewrites TARGET_PIDS.
    method SetTargets(targets: set<u32>)
      requires Valid()
      modifies this
      ensures Valid() && model == old(model).(targets := targets)
    {
      hide Inv, DepthCounts, Holds;
      RetargetKeepsInv(model, targets);
      targetPids := targets;
      model := model.(targets := targets);
    }
  }

  // Any sequence of handler invocations on a fresh tracer ends with the counters and
  // events that the run of the model prescribes: the depth array counts the reverse index
  // exactly, and the drop counters are the losses the event sequence defines.
  method Replay(trace: seq<Event>)
    returns (runnable: map<u32, u32>, depth: seq<u32>, pending: seq<u32>, events: seq<SchedulerEvent>,
             migrations: seq<MigrationEvent>, drops: seq<nat>)
    ensures runnable == Run(trace).runnable && pending == Run(trace).slots
    ensures events == Run(trace).events && migrations == Run(trace).migrations
    ensures forall t: u32 :: Lookup(runnable, t) == CountedOn(trace, t)
    ensures |depth| == MAX_TRACKED_CPUS
    ensures forall c :: 0 <= c < MAX_TRACKED_CPUS ==> depth[c] == CountAt(runnable, c)
    ensures |drops| == DROP_COUNTERS_MAX
    ensures |events| == Ended(trace, Consumed(Emitted))
    ensures drops[DROP_WAKEUP_DATA_REPLACED_ENTRY] == Ended(trace, Replaced)
    ensures drops[DROP_WAKEUP_DATA_STALE_ENTRY] == Ended(trace, Consumed(Stale))
    ensures drops[DROP_WAKEUP_DATA_CONSUMED_READ_FAILED] == Ended(trace, Consumed(ReadFailed))
    ensures drops[DROP_RINGBUF_RESERVE_FAILED] == Ended(trace, Consumed(RingFull)) + LostMigrations(trace)
    ensures drops[DROP_WAKEUP_DATA_INSERT_FAILED] == Ended(trace, CursorDropped) + Refused(trace)
    ensures drops[DROP_CPU_ACCOUNTING_UNTRACKED] == UntrackedCount(trace)
  {
    hide Coupled, Run, StepWakeup, StepSwitch, StepMigrate, StepExit, Inv, Ended, CountAt, CountedOn, Lookup;
    var tracer := new Tracer();
    RunEmpty();
    for i := 0 to |trace|
      invariant tracer.Valid() && tracer.model == Run(trace[..i])
      invariant fresh(tracer) && fresh(tracer.cpuRunnableDepth) && fresh(tracer.targetPendingWakeups)
    {
      assert trace[..i + 1] == trace[..i] + [trace[i]];
      RunSnoc(trace[..i], trace[i]);
      match trace[i] {
        case Wakeup(x) => var _ := tracer.TrySchedWakeup(x);
        case Switch(x) => var _ := tracer.TrySchedSwitch(x);
        case Migrate(x) => var _ := tracer.TrySchedMigrateTask(x);
        case Exit(t) => tracer.TrySchedProcessExit(t);
        case Retarget(ts) => tracer.SetTargets(ts);
      }
    }
    assert trace[..|trace|] == trace;
    CoupledElim(tracer.Contents(), tracer.model);
    LogCountsEnded(trace, Replaced);
    LogCountsEnded(trace, Consumed(Stale));
    LogCountsEnded(trace, Consumed(ReadFailed));
    LogCountsEnded(trace, Consumed(RingFull));
    LossesAreHistory(trace);
    UntrackedIsHistory(trace);
    forall t: u32
      ensures Lookup(Run(trace).runnable, t) == CountedOn(trace, t)
    {
      CountedIsRunnable(trace, t);
    }
    Conservation(trace);
    runnable, depth, pending := tracer.runnableTaskCpu, tracer.cpuRunnableDepth[..], tracer.targetPendingWakeups[..];
    events, migrations, drops := tracer.events, tracer.migrations, tracer.drops;
  }
}
