// What the scheduler tracepoint handlers do to the wakeup accounting, one handler at a
// time. The cursor map and the runnable-depth array of the implementation do not appear
// here: the first is replaced by the fate of each accepted wakeup, the second by a
// cardinality over `runnable`.
module SchedModel {
  import opened Types
  import opened Counting
  import opened WakeupStore

  const MAX_TRACKED_CPUS: nat := 16384

  datatype SchedulerEvent = SchedulerEvent(
    tid: u32, cpu: u32, wakeupTargetCpu: u32, prio: i32, wakerTid: u32,
    targetPendingWakeups: u32, observedRunnableDepth: nat,
    wakeupNs: u64, switchNs: u64, latencyNs: u64,
    comm: seq<u8>, switchPrevPid: u32, switchPrevState: i64)

  datatype MigrationEvent = MigrationEvent(tid: u32, fromCpu: u32, toCpu: u32, timestampNs: u64)

  // One invocation of a handler together with everything the kernel decides about it:
  // each tracepoint read that may fail, each map insert that may fail, clocks and ids.
  datatype WakeupCtx = WakeupCtx(
    pid: Option<i32>, targetCpu: Option<u32>, now: u64, wakerTid: u32,
    seqInsertOk: bool, dataInsertOk: bool, runnableInsertOk: bool)

  datatype SwitchCtx = SwitchCtx(
    nextPid: Option<i32>, cursorInsertOk: bool,
    prevPid: Option<i32>, prevState: Option<i64>, cpu: u32, now: u64,
    prio: Option<i32>, comm: Option<seq<u8>>, reserveOk: bool)

  datatype MigrateCtx = MigrateCtx(
    pid: Option<i32>, origCpu: Option<i32>, destCpu: Option<i32>, now: u64,
    runnableInsertOk: bool, reserveOk: bool)

  datatype Event =
    | Wakeup(wakeup: WakeupCtx)
    | Switch(switch: SwitchCtx)
    | Migrate(migrate: MigrateCtx)
    | Exit(tid: u32)
    | Retarget(targets: set<u32>)  // userspace refreshes TARGET_PIDS

  datatype Model = Model(
    targets: set<u32>,
    store: Store,            // accepted wakeups and the record stored for each TID
    seqs: map<u32, u32>,
    runnable: map<u32, u32>, // TID -> CPU it is counted on
    slots: seq<u32>,         // pending wakeups per target CPU
    events: seq<SchedulerEvent>,
    origin: seq<nat>,        // origin[k]: position in the log of the wakeup behind events[k]
    migrations: seq<MigrationEvent>,
    lostMigrations: nat,
    insertFailures: nat,
    untracked: nat)

  predicate ValidCpu(cpu: u32) { cpu < MAX_TRACKED_CPUS }

  function Initial(): (m: Model) {
    Model({}, Store(map[], []), map[], map[], seq(MAX_TRACKED_CPUS, _ => 0), [], [], [], 0, 0, 0)
  }

  // ---- the invariant ------------------------------------------------------------------

  // Every TID counted as runnable has a pending wakeup and sits on an in-range CPU.
  ghost predicate RunnableInv(runnable: map<u32, u32>, p: map<u32, u32>) {
    forall t :: t in runnable ==> t in p && ValidCpu(runnable[t])
  }

  ghost predicate SlotsInv(slots: seq<u32>, p: map<u32, u32>) {
    && |slots| == MAX_TRACKED_CPUS
    && forall c :: 0 <= c < MAX_TRACKED_CPUS ==> slots[c] <= CountAt(p, c)
  }

  ghost predicate OriginInv(log: seq<Accepted>, events: seq<SchedulerEvent>, origin: seq<nat>) {
    && |events| == |origin| == Fates(log, Consumed(Emitted))
    && (forall k :: 0 <= k < |origin| ==> BehindEvent(log, events[k], origin[k]))
    && (forall j, k :: 0 <= j < k < |origin| ==> origin[j] != origin[k])
  }

  // The event reports exactly the i-th accepted wakeup, which ended as emitted.
  ghost predicate BehindEvent(log: seq<Accepted>, e: SchedulerEvent, i: nat) {
    && i < |log|
    && log[i].fate == Consumed(Emitted)
    && e.tid == log[i].tid
    && e.wakeupNs == log[i].data.ts
    && e.wakeupTargetCpu == log[i].data.targetCpu
    && e.wakerTid == log[i].data.wakerTid
    && e.latencyNs == SaturatingSub(e.switchNs, e.wakeupNs)
  }

  ghost predicate Inv(m: Model) {
    && StoreInv(m.store)
    && RunnableInv(m.runnable, Pending(m.store))
    && SlotsInv(m.slots, Pending(m.store))
    && Fates(m.store.log, Waiting) == |Pending(m.store)|
    && OriginInv(m.store.log, m.events, m.origin)
  }

  // ---- counters -----------------------------------------------------------------------

  function Inc(slots: seq<u32>, cpu: u32): (r: seq<u32>)
    requires |slots| == MAX_TRACKED_CPUS
    ensures |r| == |slots|
  {
    if ValidCpu(cpu) && slots[cpu] < U32_MAX then slots[cpu := slots[cpu] + 1] else slots
  }

  function Dec(slots: seq<u32>, cpu: u32): (r: seq<u32>)
    requires |slots| == MAX_TRACKED_CPUS
    ensures |r| == |slots|
  {
    if ValidCpu(cpu) && slots[cpu] > 0 then slots[cpu := slots[cpu] - 1] else slots
  }

  // ---- handlers -----------------------------------------------------------------------

  // Whether asking to count t on this CPU leaves it counted there.
  predicate Tracked(runnable: map<u32, u32>, t: u32, cpu: u32, insertOk: bool) {
    ValidCpu(cpu) && ((t in runnable && runnable[t] == cpu) || insertOk)
  }

  function PlacedOn(runnable: map<u32, u32>, t: u32, cpu: u32, insertOk: bool): map<u32, u32> {
    if Tracked(runnable, t, cpu, insertOk) then runnable[t := cpu] else runnable
  }

  function NextSeq(seqs: map<u32, u32>, t: u32): u32 {
    if t !in seqs then 1 else if seqs[t] == U32_MAX then 0 else seqs[t] + 1
  }

  // Whether the wakeup handler gets as far as touching the wakeup maps.
  predicate Relevant(targets: set<u32>, x: WakeupCtx) {
    && x.pid.Some? && x.targetCpu.Some?
    && x.pid.value > 0 && x.pid.value in targets
  }

  function DataOf(seqs: map<u32, u32>, x: WakeupCtx): WakeupData
    requires x.pid.Some? && x.pid.value > 0 && x.targetCpu.Some?
  {
    WakeupData(x.now, x.targetCpu.value, x.wakerTid, NextSeq(seqs, x.pid.value))
  }

  function StepWakeup(m: Model, x: WakeupCtx): (r: Model)
    requires Indexed(m.store) && |m.slots| == MAX_TRACKED_CPUS
  {
    if !Relevant(m.targets, x) then m
    else if !x.seqInsertOk then m.(insertFailures := m.insertFailures + 1)
    else
      var t, cpu := x.pid.value, x.targetCpu.value;
      var m1 := m.(seqs := m.seqs[t := NextSeq(m.seqs, t)]);
      if !x.dataInsertOk then m1.(insertFailures := m.insertFailures + 1)
      else
        var tracked := Tracked(m.runnable, t, cpu, x.runnableInsertOk);
        m1.(store := Accept(m.store, t, DataOf(m.seqs, x)),
            runnable := PlacedOn(m.runnable, t, cpu, x.runnableInsertOk),
            untracked := m.untracked + (if tracked then 0 else 1),
            slots := SlotsAfterWakeup(m.slots, m.store, t, cpu, tracked))
  }

  function SlotsAfterWakeup(slots: seq<u32>, s: Store, t: u32, cpu: u32, tracked: bool): (r: seq<u32>)
    requires Indexed(s) && |slots| == MAX_TRACKED_CPUS
    ensures |r| == |slots|
  {
    if IsPending(s, t) then
      var from := s.log[s.ids[t]].data.targetCpu;
      if from == cpu then slots
      else if tracked then Inc(Dec(slots, from), cpu) else Dec(slots, from)
    else if tracked then Inc(slots, cpu) else slots
  }

  // The pending wakeup of t meets its end: t stops being counted anywhere.
  function Retire(m: Model, t: u32, fate: Fate): (r: Model)
    requires Indexed(m.store) && IsPending(m.store, t) && |m.slots| == MAX_TRACKED_CPUS
  {
    m.(store := Finish(m.store, t, fate),
       runnable := m.runnable - {t},
       slots := Dec(m.slots, m.store.log[m.store.ids[t]].data.targetCpu))
  }

  function OutcomeOf(targets: set<u32>, x: SwitchCtx, t: u32): Outcome {
    if t !in targets then Stale
    else if x.prevPid.None? || x.prevState.None? || x.prio.None? || x.comm.None? then ReadFailed
    else if !x.reserveOk then RingFull
    else Emitted
  }

  // The event for a switch to t, read off the counts in which t no longer takes part.
  ghost function EventFor(t: u32, d: WakeupData, x: SwitchCtx, slots: seq<u32>, runnable: map<u32, u32>): SchedulerEvent
    requires x.prevPid.Some? && x.prevState.Some? && x.prio.Some? && x.comm.Some?
    requires |slots| == MAX_TRACKED_CPUS
  {
    SchedulerEvent(
      t, x.cpu, d.targetCpu, x.prio.value, d.wakerTid,
      if ValidCpu(x.cpu) then slots[x.cpu] else 0,
      if ValidCpu(x.cpu) then CountAt(runnable, x.cpu) else 0,
      d.ts, x.now, SaturatingSub(x.now, d.ts),
      x.comm.value, if x.prevPid.value > 0 then x.prevPid.value else 0, x.prevState.value)
  }

  // Whether the switch handler finds a wakeup to consume.
  predicate Consumes(s: Store, x: SwitchCtx)
    requires Indexed(s)
  {
    x.nextPid.Some? && x.nextPid.value > 0 && IsPending(s, x.nextPid.value)
  }

  ghost function StepSwitch(m: Model, x: SwitchCtx): (r: Model)
    requires Indexed(m.store) && |m.slots| == MAX_TRACKED_CPUS
  {
    if !Consumes(m.store, x) then m
    else
      var t := x.nextPid.value;
      if !x.cursorInsertOk then
        Retire(m, t, CursorDropped).(insertFailures := m.insertFailures + 1)
      else
        var outcome := OutcomeOf(m.targets, x, t);
        var after := Retire(m, t, Consumed(outcome));
        if outcome.Emitted? then
          after.(events := m.events + [EventFor(t, m.store.log[m.store.ids[t]].data, x, after.slots, after.runnable)],
                 origin := m.origin + [m.store.ids[t]])
        else after
  }

  function StepMigrate(m: Model, x: MigrateCtx): (r: Model) {
    if x.pid.None? || x.pid.value <= 0 || x.pid.value !in m.targets
       || x.origCpu.None? || x.destCpu.None? then m
    else
      var t, dest := x.pid.value, AsU32(x.destCpu.value);
      var moves := t in m.runnable && m.runnable[t] != dest;
      var m1 := if moves then
                  m.(runnable := PlacedOn(m.runnable, t, dest, x.runnableInsertOk),
                     untracked := m.untracked
                       + (if Tracked(m.runnable, t, dest, x.runnableInsertOk) then 0 else 1))
                else m;
      if x.reserveOk then
        m1.(migrations := m.migrations
              + [MigrationEvent(t, AsU32(x.origCpu.value), dest, x.now)])
      else m1.(lostMigrations := m.lostMigrations + 1)
  }

  function StepExit(m: Model, t: u32): (r: Model)
    requires Indexed(m.store) && |m.slots| == MAX_TRACKED_CPUS
  {
    if IsPending(m.store, t) then
      Retire(m, t, Exited).(seqs := m.seqs - {t})
    else
      m.(store := Forget(m.store, t), runnable := m.runnable - {t}, seqs := m.seqs - {t})
  }

  ghost function Step(m: Model, e: Event): (r: Model)
    requires Inv(m)
  {
    match e
    case Wakeup(x) => StepWakeup(m, x)
    case Switch(x) => StepSwitch(m, x)
    case Migrate(x) => StepMigrate(m, x)
    case Exit(t) => StepExit(m, t)
    case Retarget(ts) => m.(targets := ts)
  }

  // ---- every handler keeps the invariant ----------------------------------------------

  lemma SizeAfterPut(p: map<u32, u32>, t: u32, c: u32)
    ensures |p[t := c]| == |p| + (if t in p then 0 else 1)
  {
    assert p[t := c].Keys == p.Keys + {t};
  }

  lemma SizeAfterRemove(p: map<u32, u32>, t: u32)
    requires t in p
    ensures |p - {t}| == |p| - 1
  {
    assert p.Keys == (p - {t}).Keys + {t};
  }

  lemma SlotsAfterWakeupBound(slots: seq<u32>, s: Store, t: u32, cpu: u32, tracked: bool)
    requires StoreInv(s) && SlotsInv(slots, Pending(s))
    ensures SlotsInv(SlotsAfterWakeup(slots, s, t, cpu, tracked), Pending(s)[t := cpu])
  {
    var p := Pending(s);
    forall c | 0 <= c < MAX_TRACKED_CPUS
      ensures SlotsAfterWakeup(slots, s, t, cpu, tracked)[c] <= CountAt(p[t := cpu], c)
    {
      CountAfterPut(p, t, cpu, c);
      if t in p {
        CountPositive(p, t);
      }
    }
  }

  lemma SlotsAfterDecBound(slots: seq<u32>, p: map<u32, u32>, t: u32)
    requires SlotsInv(slots, p) && t in p
    ensures SlotsInv(Dec(slots, p[t]), p - {t})
  {
    forall c | 0 <= c < MAX_TRACKED_CPUS
      ensures Dec(slots, p[t])[c] <= CountAt(p - {t}, c)
    {
      CountAfterRemove(p, t, c);
    }
  }

  // Records other than emitted ones may change fate freely without disturbing the events.
  lemma OriginAfterMark(log: seq<Accepted>, events: seq<SchedulerEvent>, origin: seq<nat>, i: nat, f: Fate)
    requires OriginInv(log, events, origin)
    requires i < |log| && log[i].fate.Waiting? && f != Consumed(Emitted)
    ensures OriginInv(Mark(log, i, f), events, origin)
  {
    FatesMark(log, i, f, Consumed(Emitted));
    forall k | 0 <= k < |origin|
      ensures BehindEvent(Mark(log, i, f), events[k], origin[k])
    {
      assert BehindEvent(log, events[k], origin[k]);
    }
  }

  lemma OriginAfterAccept(s: Store, events: seq<SchedulerEvent>, origin: seq<nat>, t: u32, data: WakeupData)
    requires StoreInv(s) && OriginInv(s.log, events, origin)
    ensures OriginInv(Accept(s, t, data).log, events, origin)
  {
    var r := Accept(s, t, data);
    FatesAccept(s, t, data, Consumed(Emitted));
    forall k | 0 <= k < |origin|
      ensures BehindEvent(r.log, events[k], origin[k])
    {
      assert BehindEvent(s.log, events[k], origin[k]);
    }
  }

  lemma OriginAfterEmit(log: seq<Accepted>, events: seq<SchedulerEvent>, origin: seq<nat>, i: nat, e: SchedulerEvent)
    requires OriginInv(log, events, origin)
    requires i < |log| && log[i].fate.Waiting?
    requires BehindEvent(Mark(log, i, Consumed(Emitted)), e, i)
    ensures OriginInv(Mark(log, i, Consumed(Emitted)), events + [e], origin + [i])
  {
    FatesMark(log, i, Consumed(Emitted), Consumed(Emitted));
    forall k | 0 <= k < |origin|
      ensures BehindEvent(Mark(log, i, Consumed(Emitted)), events[k], origin[k]) && origin[k] != i
    {
      assert BehindEvent(log, events[k], origin[k]);
    }
  }

  lemma WakeupKeepsInv(m: Model, x: WakeupCtx)
    requires Inv(m)
    ensures Inv(StepWakeup(m, x))
  {
    if Relevant(m.targets, x) && x.seqInsertOk && x.dataInsertOk {
      var t, cpu, data := x.pid.value, x.targetCpu.value, DataOf(m.seqs, x);
      AcceptKeepsInv(m.store, t, data);
      FatesAccept(m.store, t, data, Waiting);
      SizeAfterPut(Pending(m.store), t, cpu);
      SlotsAfterWakeupBound(m.slots, m.store, t, cpu, Tracked(m.runnable, t, cpu, x.runnableInsertOk));
      OriginAfterAccept(m.store, m.events, m.origin, t, data);
    }
  }

  // What retiring a wakeup keeps, apart from the event history.
  lemma RetireKeeps(m: Model, t: u32, f: Fate)
    requires Inv(m) && IsPending(m.store, t) && !f.Waiting? && !f.Replaced?
    ensures StoreInv(Retire(m, t, f).store)
    ensures Pending(Retire(m, t, f).store) == Pending(m.store) - {t}
    ensures RunnableInv(m.runnable - {t}, Pending(m.store) - {t})
    ensures SlotsInv(Retire(m, t, f).slots, Pending(m.store) - {t})
    ensures Fates(Retire(m, t, f).store.log, Waiting) == |Pending(m.store) - {t}|
  {
    FinishKeepsInv(m.store, t, f);
    FatesMark(m.store.log, m.store.ids[t], f, Waiting);
    SizeAfterRemove(Pending(m.store), t);
    SlotsAfterDecBound(m.slots, Pending(m.store), t);
  }

  lemma SwitchKeepsInv(m: Model, x: SwitchCtx)
    requires Inv(m)
    ensures Inv(StepSwitch(m, x))
  {
    if Consumes(m.store, x) {
      var t := x.nextPid.value;
      var i := m.store.ids[t];
      var f := if x.cursorInsertOk then Consumed(OutcomeOf(m.targets, x, t)) else CursorDropped;
      RetireKeeps(m, t, f);
      if f == Consumed(Emitted) {
        assert StoredRecord(m.store, t);
        var after := Retire(m, t, f);
        OriginAfterEmit(m.store.log, m.events, m.origin, i,
          EventFor(t, m.store.log[i].data, x, after.slots, after.runnable));
      } else {
        OriginAfterMark(m.store.log, m.events, m.origin, i, f);
      }
    }
  }

  lemma ExitKeepsInv(m: Model, t: u32)
    requires Inv(m)
    ensures Inv(StepExit(m, t))
  {
    if IsPending(m.store, t) {
      RetireKeeps(m, t, Exited);
      OriginAfterMark(m.store.log, m.events, m.origin, m.store.ids[t], Exited);
    } else {
      ForgetKeepsInv(m.store, t);
    }
  }

  lemma MigrateKeepsInv(m: Model, x: MigrateCtx)
    requires Inv(m)
    ensures Inv(StepMigrate(m, x))
    ensures StepMigrate(m, x).runnable.Keys == m.runnable.Keys
  {
    hide StoreInv, SlotsInv, OriginInv, Pending, Fates;
  }

  lemma RetargetKeepsInv(m: Model, targets: set<u32>)
    requires Inv(m)
    ensures Inv(m.(targets := targets))
  {
  }

  lemma StepKeepsInv(m: Model, e: Event)
    requires Inv(m)
    ensures Inv(Step(m, e))
  {
    hide Inv, StepWakeup, StepSwitch, StepMigrate, StepExit;
    match e
    case Wakeup(x) => WakeupKeepsInv(m, x);
    case Switch(x) => SwitchKeepsInv(m, x);
    case Exit(t) => ExitKeepsInv(m, t);
    case Migrate(x) => MigrateKeepsInv(m, x);
    case Retarget(ts) => RetargetKeepsInv(m, ts);
  }

  lemma InitialInv()
    ensures Inv(Initial())
    ensures Pending(Initial().store) == map[]
  {
    assert Pending(Initial().store) == map[];
  }
}
