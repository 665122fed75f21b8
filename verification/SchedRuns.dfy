// What holds after every sequence of handler invocations, with any combination of failed
// reads, failed inserts, out-of-range CPUs, migrations and target refreshes. Where a
// claim is about pending wakeups it is tied to a definition over the bare event sequence.
module SchedRuns {
  import opened Types
  import opened Counting
  import opened WakeupStore
  import opened SchedModel

  ghost function Run(trace: seq<Event>): (m: Model)
    ensures Inv(m)
  {
    if trace == [] then
      InitialInv();
      Initial()
    else
      var before := Run(trace[..|trace| - 1]);
      StepKeepsInv(before, trace[|trace| - 1]);
      Step(before, trace[|trace| - 1])
  }

  lemma RunEmpty()
    ensures Run([]) == Initial()
  {
  }

  lemma RunSnoc(trace: seq<Event>, e: Event)
    ensures Run(trace + [e]) == Step(Run(trace), e)
  {
    hide Step, Inv;
    assert (trace + [e])[..|trace|] == trace;
  }

  // ---- the pending set, from the event sequence alone ----------------------------------

  function TargetsAfter(trace: seq<Event>): set<u32> {
    if trace == [] then {}
    else if trace[|trace| - 1].Retarget? then trace[|trace| - 1].targets
    else TargetsAfter(trace[..|trace| - 1])
  }

  // e, arriving after `before`, installs a wakeup record for t.
  predicate Accepts(before: seq<Event>, e: Event, t: u32) {
    && e.Wakeup? && e.wakeup.pid == Some(t) && t > 0 && t in TargetsAfter(before)
    && e.wakeup.targetCpu.Some? && e.wakeup.seqInsertOk && e.wakeup.dataInsertOk
  }

  // e switches t in, or ends it.
  predicate Clears(e: Event, t: u32) {
    match e
    case Switch(x) => x.nextPid == Some(t) && t > 0
    case Exit(u) => u == t
    case _ => false
  }

  // Some wakeup of t was accepted and t was neither switched in nor ended since.
  predicate AwaitsSwitch(trace: seq<Event>, t: u32) {
    trace != [] &&
    var before, e := trace[..|trace| - 1], trace[|trace| - 1];
    Accepts(before, e, t) || (AwaitsSwitch(before, t) && !Clears(e, t))
  }

  // The i-th event installed a wakeup of t that nothing has cleared since.
  ghost predicate InstalledAt(trace: seq<Event>, t: u32, i: nat) {
    && i < |trace| && Accepts(trace[..i], trace[i], t)
    && forall j :: i < j < |trace| ==> !Clears(trace[j], t)
  }

  lemma InstalledSnoc(trace: seq<Event>, t: u32, i: nat)
    requires 0 <= i < |trace| - 1
    ensures InstalledAt(trace, t, i) <==>
              InstalledAt(trace[..|trace| - 1], t, i) && !Clears(trace[|trace| - 1], t)
  {
    hide Accepts, Clears;
    var n := |trace| - 1;
    assert trace[..n][..i] == trace[..i];
    if InstalledAt(trace[..n], t, i) && !Clears(trace[n], t) {
      forall j | i < j < |trace|
        ensures !Clears(trace[j], t)
      {
        assert j < n ==> trace[..n][j] == trace[j];
      }
    }
  }

  // The recursion above in closed form.
  lemma {:induction false} AwaitsSwitchMeans(trace: seq<Event>, t: u32)
    ensures AwaitsSwitch(trace, t) <==> exists i :: InstalledAt(trace, t, i)
  {
    hide Accepts, Clears;
    if trace != [] {
      var n := |trace| - 1;
      AwaitsSwitchMeans(trace[..n], t);
      if Accepts(trace[..n], trace[n], t) {
        assert InstalledAt(trace, t, n);
      }
      forall i: nat | i < n
        ensures InstalledAt(trace, t, i) <==> InstalledAt(trace[..n], t, i) && !Clears(trace[n], t)
      {
        InstalledSnoc(trace, t, i);
      }
    }
  }

  lemma {:induction false} TargetsMatch(trace: seq<Event>)
    ensures Run(trace).targets == TargetsAfter(trace)
  {
    hide Step, Inv;
    if trace != [] {
      TargetsMatch(trace[..|trace| - 1]);
      StepTargets(Run(trace[..|trace| - 1]), trace[|trace| - 1]);
    }
  }

  lemma StepTargets(m: Model, e: Event)
    requires Inv(m)
    ensures Step(m, e).targets == if e.Retarget? then e.targets else m.targets
  {
    hide Inv, Accept, SlotsAfterWakeup, Finish, Dec, EventFor, PlacedOn;
  }

  // The part of a step that concerns accepted wakeups.
  function StoreAfter(s: Store, targets: set<u32>, seqs: map<u32, u32>, e: Event): Store
    requires Indexed(s)
  {
    match e
    case Wakeup(x) =>
      if Relevant(targets, x) && x.seqInsertOk && x.dataInsertOk
      then Accept(s, x.pid.value, DataOf(seqs, x)) else s
    case Switch(x) =>
      if Consumes(s, x) then Finish(s, x.nextPid.value, SwitchFate(targets, x)) else s
    case Exit(t) =>
      if IsPending(s, t) then Finish(s, t, Exited) else Forget(s, t)
    case _ => s
  }

  function SwitchFate(targets: set<u32>, x: SwitchCtx): Fate
    requires x.nextPid.Some? && x.nextPid.value > 0
  {
    if x.cursorInsertOk then Consumed(OutcomeOf(targets, x, x.nextPid.value)) else CursorDropped
  }

  lemma StoreStep(m: Model, e: Event)
    requires Inv(m)
    ensures StoreInv(m.store)
    ensures Step(m, e).store == StoreAfter(m.store, m.targets, m.seqs, e)
  {
    hide Accept, Finish, SlotsAfterWakeup, Dec, EventFor, PlacedOn, OriginInv, StoredRecord, RunnableInv;
  }

  // What an event does to the set of pending TIDs.
  ghost predicate PendingMoves(before: seq<Event>, e: Event, s: Store, r: Store) {
    Indexed(s) && Indexed(r) &&
    forall t: u32 :: t in Pending(r) <==> Accepts(before, e, t) || (t in Pending(s) && !Clears(e, t))
  }

  lemma PendingStep(s: Store, seqs: map<u32, u32>, e: Event, before: seq<Event>)
    requires StoreInv(s)
    ensures PendingMoves(before, e, s, StoreAfter(s, TargetsAfter(before), seqs, e))
  {
    hide Accept, Finish, StoredRecord, TargetsAfter, Pending;
    PendingMember(s);
    match e
    case Wakeup(x) =>
      if Relevant(TargetsAfter(before), x) && x.seqInsertOk && x.dataInsertOk {
        PendingAfterAccept(s, x.pid.value, DataOf(seqs, x));
      }
    case Switch(x) =>
      if Consumes(s, x) {
        PendingAfterFinish(s, x.nextPid.value, SwitchFate(TargetsAfter(before), x));
      }
    case Exit(t) =>
      if IsPending(s, t) {
        PendingAfterFinish(s, t, Exited);
      } else {
        ForgetKeepsInv(s, t);
      }
    case Migrate(_) | Retarget(_) =>
  }

  // The accounting's pending set is the one the event sequence defines.
  lemma {:induction false} PendingIsHistory(trace: seq<Event>, t: u32)
    ensures t in Pending(Run(trace).store) <==> AwaitsSwitch(trace, t)
  {
    if trace == [] {
      InitialInv();
    } else {
      hide Step, StoreAfter, Pending, Accepts, Clears;
      var before, e := trace[..|trace| - 1], trace[|trace| - 1];
      PendingIsHistory(before, t);
      TargetsMatch(before);
      StoreStep(Run(before), e);
      PendingStep(Run(before).store, Run(before).seqs, e, before);
    }
  }

  // ---- conservation --------------------------------------------------------------------

  // Every field the switch handler reads for its event could be read.
  predicate AllRead(x: SwitchCtx) {
    x.prevPid.Some? && x.prevState.Some? && x.prio.Some? && x.comm.Some?
  }

  // The fate that e gives to a wakeup waiting after `before`, if it gives any.
  function EndedBy(before: seq<Event>, e: Event): Option<Fate> {
    match e
    case Wakeup(x) =>
      if AcceptsAny(before, e) && AwaitsSwitch(before, x.pid.value)
      then Some(Replaced) else None
    case Switch(x) =>
      if x.nextPid.None? || x.nextPid.value <= 0 || !AwaitsSwitch(before, x.nextPid.value) then None
      else if !x.cursorInsertOk then Some(CursorDropped)
      else if x.nextPid.value !in TargetsAfter(before) then Some(Consumed(Stale))
      else if !AllRead(x) then Some(Consumed(ReadFailed))
      else if !x.reserveOk then Some(Consumed(RingFull))
      else Some(Consumed(Emitted))
    case Exit(t) => if AwaitsSwitch(before, t) then Some(Exited) else None
    case _ => None
  }

  function Ended(trace: seq<Event>, f: Fate): nat {
    if trace == [] then 0
    else
      var before := trace[..|trace| - 1];
      Ended(before, f) + (if EndedBy(before, trace[|trace| - 1]) == Some(f) then 1 else 0)
  }

  function AcceptedCount(trace: seq<Event>): nat {
    if trace == [] then 0
    else
      var before, e := trace[..|trace| - 1], trace[|trace| - 1];
      AcceptedCount(before) + (if AcceptsAny(before, e) then 1 else 0)
  }

  predicate AcceptsAny(before: seq<Event>, e: Event) {
    e.Wakeup? && e.wakeup.pid.Some? && e.wakeup.pid.value > 0 && Accepts(before, e, e.wakeup.pid.value)
  }

  lemma LogStep(s: Store, seqs: map<u32, u32>, e: Event, before: seq<Event>)
    requires StoreInv(s)
    ensures |StoreAfter(s, TargetsAfter(before), seqs, e).log| == |s.log| + (if AcceptsAny(before, e) then 1 else 0)
  {
    hide TargetsAfter;
  }

  lemma {:induction false} LogCountsAccepted(trace: seq<Event>)
    ensures |Run(trace).store.log| == AcceptedCount(trace)
  {
    hide Step, StoreAfter, Inv, Accepts;
    if trace != [] {
      var before := trace[..|trace| - 1];
      LogCountsAccepted(before);
      TargetsMatch(before);
      StoreStep(Run(before), trace[|trace| - 1]);
      LogStep(Run(before).store, Run(before).seqs, trace[|trace| - 1], before);
    }
  }

  lemma FatesStep(s: Store, seqs: map<u32, u32>, e: Event, before: seq<Event>, f: Fate)
    requires StoreInv(s) && !f.Waiting?
    requires forall t: u32 :: IsPending(s, t) <==> AwaitsSwitch(before, t)
    ensures Fates(StoreAfter(s, TargetsAfter(before), seqs, e).log, f)
         == Fates(s.log, f) + (if EndedBy(before, e) == Some(f) then 1 else 0)
  {
    hide TargetsAfter, AwaitsSwitch, StoredRecord, Fates;
    match e
    case Wakeup(x) =>
      if Relevant(TargetsAfter(before), x) && x.seqInsertOk && x.dataInsertOk {
        FatesAccept(s, x.pid.value, DataOf(seqs, x), f);
      }
    case Switch(x) =>
      if Consumes(s, x) {
        FatesMark(s.log, s.ids[x.nextPid.value], SwitchFate(TargetsAfter(before), x), f);
      }
    case Exit(t) =>
      if IsPending(s, t) {
        FatesMark(s.log, s.ids[t], Exited, f);
      }
    case Migrate(_) | Retarget(_) =>
  }

  lemma {:induction false} LogCountsEnded(trace: seq<Event>, f: Fate)
    requires !f.Waiting?
    ensures Fates(Run(trace).store.log, f) == Ended(trace, f)
  {
    hide Step, StoreAfter, Inv, Pending, AwaitsSwitch, EndedBy;
    if trace != [] {
      var before, e := trace[..|trace| - 1], trace[|trace| - 1];
      LogCountsEnded(before, f);
      TargetsMatch(before);
      StoreStep(Run(before), e);
      forall t: u32
        ensures IsPending(Run(before).store, t) <==> AwaitsSwitch(before, t)
      {
        PendingIsHistory(before, t);
        PendingMember(Run(before).store);
      }
      FatesStep(Run(before).store, Run(before).seqs, e, before, f);
    }
  }

  function ConsumedCount(trace: seq<Event>): nat {
    Ended(trace, Consumed(Emitted)) + Ended(trace, Consumed(Stale))
    + Ended(trace, Consumed(ReadFailed)) + Ended(trace, Consumed(RingFull))
  }

  // Accepted wakeups are all accounted for, and consumed ones split into emitted events
  // and the three ways of losing one.
  lemma Conservation(trace: seq<Event>)
    ensures AcceptedCount(trace)
         == |Pending(Run(trace).store)| + Ended(trace, Replaced) + Ended(trace, Exited)
            + Ended(trace, CursorDropped) + ConsumedCount(trace)
    ensures |Run(trace).events| == Ended(trace, Consumed(Emitted))
  {
    LogCountsAccepted(trace);
    FatesPartition(Run(trace).store.log);
    LogCountsEnded(trace, Replaced);
    LogCountsEnded(trace, Exited);
    LogCountsEnded(trace, CursorDropped);
    LogCountsEnded(trace, Consumed(Emitted));
    LogCountsEnded(trace, Consumed(Stale));
    LogCountsEnded(trace, Consumed(ReadFailed));
    LogCountsEnded(trace, Consumed(RingFull));
  }

  // ---- losses that are not fates -------------------------------------------------------

  // A wakeup of a target whose sequence number or record could not be stored.
  predicate Refuses(targets: set<u32>, e: Event) {
    && e.Wakeup? && e.wakeup.pid.Some? && e.wakeup.pid.value > 0 && e.wakeup.pid.value in targets
    && e.wakeup.targetCpu.Some? && !(e.wakeup.seqInsertOk && e.wakeup.dataInsertOk)
  }

  // A migration of a target that found no room in the ring buffer.
  predicate LosesMigration(targets: set<u32>, e: Event) {
    && e.Migrate? && !e.migrate.reserveOk
    && var x := e.migrate;
    x.pid.Some? && x.pid.value > 0 && x.pid.value in targets && x.origCpu.Some? && x.destCpu.Some?
  }

  function Refused(trace: seq<Event>): nat {
    if trace == [] then 0
    else
      var before := trace[..|trace| - 1];
      Refused(before) + (if Refuses(TargetsAfter(before), trace[|trace| - 1]) then 1 else 0)
  }

  function LostMigrations(trace: seq<Event>): nat {
    if trace == [] then 0
    else
      var before := trace[..|trace| - 1];
      LostMigrations(before) + (if LosesMigration(TargetsAfter(before), trace[|trace| - 1]) then 1 else 0)
  }

  lemma LossStep(m: Model, e: Event)
    requires Inv(m)
    ensures Step(m, e).lostMigrations == m.lostMigrations + (if LosesMigration(m.targets, e) then 1 else 0)
    ensures Step(m, e).insertFailures == m.insertFailures
      + (if Refuses(m.targets, e) || (e.Switch? && Consumes(m.store, e.switch) && !e.switch.cursorInsertOk) then 1 else 0)
  {
    hide Accept, Finish, SlotsAfterWakeup, Dec, EventFor, PlacedOn, OriginInv, StoredRecord, RunnableInv;
  }

  // The remaining drop counters, from the event sequence alone.
  lemma {:induction false} LossesAreHistory(trace: seq<Event>)
    ensures Run(trace).lostMigrations == LostMigrations(trace)
    ensures Run(trace).insertFailures == Refused(trace) + Ended(trace, CursorDropped)
  {
    hide Step, StoreInv, SlotsInv, OriginInv, RunnableInv, Pending, AwaitsSwitch, Refuses, LosesMigration;
    if trace == [] {
      RunEmpty();
    } else {
      var before, e := trace[..|trace| - 1], trace[|trace| - 1];
      LossesAreHistory(before);
      TargetsMatch(before);
      LossStep(Run(before), e);
      if e.Switch? {
        SwitchDrops(before, e.switch);
      }
    }
  }

  lemma SwitchDrops(before: seq<Event>, x: SwitchCtx)
    ensures Consumes(Run(before).store, x) && !x.cursorInsertOk
       <==> EndedBy(before, Switch(x)) == Some(CursorDropped)
    ensures !Refuses(TargetsAfter(before), Switch(x))
  {
    hide Step, SlotsInv, OriginInv, RunnableInv, Pending, AwaitsSwitch, StoredRecord, OutcomeOf;
    if x.nextPid.Some? && x.nextPid.value > 0 {
      PendingIsHistory(before, x.nextPid.value);
      PendingMember(Run(before).store);
    }
  }

  // ---- a fate is final: nothing is consumed twice --------------------------------------

  // Later accepted wakeups are appended and a fate, once met, stays.
  ghost predicate LogExtends(a: seq<Accepted>, b: seq<Accepted>) {
    && |a| <= |b|
    && forall i :: 0 <= i < |a| ==>
         b[i].tid == a[i].tid && b[i].data == a[i].data && (!a[i].fate.Waiting? ==> b[i] == a[i])
  }

  lemma StepExtends(s: Store, targets: set<u32>, seqs: map<u32, u32>, e: Event)
    requires StoreInv(s)
    ensures LogExtends(s.log, StoreAfter(s, targets, seqs, e).log)
  {
    hide StoredRecord;
  }

  lemma {:induction false} FateIsFinal(trace: seq<Event>, more: seq<Event>)
    ensures LogExtends(Run(trace).store.log, Run(trace + more).store.log)
  {
    hide Step, StoreAfter, Inv;
    if more == [] {
      assert trace + more == trace;
    } else {
      var n := |more| - 1;
      FateIsFinal(trace, more[..n]);
      assert trace + more == (trace + more[..n]) + [more[n]];
      RunSnoc(trace + more[..n], more[n]);
      var m := Run(trace + more[..n]);
      StoreStep(m, more[n]);
      StepExtends(m.store, m.targets, m.seqs, more[n]);
    }
  }

  // Distinct events report distinct accepted wakeups.
  lemma NoWakeupReportedTwice(trace: seq<Event>, j: nat, k: nat)
    requires j < k < |Run(trace).events|
    ensures |Run(trace).origin| == |Run(trace).events|
    ensures Run(trace).origin[j] != Run(trace).origin[k]
    ensures BehindEvent(Run(trace).store.log, Run(trace).events[j], Run(trace).origin[j])
    ensures BehindEvent(Run(trace).store.log, Run(trace).events[k], Run(trace).origin[k])
  {
    var m := Run(trace);
    assert OriginInv(m.store.log, m.events, m.origin);
  }

  // ---- per-CPU counters ----------------------------------------------------------------

  predicate WakeupsInRange(trace: seq<Event>) {
    forall i :: 0 <= i < |trace| && trace[i].Wakeup? && trace[i].wakeup.targetCpu.Some? ==>
      ValidCpu(trace[i].wakeup.targetCpu.value)
  }

  ghost predicate SlotsExact(m: Model)
    requires Indexed(m.store)
  {
    |m.slots| == MAX_TRACKED_CPUS
    && forall c :: 0 <= c < MAX_TRACKED_CPUS ==> m.slots[c] == CountAt(Pending(m.store), c)
  }

  // Pending wakeups are too few for a 32-bit counter to saturate.
  lemma CountFits(s: Store, c: int)
    requires StoreInv(s)
    ensures CountAt(Pending(s), c) <= 0x8000_0000
  {
    var k := KeysAt(Pending(s), c);
    forall t | t in k
      ensures ValidTid(t)
    {
      assert StoredRecord(s, t);
    }
    BoundedSet(k, 0x8000_0000);
  }

  // An accepted wakeup for an in-range CPU that could not be counted there, and that does
  // not replace a pending one aimed at the same CPU: the branch that skips the increment.
  predicate Loses(m: Model, e: Event)
    requires Indexed(m.store)
  {
    && e.Wakeup? && Relevant(m.targets, e.wakeup) && e.wakeup.seqInsertOk && e.wakeup.dataInsertOk
    && var t, cpu := e.wakeup.pid.value, e.wakeup.targetCpu.value;
    && ValidCpu(cpu) && !Tracked(m.runnable, t, cpu, e.wakeup.runnableInsertOk)
    && !(IsPending(m.store, t) && m.store.log[m.store.ids[t]].data.targetCpu == cpu)
  }

  // One slot after an accepted wakeup: short by one exactly where the increment was skipped.
  lemma WakeupSlots(slots: seq<u32>, s: Store, t: u32, cpu: u32, tracked: bool, c: nat)
    requires StoreInv(s) && SlotsInv(slots, Pending(s)) && c < MAX_TRACKED_CPUS
    requires forall d :: 0 <= d < MAX_TRACKED_CPUS ==> slots[d] == CountAt(Pending(s), d)
    ensures SlotsAfterWakeup(slots, s, t, cpu, tracked)[c]
         == CountAt(Pending(s)[t := cpu], c)
            - (if c == cpu && !tracked && !(IsPending(s, t) && s.log[s.ids[t]].data.targetCpu == cpu) then 1 else 0)
  {
    var p := Pending(s);
    CountAfterPut(p, t, cpu, c);
    CountFits(s, c);
    if t in p {
      CountPositive(p, t);
    }
  }

  lemma WakeupExactIff(m: Model, x: WakeupCtx)
    requires Inv(m) && SlotsExact(m)
    ensures Indexed(StepWakeup(m, x).store)
    ensures SlotsExact(StepWakeup(m, x)) <==> !Loses(m, Wakeup(x))
  {
    hide SlotsAfterWakeup, StoredRecord, OriginInv, RunnableInv, Pending, Accept, CountAt, Tracked, IsPending;
    if Relevant(m.targets, x) && x.seqInsertOk && x.dataInsertOk {
      var t, cpu := x.pid.value, x.targetCpu.value;
      var tracked := Tracked(m.runnable, t, cpu, x.runnableInsertOk);
      PendingAfterAccept(m.store, t, DataOf(m.seqs, x));
      forall c | 0 <= c < MAX_TRACKED_CPUS
        ensures StepWakeup(m, x).slots[c]
             == CountAt(Pending(m.store)[t := cpu], c) - (if c == cpu && Loses(m, Wakeup(x)) then 1 else 0)
      {
        WakeupSlots(m.slots, m.store, t, cpu, tracked, c);
      }
      if ValidCpu(cpu) {
        assert SlotsExact(StepWakeup(m, x)) ==>
          StepWakeup(m, x).slots[cpu] == CountAt(Pending(m.store)[t := cpu], cpu);
      }
    }
  }

  lemma RetireSlotsExact(m: Model, t: u32, f: Fate)
    requires Inv(m) && SlotsExact(m) && IsPending(m.store, t) && !f.Waiting?
    ensures Indexed(Retire(m, t, f).store) && SlotsExact(Retire(m, t, f))
  {
    var p := Pending(m.store);
    PendingAfterFinish(m.store, t, f);
    CountPositive(p, t);
    forall c | 0 <= c < MAX_TRACKED_CPUS
      ensures Dec(m.slots, p[t])[c] == CountAt(p - {t}, c)
    {
      CountAfterRemove(p, t, c);
    }
  }

  // From an exact state, exactly the losing events make the counter fall short.
  lemma StepExactIff(m: Model, e: Event)
    requires Inv(m) && SlotsExact(m)
    ensures Indexed(Step(m, e).store)
    ensures SlotsExact(Step(m, e)) <==> !Loses(m, e)
  {
    hide Finish, EventFor, StoredRecord, OriginInv, RunnableInv, CountAt, Pending, StepWakeup;
    match e
    case Wakeup(x) => WakeupExactIff(m, x);
    case Switch(x) =>
      if Consumes(m.store, x) {
        var t := x.nextPid.value;
        RetireSlotsExact(m, t,
          if x.cursorInsertOk then Consumed(OutcomeOf(m.targets, x, t)) else CursorDropped);
      }
    case Exit(t) =>
      if IsPending(m.store, t) {
        RetireSlotsExact(m, t, Exited);
      } else {
        ForgetKeepsInv(m.store, t);
      }
    case Migrate(_) | Retarget(_) =>
  }

  // TARGET_PENDING_WAKEUPS never overcounts.
  lemma PendingCountBound(trace: seq<Event>, c: nat)
    requires c < MAX_TRACKED_CPUS
    ensures |Run(trace).slots| == MAX_TRACKED_CPUS
    ensures Run(trace).slots[c] <= CountAt(Pending(Run(trace).store), c)
  {
    assert Inv(Run(trace));
  }

  lemma InitialExact()
    ensures Indexed(Initial().store) && SlotsExact(Initial())
  {
    InitialInv();
    forall c | 0 <= c < MAX_TRACKED_CPUS
      ensures Initial().slots[c] == CountAt(map[], c)
    {
      assert KeysAt(map[], c) == {};
    }
  }

  // e, arriving after `before`, loses a count.
  ghost predicate LosesAfter(before: seq<Event>, e: Event) { Loses(Run(before), e) }

  ghost predicate ExactAfter(trace: seq<Event>) { SlotsExact(Run(trace)) }

  ghost predicate NoneLost(trace: seq<Event>) {
    forall i :: 0 <= i < |trace| ==> !LosesAfter(trace[..i], trace[i])
  }

  ghost predicate AlwaysExact(trace: seq<Event>) {
    forall i :: 0 <= i <= |trace| ==> ExactAfter(trace[..i])
  }

  lemma PrefixesOfPrefix(trace: seq<Event>)
    requires trace != []
    ensures forall i :: 0 <= i <= |trace| - 1 ==> trace[..|trace| - 1][..i] == trace[..i]
  {
  }

  lemma NoneLostSnoc(trace: seq<Event>)
    requires trace != []
    ensures var n := |trace| - 1;
      NoneLost(trace) <==> NoneLost(trace[..n]) && !LosesAfter(trace[..n], trace[n])
  {
    hide LosesAfter;
    var n := |trace| - 1;
    PrefixesOfPrefix(trace);
    if NoneLost(trace) {
      forall i | 0 <= i < n
        ensures !LosesAfter(trace[..n][..i], trace[..n][i])
      {
        assert !LosesAfter(trace[..i], trace[i]);
      }
    }
    if NoneLost(trace[..n]) {
      forall i | 0 <= i < n
        ensures !LosesAfter(trace[..i], trace[i])
      {
        assert !LosesAfter(trace[..n][..i], trace[..n][i]);
      }
    }
  }

  lemma AlwaysExactSnoc(trace: seq<Event>)
    requires trace != []
    ensures AlwaysExact(trace) <==> AlwaysExact(trace[..|trace| - 1]) && ExactAfter(trace)
  {
    hide ExactAfter;
    var n := |trace| - 1;
    PrefixesOfPrefix(trace);
    assert trace[..|trace|] == trace;
    if AlwaysExact(trace) {
      forall i | 0 <= i <= n
        ensures ExactAfter(trace[..n][..i])
      {
        assert ExactAfter(trace[..i]);
      }
    }
    if AlwaysExact(trace[..n]) {
      forall i | 0 <= i <= n
        ensures ExactAfter(trace[..i])
      {
        assert ExactAfter(trace[..n][..i]);
      }
    }
  }

  // TARGET_PENDING_WAKEUPS counts the pending wakeups of every CPU throughout a run if and
  // only if no event of the run loses one.
  lemma {:induction false} AlwaysExactIff(trace: seq<Event>)
    ensures AlwaysExact(trace) <==> NoneLost(trace)
  {
    hide Step, SlotsExact, Loses, StoreInv, SlotsInv, OriginInv, RunnableInv;
    if trace == [] {
      RunEmpty();
      InitialExact();
      assert trace[..0] == [];
    } else {
      var n := |trace| - 1;
      AlwaysExactIff(trace[..n]);
      NoneLostSnoc(trace);
      AlwaysExactSnoc(trace);
      if AlwaysExact(trace[..n]) {
        assert trace[..n][..n] == trace[..n];
        StepExactIff(Run(trace[..n]), trace[n]);
      }
    }
  }

  lemma PendingCountExact(trace: seq<Event>)
    requires NoneLost(trace)
    ensures SlotsExact(Run(trace))
  {
    hide SlotsExact, NoneLost, Step;
    AlwaysExactIff(trace);
    assert trace[..|trace|] == trace;
  }

  // In particular while the inserts of wakeups into RUNNABLE_TASK_CPU succeed; failed moves
  // of migrating tasks do no harm.
  predicate WakeupInsertsSucceed(trace: seq<Event>) {
    forall i :: 0 <= i < |trace| && trace[i].Wakeup? ==> trace[i].wakeup.runnableInsertOk
  }

  lemma SuccessfulInsertsLoseNothing(trace: seq<Event>)
    requires WakeupInsertsSucceed(trace)
    ensures NoneLost(trace)
  {
    hide Run;
  }

  // ---- no leaked runnable count --------------------------------------------------------

  lemma CountedImpliesPending(trace: seq<Event>, t: u32)
    requires t in Run(trace).runnable
    ensures AwaitsSwitch(trace, t)
    ensures ValidCpu(Run(trace).runnable[t])
  {
    PendingIsHistory(trace, t);
  }

  // Every pending TID is counted on some CPU.
  ghost predicate AllCounted(m: Model)
    requires Indexed(m.store)
  {
    m.runnable.Keys == Pending(m.store).Keys
  }

  lemma WakeupCounted(m: Model, x: WakeupCtx)
    requires Inv(m) && AllCounted(m) && x.runnableInsertOk
    requires x.targetCpu.Some? ==> ValidCpu(x.targetCpu.value)
    ensures Indexed(StepWakeup(m, x).store) && AllCounted(StepWakeup(m, x))
  {
    hide SlotsAfterWakeup, Accept, Pending, StoredRecord, OriginInv, CountAt;
    if Relevant(m.targets, x) && x.seqInsertOk && x.dataInsertOk {
      PendingAfterAccept(m.store, x.pid.value, DataOf(m.seqs, x));
    }
  }

  lemma RetireCounted(m: Model, t: u32, f: Fate)
    requires Inv(m) && AllCounted(m) && IsPending(m.store, t) && !f.Waiting?
    ensures Indexed(Retire(m, t, f).store) && AllCounted(Retire(m, t, f))
  {
    hide Finish, Dec, Pending, StoredRecord, OriginInv, CountAt;
    PendingAfterFinish(m.store, t, f);
  }

  lemma StepCounted(m: Model, e: Event)
    requires Inv(m) && AllCounted(m)
    requires e.Wakeup? ==> e.wakeup.runnableInsertOk
    requires e.Wakeup? && e.wakeup.targetCpu.Some? ==> ValidCpu(e.wakeup.targetCpu.value)
    ensures Indexed(Step(m, e).store) && AllCounted(Step(m, e))
  {
    hide StepWakeup, StepMigrate, Finish, Dec, EventFor, Pending, StoredRecord, OriginInv, RunnableInv, CountAt;
    PendingMember(m.store);
    match e
    case Wakeup(x) => WakeupCounted(m, x);
    case Switch(x) =>
      if Consumes(m.store, x) {
        RetireCounted(m, x.nextPid.value, SwitchFate(m.targets, x));
      }
    case Exit(t) =>
      if IsPending(m.store, t) {
        RetireCounted(m, t, Exited);
      } else {
        ForgetKeepsInv(m.store, t);
      }
    case Migrate(x) =>
      MigrateKeepsInv(m, x);
      StoreStep(m, e);
    case Retarget(_) =>
  }

  lemma {:induction false} CountedIffPending(trace: seq<Event>)
    requires WakeupInsertsSucceed(trace) && WakeupsInRange(trace)
    ensures AllCounted(Run(trace))
  {
    if trace == [] {
      InitialInv();
    } else {
      hide Step, AllCounted, StoredRecord, SlotsInv, OriginInv, RunnableInv;
      CountedIffPending(trace[..|trace| - 1]);
      StepCounted(Run(trace[..|trace| - 1]), trace[|trace| - 1]);
    }
  }

  // Total depth over all CPUs is the number of pending wakeups, whatever migrated where.
  lemma TotalDepthIsTotalPending(trace: seq<Event>)
    requires WakeupInsertsSucceed(trace) && WakeupsInRange(trace)
    ensures TotalBelow(Run(trace).runnable, MAX_TRACKED_CPUS) == |Pending(Run(trace).store)|
  {
    hide Step, Pending, StoreInv, SlotsInv, OriginInv, TotalBelow, CountAt;
    var m := Run(trace);
    CountedIffPending(trace);
    TotalIsSize(m.runnable, MAX_TRACKED_CPUS);
    assert KeysBelow(m.runnable, MAX_TRACKED_CPUS) == m.runnable.Keys;
  }

  // ---- emitted events ------------------------------------------------------------------

  // What a freshly emitted event says about the state it was emitted from.
  ghost predicate Reports(m: Model, x: SwitchCtx, e: SchedulerEvent, i: nat) {
    && i < |m.store.log| && m.store.log[i].fate.Waiting? && Youngest(m.store.log, i)
    && x.nextPid == Some(e.tid) && e.tid == m.store.log[i].tid
    && e.cpu == x.cpu && e.switchNs == x.now
    && e.wakeupNs == m.store.log[i].data.ts
    && e.wakeupTargetCpu == m.store.log[i].data.targetCpu
    && e.wakerTid == m.store.log[i].data.wakerTid
    && e.latencyNs == SaturatingSub(x.now, e.wakeupNs)
    && x.prio == Some(e.prio) && x.comm == Some(e.comm) && x.prevState == Some(e.switchPrevState)
    && x.prevPid.Some? && e.switchPrevPid == (if x.prevPid.value > 0 then x.prevPid.value else 0)
    && e.observedRunnableDepth
         == (if ValidCpu(x.cpu) then |KeysAt(m.runnable, x.cpu) - {e.tid}| else 0)
  }

  lemma SwitchReports(m: Model, x: SwitchCtx)
    requires Inv(m)
    ensures var r := StepSwitch(m, x);
      r.events == m.events ||
      (|r.events| == |m.events| + 1 == |r.origin| && m.events <= r.events
       && Reports(m, x, r.events[|m.events|], r.origin[|m.events|]))
  {
    hide Finish, Dec, SlotsInv, RunnableInv, Pending, Fates;
    if Consumes(m.store, x) {
      var t := x.nextPid.value;
      assert StoredRecord(m.store, t);
      assert KeysAt(m.runnable - {t}, x.cpu) == KeysAt(m.runnable, x.cpu) - {t};
    }
  }

  lemma OnlySwitchEmits(m: Model, e: Event)
    requires Inv(m) && !e.Switch?
    ensures Step(m, e).events == m.events
  {
    hide Inv, Accept, SlotsAfterWakeup, Finish, Dec, PlacedOn;
  }

  // A switch emits at most one event; it reports the youngest accepted wakeup of the task,
  // and its depth counts the other counted tasks on an in-range CPU.
  lemma EmittedEvent(trace: seq<Event>, x: SwitchCtx)
    ensures var m, r := Run(trace), Run(trace + [Switch(x)]);
      r.events == m.events ||
      (|r.events| == |m.events| + 1 == |r.origin| && m.events <= r.events
       && Reports(m, x, r.events[|m.events|], r.origin[|m.events|]))
  {
    hide StepSwitch, Inv, Reports;
    RunSnoc(trace, Switch(x));
    SwitchReports(Run(trace), x);
  }

  // The i-th event is the last one that installed a wakeup of t, and t was neither switched
  // in nor ended since.
  ghost predicate LastInstalledAt(trace: seq<Event>, t: u32, i: nat) {
    InstalledAt(trace, t, i) && forall j :: i < j < |trace| ==> !Accepts(trace[..j], trace[j], t)
  }

  lemma LastInstalledSnoc(trace: seq<Event>, t: u32, i: nat)
    requires trace != [] && LastInstalledAt(trace[..|trace| - 1], t, i)
    requires !Accepts(trace[..|trace| - 1], trace[|trace| - 1], t) && !Clears(trace[|trace| - 1], t)
    ensures LastInstalledAt(trace, t, i)
  {
    hide Accepts, Clears;
    var n := |trace| - 1;
    InstalledSnoc(trace, t, i);
    forall j | i < j < |trace|
      ensures !Accepts(trace[..j], trace[j], t)
    {
      if j < n {
        assert trace[..n][..j] == trace[..j] && trace[..n][j] == trace[j];
      }
    }
  }

  // d is what the wakeup handler was given at an event.
  predicate Describes(d: WakeupData, e: Event) {
    e.Wakeup? && d.ts == e.wakeup.now && Some(d.targetCpu) == e.wakeup.targetCpu && d.wakerTid == e.wakeup.wakerTid
  }

  // What one event does to the stored record of t.
  lemma RecordStep(s: Store, seqs: map<u32, u32>, e: Event, before: seq<Event>, t: u32)
    requires StoreInv(s)
    requires Indexed(StoreAfter(s, TargetsAfter(before), seqs, e))
    requires IsPending(StoreAfter(s, TargetsAfter(before), seqs, e), t)
    ensures var r := StoreAfter(s, TargetsAfter(before), seqs, e);
      var d := r.log[r.ids[t]].data;
      if Accepts(before, e, t) then Describes(d, e)
      else !Clears(e, t) && IsPending(s, t) && d == s.log[s.ids[t]].data
  {
    hide TargetsAfter, StoredRecord;
    match e
    case Wakeup(x) =>
      if Relevant(TargetsAfter(before), x) && x.seqInsertOk && x.dataInsertOk && t in s.ids && x.pid.value != t {
        AcceptKeepsOthers(s, x.pid.value, DataOf(seqs, x), t);
      }
    case Switch(x) =>
      if Consumes(s, x) && x.nextPid.value != t {
        MarkKeepsOthers(s, x.nextPid.value, SwitchFate(TargetsAfter(before), x), t);
      }
    case Exit(u) =>
      if IsPending(s, u) && u != t {
        MarkKeepsOthers(s, u, Exited, t);
      }
    case Migrate(_) | Retarget(_) =>
  }

  // The stored record of a pending TID is what its last accepted wakeup said.
  lemma {:induction false} PendingRecordIsLast(trace: seq<Event>, t: u32) returns (i: nat)
    requires IsPending(Run(trace).store, t)
    ensures LastInstalledAt(trace, t, i)
    ensures var s := Run(trace).store; Describes(s.log[s.ids[t]].data, trace[i])
  {
    hide Step, StoreAfter, Pending, Accepts, Clears, OriginInv, SlotsInv, RunnableInv, StoredRecord, InstalledAt;
    if trace == [] {
      RunEmpty();
      assert false;
    } else {
      var n := |trace| - 1;
      var before, m := trace[..n], Run(trace[..n]);
      TargetsMatch(before);
      StoreStep(m, trace[n]);
      RecordStep(m.store, m.seqs, trace[n], before, t);
      if Accepts(before, trace[n], t) {
        i := n;
        JustInstalled(trace, t);
      } else {
        i := PendingRecordIsLast(before, t);
        LastInstalledSnoc(trace, t, i);
        LastInstalledInside(before, t, i);
        assert trace[i] == before[i];
      }
    }
  }

  lemma JustInstalled(trace: seq<Event>, t: u32)
    requires trace != [] && Accepts(trace[..|trace| - 1], trace[|trace| - 1], t)
    ensures LastInstalledAt(trace, t, |trace| - 1)
  {
  }

  lemma LastInstalledInside(trace: seq<Event>, t: u32, i: nat)
    requires LastInstalledAt(trace, t, i)
    ensures i < |trace|
  {
  }

  // The same on the event sequence: an emitted event reports the last accepted wakeup of the
  // task, which nothing switched in or ended since, as the wakeup handler was given it.
  lemma EmittedEventOnTrace(trace: seq<Event>, x: SwitchCtx) returns (i: nat)
    requires Run(trace + [Switch(x)]).events != Run(trace).events
    ensures |Run(trace + [Switch(x)]).events| == |Run(trace).events| + 1
    ensures var e := Run(trace + [Switch(x)]).events[|Run(trace).events|];
      && LastInstalledAt(trace, e.tid, i) && i < |trace| && trace[i].Wakeup?
      && e.wakeupNs == trace[i].wakeup.now
      && Some(e.wakeupTargetCpu) == trace[i].wakeup.targetCpu
      && e.wakerTid == trace[i].wakeup.wakerTid
  {
    hide Step, SlotsInv, OriginInv, RunnableInv, StoredRecord, KeysAt, LastInstalledAt, Youngest, Pending;
    EmittedEvent(trace, x);
    var m := Run(trace);
    var e := Run(trace + [Switch(x)]).events[|m.events|];
    var k := Run(trace + [Switch(x)]).origin[|m.events|];
    WaitingIsStored(m.store, k);
    i := PendingRecordIsLast(trace, e.tid);
    LastInstalledInside(trace, e.tid, i);
  }

  lemma WaitingIsStored(s: Store, k: nat)
    requires StoreInv(s) && k < |s.log| && s.log[k].fate.Waiting?
    ensures IsPending(s, s.log[k].tid) && s.ids[s.log[k].tid] == k
  {
  }

  // The event's pending count is at most, or exactly, the number of other pending wakeups
  // aimed at the switching CPU.
  ghost predicate CountsOthers(e: SchedulerEvent, p: map<u32, u32>, exact: bool) {
    var others := |KeysAt(p, e.cpu) - {e.tid}|;
    && e.targetPendingWakeups <= others
    && (!ValidCpu(e.cpu) ==> e.targetPendingWakeups == 0)
    && (exact && ValidCpu(e.cpu) ==> e.targetPendingWakeups == others)
  }

  // Exactly that number on a run that loses no count.
  lemma EmittedPendingCount(trace: seq<Event>, x: SwitchCtx)
    requires Run(trace + [Switch(x)]).events != Run(trace).events
    ensures |Run(trace + [Switch(x)]).events| == |Run(trace).events| + 1
    ensures CountsOthers(Run(trace + [Switch(x)]).events[|Run(trace).events|], Pending(Run(trace).store), NoneLost(trace))
  {
    hide Run, NoneLost, SlotsExact, SlotsInv, OriginInv, RunnableInv, StoredRecord, StepSwitch, Pending, KeysAt, Fates;
    RunSnoc(trace, Switch(x));
    if NoneLost(trace) {
      PendingCountExact(trace);
    }
    SwitchPendingCount(Run(trace), x);
  }

  lemma SwitchPendingCount(m: Model, x: SwitchCtx)
    requires Inv(m)
    ensures var r := StepSwitch(m, x);
      r.events != m.events ==>
        |r.events| == |m.events| + 1 && CountsOthers(r.events[|m.events|], Pending(m.store), SlotsExact(m))
  {
    hide Finish, OriginInv, RunnableInv, Fates, StoredRecord, Pending;
    if Consumes(m.store, x) {
      var t, p := x.nextPid.value, Pending(m.store);
      PendingMember(m.store);
      PendingCpu(m.store, t);
      SlotsAfterDecBound(m.slots, p, t);
      assert KeysAt(p - {t}, x.cpu) == KeysAt(p, x.cpu) - {t};
      if SlotsExact(m) && ValidCpu(x.cpu) {
        CountPositive(p, t);
        CountAfterRemove(p, t, x.cpu);
      }
    }
  }

  lemma PendingCpu(s: Store, t: u32)
    requires Indexed(s) && IsPending(s, t)
    ensures t in Pending(s) && Pending(s)[t] == s.log[s.ids[t]].data.targetCpu
  {
  }

  // No wakeup is stamped later than a switch that follows it.
  predicate MonotoneClock(trace: seq<Event>) {
    forall i, j :: 0 <= i < j < |trace| && trace[i].Wakeup? && trace[j].Switch? ==>
      trace[i].wakeup.now <= trace[j].switch.now
  }

  ghost predicate Stamped(trace: seq<Event>, ts: u64) {
    exists j :: 0 <= j < |trace| && trace[j].Wakeup? && trace[j].wakeup.now == ts
  }

  lemma StepStamps(s: Store, targets: set<u32>, seqs: map<u32, u32>, e: Event)
    requires StoreInv(s)
    ensures var log := StoreAfter(s, targets, seqs, e).log;
      |log| > |s.log| ==>
        |log| == |s.log| + 1 && e.Wakeup? && log[|s.log|].data.ts == e.wakeup.now
  {
    hide StoredRecord;
  }

  lemma {:induction false} StampsComeFromWakeups(trace: seq<Event>, i: nat)
    requires i < |Run(trace).store.log|
    ensures Stamped(trace, Run(trace).store.log[i].data.ts)
  {
    hide Step, StoreAfter, Inv;
    if trace != [] {
      var n := |trace| - 1;
      var before := Run(trace[..n]);
      StoreStep(before, trace[n]);
      StepExtends(before.store, before.targets, before.seqs, trace[n]);
      StepStamps(before.store, before.targets, before.seqs, trace[n]);
      if i < |before.store.log| {
        StampsComeFromWakeups(trace[..n], i);
        var j :| 0 <= j < n && trace[..n][j].Wakeup? && trace[..n][j].wakeup.now == before.store.log[i].data.ts;
        assert trace[j].Wakeup?;
      }
    }
  }

  lemma StepReports(m: Model, e: Event)
    requires Inv(m)
    ensures var r := Step(m, e);
      r.events == m.events ||
      (e.Switch? && |r.events| == |m.events| + 1 == |r.origin| && m.events <= r.events
       && Reports(m, e.switch, r.events[|m.events|], r.origin[|m.events|]))
  {
    hide StepWakeup, StepSwitch, StepMigrate, StepExit, Inv, Reports;
    if e.Switch? {
      SwitchReports(m, e.switch);
    } else {
      OnlySwitchEmits(m, e);
    }
  }

  // Under such a clock every reported latency is exactly switch time minus wakeup time.
  lemma {:induction false} LatencyIsExact(trace: seq<Event>, k: nat)
    requires MonotoneClock(trace)
    requires k < |Run(trace).events|
    ensures var e := Run(trace).events[k]; e.wakeupNs + e.latencyNs == e.switchNs
  {
    hide Step, Inv, Youngest, KeysAt;
    if trace != [] {
      var n := |trace| - 1;
      var before := Run(trace[..n]);
      StepReports(before, trace[n]);
      if k < |before.events| {
        LatencyIsExact(trace[..n], k);
      } else {
        var i := Run(trace).origin[k];
        StampsComeFromWakeups(trace[..n], i);
        var j :| 0 <= j < n && trace[..n][j].Wakeup? && trace[..n][j].wakeup.now == before.store.log[i].data.ts;
        assert trace[j].Wakeup?;
      }
    }
  }

  // ---- a failed insert does make the pending counter fall short --------------------------

  const FIRST_WAKE := WakeupCtx(Some(1), Some(0), 10, 9, true, true, false)
  const SECOND_WAKE := WakeupCtx(Some(2), Some(0), 11, 9, true, true, true)
  const FIRST_SWITCH := SwitchCtx(Some(1), true, None, None, 0, 12, None, None, true)
  const FIRST_DATA := WakeupData(10, 0, 9, 1)
  const SECOND_DATA := WakeupData(11, 0, 9, 1)

  lemma AfterFirstWake(m: Model)
    requires m.targets == {1, 2} && m.store == Store(map[], []) && m.runnable == map[] && m.seqs == map[]
    requires |m.slots| == MAX_TRACKED_CPUS
    ensures var r := StepWakeup(m, FIRST_WAKE);
      && r.targets == m.targets && r.slots == m.slots && r.runnable == map[] && r.seqs == map[1 := 1]
      && r.store == Store(map[1 := 0], [Accepted(1, FIRST_DATA, Waiting)])
  {
  }

  lemma AfterSecondWake(m: Model)
    requires m.targets == {1, 2} && m.store == Store(map[1 := 0], [Accepted(1, FIRST_DATA, Waiting)])
    requires m.runnable == map[] && m.seqs == map[1 := 1] && |m.slots| == MAX_TRACKED_CPUS && m.slots[0] == 0
    ensures var r := StepWakeup(m, SECOND_WAKE);
      && r.targets == m.targets && r.slots == m.slots[0 := 1]
      && r.store == Store(map[1 := 0, 2 := 1], [Accepted(1, FIRST_DATA, Waiting), Accepted(2, SECOND_DATA, Waiting)])
  {
  }

  lemma AfterFirstSwitch(m: Model)
    requires m.targets == {1, 2} && |m.slots| == MAX_TRACKED_CPUS && m.slots[0] == 1
    requires m.store == Store(map[1 := 0, 2 := 1], [Accepted(1, FIRST_DATA, Waiting), Accepted(2, SECOND_DATA, Waiting)])
    ensures var r := StepSwitch(m, FIRST_SWITCH);
      && r.slots == m.slots[0 := 0]
      && r.store == Store(map[1 := 0, 2 := 1],
           [Accepted(1, FIRST_DATA, Consumed(ReadFailed)), Accepted(2, SECOND_DATA, Waiting)])
  {
  }

  // Two tasks wake on CPU 0, the reverse-index insert of the first fails, and the first is
  // switched in: its decrement is charged to the second, which is still pending.
  lemma FailedInsertUndercounts() returns (trace: seq<Event>)
    ensures var m := Run(trace);
      AwaitsSwitch(trace, 2) && |m.slots| == MAX_TRACKED_CPUS && m.slots[0] == 0 < CountAt(Pending(m.store), 0)
  {
    hide Inv, Run, CountAt, TargetsAfter, AwaitsSwitch, StepWakeup, StepSwitch;
    var t1 := [] + [Retarget({1, 2})];
    var t2 := t1 + [Wakeup(FIRST_WAKE)];
    var t3 := t2 + [Wakeup(SECOND_WAKE)];
    trace := t3 + [Switch(FIRST_SWITCH)];
    RunEmpty();
    RunSnoc([], Retarget({1, 2}));
    RunSnoc(t1, Wakeup(FIRST_WAKE));
    RunSnoc(t2, Wakeup(SECOND_WAKE));
    RunSnoc(t3, Switch(FIRST_SWITCH));
    AfterFirstWake(Run(t1));
    AfterSecondWake(Run(t2));
    AfterFirstSwitch(Run(t3));
    var m := Run(trace);
    assert IsPending(m.store, 2) && Pending(m.store)[2] == 0;
    CountPositive(Pending(m.store), 2);
    PendingIsHistory(trace, 2);
  }
}
