// What the handlers report and where they count tasks, said of the bare event sequence: when
// a switch emits an event and when it loses one, on which CPU a task is counted, which
// migrations are reported, and which sequence number a wakeup gets.
module SchedLaws {
  import opened Types
  import opened Counting
  import opened WakeupStore
  import opened SchedModel
  import opened SchedRuns

  // ---- the outcome of a switch ---------------------------------------------------------

  // The switch finds a wakeup and marks it consumed.
  predicate Takes(trace: seq<Event>, x: SwitchCtx) {
    && x.nextPid.Some? && x.nextPid.value > 0 && AwaitsSwitch(trace, x.nextPid.value) && x.cursorInsertOk
  }

  predicate SwitchesTarget(trace: seq<Event>, x: SwitchCtx) {
    x.nextPid.Some? && x.nextPid.value in TargetsAfter(trace)
  }

  lemma EndedSnoc(trace: seq<Event>, e: Event, f: Fate)
    ensures Ended(trace + [e], f) == Ended(trace, f) + (if EndedBy(trace, e) == Some(f) then 1 else 0)
  {
    hide EndedBy;
    assert (trace + [e])[..|trace|] == trace;
  }

  // A switch emits exactly when it takes a wakeup of a target, could read every field, and
  // the ring buffer has room.
  lemma EmitsIff(trace: seq<Event>, x: SwitchCtx)
    ensures |Run(trace + [Switch(x)]).events| == |Run(trace).events|
      + (if Takes(trace, x) && SwitchesTarget(trace, x) && x.prevPid.Some? && x.prevState.Some?
            && x.prio.Some? && x.comm.Some? && x.reserveOk then 1 else 0)
  {
    hide Run, AwaitsSwitch, TargetsAfter, Ended, Pending;
    Conservation(trace);
    Conservation(trace + [Switch(x)]);
    EndedSnoc(trace, Switch(x), Consumed(Emitted));
  }

  // The three ways of losing a taken wakeup, each with its own condition and counter, and
  // the wakeup that is dropped because it could not be marked.
  lemma LossesIff(trace: seq<Event>, x: SwitchCtx)
    ensures Ended(trace + [Switch(x)], Consumed(Stale)) == Ended(trace, Consumed(Stale))
      + (if Takes(trace, x) && !SwitchesTarget(trace, x) then 1 else 0)
    ensures Ended(trace + [Switch(x)], Consumed(ReadFailed)) == Ended(trace, Consumed(ReadFailed))
      + (if Takes(trace, x) && SwitchesTarget(trace, x)
            && (x.prevPid.None? || x.prevState.None? || x.prio.None? || x.comm.None?) then 1 else 0)
    ensures Ended(trace + [Switch(x)], Consumed(RingFull)) == Ended(trace, Consumed(RingFull))
      + (if Takes(trace, x) && SwitchesTarget(trace, x) && x.prevPid.Some? && x.prevState.Some?
            && x.prio.Some? && x.comm.Some? && !x.reserveOk then 1 else 0)
    ensures Ended(trace + [Switch(x)], CursorDropped) == Ended(trace, CursorDropped)
      + (if !x.cursorInsertOk && Takes(trace, x.(cursorInsertOk := true)) then 1 else 0)
  {
    hide AwaitsSwitch, TargetsAfter, Ended;
    EndedSnoc(trace, Switch(x), Consumed(Stale));
    EndedSnoc(trace, Switch(x), Consumed(ReadFailed));
    EndedSnoc(trace, Switch(x), Consumed(RingFull));
    EndedSnoc(trace, Switch(x), CursorDropped);
  }

  // Nothing but a switch emits, or loses a taken wakeup.
  lemma OnlySwitches(trace: seq<Event>, e: Event, o: Outcome)
    requires !e.Switch?
    ensures |Run(trace + [e]).events| == |Run(trace).events|
    ensures Ended(trace + [e], Consumed(o)) == Ended(trace, Consumed(o))
  {
    hide Run, AwaitsSwitch, TargetsAfter, Ended, Pending;
    Conservation(trace);
    Conservation(trace + [e]);
    EndedSnoc(trace, e, Consumed(Emitted));
    EndedSnoc(trace, e, Consumed(o));
  }

  // ---- where a task is counted ---------------------------------------------------------

  // An accepted wakeup for an in-range CPU whose insert into the reverse index succeeded.
  predicate WakesOnto(before: seq<Event>, e: Event, t: u32, cpu: u32) {
    Accepts(before, e, t) && e.wakeup.targetCpu == Some(cpu) && cpu < 16384 && e.wakeup.runnableInsertOk
  }

  // A reported move of a target to an in-range CPU whose insert succeeded.
  predicate MovesOnto(before: seq<Event>, e: Event, t: u32, cpu: u32) {
    && e.Migrate? && e.migrate.pid == Some(t) && t > 0 && t in TargetsAfter(before)
    && e.migrate.origCpu.Some? && e.migrate.destCpu == Some(cpu) && cpu < 16384 && e.migrate.runnableInsertOk
  }

  // Where t is counted after one more event. A move puts only a task that is already counted.
  function CountedAfter(before: seq<Event>, e: Event, was: Option<u32>, t: u32): Option<u32> {
    if Clears(e, t) then None
    else if e.Wakeup? && e.wakeup.targetCpu.Some? && WakesOnto(before, e, t, e.wakeup.targetCpu.value)
    then e.wakeup.targetCpu
    else if e.Migrate? && e.migrate.destCpu.Some? && e.migrate.destCpu.value >= 0
            && was.Some? && MovesOnto(before, e, t, e.migrate.destCpu.value)
    then Some(e.migrate.destCpu.value)
    else was
  }

  // The CPU on which t is counted: where it was last put since it last ran or ended.
  function CountedOn(trace: seq<Event>, t: u32): Option<u32> {
    if trace == [] then None
    else
      var before := trace[..|trace| - 1];
      CountedAfter(before, trace[|trace| - 1], CountedOn(before, t), t)
  }

  function Lookup(m: map<u32, u32>, t: u32): Option<u32> {
    if t in m then Some(m[t]) else None
  }

  lemma CountedSnoc(trace: seq<Event>, e: Event, t: u32)
    ensures CountedOn(trace + [e], t) == CountedAfter(trace, e, CountedOn(trace, t), t)
  {
    hide CountedAfter;
    assert (trace + [e])[..|trace|] == trace;
  }

  lemma PlaceWakeup(m: Model, x: WakeupCtx, before: seq<Event>, t: u32)
    requires Inv(m) && m.targets == TargetsAfter(before)
    ensures Lookup(StepWakeup(m, x).runnable, t) == CountedAfter(before, Wakeup(x), Lookup(m.runnable, t), t)
  {
    hide Accept, SlotsAfterWakeup, OriginInv, StoredRecord, TargetsAfter, SlotsInv, Pending, RunnableInv;
  }

  lemma PlaceMigrate(m: Model, x: MigrateCtx, before: seq<Event>, t: u32)
    requires Inv(m) && m.targets == TargetsAfter(before)
    ensures Lookup(StepMigrate(m, x).runnable, t) == CountedAfter(before, Migrate(x), Lookup(m.runnable, t), t)
  {
    hide OriginInv, StoreInv, TargetsAfter, SlotsInv, Pending, Accepts;
  }

  lemma PlaceStep(m: Model, e: Event, before: seq<Event>, t: u32)
    requires Inv(m) && m.targets == TargetsAfter(before)
    ensures Lookup(Step(m, e).runnable, t) == CountedAfter(before, e, Lookup(m.runnable, t), t)
  {
    hide StepWakeup, StepMigrate, Finish, Dec, EventFor, OriginInv, StoredRecord, TargetsAfter, SlotsInv, Pending, Accepts;
    PendingMember(m.store);
    match e
    case Wakeup(x) => PlaceWakeup(m, x, before, t);
    case Migrate(x) => PlaceMigrate(m, x, before, t);
    case Switch(_) =>
    case Exit(_) =>
    case Retarget(_) =>
  }

  // RUNNABLE_TASK_CPU maps each task to exactly that CPU, after every run.
  lemma {:induction false} CountedIsRunnable(trace: seq<Event>, t: u32)
    ensures Lookup(Run(trace).runnable, t) == CountedOn(trace, t)
  {
    hide Step, Inv, CountedAfter;
    if trace == [] {
      RunEmpty();
    } else {
      var before, e := trace[..|trace| - 1], trace[|trace| - 1];
      assert trace == before + [e];
      CountedIsRunnable(before, t);
      TargetsMatch(before);
      PlaceStep(Run(before), e, before, t);
      CountedSnoc(before, e, t);
    }
  }

  // The i-th event put t on this CPU and nothing since moved or removed it.
  ghost predicate PutAt(trace: seq<Event>, t: u32, cpu: u32, i: nat) {
    && i < |trace| && Puts(trace[..i], trace[i], t, cpu)
    && forall j :: i < j < |trace| ==> !Clears(trace[j], t) && forall c: u32 :: !Puts(trace[..j], trace[j], t, c)
  }

  predicate Puts(before: seq<Event>, e: Event, t: u32, cpu: u32) {
    WakesOnto(before, e, t, cpu) || (CountedOn(before, t).Some? && MovesOnto(before, e, t, cpu))
  }

  lemma CountedStep(trace: seq<Event>, t: u32, cpu: u32)
    requires trace != []
    ensures var before, e := trace[..|trace| - 1], trace[|trace| - 1];
      CountedOn(trace, t) == Some(cpu) <==>
        || Puts(before, e, t, cpu)
        || (CountedOn(before, t) == Some(cpu) && !Clears(e, t) && forall c: u32 :: !Puts(before, e, t, c))
  {
    hide TargetsAfter;
    var before, e := trace[..|trace| - 1], trace[|trace| - 1];
    if e.Wakeup? && e.wakeup.targetCpu.Some? {
      assert Puts(before, e, t, e.wakeup.targetCpu.value) <==> WakesOnto(before, e, t, e.wakeup.targetCpu.value);
    }
    if e.Migrate? && e.migrate.destCpu.Some? && e.migrate.destCpu.value >= 0 {
      assert Puts(before, e, t, e.migrate.destCpu.value) <==>
        CountedOn(before, t).Some? && MovesOnto(before, e, t, e.migrate.destCpu.value);
    }
  }

  lemma PutSnoc(trace: seq<Event>, t: u32, cpu: u32, i: nat)
    requires 0 <= i < |trace| - 1
    ensures var n := |trace| - 1;
      PutAt(trace, t, cpu, i) <==>
        PutAt(trace[..n], t, cpu, i) && !Clears(trace[n], t) && forall c: u32 :: !Puts(trace[..n], trace[n], t, c)
  {
    hide Puts, Clears;
    var n := |trace| - 1;
    assert forall j :: 0 <= j < n ==> trace[..n][j] == trace[j] && trace[..n][..j] == trace[..j];
    if PutAt(trace[..n], t, cpu, i) && !Clears(trace[n], t) && (forall c: u32 :: !Puts(trace[..n], trace[n], t, c)) {
      forall j | i < j < |trace|
        ensures !Clears(trace[j], t) && forall c: u32 :: !Puts(trace[..j], trace[j], t, c)
      {
        if j < n {
          assert trace[..n][j] == trace[j];
        }
      }
    }
    if PutAt(trace, t, cpu, i) {
      forall j | i < j < n
        ensures !Clears(trace[..n][j], t) && forall c: u32 :: !Puts(trace[..n][..j], trace[..n][j], t, c)
      {
        assert !Clears(trace[j], t);
      }
    }
  }

  // In closed form: the CPU named by the last event that put it anywhere.
  lemma {:induction false} CountedOnMeans(trace: seq<Event>, t: u32, cpu: u32)
    ensures CountedOn(trace, t) == Some(cpu) <==> exists i :: PutAt(trace, t, cpu, i)
  {
    if trace != [] {
      hide Puts, Clears, CountedOn;
      var n := |trace| - 1;
      CountedOnMeans(trace[..n], t, cpu);
      CountedStep(trace, t, cpu);
      if Puts(trace[..n], trace[n], t, cpu) {
        assert PutAt(trace, t, cpu, n);
      }
      forall i: nat | i < n
        ensures PutAt(trace, t, cpu, i) <==>
          PutAt(trace[..n], t, cpu, i) && !Clears(trace[n], t) && forall c: u32 :: !Puts(trace[..n], trace[n], t, c)
      {
        PutSnoc(trace, t, cpu, i);
      }
    }
  }

  // A move takes one from the CPU the task was counted on and adds one to its destination.
  lemma MigrationMovesOne(trace: seq<Event>, x: MigrateCtx, t: u32, from: u32, to: u32, c: u32)
    requires CountedOn(trace, t) == Some(from) && MovesOnto(trace, Migrate(x), t, to)
    ensures CountAt(Run(trace + [Migrate(x)]).runnable, c)
         == CountAt(Run(trace).runnable, c) - (if c == from then 1 else 0) + (if c == to then 1 else 0)
  {
    hide Run, CountedOn, CountAt, Step, TargetsAfter;
    var before, after := Run(trace).runnable, Run(trace + [Migrate(x)]).runnable;
    CountedIsRunnable(trace, t);
    CountedSnoc(trace, Migrate(x), t);
    CountedIsRunnable(trace + [Migrate(x)], t);
    forall u: u32 | u != t
      ensures Lookup(after, u) == Lookup(before, u)
    {
      CountedIsRunnable(trace, u);
      CountedSnoc(trace, Migrate(x), u);
      CountedIsRunnable(trace + [Migrate(x)], u);
    }
    SameButOne(before, after, t, to);
    CountAfterPut(before, t, to, c);
  }

  lemma SameButOne(m: map<u32, u32>, n: map<u32, u32>, t: u32, cpu: u32)
    requires Lookup(n, t) == Some(cpu) && forall u: u32 :: u != t ==> Lookup(n, u) == Lookup(m, u)
    ensures n == m[t := cpu]
  {
    forall u: u32
      ensures Lookup(n, u) == Lookup(m[t := cpu], u)
    {
    }
    SameLookups(n, m[t := cpu]);
  }

  lemma SameLookups(m: map<u32, u32>, n: map<u32, u32>)
    requires forall u: u32 :: Lookup(m, u) == Lookup(n, u)
    ensures m == n
  {
    forall u: u32
      ensures u in m <==> u in n
      ensures u in m ==> m[u] == n[u]
    {
      assert Lookup(m, u) == Lookup(n, u);
    }
    assert m.Keys == n.Keys;
  }

  // ---- CPU accounting that fails -------------------------------------------------------

  // An accepted wakeup, or the move of a counted target, after which the task is not counted
  // on the CPU it was for.
  predicate Untracks(before: seq<Event>, e: Event) {
    match e
    case Wakeup(x) => AcceptsAny(before, e) && CountedOn(before + [e], x.pid.value) != x.targetCpu
    case Migrate(x) =>
      && x.pid.Some? && x.pid.value > 0 && x.pid.value in TargetsAfter(before) && x.origCpu.Some? && x.destCpu.Some?
      && CountedOn(before, x.pid.value).Some? && Elsewhere(CountedOn(before + [e], x.pid.value), x.destCpu.value)
    case _ => false
  }

  predicate Elsewhere(counted: Option<u32>, cpu: int) { counted.None? || counted.value != cpu }

  function UntrackedCount(trace: seq<Event>): nat {
    if trace == [] then 0
    else
      var before := trace[..|trace| - 1];
      UntrackedCount(before) + (if Untracks(before, trace[|trace| - 1]) then 1 else 0)
  }

  lemma UntracksStep(m: Model, e: Event, before: seq<Event>)
    requires Inv(m) && m.targets == TargetsAfter(before)
    requires forall t: u32 :: Lookup(m.runnable, t) == CountedOn(before, t)
    ensures Step(m, e).untracked == m.untracked + (if Untracks(before, e) then 1 else 0)
  {
    hide Accept, Finish, SlotsAfterWakeup, Dec, EventFor, OriginInv, StoredRecord, TargetsAfter, SlotsInv, Pending,
      CountedOn, StoreInv;
    if e.Wakeup? && e.wakeup.pid.Some? && e.wakeup.pid.value > 0 {
      CountedSnoc(before, e, e.wakeup.pid.value);
    }
    if e.Migrate? && e.migrate.pid.Some? && e.migrate.pid.value > 0 {
      CountedSnoc(before, e, e.migrate.pid.value);
    }
  }

  // DROP_CPU_ACCOUNTING_UNTRACKED counts exactly these.
  lemma {:induction false} UntrackedIsHistory(trace: seq<Event>)
    ensures Run(trace).untracked == UntrackedCount(trace)
  {
    hide Step, Inv, Untracks, CountedOn;
    if trace == [] {
      RunEmpty();
    } else {
      var before, e := trace[..|trace| - 1], trace[|trace| - 1];
      UntrackedIsHistory(before);
      TargetsMatch(before);
      forall t: u32
        ensures Lookup(Run(before).runnable, t) == CountedOn(before, t)
      {
        CountedIsRunnable(before, t);
      }
      UntracksStep(Run(before), e, before);
    }
  }

  // ---- migration events ----------------------------------------------------------------

  // A migration is reported exactly when it is a target's, its CPUs could be read and the
  // ring buffer has room; negative CPU numbers are reported modulo 2^32.
  lemma MigrationReported(trace: seq<Event>, x: MigrateCtx)
    ensures var before, after := Run(trace).migrations, Run(trace + [Migrate(x)]).migrations;
      if x.pid.Some? && x.pid.value > 0 && x.pid.value in TargetsAfter(trace)
         && x.origCpu.Some? && x.destCpu.Some? && x.reserveOk
      then after == before + [MigrationEvent(x.pid.value, x.origCpu.value % 0x1_0000_0000,
                                             x.destCpu.value % 0x1_0000_0000, x.now)]
      else after == before
  {
    hide Run, TargetsAfter, PlacedOn, Inv;
    TargetsMatch(trace);
    RunSnoc(trace, Migrate(x));
  }

  // ---- sequence numbers ----------------------------------------------------------------

  // How many sequence numbers t was given since it last ended.
  function Numbered(trace: seq<Event>, t: u32): nat {
    if trace == [] then 0
    else
      var before, e := trace[..|trace| - 1], trace[|trace| - 1];
      if e == Exit(t) then 0
      else if e.Wakeup? && e.wakeup.pid == Some(t) && t > 0 && t in TargetsAfter(before)
              && e.wakeup.targetCpu.Some? && e.wakeup.seqInsertOk
      then Numbered(before, t) + 1
      else Numbered(before, t)
  }

  lemma SeqStep(m: Model, e: Event, t: u32)
    requires Inv(m)
    ensures var seqs := Step(m, e).seqs;
      if e == Exit(t) then t !in seqs
      else if e.Wakeup? && e.wakeup.pid == Some(t) && t > 0 && t in m.targets
              && e.wakeup.targetCpu.Some? && e.wakeup.seqInsertOk
      then t in seqs && seqs[t] == (if t in m.seqs then (m.seqs[t] as int + 1) % 0x1_0000_0000 else 1)
      else Lookup(seqs, t) == Lookup(m.seqs, t)
  {
    hide Accept, Finish, SlotsAfterWakeup, Dec, EventFor, OriginInv, StoredRecord, SlotsInv, Pending, PlacedOn, RunnableInv;
  }

  // WAKEUP_SEQ holds that count modulo 2^32.
  lemma {:induction false} SeqIsCount(trace: seq<Event>, t: u32)
    ensures t in Run(trace).seqs <==> Numbered(trace, t) > 0
    ensures t in Run(trace).seqs ==> Run(trace).seqs[t] == Numbered(trace, t) % 0x1_0000_0000
  {
    hide Step, Inv;
    if trace == [] {
      RunEmpty();
    } else {
      var before := trace[..|trace| - 1];
      SeqIsCount(before, t);
      TargetsMatch(before);
      SeqStep(Run(before), trace[|trace| - 1], t);
    }
  }

  // A record carries the number its wakeup was given, so no two of a task's last 2^32 agree.
  lemma RecordIsNumbered(trace: seq<Event>, e: Event, t: u32)
    requires Accepts(trace, e, t)
    ensures var log := Run(trace + [e]).store.log;
      log != [] && log[|log| - 1].tid == t
      && log[|log| - 1].data.seqno == Numbered(trace + [e], t) % 0x1_0000_0000
  {
    hide Run, Inv, TargetsAfter, Numbered, Fates, Pending;
    RunSnoc(trace, e);
    TargetsMatch(trace);
    SeqIsCount(trace + [e], t);
    AcceptNumbers(Run(trace), e.wakeup);
  }

  lemma AcceptNumbers(m: Model, x: WakeupCtx)
    requires Inv(m) && Relevant(m.targets, x) && x.seqInsertOk && x.dataInsertOk
    ensures var r := StepWakeup(m, x);
      && r.store.log != [] && r.store.log[|r.store.log| - 1].tid == x.pid.value && x.pid.value in r.seqs
      && r.store.log[|r.store.log| - 1].data.seqno == r.seqs[x.pid.value]
  {
    hide SlotsAfterWakeup, PlacedOn, Pending, StoredRecord, OriginInv, RunnableInv;
  }
}
