// The runtime-slice sampler: each round reads the counters of the listed tasks and reports
// the difference to the round before, for the same task identity only.
module SliceSampler {
  import opened Types

  datatype Source = ProcSchedstat | ProcStatFallback

  datatype TaskInfo = TaskInfo(tid: u32, processPid: u32, processStart: Option<u64>, taskStart: Option<u64>)

  datatype Counters = Counters(
    source: Source, runtimeNs: u64, waitNs: Option<u64>, timeslices: Option<u64>,
    userNs: Option<u64>, systemNs: Option<u64>)

  // A task and what reading its counters gave; None is a read error.
  datatype Reading = Reading(task: TaskInfo, counters: Option<Counters>)

  datatype Snapshot = Snapshot(task: TaskInfo, counters: Counters)

  datatype Record = Record(
    elapsedMs: u64, task: u32, processPid: Option<u32>, source: Source, intervalMs: u64,
    runtimeDeltaNs: u64, waitDeltaNs: Option<u64>, timeslicesDelta: Option<u64>,
    userDeltaNs: Option<u64>, systemDeltaNs: Option<u64>,
    avgRuntimePerSliceNs: Option<u64>, avgWaitPerSliceNs: Option<u64>)

  datatype Round = Round(readings: seq<Reading>, elapsedMs: u64, intervalMs: u64, maxTasks: nat)

  datatype Batch = Batch(records: seq<Record>, scanned: nat, skipped: nat, readErrors: nat, schedstatAvailable: bool)

  // Start times disagree only when both are known.
  predicate SameTaskIdentity(a: TaskInfo, b: TaskInfo) {
    && a.tid == b.tid && a.processPid == b.processPid
    && (a.processStart.Some? && b.processStart.Some? ==> a.processStart == b.processStart)
    && (a.taskStart.Some? && b.taskStart.Some? ==> a.taskStart == b.taskStart)
  }

  function Delta(now: Option<u64>, before: Option<u64>): Option<u64> {
    if now.Some? && before.Some? then Some(SaturatingSub(now.value, before.value)) else None
  }

  function NonzeroDiv(n: u64, d: u64): Option<u64> {
    if d > 0 then Some(n / d) else None
  }

  function BuildRecord(before: Snapshot, now: Snapshot, elapsedMs: u64, intervalMs: u64): Record {
    var runtime := SaturatingSub(now.counters.runtimeNs, before.counters.runtimeNs);
    var wait := Delta(now.counters.waitNs, before.counters.waitNs);
    var slices := Delta(now.counters.timeslices, before.counters.timeslices);
    Record(
      elapsedMs, now.task.tid, if now.task.processPid != 0 then Some(now.task.processPid) else None,
      now.counters.source, intervalMs, runtime, wait, slices,
      Delta(now.counters.userNs, before.counters.userNs), Delta(now.counters.systemNs, before.counters.systemNs),
      if slices.Some? then NonzeroDiv(runtime, slices.value) else None,
      if wait.Some? && slices.Some? then NonzeroDiv(wait.value, slices.value) else None)
  }

  function Scanned(r: Round): (xs: seq<Reading>)
    ensures xs <= r.readings && |xs| <= r.maxTasks && (|xs| < r.maxTasks ==> xs == r.readings)
  {
    if |r.readings| <= r.maxTasks then r.readings else r.readings[..r.maxTasks]
  }

  // ---- one round, reading by reading -----------------------------------------------------

  type Known = map<u32, Snapshot>

  function Update(known: Known, x: Reading): Known {
    match x.counters
    case None => known - {x.task.tid}
    case Some(c) => known[x.task.tid := Snapshot(x.task, c)]
  }

  function KnownAfter(known: Known, xs: seq<Reading>): Known {
    if xs == [] then known else Update(KnownAfter(known, xs[..|xs| - 1]), xs[|xs| - 1])
  }

  // The record a reading yields against what is known of its task.
  function Yield(known: Known, x: Reading, elapsedMs: u64, intervalMs: u64): seq<Record> {
    if x.counters.Some? && x.task.tid in known && SameTaskIdentity(known[x.task.tid].task, x.task)
    then [BuildRecord(known[x.task.tid], Snapshot(x.task, x.counters.value), elapsedMs, intervalMs)]
    else []
  }

  function Records(known: Known, xs: seq<Reading>, elapsedMs: u64, intervalMs: u64): seq<Record> {
    if xs == [] then []
    else
      var before, last := xs[..|xs| - 1], xs[|xs| - 1];
      Records(known, before, elapsedMs, intervalMs) + Yield(KnownAfter(known, before), last, elapsedMs, intervalMs)
  }

  function Tids(xs: seq<Reading>): set<u32> {
    set i | 0 <= i < |xs| :: xs[i].task.tid
  }

  function Errors(xs: seq<Reading>): nat {
    if xs == [] then 0 else Errors(xs[..|xs| - 1]) + (if xs[|xs| - 1].counters.None? then 1 else 0)
  }

  predicate FromSchedstat(x: Reading) { x.counters.Some? && x.counters.value.source.ProcSchedstat? }

  function Retained(known: Known, tids: set<u32>): Known {
    map t | t in known && t in tids :: known[t]
  }

  class RuntimeSliceSampler {
    var previous: Known

    constructor ()
      ensures previous == map[]
    {
      previous := map[];
    }

    method Collect(round: Round) returns (batch: Batch)
      modifies this
      ensures var xs := Scanned(round);
        && batch.records == Records(old(previous), xs, round.elapsedMs, round.intervalMs)
        && previous == Retained(KnownAfter(old(previous), xs), Tids(xs))
        && batch.scanned == |xs| && batch.scanned + batch.skipped == |round.readings|
        && batch.readErrors == Errors(xs)
        && (batch.schedstatAvailable <==> exists i :: 0 <= i < |xs| && FromSchedstat(xs[i]))
    {
      hide Records, KnownAfter, Tids, Errors, BuildRecord, SameTaskIdentity, FromSchedstat;
      var xs := Scanned(round);
      var records: seq<Record> := [];
      var active: set<u32> := {};
      var readErrors, schedstat := 0, false;
      Nothing(previous, round.elapsedMs, round.intervalMs);
      for i := 0 to |xs|
        invariant records == Records(old(previous), xs[..i], round.elapsedMs, round.intervalMs)
        invariant previous == KnownAfter(old(previous), xs[..i])
        invariant active == Tids(xs[..i]) && readErrors == Errors(xs[..i])
        invariant schedstat <==> exists j :: 0 <= j < i && FromSchedstat(xs[j])
      {
        var x := xs[i];
        OneMore(old(previous), xs[..i], x, round.elapsedMs, round.intervalMs);
        assert xs[..i + 1] == xs[..i] + [x];
        active := active + {x.task.tid};
        if x.counters.None? {
          NotSchedstat(x);
          readErrors := readErrors + 1;
          previous := previous - {x.task.tid};
          continue;
        }
        schedstat := schedstat || FromSchedstat(x);
        var snapshot := Snapshot(x.task, x.counters.value);
        var known := if x.task.tid in previous then Some(previous[x.task.tid]) else None;
        previous := previous[x.task.tid := snapshot];
        if known.None? || !SameTaskIdentity(known.value.task, x.task) {
          continue;
        }
        records := records + [BuildRecord(known.value, snapshot, round.elapsedMs, round.intervalMs)];
      }
      assert xs[..|xs|] == xs;
      previous := map t | t in previous && t in active :: previous[t];
      batch := Batch(records, |xs|, |round.readings| - |xs|, readErrors, schedstat);
    }
  }

  lemma Nothing(known: Known, e: u64, i: u64)
    ensures Records(known, [], e, i) == [] && KnownAfter(known, []) == known && Tids([]) == {} && Errors([]) == 0
  {
  }

  lemma OneMore(known: Known, xs: seq<Reading>, x: Reading, e: u64, i: u64)
    ensures Records(known, xs + [x], e, i) == Records(known, xs, e, i) + Yield(KnownAfter(known, xs), x, e, i)
    ensures KnownAfter(known, xs + [x]) == Update(KnownAfter(known, xs), x)
    ensures Tids(xs + [x]) == Tids(xs) + {x.task.tid}
    ensures Errors(xs + [x]) == Errors(xs) + (if x.counters.None? then 1 else 0)
  {
    hide Yield, Update;
    assert (xs + [x])[..|xs|] == xs;
    TidsSnoc(xs, x);
  }

  lemma NotSchedstat(x: Reading)
    requires x.counters.None?
    ensures !FromSchedstat(x)
  {
  }

  lemma TidsSnoc(xs: seq<Reading>, x: Reading)
    ensures Tids(xs + [x]) == Tids(xs) + {x.task.tid}
  {
    var all := xs + [x];
    assert all[|xs|] == x;
    assert forall i :: 0 <= i < |xs| ==> all[i] == xs[i];
  }

  // ---- whole runs ------------------------------------------------------------------------

  predicate DistinctTids(xs: seq<Reading>) {
    forall i, j :: 0 <= i < j < |xs| ==> xs[i].task.tid != xs[j].task.tid
  }

  // What a round read of task t: None when t was not listed, fell beyond the task cap, or
  // could not be read.
  function Seen(xs: seq<Reading>, t: u32): Option<Snapshot> {
    if xs == [] then None
    else
      var last := xs[|xs| - 1];
      if last.task.tid == t
      then (if last.counters.Some? then Some(Snapshot(last.task, last.counters.value)) else None)
      else Seen(xs[..|xs| - 1], t)
  }

  // The records of task t.
  function Of(records: seq<Record>, t: u32): seq<Record> {
    if records == [] then []
    else Of(records[..|records| - 1], t) + (if records[|records| - 1].task == t then [records[|records| - 1]] else [])
  }

  function Lookup(known: Known, t: u32): Option<Snapshot> {
    if t in known then Some(known[t]) else None
  }

  // The record, if any, that two consecutive sightings of a task give.
  function Paired(before: Option<Snapshot>, now: Option<Snapshot>, e: u64, i: u64): seq<Record> {
    if before.Some? && now.Some? && SameTaskIdentity(before.value.task, now.value.task)
    then [BuildRecord(before.value, now.value, e, i)] else []
  }

  lemma {:induction false} KnownAfterIs(known: Known, xs: seq<Reading>, t: u32)
    ensures t in Tids(xs) ==> Lookup(KnownAfter(known, xs), t) == Seen(xs, t)
    ensures t !in Tids(xs) ==> Lookup(KnownAfter(known, xs), t) == Lookup(known, t) && Seen(xs, t) == None
  {
    if xs != [] {
      var n := |xs| - 1;
      KnownAfterIs(known, xs[..n], t);
      TidsSnoc(xs[..n], xs[n]);
      assert xs == xs[..n] + [xs[n]];
    }
  }

  lemma OfAppend(a: seq<Record>, b: seq<Record>, t: u32)
    requires |b| <= 1
    ensures Of(a + b, t) == Of(a, t) + (if |b| == 1 && b[0].task == t then b else [])
  {
    if |b| == 0 {
      assert a + b == a;
    } else {
      assert (a + b)[..|a|] == a;
    }
  }

  // With distinct TIDs a round pairs each sighting with what was known before the round.
  lemma {:induction false} RecordsPair(known: Known, xs: seq<Reading>, e: u64, i: u64, t: u32)
    requires DistinctTids(xs)
    ensures Of(Records(known, xs, e, i), t) == Paired(Lookup(known, t), Seen(xs, t), e, i)
  {
    if xs != [] {
      var n := |xs| - 1;
      var x, before := xs[n], xs[..n];
      assert DistinctTids(before);
      RecordsPair(known, before, e, i, t);
      OfAppend(Records(known, before, e, i), Yield(KnownAfter(known, before), x, e, i), t);
      KnownAfterIs(known, before, x.task.tid);
      if x.task.tid == t {
        assert t !in Tids(before);
      }
    }
  }

  // What the sampler holds after a run, and the records of each round.
  function Held(rounds: seq<Round>): Known {
    if rounds == [] then map[]
    else
      var xs := Scanned(rounds[|rounds| - 1]);
      Retained(KnownAfter(Held(rounds[..|rounds| - 1]), xs), Tids(xs))
  }

  function RecordsAt(rounds: seq<Round>, k: nat): seq<Record>
    requires k < |rounds|
  {
    Records(Held(rounds[..k]), Scanned(rounds[k]), rounds[k].elapsedMs, rounds[k].intervalMs)
  }

  function SeenAt(rounds: seq<Round>, k: nat, t: u32): Option<Snapshot>
    requires k < |rounds|
  {
    Seen(Scanned(rounds[k]), t)
  }

  // Only the round just before is remembered.
  lemma HeldIsLastRound(rounds: seq<Round>, t: u32)
    ensures Lookup(Held(rounds), t) == if rounds == [] then None else SeenAt(rounds, |rounds| - 1, t)
  {
    if rounds != [] {
      KnownAfterIs(Held(rounds[..|rounds| - 1]), Scanned(rounds[|rounds| - 1]), t);
    }
  }

  // A task has a record in a round exactly when it was seen in that round and in the one
  // before it under the same identity, and the record is the difference of the two: no
  // record spans a gap, a read error, a task-cap exclusion or a known change of identity.
  lemma RecordsPairConsecutiveRounds(rounds: seq<Round>, k: nat, t: u32)
    requires k < |rounds| && DistinctTids(Scanned(rounds[k]))
    ensures Of(RecordsAt(rounds, k), t)
         == Paired(if k == 0 then None else SeenAt(rounds, k - 1, t), SeenAt(rounds, k, t),
                   rounds[k].elapsedMs, rounds[k].intervalMs)
  {
    hide Records, Paired, Seen, Scanned;
    RecordsPair(Held(rounds[..k]), Scanned(rounds[k]), rounds[k].elapsedMs, rounds[k].intervalMs, t);
    HeldIsLastRound(rounds[..k], t);
    if k > 0 {
      assert rounds[..k][k - 1] == rounds[k - 1];
    }
  }

  // Both start times, where both are known, are the same.
  predicate StartsAgree(a: Option<u64>, b: Option<u64>) { a.None? || b.None? || a == b }

  // d is now minus before, where both were read; a counter that went back counts as standing.
  predicate IsDelta(d: Option<u64>, now: Option<u64>, before: Option<u64>) {
    && (d.Some? <==> now.Some? && before.Some?)
    && (d.Some? && before.value <= now.value ==> before.value + d.value == now.value)
    && (d.Some? && now.value < before.value ==> d.value == 0)
  }

  // The average is rounded down, and absent without a slice to share among.
  predicate IsAverage(avg: Option<u64>, total: Option<u64>, slices: Option<u64>) {
    && (avg.Some? <==> total.Some? && slices.Some? && slices.value > 0)
    && (avg.Some? ==> avg.value * slices.value <= total.value < avg.value * slices.value + slices.value)
  }

  // In full: a task has a record in a round exactly when it was read in it and in the round
  // before, as the same TID of the same process, with no known start time changed; the record
  // says what each counter did in between.
  lemma RecordMeans(rounds: seq<Round>, k: nat, t: u32)
    requires k < |rounds| && DistinctTids(Scanned(rounds[k]))
    ensures |Of(RecordsAt(rounds, k), t)| <= 1
    ensures Of(RecordsAt(rounds, k), t) != [] <==>
      && k > 0 && SeenAt(rounds, k - 1, t).Some? && SeenAt(rounds, k, t).Some?
      && var a, b := SeenAt(rounds, k - 1, t).value.task, SeenAt(rounds, k, t).value.task;
      && a.processPid == b.processPid
      && StartsAgree(a.processStart, b.processStart) && StartsAgree(a.taskStart, b.taskStart)
    ensures Of(RecordsAt(rounds, k), t) != [] ==>
      var r := Of(RecordsAt(rounds, k), t)[0];
      Says(r, SeenAt(rounds, k - 1, t).value, SeenAt(rounds, k, t).value, rounds[k])
  {
    hide RecordsAt, Scanned, Seen, BuildRecord, Says;
    RecordsPairConsecutiveRounds(rounds, k, t);
    SeenTid(Scanned(rounds[k]), t);
    if k > 0 {
      SeenTid(Scanned(rounds[k - 1]), t);
    }
    if Of(RecordsAt(rounds, k), t) != [] {
      BuildSays(SeenAt(rounds, k - 1, t).value, SeenAt(rounds, k, t).value, rounds[k]);
    }
  }

  predicate Says(r: Record, before: Snapshot, now: Snapshot, round: Round) {
    && r.task == now.task.tid && r.source == now.counters.source
    && r.elapsedMs == round.elapsedMs && r.intervalMs == round.intervalMs
    && (r.processPid == None <==> now.task.processPid == 0)
    && (r.processPid.Some? ==> r.processPid.value == now.task.processPid)
    && IsDelta(Some(r.runtimeDeltaNs), Some(now.counters.runtimeNs), Some(before.counters.runtimeNs))
    && IsDelta(r.waitDeltaNs, now.counters.waitNs, before.counters.waitNs)
    && IsDelta(r.timeslicesDelta, now.counters.timeslices, before.counters.timeslices)
    && IsDelta(r.userDeltaNs, now.counters.userNs, before.counters.userNs)
    && IsDelta(r.systemDeltaNs, now.counters.systemNs, before.counters.systemNs)
    && IsAverage(r.avgRuntimePerSliceNs, Some(r.runtimeDeltaNs), r.timeslicesDelta)
    && IsAverage(r.avgWaitPerSliceNs, r.waitDeltaNs, r.timeslicesDelta)
  }

  lemma BuildSays(before: Snapshot, now: Snapshot, round: Round)
    ensures Says(BuildRecord(before, now, round.elapsedMs, round.intervalMs), before, now, round)
  {
    hide NonzeroDiv;
    var r := BuildRecord(before, now, round.elapsedMs, round.intervalMs);
    if r.timeslicesDelta.Some? {
      DivIsAverage(r.runtimeDeltaNs, r.timeslicesDelta.value);
      if r.waitDeltaNs.Some? {
        DivIsAverage(r.waitDeltaNs.value, r.timeslicesDelta.value);
      }
    }
  }

  lemma DivIsAverage(n: u64, d: u64)
    ensures IsAverage(NonzeroDiv(n, d), Some(n), Some(d))
  {
    if d > 0 {
      var q := n / d;
      assert n == d * q + n % d;
      assert q * d == d * q;
    }
  }

  // With distinct TIDs a task is seen as whatever its one reading was.
  lemma {:induction false} SeenMeans(xs: seq<Reading>, t: u32, s: Snapshot)
    requires DistinctTids(xs)
    ensures Seen(xs, t) == Some(s) <==>
      exists i :: 0 <= i < |xs| && xs[i].task == s.task && s.task.tid == t && xs[i].counters == Some(s.counters)
  {
    if xs != [] {
      var n := |xs| - 1;
      SeenMeans(xs[..n], t, s);
      assert forall i :: 0 <= i < n ==> xs[..n][i] == xs[i];
    }
  }

  // The sampler is about to compare a counter of one source with a counter of the other.
  predicate MixesSources(rounds: seq<Round>, k: nat, r: Record)
    requires k < |rounds|
  {
    var held := Lookup(Held(rounds[..k]), r.task);
    held.Some? && held.value.counters.source != r.source
  }

  // A record mixes sources if and only if the two sightings behind it have different ones.
  lemma MixesSourcesIff(rounds: seq<Round>, k: nat, t: u32)
    requires k < |rounds| && DistinctTids(Scanned(rounds[k])) && Of(RecordsAt(rounds, k), t) != []
    ensures k > 0 && SeenAt(rounds, k - 1, t).Some? && SeenAt(rounds, k, t).Some?
    ensures var r := Of(RecordsAt(rounds, k), t)[0];
      MixesSources(rounds, k, r) <==>
        SeenAt(rounds, k - 1, t).value.counters.source != SeenAt(rounds, k, t).value.counters.source
  {
    hide RecordsAt, Scanned, Held, Seen;
    RecordsPairConsecutiveRounds(rounds, k, t);
    HeldIsLastRound(rounds[..k], t);
    assert k > 0 && rounds[..k][k - 1] == rounds[k - 1];
    SeenTid(Scanned(rounds[k]), t);
  }

  lemma {:induction false} SeenTid(xs: seq<Reading>, t: u32)
    ensures Seen(xs, t).Some? ==> Seen(xs, t).value.task.tid == t
  {
    if xs != [] {
      SeenTid(xs[..|xs| - 1], t);
    }
  }

  const ONE_TASK := TaskInfo(7, 7, None, None)
  const SCHEDSTAT_READING := Reading(ONE_TASK, Some(Counters(ProcSchedstat, 5, None, None, None, None)))
  const FALLBACK_READING := Reading(ONE_TASK, Some(Counters(ProcStatFallback, 9, None, None, None, None)))

  // Two rounds, the second read from the fallback source: their difference is still reported.
  lemma SourceChangeIsReported() returns (rounds: seq<Round>)
    ensures |rounds| == 2 && |Of(RecordsAt(rounds, 1), 7)| == 1
    ensures Of(RecordsAt(rounds, 1), 7)[0].runtimeDeltaNs == 4
    ensures MixesSources(rounds, 1, Of(RecordsAt(rounds, 1), 7)[0])
  {
    hide RecordsAt, Held;
    rounds := [Round([SCHEDSTAT_READING], 0, 1, 1), Round([FALLBACK_READING], 1, 1, 1)];
    SeenOne(SCHEDSTAT_READING);
    SeenOne(FALLBACK_READING);
    RecordsPairConsecutiveRounds(rounds, 1, 7);
    MixesSourcesIff(rounds, 1, 7);
  }

  lemma SeenOne(x: Reading)
    requires x.counters.Some?
    ensures Seen([x], x.task.tid) == Some(Snapshot(x.task, x.counters.value))
  {
  }

  // t is seen in every round from i to j, always as the same task and with a runtime counter
  // that does not go back.
  predicate Streak(rounds: seq<Round>, t: u32, i: nat, j: nat) {
    && i <= j < |rounds|
    && (forall k :: i <= k <= j ==> DistinctTids(Scanned(rounds[k])) && SeenAt(rounds, k, t).Some?)
    && forall k :: i < k <= j ==> Continues(SeenAt(rounds, k - 1, t).value, SeenAt(rounds, k, t).value)
  }

  predicate Continues(before: Snapshot, now: Snapshot) {
    && SameTaskIdentity(before.task, now.task)
    && before.counters.runtimeNs <= now.counters.runtimeNs
  }

  // The records of t in rounds i+1 to j.
  function StreakRecords(rounds: seq<Round>, t: u32, i: nat, j: nat): seq<Record>
    requires i <= j < |rounds|
  {
    if i == j then [] else StreakRecords(rounds, t, i, j - 1) + Of(RecordsAt(rounds, j), t)
  }

  function TotalRuntime(records: seq<Record>): nat {
    if records == [] then 0 else TotalRuntime(records[..|records| - 1]) + records[|records| - 1].runtimeDeltaNs
  }

  // A streak of n sightings yields n - 1 records whose runtime adds up to last minus first.
  lemma {:induction false} StreakAddsUp(rounds: seq<Round>, t: u32, i: nat, j: nat)
    requires Streak(rounds, t, i, j)
    ensures |StreakRecords(rounds, t, i, j)| == j - i
    ensures SeenAt(rounds, i, t).value.counters.runtimeNs + TotalRuntime(StreakRecords(rounds, t, i, j))
         == SeenAt(rounds, j, t).value.counters.runtimeNs
  {
    hide RecordsAt, SeenAt, Scanned, SameTaskIdentity, TotalRuntime, BuildRecord;
    if i == j {
      NoRuntime();
    } else {
      StreakAddsUp(rounds, t, i, j - 1);
      var a, b := SeenAt(rounds, j - 1, t).value, SeenAt(rounds, j, t).value;
      RecordsPairConsecutiveRounds(rounds, j, t);
      RuntimeSnoc(StreakRecords(rounds, t, i, j - 1), BuildRecord(a, b, rounds[j].elapsedMs, rounds[j].intervalMs));
      BuildRuntime(a, b, rounds[j].elapsedMs, rounds[j].intervalMs);
      assert Continues(a, b);
    }
  }

  lemma NoRuntime()
    ensures TotalRuntime([]) == 0
  {
  }

  lemma RuntimeSnoc(records: seq<Record>, r: Record)
    ensures TotalRuntime(records + [r]) == TotalRuntime(records) + r.runtimeDeltaNs
  {
    assert (records + [r])[..|records|] == records;
  }

  lemma BuildRuntime(a: Snapshot, b: Snapshot, e: u64, i: u64)
    ensures a.counters.runtimeNs <= b.counters.runtimeNs ==>
      a.counters.runtimeNs + BuildRecord(a, b, e, i).runtimeDeltaNs == b.counters.runtimeNs
  {
  }

  // The sampler, fed round after round, reports those records.
  method Sample(rounds: seq<Round>) returns (batches: seq<Batch>)
    ensures |batches| == |rounds|
    ensures forall k :: 0 <= k < |rounds| ==> batches[k].records == RecordsAt(rounds, k)
  {
    hide Records, KnownAfter, Tids, Scanned, Errors;
    var sampler := new RuntimeSliceSampler();
    batches := [];
    for k := 0 to |rounds|
      invariant fresh(sampler) && sampler.previous == Held(rounds[..k])
      invariant |batches| == k
      invariant forall j :: 0 <= j < k ==> batches[j].records == RecordsAt(rounds, j)
    {
      assert rounds[..k + 1][..k] == rounds[..k];
      var batch := sampler.Collect(rounds[k]);
      batches := batches + [batch];
    }
  }
}
