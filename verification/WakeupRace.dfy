// The record/consume hand-off for one TID at the granularity of single map operations:
// one wakeup handler and any number of switch handlers run concurrently, each between two
// of its map operations. A tag numbers the accepted wakeups; the protocol compares values
// only, so a tag is what two equal-looking records would still differ in.
module WakeupRace {
  import opened Types
  import opened WakeupStore

  datatype Tagged = Tagged(data: WakeupData, tag: nat)

  // Where the wakeup handler stands: the next operation it will perform.
  datatype Writer =
    | Idle
    | InsertSeq(ts: u64, cpu: u32, waker: u32, seqno: u32)
    | ReadOld(record: Tagged)
    | CheckOld(record: Tagged, previous: Tagged)
    | InsertData(record: Tagged)
    | ClearCursor(record: Tagged)

  // Where a switch handler stands.
  datatype Consumer = CheckCursor(out: Tagged) | InsertCursor(out: Tagged)

  datatype State = State(
    seqs: Option<u32>,          // WAKEUP_SEQ
    stored: Option<Tagged>,     // WAKEUP_DATA
    cursor: Option<Tagged>,     // WAKEUP_CONSUMED
    writer: Writer,
    consumers: map<nat, Consumer>,
    tags: nat,                  // sequence numbers handed out so far
    accepted: set<Tagged>,
    consumed: seq<Tagged>,      // in the order the cursor was set
    exited: bool)

  datatype Action =
    | Begin(ts: u64, cpu: u32, waker: u32)
    | StepWriter(insertOk: bool)
    | StepConsumer(id: nat)
    | ExitData | ExitCursor | ExitSeq  // the exit handler's three removals

  const START := State(None, None, None, Idle, map[], 0, {}, [], false)

  function Wrap(n: nat): u32 { n % 0x1_0000_0000 }

  function SuccWrapping(x: u32): u32 { if x == U32_MAX then 0 else x + 1 }

  // One map operation; an action that does not apply leaves the state alone.
  function Next(s: State, a: Action): State {
    match a
    case Begin(ts, cpu, waker) =>
      if s.writer.Idle? then
        s.(writer := InsertSeq(ts, cpu, waker, if s.seqs.Some? then SuccWrapping(s.seqs.value) else 1))
      else s
    case StepWriter(ok) => NextWriter(s, ok)
    case StepConsumer(id) => NextConsumer(s, id)
    case ExitData => s.(stored := None, exited := true)
    case ExitCursor => s.(cursor := None, exited := true)
    case ExitSeq => s.(seqs := None, exited := true)
  }

  function NextWriter(s: State, ok: bool): State {
    match s.writer
    case Idle => s
    case InsertSeq(ts, cpu, waker, seqno) =>
      if ok then
        s.(seqs := Some(seqno), tags := s.tags + 1,
           writer := ReadOld(Tagged(WakeupData(ts, cpu, waker, seqno), s.tags + 1)))
      else s.(writer := Idle)
    case ReadOld(r) =>
      s.(writer := if s.stored.Some? then CheckOld(r, s.stored.value) else InsertData(r))
    case CheckOld(r, _) => s.(writer := InsertData(r))
    case InsertData(r) =>
      if ok then s.(stored := Some(r), accepted := s.accepted + {r}, writer := ClearCursor(r))
      else s.(writer := Idle)
    case ClearCursor(_) => s.(cursor := None, writer := Idle)
  }

  function NextConsumer(s: State, id: nat): State {
    if id !in s.consumers then
      if s.stored.Some? then s.(consumers := s.consumers[id := CheckCursor(s.stored.value)]) else s
    else
      match s.consumers[id]
      case CheckCursor(out) =>
        if s.cursor.Some? && s.cursor.value.data == out.data then s.(consumers := s.consumers - {id})
        else s.(consumers := s.consumers[id := InsertCursor(out)])
      case InsertCursor(out) =>
        s.(cursor := Some(out), consumed := s.consumed + [out], consumers := s.consumers - {id})
  }

  function Run(actions: seq<Action>): State {
    if actions == [] then START
    else Next(Run(actions[..|actions| - 1]), actions[|actions| - 1])
  }

  // The stored record looks consumed to every handler.
  predicate Hidden(s: State) {
    s.stored.Some? && s.cursor.Some? && s.cursor.value.data == s.stored.value.data
  }

  function RecordOf(w: Writer): Option<Tagged> {
    match w
    case Idle | InsertSeq(_, _, _, _) => None
    case ReadOld(r) => Some(r)
    case CheckOld(r, _) => Some(r)
    case InsertData(r) => Some(r)
    case ClearCursor(r) => Some(r)
  }

  // Whatever is stored, marked or in flight was accepted, and the cursor was set on purpose.
  ghost predicate Genuine(s: State) {
    && (s.stored.Some? ==> s.stored.value in s.accepted)
    && (s.cursor.Some? ==> s.cursor.value in s.accepted && s.cursor.value in s.consumed)
    && (forall c :: c in s.consumers ==> s.consumers[c].out in s.accepted)
    && (forall r :: r in s.consumed ==> r in s.accepted)
  }

  ghost predicate Numbered(s: State) {
    && (forall r :: r in s.accepted ==> 1 <= r.tag <= s.tags)
    && (RecordOf(s.writer).Some? ==> RecordOf(s.writer).value.tag == s.tags >= 1)
  }

  // Without an exit the sequence number is the tag, wrapped to 32 bits.
  ghost predicate Sequenced(s: State) {
    !s.exited ==>
      && s.seqs == (if s.tags == 0 then None else Some(Wrap(s.tags)))
      && (s.writer.InsertSeq? ==> s.writer.seqno == Wrap(s.tags + 1))
      && (RecordOf(s.writer).Some? ==>
            RecordOf(s.writer).value.tag == s.tags && RecordOf(s.writer).value.data.seqno == Wrap(s.tags))
      && forall r :: r in s.accepted ==> r.data.seqno == Wrap(r.tag)
  }

  ghost predicate Inv(s: State) {
    Genuine(s) && Numbered(s) && Sequenced(s)
  }

  lemma WrapSucc(n: nat)
    ensures SuccWrapping(Wrap(n)) == Wrap(n + 1)
    ensures Wrap(1) == 1
  {
  }

  lemma GenuineWriter(s: State, ok: bool)
    requires Genuine(s)
    ensures Genuine(NextWriter(s, ok))
  {
    match s.writer
    case InsertData(r) => if ok { GenuineInsert(s, r); }
    case _ =>
  }

  lemma GenuineInsert(s: State, r: Tagged)
    requires Genuine(s)
    ensures Genuine(s.(stored := Some(r), accepted := s.accepted + {r}, writer := ClearCursor(r)))
  {
    hide NextWriter;
  }

  lemma GenuineConsumer(s: State, id: nat)
    requires Genuine(s)
    ensures Genuine(NextConsumer(s, id))
  {
  }

  lemma GenuineStep(s: State, a: Action)
    requires Genuine(s)
    ensures Genuine(Next(s, a))
  {
    hide NextWriter, NextConsumer;
    match a
    case StepWriter(ok) => GenuineWriter(s, ok);
    case StepConsumer(id) => GenuineConsumer(s, id);
    case _ =>
  }

  lemma NumberedStep(s: State, a: Action)
    requires Numbered(s)
    ensures Numbered(Next(s, a))
  {
  }

  lemma SequencedStep(s: State, a: Action)
    requires Sequenced(s)
    ensures Sequenced(Next(s, a))
  {
    hide Wrap, SuccWrapping;
    WrapSucc(s.tags);
  }

  lemma NextKeepsInv(s: State, a: Action)
    requires Inv(s)
    ensures Inv(Next(s, a))
  {
    hide Next, Genuine, Numbered, Sequenced;
    GenuineStep(s, a);
    NumberedStep(s, a);
    SequencedStep(s, a);
  }

  lemma {:induction false} RunKeepsInv(actions: seq<Action>)
    ensures Inv(Run(actions))
  {
    hide Next, Inv;
    if actions == [] {
      StartInv();
    } else {
      RunKeepsInv(actions[..|actions| - 1]);
      NextKeepsInv(Run(actions[..|actions| - 1]), actions[|actions| - 1]);
    }
  }

  lemma StartInv()
    ensures Inv(START)
  {
  }

  // A record is hidden only by a cursor some consumer set for an accepted record of equal
  // value. That record is the stored one itself whenever no exit reset the sequence and
  // fewer than 2^32 sequence numbers were handed out.
  lemma NewerWakeupIsNeverHidden(actions: seq<Action>)
    requires Hidden(Run(actions))
    ensures var s := Run(actions);
      && s.cursor.value in s.consumed && s.cursor.value in s.accepted
      && s.cursor.value.data == s.stored.value.data
      && (!s.exited ==> Wrap(s.cursor.value.tag) == Wrap(s.stored.value.tag))
      && (!s.exited && s.tags < 0x1_0000_0000 ==> s.stored.value in s.consumed)
  {
    hide Next;
    RunKeepsInv(actions);
    var s := Run(actions);
    assert s.stored.value in s.accepted && s.cursor.value in s.accepted;
    if !s.exited && s.tags < 0x1_0000_0000 {
      assert s.cursor.value.tag == s.stored.value.tag;
    }
  }

  // No two accepted wakeups of the TID look alike to the cursor comparison.
  ghost predicate DistinctValues(s: State) {
    forall p, q :: p in s.accepted && q in s.accepted && p.data == q.data ==> p == q
  }

  // Then neither exits nor sequence wrap-around can hide an unconsumed record.
  lemma DistinctValuesNeverHide(actions: seq<Action>)
    requires DistinctValues(Run(actions)) && Hidden(Run(actions))
    ensures Run(actions).stored.value in Run(actions).consumed
  {
    hide Next;
    RunKeepsInv(actions);
  }

  // ---- exactly when an unconsumed record is hidden ---------------------------------------

  predicate HidesUnconsumed(s: State) {
    Hidden(s) && s.stored.value !in s.consumed
  }

  // The two operations that hide an unconsumed record: a consumer marks another record that
  // looks like the stored one, or the writer stores a record that looks like the cursor.
  predicate Obscures(s: State, a: Action) {
    match a
    case StepConsumer(id) =>
      && id in s.consumers && s.consumers[id].InsertCursor? && s.stored.Some?
      && var out := s.consumers[id].out;
      out != s.stored.value && out.data == s.stored.value.data && s.stored.value !in s.consumed
    case StepWriter(insertOk) =>
      && insertOk && s.writer.InsertData? && s.cursor.Some?
      && s.cursor.value.data == s.writer.record.data && s.writer.record !in s.consumed
    case _ => false
  }

  lemma HiddenByStep(s: State, a: Action)
    requires !HidesUnconsumed(s)
    ensures HidesUnconsumed(Next(s, a)) <==> Obscures(s, a)
  {
  }

  ghost predicate HidesAfter(actions: seq<Action>) { HidesUnconsumed(Run(actions)) }

  ghost predicate ObscuresAfter(before: seq<Action>, a: Action) { Obscures(Run(before), a) }

  // An unconsumed record is hidden at some moment of the run.
  ghost predicate EverHides(actions: seq<Action>) {
    exists i :: 0 <= i <= |actions| && HidesAfter(actions[..i])
  }

  // Some operation of the run hides an unconsumed record.
  ghost predicate EverObscures(actions: seq<Action>) {
    exists i :: 0 <= i < |actions| && ObscuresAfter(actions[..i], actions[i])
  }

  // On every run, exits and wrap-around included: an unconsumed record is hidden at some
  // moment if and only if some operation is one of the two.
  lemma {:induction false} HiddenIffObscured(actions: seq<Action>)
    ensures EverHides(actions) <==> EverObscures(actions)
  {
    hide Next, HidesUnconsumed, Obscures;
    if actions == [] {
      NothingHidden();
      assert actions[..0] == [];
    } else {
      var n := |actions| - 1;
      var before := actions[..n];
      HiddenIffObscured(before);
      EverObscuresSnoc(actions);
      EverHidesSnoc(actions);
      if !EverHides(before) {
        assert before[..n] == before && !HidesAfter(before[..n]);
        HiddenByStep(Run(before), actions[n]);
      }
    }
  }

  lemma NothingHidden()
    ensures !HidesUnconsumed(Run([]))
  {
  }

  lemma EverObscuresSnoc(actions: seq<Action>)
    requires actions != []
    ensures var n := |actions| - 1;
      EverObscures(actions) <==> EverObscures(actions[..n]) || ObscuresAfter(actions[..n], actions[n])
  {
    hide ObscuresAfter;
    var n := |actions| - 1;
    PrefixesOfPrefix(actions);
    if i :| 0 <= i < n && ObscuresAfter(actions[..n][..i], actions[..n][i]) {
      assert ObscuresAfter(actions[..i], actions[i]);
    }
    if i :| 0 <= i < n && ObscuresAfter(actions[..i], actions[i]) {
      assert ObscuresAfter(actions[..n][..i], actions[..n][i]);
    }
  }

  lemma EverHidesSnoc(actions: seq<Action>)
    requires actions != []
    ensures EverHides(actions) <==> EverHides(actions[..|actions| - 1]) || HidesAfter(actions)
  {
    hide HidesAfter;
    var n := |actions| - 1;
    PrefixesOfPrefix(actions);
    assert actions[..|actions|] == actions;
    if i :| 0 <= i <= n && HidesAfter(actions[..n][..i]) {
      assert HidesAfter(actions[..i]);
    }
    if i :| 0 <= i <= n && HidesAfter(actions[..i]) {
      assert HidesAfter(actions[..n][..i]);
    }
  }

  lemma PrefixesOfPrefix(actions: seq<Action>)
    requires actions != []
    ensures forall i :: 0 <= i <= |actions| - 1 ==> actions[..|actions| - 1][..i] == actions[..i]
  {
  }

  // ---- handlers that are not interrupted -------------------------------------------------

  // Operations the wakeup handler still has before it.
  function Remaining(w: Writer): nat {
    match w
    case Idle => 0
    case ClearCursor(_) => 1
    case InsertData(_) => 2
    case CheckOld(_, _) => 3
    case ReadOld(_) => 4
    case InsertSeq(_, _, _, _) => 5
  }

  // The wakeup handler runs to its end, every insert succeeding.
  function UntilIdle(s: State): State
    decreases Remaining(s.writer)
  {
    if s.writer.Idle? then s else UntilIdle(NextWriter(s, true))
  }

  // Alone it does what the handler does as a whole: whatever was stored before, consumed or
  // not, the new record takes its place and the cursor is clear.
  lemma RecordAlone(s: State, ts: u64, cpu: u32, waker: u32)
    requires s.writer.Idle?
    ensures var r := Tagged(
        WakeupData(ts, cpu, waker, if s.seqs.Some? then (s.seqs.value as int + 1) % 0x1_0000_0000 else 1), s.tags + 1);
      UntilIdle(Next(s, Begin(ts, cpu, waker)))
      == s.(seqs := Some(r.data.seqno), tags := s.tags + 1, stored := Some(r), cursor := None,
            accepted := s.accepted + {r})
  {
    hide NextWriter, NextConsumer, UntilIdle;
    var s1 := Next(s, Begin(ts, cpu, waker));
    NumberAlone(s1);
    var s2 := s1.(seqs := Some(s1.writer.seqno), tags := s.tags + 1,
                  writer := ReadOld(Tagged(WakeupData(ts, cpu, waker, s1.writer.seqno), s.tags + 1)));
    LookAlone(s2);
    InsertAlone(s2.(writer := InsertData(s2.writer.record)));
  }

  lemma NumberAlone(s: State)
    requires s.writer.InsertSeq?
    ensures var w := s.writer;
      UntilIdle(s) == UntilIdle(s.(
        seqs := Some(w.seqno), tags := s.tags + 1,
        writer := ReadOld(Tagged(WakeupData(w.ts, w.cpu, w.waker, w.seqno), s.tags + 1))))
  {
    hide UntilIdle;
    UntilIdleStep(s);
  }

  // Looking at what is stored changes nothing.
  lemma LookAlone(s: State)
    requires s.writer.ReadOld?
    ensures UntilIdle(s) == UntilIdle(s.(writer := InsertData(s.writer.record)))
  {
    hide UntilIdle;
    UntilIdleStep(s);
    UntilIdleStep(NextWriter(s, true));
  }

  lemma InsertAlone(s: State)
    requires s.writer.InsertData?
    ensures var r := s.writer.record;
      UntilIdle(s) == s.(stored := Some(r), accepted := s.accepted + {r}, cursor := None, writer := Idle)
  {
    hide UntilIdle;
    UntilIdleStep(s);
    UntilIdleStep(NextWriter(s, true));
    UntilIdleStep(NextWriter(NextWriter(s, true), true));
  }

  lemma UntilIdleStep(s: State)
    ensures UntilIdle(s) == if s.writer.Idle? then s else UntilIdle(NextWriter(s, true))
  {
  }

  // A refused insert ends it: nothing is stored, at most a sequence number is used up.
  lemma RefusedAlone(s: State)
    ensures s.writer.InsertSeq? ==> NextWriter(s, false) == s.(writer := Idle)
    ensures s.writer.InsertData? ==> NextWriter(s, false) == s.(writer := Idle)
  {
  }

  // A switch handler alone consumes exactly an unhidden record and leaves everything else.
  lemma ConsumeAlone(s: State, id: nat)
    requires id !in s.consumers
    ensures var s1 := NextConsumer(s, id);
      var s2 := NextConsumer(s1, id);
      var s3 := NextConsumer(s2, id);
      && (s.stored.None? ==> s1 == s)
      && (Hidden(s) ==> s2 == s)
      && (s.stored.Some? && !Hidden(s) ==>
            s3 == s.(cursor := s.stored, consumed := s.consumed + [s.stored.value]))
  {
    if s.stored.Some? {
      var s1 := NextConsumer(s, id);
      assert s1.consumers - {id} == s.consumers;
      if !Hidden(s) {
        var s2 := NextConsumer(s1, id);
        assert s2.consumers - {id} == s.consumers;
      }
    }
  }

  // An exit alone forgets record, cursor and sequence.
  lemma ExitAlone(s: State)
    ensures Next(Next(Next(s, ExitData), ExitCursor), ExitSeq)
         == s.(stored := None, cursor := None, seqs := None, exited := true)
  {
  }

  // A second wakeup replaces the first, without an exit between them: there are newer records
  // for the guarantees above to be about.
  lemma SecondIsStored() returns (actions: seq<Action>)
    ensures var s := Run(actions);
      && !s.exited && s.writer.Idle? && s.stored.Some? && s.stored.value.tag == 2 && |s.accepted| == 2
      && |s.consumed| == 1 && s.consumed[0].tag == 1 && !Hidden(s)
  {
    hide Run, Next;
    StartsEmpty();
    var s;
    actions, s := RecordOnce([], START);
    actions, s := ClearOnce(actions, s);
    actions, s := ConsumeOnce(actions, s);
    var first, second := Tagged(WakeupData(7, 0, 3, 1), 1), Tagged(WakeupData(8, 0, 3, 2), 2);
    actions, s := RecordSecond(actions, s);
    assert s.consumed == [first] && s.accepted == {first, second};
  }

  lemma StartsEmpty()
    ensures Run([]) == START
  {
  }

  lemma ClearOnce(actions: seq<Action>, s: State) returns (longer: seq<Action>, t: State)
    requires Run(actions) == s && s.writer.ClearCursor?
    ensures Run(longer) == t == s.(cursor := None, writer := Idle)
  {
    hide Run, NextConsumer;
    longer, t := Extend(actions, s, StepWriter(true));
  }

  lemma ConsumeOnce(actions: seq<Action>, s: State) returns (longer: seq<Action>, t: State)
    requires Run(actions) == s && s.consumers == map[] && s.stored.Some? && !Hidden(s)
    ensures Run(longer) == t == s.(cursor := s.stored, consumed := s.consumed + [s.stored.value])
  {
    hide Run, NextWriter, NextConsumer, Hidden;
    ConsumeAlone(s, 0);
    longer, t := Extend(actions, s, StepConsumer(0));
    longer, t := Extend(longer, t, StepConsumer(0));
    longer, t := Extend(longer, t, StepConsumer(0));
  }

  lemma RecordSecond(actions: seq<Action>, s: State) returns (longer: seq<Action>, t: State)
    requires Run(actions) == s && s.writer.Idle? && s.stored.Some? && s.seqs == Some(1)
    ensures Run(longer) == t
    ensures var r := Tagged(WakeupData(8, 0, 3, 2), s.tags + 1);
      t == s.(seqs := Some(2), tags := s.tags + 1, stored := Some(r), accepted := s.accepted + {r}, cursor := None)
  {
    hide Run, NextConsumer;
    var r := Tagged(WakeupData(8, 0, 3, 2), s.tags + 1);
    longer, t := Extend(actions, s, Begin(8, 0, 3));
    assert t == s.(writer := InsertSeq(8, 0, 3, 2));
    longer, t := Extend(longer, t, StepWriter(true));
    assert t == s.(seqs := Some(2), tags := s.tags + 1, writer := ReadOld(r));
    longer, t := Extend(longer, t, StepWriter(true));
    longer, t := Extend(longer, t, StepWriter(true));
    assert t == s.(seqs := Some(2), tags := s.tags + 1, writer := InsertData(r));
    longer, t := Extend(longer, t, StepWriter(true));
    longer, t := Extend(longer, t, StepWriter(true));
  }

  // ---- where the guarantee ends ----------------------------------------------------------

  lemma RunSnoc(actions: seq<Action>, a: Action)
    ensures Run(actions + [a]) == Next(Run(actions), a)
  {
    assert (actions + [a])[..|actions|] == actions;
  }

  lemma Extend(actions: seq<Action>, s: State, a: Action) returns (longer: seq<Action>, t: State)
    requires Run(actions) == s
    ensures longer == actions + [a] && t == Next(s, a) && Run(longer) == t
  {
    RunSnoc(actions, a);
    longer, t := actions + [a], Next(s, a);
  }

  // An uncontended wakeup handler: Begin, then four operations when nothing is stored yet.
  lemma RecordOnce(actions: seq<Action>, s: State) returns (longer: seq<Action>, t: State)
    requires Run(actions) == s && s.writer.Idle? && s.stored.None? && s.seqs.None?
    ensures Run(longer) == t
    ensures var r := Tagged(WakeupData(7, 0, 3, 1), s.tags + 1);
      t == s.(seqs := Some(1), tags := s.tags + 1, stored := Some(r), accepted := s.accepted + {r},
              writer := ClearCursor(r))
  {
    hide Run, NextConsumer;
    var r := Tagged(WakeupData(7, 0, 3, 1), s.tags + 1);
    longer, t := Extend(actions, s, Begin(7, 0, 3));
    assert t == s.(writer := InsertSeq(7, 0, 3, 1));
    longer, t := Extend(longer, t, StepWriter(true));
    assert t == s.(seqs := Some(1), tags := s.tags + 1, writer := ReadOld(r));
    longer, t := Extend(longer, t, StepWriter(true));
    assert t == s.(seqs := Some(1), tags := s.tags + 1, writer := InsertData(r));
    longer, t := Extend(longer, t, StepWriter(true));
  }

  // Single-operation interleaving does allow one wakeup to be consumed twice: a switch that
  // consumes a record between its insertion and the clearing of the cursor is forgotten.
  lemma ConsumedTwice() returns (actions: seq<Action>)
    ensures var s := Run(actions);
      !s.exited && s.tags == 1 && |s.consumed| == 2 && s.consumed[0] == s.consumed[1]
  {
    var s;
    actions, s := RecordOnce([], START);
    actions, s := Extend(actions, s, StepConsumer(0));
    actions, s := Extend(actions, s, StepConsumer(0));
    actions, s := Extend(actions, s, StepConsumer(0));
    actions, s := Extend(actions, s, StepWriter(true));
    actions, s := Extend(actions, s, StepConsumer(1));
    actions, s := Extend(actions, s, StepConsumer(1));
    actions, s := Extend(actions, s, StepConsumer(1));
  }

  // ---- exactly when a wakeup is consumed twice -------------------------------------------

  predicate NoRepeats(consumed: seq<Tagged>) {
    forall i, j :: 0 <= i < j < |consumed| ==> consumed[i] != consumed[j]
  }

  // A consumer's cursor check passes although its record is already consumed, or another
  // consumer has passed the check for the same record and is about to mark it.
  predicate StaleCheck(s: State, a: Action) {
    && a.StepConsumer? && a.id in s.consumers && s.consumers[a.id].CheckCursor?
    && var out := s.consumers[a.id].out;
    && !(s.cursor.Some? && s.cursor.value.data == out.data)
    && (out in s.consumed || exists c :: c in s.consumers && s.consumers[c] == InsertCursor(out))
  }

  ghost predicate StaleAfter(before: seq<Action>, a: Action) { StaleCheck(Run(before), a) }

  ghost predicate EverStale(actions: seq<Action>) {
    exists i :: 0 <= i < |actions| && StaleAfter(actions[..i], actions[i])
  }

  // A record was consumed twice or a consumer stands ready to do it.
  ghost predicate Doubled(s: State) {
    || !NoRepeats(s.consumed)
    || (exists c :: c in s.consumers && s.consumers[c].InsertCursor? && s.consumers[c].out in s.consumed)
    || (exists c, d :: c in s.consumers && d in s.consumers && c != d
                       && s.consumers[c].InsertCursor? && s.consumers[c] == s.consumers[d])
  }

  lemma RepeatsSnoc(consumed: seq<Tagged>, r: Tagged)
    ensures NoRepeats(consumed + [r]) <==> NoRepeats(consumed) && r !in consumed
  {
    var all := consumed + [r];
    if NoRepeats(all) {
      assert forall i :: 0 <= i < |consumed| ==> all[i] == consumed[i] && all[i] != all[|consumed|];
    }
  }

  // Marking the record a consumer has passed the check for.
  lemma DoubledByMark(s: State, id: nat)
    requires id in s.consumers && s.consumers[id].InsertCursor?
    ensures Doubled(NextConsumer(s, id)) <==> Doubled(s)
  {
    hide NoRepeats;
    var t, out := NextConsumer(s, id), s.consumers[id].out;
    RepeatsSnoc(s.consumed, out);
    assert forall r :: r in t.consumed <==> r in s.consumed || r == out;
    if Doubled(s) && NoRepeats(s.consumed) && out !in s.consumed {
      if c :| c in s.consumers && s.consumers[c].InsertCursor? && s.consumers[c].out in s.consumed {
        assert c in t.consumers && t.consumers[c] == s.consumers[c];
      } else {
        var c, d :| c in s.consumers && d in s.consumers && c != d
                    && s.consumers[c].InsertCursor? && s.consumers[c] == s.consumers[d];
        assert c != id ==> t.consumers[c] == s.consumers[c];
        assert d != id ==> t.consumers[d] == s.consumers[d];
      }
    }
    if Doubled(t) {
      if c :| c in t.consumers && t.consumers[c].InsertCursor? && t.consumers[c].out in t.consumed {
        assert s.consumers[c] == t.consumers[c] && c != id;
      }
    }
  }

  // The consumers that have passed the check are the same ones.
  ghost predicate SamePassed(x: map<nat, Consumer>, y: map<nat, Consumer>) {
    && (forall c :: c in x && x[c].InsertCursor? ==> c in y && y[c] == x[c])
    && (forall c :: c in y && y[c].InsertCursor? ==> c in x && x[c] == y[c])
  }

  lemma SamePassedDoubled(s: State, t: State)
    requires SamePassed(s.consumers, t.consumers) && s.consumed == t.consumed
    ensures Doubled(s) ==> Doubled(t)
  {
    hide NoRepeats;
    if c :| c in s.consumers && s.consumers[c].InsertCursor? && s.consumers[c].out in s.consumed {
      assert t.consumers[c].out in t.consumed;
    }
    if c, d :| c in s.consumers && d in s.consumers && c != d
               && s.consumers[c].InsertCursor? && s.consumers[c] == s.consumers[d] {
      assert t.consumers[c] == t.consumers[d];
    }
  }

  // Passing the check.
  lemma DoubledByPass(s: State, id: nat, out: Tagged)
    requires id in s.consumers && s.consumers[id] == CheckCursor(out)
    ensures Doubled(s.(consumers := s.consumers[id := InsertCursor(out)])) <==>
      || Doubled(s) || out in s.consumed
      || exists c :: c in s.consumers && s.consumers[c] == InsertCursor(out)
  {
    hide NoRepeats;
    var t := s.(consumers := s.consumers[id := InsertCursor(out)]);
    assert t.consumers[id] == InsertCursor(out);
    assert forall c :: c in s.consumers && c != id ==> t.consumers[c] == s.consumers[c];
    if c :| c in s.consumers && s.consumers[c] == InsertCursor(out) {
      assert t.consumers[c] == t.consumers[id];
    }
    if c :| c in s.consumers && s.consumers[c].InsertCursor? && s.consumers[c].out in s.consumed {
      assert t.consumers[c].out in t.consumed;
    }
    if c, d :| c in s.consumers && d in s.consumers && c != d
               && s.consumers[c].InsertCursor? && s.consumers[c] == s.consumers[d] {
      assert t.consumers[c] == t.consumers[d];
    }
  }

  // Arriving at the check, leaving after it, or passing it.
  lemma DoubledByCheck(s: State, id: nat)
    requires id in s.consumers ==> s.consumers[id].CheckCursor?
    ensures Doubled(NextConsumer(s, id)) <==> Doubled(s) || StaleCheck(s, StepConsumer(id))
  {
    hide Doubled;
    var t := NextConsumer(s, id);
    if id in s.consumers && id in t.consumers {
      DoubledByPass(s, id, s.consumers[id].out);
    } else {
      SamePassedDoubled(s, t);
      SamePassedDoubled(t, s);
    }
  }

  lemma DoubledStep(s: State, a: Action)
    ensures Doubled(Next(s, a)) <==> Doubled(s) || StaleCheck(s, a)
  {
    hide NextConsumer, NoRepeats;
    if a.StepConsumer? {
      if a.id in s.consumers && s.consumers[a.id].InsertCursor? {
        DoubledByMark(s, a.id);
      } else {
        DoubledByCheck(s, a.id);
      }
    } else {
      assert Next(s, a).consumers == s.consumers && Next(s, a).consumed == s.consumed;
    }
  }

  lemma EverStaleSnoc(actions: seq<Action>)
    requires actions != []
    ensures var n := |actions| - 1;
      EverStale(actions) <==> EverStale(actions[..n]) || StaleAfter(actions[..n], actions[n])
  {
    hide StaleAfter;
    var n := |actions| - 1;
    PrefixesOfPrefix(actions);
    if i :| 0 <= i < n && StaleAfter(actions[..n][..i], actions[..n][i]) {
      assert StaleAfter(actions[..i], actions[i]);
    }
    if i :| 0 <= i < n && StaleAfter(actions[..i], actions[i]) {
      assert StaleAfter(actions[..n][..i], actions[..n][i]);
    }
  }

  lemma {:induction false} DoubledIffStale(actions: seq<Action>)
    ensures Doubled(Run(actions)) <==> EverStale(actions)
  {
    hide Next, StaleCheck, Doubled;
    if actions == [] {
      NothingDoubled();
    } else {
      var n := |actions| - 1;
      DoubledIffStale(actions[..n]);
      EverStaleSnoc(actions);
      DoubledStep(Run(actions[..n]), actions[n]);
    }
  }

  lemma NothingDoubled()
    ensures !Doubled(Run([]))
  {
  }

  // No switch handler stands between its cursor check and its marking of the cursor.
  ghost predicate Settled(s: State) {
    forall c :: c in s.consumers ==> !s.consumers[c].InsertCursor?
  }

  // On every run, exits included: no wakeup is consumed twice if and only if no cursor check
  // was stale. While a handler is still about to mark, one direction may run ahead of it.
  lemma ConsumedOnceIff(actions: seq<Action>)
    ensures !EverStale(actions) ==> NoRepeats(Run(actions).consumed)
    ensures Settled(Run(actions)) ==> (NoRepeats(Run(actions).consumed) <==> !EverStale(actions))
  {
    hide Run, EverStale, NoRepeats;
    DoubledIffStale(actions);
  }

  // ---- a discipline that suffices --------------------------------------------------------

  // Consuming, and the insertion of a record with the clearing of the cursor, exclude each
  // other, and the task does not exit meanwhile. The other operations of the handlers may
  // still interleave freely.
  predicate Exclusive(s: State, a: Action) {
    match a
    case Begin(_, _, _) => true
    case StepWriter(_) => s.writer.InsertData? ==> s.consumers == map[]
    case StepConsumer(id) => s.consumers.Keys <= {id} && !s.writer.ClearCursor?
    case ExitData | ExitCursor | ExitSeq => false
  }

  predicate ExclusiveRun(actions: seq<Action>) {
    actions == [] ||
    (ExclusiveRun(actions[..|actions| - 1])
     && Exclusive(Run(actions[..|actions| - 1]), actions[|actions| - 1]))
  }

  ghost predicate OnceInv(s: State) {
    && (forall i, j :: 0 <= i < j < |s.consumed| ==> s.consumed[i].tag != s.consumed[j].tag)
    && (forall r :: r in s.consumed ==> s.stored.Some? && r.tag <= s.stored.value.tag)
    && (s.stored.Some? ==> s.stored.value in s.accepted)
    && (forall r :: r in s.accepted ==> r.tag <= s.tags)
    && (forall r :: r in s.consumed && r.tag == s.stored.value.tag ==> s.cursor == s.stored)
    && (forall c :: c in s.consumers ==>
          && Some(s.consumers[c].out) == s.stored && !s.writer.ClearCursor?
          && (s.consumers[c].InsertCursor? ==> forall r :: r in s.consumed ==> r.tag < s.stored.value.tag))
    && (s.writer.ClearCursor? ==> forall r :: r in s.consumed ==> r.tag < s.stored.value.tag)
    && (RecordOf(s.writer).Some? && !s.writer.ClearCursor? ==>
          && RecordOf(s.writer).value.tag == s.tags
          && forall r :: r in s.accepted ==> r.tag < s.tags)
  }

  lemma OnceWriter(s: State, ok: bool)
    requires OnceInv(s) && Exclusive(s, StepWriter(ok))
    ensures OnceInv(NextWriter(s, ok))
  {
    hide OnceInv;
    match s.writer
    case Idle =>
    case InsertSeq(_, _, _, _) => OnceNumber(s, ok);
    case ReadOld(_) => OnceLook(s);
    case CheckOld(_, _) => OnceLook(s);
    case InsertData(_) =>
      if ok {
        OnceInsert(s);
      } else {
        OnceLeave(s, s.cursor);
      }
    case ClearCursor(_) => OnceLeave(s, None);
  }

  lemma OnceNumber(s: State, ok: bool)
    requires OnceInv(s) && s.writer.InsertSeq?
    ensures OnceInv(NextWriter(s, ok))
  {
  }

  lemma OnceLook(s: State)
    requires OnceInv(s) && (s.writer.ReadOld? || s.writer.CheckOld?)
    ensures OnceInv(NextWriter(s, true))
  {
  }

  lemma OnceLeave(s: State, cursor: Option<Tagged>)
    requires OnceInv(s) && (cursor == s.cursor || (cursor == None && s.writer.ClearCursor?))
    ensures OnceInv(s.(cursor := cursor, writer := Idle))
  {
  }

  lemma OnceInsert(s: State)
    requires OnceInv(s) && s.writer.InsertData? && s.consumers == map[]
    ensures OnceInv(s.(stored := Some(s.writer.record), accepted := s.accepted + {s.writer.record},
                       writer := ClearCursor(s.writer.record)))
  {
  }

  lemma OnceConsumer(s: State, id: nat)
    requires OnceInv(s) && Exclusive(s, StepConsumer(id))
    ensures OnceInv(NextConsumer(s, id))
  {
  }

  lemma {:induction false} ExclusiveKeepsOnce(actions: seq<Action>)
    requires ExclusiveRun(actions)
    ensures OnceInv(Run(actions))
  {
    hide NextWriter, NextConsumer;
    if actions != [] {
      var before, a := actions[..|actions| - 1], actions[|actions| - 1];
      ExclusiveKeepsOnce(before);
      match a {
        case StepWriter(ok) => OnceWriter(Run(before), ok);
        case StepConsumer(id) => OnceConsumer(Run(before), id);
        case Begin(_, _, _) =>
        case ExitData | ExitCursor | ExitSeq =>
      }
    }
  }

  lemma ExclusiveCheckIsFresh(s: State, a: Action)
    requires OnceInv(s) && Exclusive(s, a)
    ensures !StaleCheck(s, a)
  {
  }

  lemma {:induction false} ExclusiveIsNeverStale(actions: seq<Action>)
    requires ExclusiveRun(actions)
    ensures !EverStale(actions)
  {
    hide Next, OnceInv, StaleCheck, Exclusive;
    if actions != [] {
      var n := |actions| - 1;
      ExclusiveIsNeverStale(actions[..n]);
      EverStaleSnoc(actions);
      ExclusiveKeepsOnce(actions[..n]);
      ExclusiveCheckIsFresh(Run(actions[..n]), actions[n]);
    }
  }

  lemma ExclusiveConsumesOnce(actions: seq<Action>)
    requires ExclusiveRun(actions)
    ensures NoRepeats(Run(actions).consumed)
  {
    hide Run, EverStale, NoRepeats, ExclusiveRun;
    ExclusiveIsNeverStale(actions);
    ConsumedOnceIff(actions);
  }

  // An exit restarts the sequence, so a consumer left over from before it can hide a
  // record of the reused TID that carries the same time stamp, CPU and waker.
  lemma ExitLetsOldConsumerHide() returns (actions: seq<Action>)
    ensures var s := Run(actions);
      s.exited && s.tags == 2 && Hidden(s) && s.stored.value !in s.consumed
  {
    var s;
    actions, s := RecordOnce([], START);
    actions, s := Extend(actions, s, StepWriter(true));
    actions, s := Extend(actions, s, StepConsumer(0));
    actions, s := Extend(actions, s, StepConsumer(0));
    actions, s := Extend(actions, s, ExitData);
    actions, s := Extend(actions, s, ExitCursor);
    actions, s := Extend(actions, s, ExitSeq);
    actions, s := RecordOnce(actions, s);
    actions, s := Extend(actions, s, StepWriter(true));
    actions, s := Extend(actions, s, StepConsumer(0));
  }
}
