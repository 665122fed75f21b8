// The history behind WAKEUP_DATA and WAKEUP_CONSUMED: every accepted wakeup with the fate
// it met, and for each TID the position of the record currently stored for it. A record
// is pending while its fate is Waiting; the cursor map of the implementation marks
// exactly the stored records whose fate is Consumed.
module WakeupStore {
  import opened Types

  datatype WakeupData = WakeupData(ts: u64, targetCpu: u32, wakerTid: u32, seqno: u32)

  // How a consumed wakeup left the switch handler.
  datatype Outcome = Emitted | Stale | ReadFailed | RingFull

  datatype Fate = Waiting | Replaced | Exited | CursorDropped | Consumed(outcome: Outcome)

  datatype Accepted = Accepted(tid: u32, data: WakeupData, fate: Fate)

  datatype Store = Store(ids: map<u32, nat>, log: seq<Accepted>)

  // TIDs are positive 32-bit signed numbers.
  predicate ValidTid(t: int) { 0 < t < 0x8000_0000 }

  ghost predicate Indexed(s: Store) {
    forall t :: t in s.ids ==> s.ids[t] < |s.log|
  }

  predicate IsPending(s: Store, t: u32)
    requires Indexed(s)
  {
    t in s.ids && s.log[s.ids[t]].fate.Waiting?
  }

  // Position i holds the youngest accepted wakeup of its TID.
  ghost predicate Youngest(log: seq<Accepted>, i: nat)
    requires i < |log|
  {
    forall j :: i < j < |log| ==> log[j].tid != log[i].tid
  }

  ghost predicate StoreInv(s: Store) {
    && Indexed(s)
    && (forall t :: t in s.ids ==> StoredRecord(s, t))
    && (forall i :: 0 <= i < |s.log| && s.log[i].fate.Waiting? ==>
          s.log[i].tid in s.ids && s.ids[s.log[i].tid] == i)
  }

  ghost predicate StoredRecord(s: Store, t: u32)
    requires t in s.ids && s.ids[t] < |s.log|
  {
    && ValidTid(t)
    && s.log[s.ids[t]].tid == t
    && (s.log[s.ids[t]].fate.Waiting? || s.log[s.ids[t]].fate.Consumed?)
    && Youngest(s.log, s.ids[t])
  }

  // The pending wakeups: TID -> CPU the wakeup was aimed at.
  ghost function Pending(s: Store): map<u32, u32>
    requires Indexed(s)
  {
    map t | t in s.ids && IsPending(s, t) :: s.log[s.ids[t]].data.targetCpu
  }

  lemma PendingMember(s: Store)
    requires Indexed(s)
    ensures forall t: u32 :: t in Pending(s) <==> IsPending(s, t)
  {
  }

  // How many accepted wakeups met a given fate.
  function Fates(log: seq<Accepted>, f: Fate): nat {
    if log == [] then 0
    else Fates(log[..|log| - 1], f) + (if log[|log| - 1].fate == f then 1 else 0)
  }

  function Mark(log: seq<Accepted>, i: nat, f: Fate): seq<Accepted>
    requires i < |log|
  {
    log[i := log[i].(fate := f)]
  }

  // Append the wakeup and make it the stored record of its TID; a record that was still
  // pending is replaced.
  function Accept(s: Store, t: u32, data: WakeupData): Store
    requires Indexed(s)
  {
    var log := if IsPending(s, t) then Mark(s.log, s.ids[t], Replaced) else s.log;
    Store(s.ids[t := |s.log|], log + [Accepted(t, data, Waiting)])
  }

  // The pending record of t meets its end and, unless consumed, is forgotten.
  function Finish(s: Store, t: u32, f: Fate): Store
    requires Indexed(s) && IsPending(s, t)
  {
    Store(if f.Consumed? then s.ids else s.ids - {t}, Mark(s.log, s.ids[t], f))
  }

  // A consumed record is forgotten without changing its fate.
  function Forget(s: Store, t: u32): Store {
    Store(s.ids - {t}, s.log)
  }

  // Accepting a wakeup leaves what is stored for every other TID alone.
  lemma AcceptKeepsOthers(s: Store, t: u32, data: WakeupData, u: u32)
    requires StoreInv(s) && u in s.ids && u != t
    ensures Accept(s, t, data).log[s.ids[u]] == s.log[s.ids[u]]
    ensures StoredRecord(Accept(s, t, data), u)
  {
    assert StoredRecord(s, u);
    assert t in s.ids ==> StoredRecord(s, t);
  }

  lemma PendingAfterAccept(s: Store, t: u32, data: WakeupData)
    requires StoreInv(s)
    ensures Indexed(Accept(s, t, data))
    ensures Pending(Accept(s, t, data)) == Pending(s)[t := data.targetCpu]
  {
    hide StoredRecord;
    var r := Accept(s, t, data);
    forall u | u in s.ids && u != t
      ensures r.log[s.ids[u]] == s.log[s.ids[u]]
    {
      AcceptKeepsOthers(s, t, data, u);
    }
  }

  lemma AcceptKeepsInv(s: Store, t: u32, data: WakeupData)
    requires StoreInv(s) && ValidTid(t)
    ensures StoreInv(Accept(s, t, data))
    ensures Pending(Accept(s, t, data)) == Pending(s)[t := data.targetCpu]
  {
    var r := Accept(s, t, data);
    PendingAfterAccept(s, t, data);
    forall u | u in r.ids
      ensures StoredRecord(r, u)
    {
      if u != t {
        AcceptKeepsOthers(s, t, data, u);
      }
    }
    forall i | 0 <= i < |r.log| && r.log[i].fate.Waiting?
      ensures r.log[i].tid in r.ids && r.ids[r.log[i].tid] == i
    {
      if i < |s.log| {
        assert s.log[i].fate.Waiting?;
      }
    }
  }

  // Marking one record leaves what is stored for every other TID alone.
  lemma MarkKeepsOthers(s: Store, t: u32, f: Fate, u: u32)
    requires StoreInv(s) && IsPending(s, t) && u in s.ids && u != t
    ensures Mark(s.log, s.ids[t], f)[s.ids[u]] == s.log[s.ids[u]]
    ensures StoredRecord(Store(s.ids, Mark(s.log, s.ids[t], f)), u)
  {
    assert StoredRecord(s, t) && StoredRecord(s, u);
  }

  lemma FinishKeepsInv(s: Store, t: u32, f: Fate)
    requires StoreInv(s) && IsPending(s, t) && !f.Waiting? && !f.Replaced?
    ensures StoreInv(Finish(s, t, f))
    ensures Pending(Finish(s, t, f)) == Pending(s) - {t}
  {
    var r := Finish(s, t, f);
    assert StoredRecord(s, t);
    forall u | u in r.ids
      ensures u == t ==> f.Consumed?
      ensures StoredRecord(r, u)
    {
      if u != t {
        MarkKeepsOthers(s, t, f, u);
      }
    }
    PendingAfterFinish(s, t, f);
  }

  lemma PendingAfterFinish(s: Store, t: u32, f: Fate)
    requires StoreInv(s) && IsPending(s, t) && !f.Waiting?
    ensures Indexed(Finish(s, t, f))
    ensures Pending(Finish(s, t, f)) == Pending(s) - {t}
  {
    hide StoredRecord;
    var r := Finish(s, t, f);
    forall u | u in s.ids && u != t
      ensures r.log[s.ids[u]] == s.log[s.ids[u]]
    {
      MarkKeepsOthers(s, t, f, u);
    }
    assert Indexed(r);
  }

  lemma ForgetKeepsInv(s: Store, t: u32)
    requires StoreInv(s) && !IsPending(s, t)
    ensures StoreInv(Forget(s, t))
    ensures Pending(Forget(s, t)) == Pending(s)
  {
    forall u | u in s.ids && u != t
      ensures StoredRecord(Forget(s, t), u)
    {
      assert StoredRecord(s, u);
    }
  }

  lemma {:induction false} FatesMark(log: seq<Accepted>, i: nat, f: Fate, g: Fate)
    requires i < |log|
    ensures Fates(Mark(log, i, f), g)
         == Fates(log, g) - (if log[i].fate == g then 1 else 0) + (if f == g then 1 else 0)
  {
    var n := |log| - 1;
    if i == n {
      assert Mark(log, i, f)[..n] == log[..n];
    } else {
      assert Mark(log, i, f)[..n] == Mark(log[..n], i, f);
      FatesMark(log[..n], i, f, g);
    }
  }

  lemma FatesAccept(s: Store, t: u32, data: WakeupData, g: Fate)
    requires Indexed(s)
    ensures Fates(Accept(s, t, data).log, g)
         == Fates(s.log, g) + (if g == Waiting then 1 else 0)
            + if IsPending(s, t) then (if g == Replaced then 1 else 0) - (if g == Waiting then 1 else 0) else 0
  {
    var log := if IsPending(s, t) then Mark(s.log, s.ids[t], Replaced) else s.log;
    if IsPending(s, t) {
      FatesMark(s.log, s.ids[t], Replaced, g);
    }
    assert (log + [Accepted(t, data, Waiting)])[..|log|] == log;
  }

  // Every accepted wakeup has exactly one fate.
  lemma {:induction false} FatesPartition(log: seq<Accepted>)
    ensures |log| == Fates(log, Waiting) + Fates(log, Replaced) + Fates(log, Exited)
                   + Fates(log, CursorDropped)
                   + Fates(log, Consumed(Emitted)) + Fates(log, Consumed(Stale))
                   + Fates(log, Consumed(ReadFailed)) + Fates(log, Consumed(RingFull))
  {
    if log != [] {
      FatesPartition(log[..|log| - 1]);
      match log[|log| - 1].fate {
        case Consumed(Emitted) =>
        case Consumed(Stale) =>
        case Consumed(ReadFailed) =>
        case Consumed(RingFull) =>
        case Waiting | Replaced | Exited | CursorDropped =>
      }
    }
  }
}
