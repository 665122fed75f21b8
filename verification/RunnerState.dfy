// The runner's durable state file, replaced by temp file, sync, rename and directory sync,
// on a disk that may fail any of these steps or lose power between any two of them.
module RunnerState {
  import opened Types
  import opened RunnerAuthorization

  datatype RunnerState = RunnerState(
    schemaVersion: u32, campaignId: string, rebootsUsed: u32, cancelled: bool,
    resumePending: bool, pendingBootEntry: Option<string>, updatedUnixMs: u64)

  // A file's bytes: a whole serialised state, or anything else.
  datatype Content = Parsed(state: RunnerState) | Garbled

  // synced: the bytes survive a power loss. written: all of them have been handed over.
  datatype File = File(content: Content, written: bool, synced: bool)

  function Whole(s: RunnerState): File { File(Parsed(s), true, true) }

  // A file after power loss: unsynced bytes may be lost.
  function Settled(f: Option<File>): Option<File> {
    if f.Some? && !(f.value.written && f.value.synced) then Some(File(Garbled, true, true)) else f
  }

  // What goes wrong during one save: nothing, an error at a step, or power loss before it.
  // keepRename decides whether an unsynced rename happens to survive.
  datatype Fault = NoFault | FailAt(step: nat) | LosePower(before: nat, keepRename: bool)

  datatype Outcome = Done | Failed | Crashed

  // How a save ends: seven steps may fail, and power may be lost before each or after the last.
  function Expected(fault: Fault): Outcome {
    match fault
    case NoFault => Done
    case FailAt(step) => if step <= 6 then Failed else Done
    case LosePower(before, _) => if before <= 7 then Crashed else Done
  }

  datatype LoadResult = Loaded(state: RunnerState) | Corrupt | IoError

  function FreshState(campaignId: string): RunnerState {
    RunnerState(SCHEMA_VERSION, campaignId, 0, false, false, None, 0)
  }

  predicate Matches(s: RunnerState, campaignId: string) {
    s.schemaVersion == SCHEMA_VERSION && s.campaignId == campaignId
  }

  // A missing file is a fresh campaign; an unreadable or foreign one is corrupt.
  function Load(f: Option<File>, campaignId: string, readFails: bool): LoadResult {
    if readFails then IoError
    else if f.None? then Loaded(FreshState(campaignId))
    else
      match f.value.content
      case Garbled => Corrupt
      case Parsed(s) => if Matches(s, campaignId) then Loaded(s) else Corrupt
  }

  // A load gives back what a save wrote; a missing file is a campaign with nothing used,
  // cancelled or in flight; anything else of another campaign, schema or shape is refused.
  lemma LoadMeans(f: Option<File>, campaignId: string, s: RunnerState)
    ensures s.schemaVersion == 2 && s.campaignId == campaignId ==> Load(Some(Whole(s)), campaignId, false) == Loaded(s)
    ensures s.schemaVersion != 2 || s.campaignId != campaignId ==> Load(Some(Whole(s)), campaignId, false) == Corrupt
    ensures f.Some? && f.value.content.Garbled? ==> Load(f, campaignId, false) == Corrupt
    ensures Load(f, campaignId, true) == IoError
    ensures var none := Load(None, campaignId, false);
      && none.Loaded? && Matches(none.state, campaignId) && none.state.rebootsUsed == 0
      && !none.state.cancelled && !none.state.resumePending && none.state.pendingBootEntry.None?
  {
  }

  class StateDir {
    var live: Option<File>     // what the directory names
    var durable: Option<File>  // what it would name after a power loss
    var temp: Option<File>

    // Nothing half-written is reachable, now or after a power loss.
    ghost predicate Clean()
      reads this
    {
      && (live.Some? ==> live.value.written && live.value.synced)
      && (durable.Some? ==> durable.value.written && durable.value.synced)
    }

    constructor (initial: Option<Content>)
      ensures Clean() && live == durable
      ensures live == if initial.None? then None else Some(File(initial.value, true, true))
    {
      var f := if initial.None? then None else Some(File(initial.value, true, true));
      live, durable, temp := f, f, None;
    }

    method PowerLoss(keepRename: bool)
      modifies this
      ensures live == durable == Settled(old(if keepRename then live else durable))
    {
      live := Settled(if keepRename then live else durable);
      durable := live;
    }

    // Whether the fault strikes at this step; a power loss takes effect at once.
    method Interrupted(fault: Fault, step: nat) returns (outcome: Option<Outcome>)
      modifies this
      ensures fault == FailAt(step) ==> outcome == Some(Failed) && unchanged(this)
      ensures fault.LosePower? && fault.before == step ==>
        outcome == Some(Crashed) && live == durable == Settled(old(if fault.keepRename then live else durable))
      ensures fault != FailAt(step) && !(fault.LosePower? && fault.before == step) ==>
        outcome == None && unchanged(this)
    {
      if fault == FailAt(step) {
        return Some(Failed);
      }
      if fault.LosePower? && fault.before == step {
        PowerLoss(fault.keepRename);
        return Some(Crashed);
      }
      return None;
    }

    // The directory never names anything but the old file or the whole new one; success
    // means the new one also survives a power loss.
    method AtomicWrite(state: RunnerState, fault: Fault) returns (outcome: Outcome)
      requires Clean()
      modifies this
      ensures Clean()
      ensures outcome.Done? ==> live == durable == Some(Whole(state))
      ensures outcome.Failed? ==> durable == old(durable) && (live == old(live) || live == Some(Whole(state)))
      ensures outcome.Crashed? ==>
        live == durable && (live == old(live) || live == old(durable) || live == Some(Whole(state)))
      ensures outcome == Expected(fault)
    {
      var stop := Interrupted(fault, 0);  // create_dir_all
      if stop.Some? { return stop.value; }
      stop := Interrupted(fault, 1);      // create the temporary file
      if stop.Some? { return stop.value; }
      temp := Some(File(Parsed(state), false, false));
      stop := Interrupted(fault, 2);      // write_all
      if stop.Some? { return stop.value; }
      temp := Some(File(Parsed(state), true, false));
      stop := Interrupted(fault, 3);      // sync_all
      if stop.Some? { return stop.value; }
      temp := Some(File(Parsed(state), true, true));
      stop := Interrupted(fault, 4);      // rename
      if stop.Some? { return stop.value; }
      live, temp := temp, None;
      stop := Interrupted(fault, 5);      // open the parent directory
      if stop.Some? { return stop.value; }
      stop := Interrupted(fault, 6);      // sync it
      if stop.Some? { return stop.value; }
      durable := live;
      stop := Interrupted(if fault.LosePower? then fault else NoFault, 7);
      if stop.Some? { return stop.value; }
      return Done;
    }

    method Save(state: RunnerState, now: u64, fault: Fault) returns (outcome: Outcome)
      requires Clean()
      modifies this
      ensures Clean()
      ensures var stamped := Some(Whole(state.(updatedUnixMs := now)));
        && (outcome.Done? ==> live == durable == stamped)
        && (outcome.Failed? ==> durable == old(durable) && (live == old(live) || live == stamped))
        && (outcome.Crashed? ==>
              live == durable && (live == old(live) || live == old(durable) || live == stamped))
      ensures outcome == Expected(fault)
    {
      outcome := AtomicWrite(state.(updatedUnixMs := now), fault);
    }
  }
}
