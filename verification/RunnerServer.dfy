// The runner service: every request is authorized, gated on the durable state, and
// executed around saves of that state. Requests are serialised; power may be lost between
// any two durable steps, any save, load or reboot may fail, and the state file may start
// out missing, foreign or unreadable.
module RunnerServer {
  import opened Types
  import opened RunnerAuthorization
  import opened RunnerState

  datatype Response = Ok | Rejected(code: ErrorCode) | Failure(code: ErrorCode) | NoAnswer

  // What the server did to the machine, in order.
  datatype Effect =
    | RebootCall(onDisk: Option<File>, ok: bool)  // onDisk: the durable state at the call
    | SelectBoot(entry: string, ok: bool)
    | RestoreDefault
    | Launch

  // Everything about one request that is decided outside the server.
  datatype Env = Env(
    onlineCpus: u32, readFails: bool, now: u64, save: Fault, effectOk: bool,
    diesBeforeReboot: Option<bool>, rollback: Fault)

  datatype Event =
    | Incoming(peerUid: u32, envelope: Envelope, env: Env)
    | LosesPower(keepRename: bool)

  function Reboots(effects: seq<Effect>): nat {
    if effects == [] then 0
    else Reboots(effects[..|effects| - 1])
         + (if effects[|effects| - 1].RebootCall? && effects[|effects| - 1].ok then 1 else 0)
  }

  lemma RebootsSnoc(effects: seq<Effect>, e: Effect)
    ensures Reboots(effects + [e]) == Reboots(effects) + (if e.RebootCall? && e.ok then 1 else 0)
  {
    assert (effects + [e])[..|effects|] == effects;
  }

  function Max(a: nat, b: nat): nat { if a >= b then a else b }

  // The reboots a state file found for this campaign already charges.
  function UsedBefore(a: Authorization, initial: Option<Content>): nat {
    if initial.Some? && initial.value.Parsed? && Matches(initial.value.state, a.campaignId)
    then initial.value.state.rebootsUsed else 0
  }

  // The boot entry such a file already names.
  function EntryBefore(initial: Option<Content>): Option<string> {
    if initial.Some? && initial.value.Parsed? then initial.value.state.pendingBootEntry else None
  }

  // A version of the state file that a load may see: if it belongs to this campaign, its
  // budget covers every successful reboot so far and its boot entry is an allowed one,
  // unless it is still the one found at the start.
  predicate Covers(a: Authorization, initial: Option<Content>, reboots: nat, f: Option<File>) {
    match f
    case None => UsedBefore(a, initial) == 0 && reboots == 0
    case Some(file) =>
      file.content.Parsed? && Matches(file.content.state, a.campaignId) ==>
        Covering(a, initial, reboots, file.content.state)
  }

  predicate Covering(a: Authorization, initial: Option<Content>, reboots: nat, s: RunnerState) {
    var base := UsedBefore(a, initial);
    && base + reboots <= s.rebootsUsed <= Max(base, a.maxReboots)
    && (s.pendingBootEntry.Some? ==>
          s.pendingBootEntry.value in a.allowedBootEntries || s.pendingBootEntry == EntryBefore(initial))
  }

  // The budget as a whole: what was charged before plus what happened since.
  predicate Within(a: Authorization, initial: Option<Content>, reboots: nat) {
    UsedBefore(a, initial) + reboots <= Max(UsedBefore(a, initial), a.maxReboots)
  }

  // Either still what was found at the start, or one whole serialised state of this campaign.
  predicate WholeOr(a: Authorization, initial: Option<Content>, f: Option<File>) {
    f.Some? ==>
      (f.value.content.Parsed? && Matches(f.value.content.state, a.campaignId)) || Some(f.value.content) == initial
  }

  predicate IsCancelled(a: Authorization, f: Option<File>) {
    f.Some? && f.value.content.Parsed? && Matches(f.value.content.state, a.campaignId)
    && f.value.content.state.cancelled
  }

  // Every effect so far respected the authorization and the write-ahead order.
  predicate Lawful(a: Authorization, e: Effect) {
    match e
    case RebootCall(onDisk, _) =>
      && onDisk.Some? && onDisk.value.content.Parsed?
      && var s := onDisk.value.content.state;
      && Matches(s, a.campaignId) && s.resumePending && !s.cancelled
      && 1 <= s.rebootsUsed <= a.maxReboots
    case SelectBoot(entry, _) => entry in a.allowedBootEntries
    case RestoreDefault => true
    case Launch => true
  }

  predicate FaultFree(env: Env) {
    !env.readFails && env.save.NoFault? && env.diesBeforeReboot.None? && env.rollback.NoFault?
  }

  // What an admitted request leaves in the state file when nothing fails but possibly the
  // effect itself. A reboot that fails costs nothing but clears the resume flag.
  function NextState(a: Authorization, s: RunnerState, body: Request, effectOk: bool): RunnerState {
    match body
    case CancelCampaign => s.(cancelled := true, resumePending := false, pendingBootEntry := None)
    case ResumeCampaign => s.(resumePending := false, pendingBootEntry := None)
    case SetNextBoot(entry) => if effectOk then s.(pendingBootEntry := Some(entry)) else s
    case PrepareKernelCycle(entry) => if effectOk then s.(pendingBootEntry := Some(entry)) else s
    case Reboot =>
      if s.rebootsUsed >= a.maxReboots then s
      else if effectOk then s.(rebootsUsed := s.rebootsUsed + 1, resumePending := true)
      else s.(resumePending := false)
    case _ => s
  }

  // Field by field: a reboot that happened is charged and in flight; only a cancel cancels;
  // only a reboot that happened sets the resume flag, and a cancel, a resume or a failed
  // reboot clears it; a boot entry comes from a selection and goes with a cancel or a resume.
  lemma RequestMeans(a: Authorization, s: RunnerState, body: Request, effectOk: bool)
    ensures var r := NextState(a, s, body, effectOk);
      var rebooting := body.Reboot? && s.rebootsUsed < a.maxReboots;
      && r.campaignId == s.campaignId && r.schemaVersion == s.schemaVersion
      && r.rebootsUsed == s.rebootsUsed + (if rebooting && effectOk then 1 else 0)
      && (r.cancelled <==> s.cancelled || body.CancelCampaign?)
      && (r.resumePending <==>
            if rebooting then effectOk else s.resumePending && !body.CancelCampaign? && !body.ResumeCampaign?)
      && (body.CancelCampaign? || body.ResumeCampaign? ==> r.pendingBootEntry.None?)
      && (effectOk && (body.SetNextBoot? || body.PrepareKernelCycle?) ==> r.pendingBootEntry == Some(body.entry))
      && (body.Reboot? || body.Status? || body.Execute? || !effectOk ==>
            r.pendingBootEntry == s.pendingBootEntry || body.CancelCampaign? || body.ResumeCampaign?)
  {
  }

  // Requests that are done by saving the state.
  predicate Saves(body: Request) { !body.Status? && !body.Execute? }

  // Requests that ask something of the machine that may be refused.
  predicate HasEffect(body: Request) {
    body.Execute? || body.SetNextBoot? || body.PrepareKernelCycle? || body.Reboot?
  }

  function Saved(fault: Fault): Response {
    match Expected(fault)
    case Done => Ok
    case Failed => Failure(CorruptState)
    case Crashed => NoAnswer
  }

  // The answer to an admitted request that is neither cancelled nor out of budget.
  function Answer(body: Request, env: Env): Response {
    match body
    case Status => Ok
    case Execute(_) => if env.effectOk then Ok else Failure(ExecutionFailed)
    case CancelCampaign => Saved(env.save)
    case ResumeCampaign => Saved(env.save)
    case SetNextBoot(_) => if env.effectOk then Saved(env.save) else Failure(Unsupported)
    case PrepareKernelCycle(_) => if env.effectOk then Saved(env.save) else Failure(Unsupported)
    case Reboot =>
      if !Saved(env.save).Ok? then Saved(env.save)
      else if env.diesBeforeReboot.Some? then NoAnswer
      else if env.effectOk then Ok
      else if Expected(env.rollback).Crashed? then NoAnswer
      else Failure(Unsupported)
  }

  // The effects such a request has.
  predicate Performs(a: Authorization, s: RunnerState, body: Request, effectOk: bool, done: seq<Effect>) {
    match body
    case Status | ResumeCampaign => done == []
    case CancelCampaign => done == [RestoreDefault]
    case Execute(_) => done == [Launch]
    case SetNextBoot(entry) => done == [SelectBoot(entry, effectOk)]
    case PrepareKernelCycle(entry) => done == [SelectBoot(entry, effectOk)]
    case Reboot =>
      if s.rebootsUsed >= a.maxReboots then done == []
      else |done| == 1 && done[0].RebootCall? && done[0].ok == effectOk
  }

  // The state file now holds s, up to its time stamp.
  predicate HoldsState(f: Option<File>, campaignId: string, s: RunnerState) {
    var loaded := Load(f, campaignId, false);
    loaded.Loaded? && loaded.state.(updatedUnixMs := 0) == s.(updatedUnixMs := 0)
  }

  predicate Quiet(e: Effect) { e.RestoreDefault? }

  class Server {
    const authorization: Authorization
    const state: StateDir
    const initial: Option<Content>
    var effects: seq<Effect>

    ghost predicate Valid()
      reads this, state
    {
      && state.Clean()
      && Covers(authorization, initial, Reboots(effects), state.live)
      && Covers(authorization, initial, Reboots(effects), state.durable)
      && Within(authorization, initial, Reboots(effects))
      && (forall i :: 0 <= i < |effects| ==> Lawful(authorization, effects[i]))
      && WholeOr(authorization, initial, state.live) && WholeOr(authorization, initial, state.durable)
    }

    // The cancellation survives a power loss.
    ghost predicate CancelDurable()
      reads this, state
    {
      IsCancelled(authorization, state.live) && IsCancelled(authorization, state.durable)
    }

    // Effects are only ever appended, and once a cancel was durable it stays so and only
    // the restoring of the default boot entry is appended.
    twostate predicate Continues()
      reads this, state
    {
      && old(effects) <= effects
      && (old(CancelDurable()) ==>
            CancelDurable() && forall i :: |old(effects)| <= i < |effects| ==> Quiet(effects[i]))
    }

    constructor (a: Authorization, initial: Option<Content>)
      ensures Valid() && fresh(state) && authorization == a && effects == [] && this.initial == initial
      ensures state.live == state.durable == InitialFile(initial) && Reboots(effects) == 0
    {
      authorization := a;
      state := new StateDir(initial);
      effects := [];
      this.initial := initial;
    }

    method Perform(e: Effect)
      modifies `effects
      ensures effects == old(effects) + [e]
      ensures Reboots(effects) == Reboots(old(effects)) + (if e.RebootCall? && e.ok then 1 else 0)
    {
      RebootsSnoc(effects, e);
      effects := effects + [e];
    }

    method Handle(peerUid: u32, envelope: Envelope, env: Env) returns (r: Response)
      requires Valid()
      modifies this, state
      ensures Valid() && Continues()
      ensures var denial := Authorize(authorization, peerUid, envelope, env.onlineCpus);
        if denial.Some? then r == Rejected(denial.value) && unchanged(this) && unchanged(state)
        else Served(envelope.body, env, Load(old(state.live), authorization.campaignId, env.readFails), r)
      ensures Reboots(effects) == Reboots(old(effects)) + (if envelope.body.Reboot? && r.Ok? then 1 else 0)
    {
      var denial := Authorize(authorization, peerUid, envelope, env.onlineCpus);
      if denial.Some? {
        return Rejected(denial.value);
      }
      r := Dispatch(envelope.body, env);
    }

    // What the answer to an admitted request says about state and effects, for every state
    // file the request may have found.
    twostate predicate Served(body: Request, env: Env, loaded: LoadResult, r: Response)
      reads this, state
    {
      match loaded
      case Corrupt | IoError => r == Failure(CorruptState) && unchanged(this) && unchanged(state)
      case Loaded(s) =>
        if s.cancelled && !body.Status? && !body.CancelCampaign? then
          r == Rejected(Cancelled) && unchanged(this) && unchanged(state)
        else if body.Reboot? && s.rebootsUsed >= authorization.maxReboots then
          r == Rejected(RebootBudgetExhausted) && unchanged(this) && unchanged(state)
        else
          && old(effects) <= effects
          && r == Answer(body, env)
          && (FaultFree(env) ==>
                && HoldsState(state.live, authorization.campaignId,
                              NextState(authorization, s, body, env.effectOk))
                && Performs(authorization, s, body, env.effectOk, effects[|old(effects)|..]))
          && (r.Ok? && HasEffect(body) ==> env.effectOk)
          && (r.Ok? && Saves(body) ==>
                state.live == state.durable == Some(Whole(
                  NextState(authorization, s, body, true).(updatedUnixMs := env.now))))
          && (!Saves(body) ==> unchanged(state))
          && (r.Ok? && body.CancelCampaign? ==> CancelDurable())
    }

    method Dispatch(body: Request, env: Env) returns (r: Response)
      requires Valid()
      requires body.SetNextBoot? || body.PrepareKernelCycle? ==> body.entry in authorization.allowedBootEntries
      modifies this, state
      ensures Valid() && Continues()
      ensures Served(body, env, Load(old(state.live), authorization.campaignId, env.readFails), r)
      ensures Reboots(effects) == Reboots(old(effects)) + (if body.Reboot? && r.Ok? then 1 else 0)
    {
      var loaded := Load(state.live, authorization.campaignId, env.readFails);
      if !loaded.Loaded? {
        return Failure(CorruptState);
      }
      if loaded.state.cancelled && !body.Status? && !body.CancelCampaign? {
        return Rejected(Cancelled);
      }
      r := Act(body, loaded.state, env);
    }

    method Act(body: Request, current: RunnerState, env: Env) returns (r: Response)
      requires Valid() && Load(state.live, authorization.campaignId, env.readFails) == Loaded(current)
      requires Covering(authorization, initial, Reboots(effects), current)
      requires current.cancelled ==> body.Status? || body.CancelCampaign?
      requires body.SetNextBoot? || body.PrepareKernelCycle? ==> body.entry in authorization.allowedBootEntries
      modifies this, state
      ensures Valid() && Continues()
      ensures Served(body, env, Loaded(current), r)
      ensures Reboots(effects) == Reboots(old(effects)) + (if body.Reboot? && r.Ok? then 1 else 0)
    {
      hide Covers, Covering, Lawful, Reboots, WholeOr, Within;
      match body {
        case Status => return Ok;
        case CancelCampaign => r := Cancel(current, env);
        case Execute(_) => r := LaunchAction(env);
        case PrepareKernelCycle(entry) => r := SelectNextBoot(entry, current, env);
        case SetNextBoot(entry) => r := SelectNextBoot(entry, current, env);
        case Reboot => r := RebootNow(current, env);
        case ResumeCampaign => r := Resume(current, env);
      }
    }

    method LaunchAction(env: Env) returns (r: Response)
      requires Valid()
      modifies `effects
      ensures Valid() && effects == old(effects) + [Launch] && Reboots(effects) == Reboots(old(effects))
      ensures r == if env.effectOk then Ok else Failure(ExecutionFailed)
    {
      Perform(Launch);
      r := if env.effectOk then Ok else Failure(ExecutionFailed);
    }

    method Cancel(current: RunnerState, env: Env) returns (r: Response)
      requires Valid() && Matches(current, authorization.campaignId)
      requires Covering(authorization, initial, Reboots(effects), current)
      modifies this, state
      ensures Valid() && effects == old(effects) + [RestoreDefault] && Reboots(effects) == Reboots(old(effects))
      ensures r == Saved(env.save)
      ensures r.Ok? ==> state.live == state.durable == Some(Whole(
        current.(cancelled := true, resumePending := false, pendingBootEntry := None, updatedUnixMs := env.now)))
      ensures r.Ok? || old(CancelDurable()) ==> CancelDurable()
    {
      var next := current.(cancelled := true, resumePending := false, pendingBootEntry := None);
      Perform(RestoreDefault);
      r := Persist(next, env);
    }

    method Resume(current: RunnerState, env: Env) returns (r: Response)
      requires Valid() && Matches(current, authorization.campaignId) && !current.cancelled
      requires Covering(authorization, initial, Reboots(effects), current)
      modifies state
      ensures Valid() && r == Saved(env.save)
      ensures r.Ok? ==> state.live == state.durable == Some(Whole(
        current.(resumePending := false, pendingBootEntry := None, updatedUnixMs := env.now)))
    {
      r := Persist(current.(resumePending := false, pendingBootEntry := None), env);
    }

    method Persist(current: RunnerState, env: Env) returns (r: Response)
      requires Valid() && Matches(current, authorization.campaignId)
      requires Covering(authorization, initial, Reboots(effects), current)
      modifies state
      ensures Valid()
      ensures r.Ok? ==> state.live == state.durable == Some(Whole(current.(updatedUnixMs := env.now)))
      ensures r == Saved(env.save)
      ensures current.cancelled && old(CancelDurable()) ==> CancelDurable()
      ensures r.Ok? && current.cancelled ==> CancelDurable()
    {
      var outcome := state.Save(current, env.now, env.save);
      match outcome {
        case Done => r := Ok;
        case Failed => r := Failure(CorruptState);
        case Crashed => r := NoAnswer;
      }
    }

    method SelectNextBoot(entry: string, current: RunnerState, env: Env) returns (r: Response)
      requires Valid() && Matches(current, authorization.campaignId) && !CancelDurable()
      requires Covering(authorization, initial, Reboots(effects), current)
      requires entry in authorization.allowedBootEntries
      modifies this, state
      ensures Valid() && effects == old(effects) + [SelectBoot(entry, env.effectOk)]
      ensures Reboots(effects) == Reboots(old(effects))
      ensures !env.effectOk ==> unchanged(state) && r == Failure(Unsupported)
      ensures env.effectOk ==> r == Saved(env.save)
      ensures r.Ok? ==> state.live == state.durable == Some(Whole(
        current.(pendingBootEntry := Some(entry), updatedUnixMs := env.now)))
    {
      Perform(SelectBoot(entry, env.effectOk));
      if !env.effectOk {
        return Failure(Unsupported);
      }
      r := Persist(current.(pendingBootEntry := Some(entry)), env);
    }

    // Durable first: when the reboot is called, the budget and the resume flag are already
    // on disk; a failed call gives the budget back.
    method RebootNow(current: RunnerState, env: Env) returns (r: Response)
      requires Valid() && Matches(current, authorization.campaignId) && !current.cancelled && !CancelDurable()
      requires Covering(authorization, initial, Reboots(effects), current)
      modifies this, state
      ensures Valid() && old(effects) <= effects
      ensures current.rebootsUsed >= authorization.maxReboots ==>
        r == Rejected(RebootBudgetExhausted) && unchanged(this) && unchanged(state)
      ensures current.rebootsUsed < authorization.maxReboots && FaultFree(env) ==>
        && |effects| == |old(effects)| + 1
        && effects[|old(effects)|].RebootCall? && effects[|old(effects)|].ok == env.effectOk
        && var s := NextState(authorization, current, Reboot, env.effectOk);
        state.live == Some(Whole(s.(updatedUnixMs := env.now)))
      ensures current.rebootsUsed < authorization.maxReboots ==>
        && r == Answer(Reboot, env)
        && (r.Ok? ==> state.live == state.durable == Some(Whole(
              NextState(authorization, current, Reboot, true).(updatedUnixMs := env.now))))
      ensures Reboots(effects) == Reboots(old(effects)) + (if r.Ok? then 1 else 0)
    {
      hide Covers, Lawful, Reboots, WholeOr;
      if current.rebootsUsed >= authorization.maxReboots {
        return Rejected(RebootBudgetExhausted);
      }
      var next := current.(rebootsUsed := current.rebootsUsed + 1, resumePending := true);
      r := Persist(next, env);
      if !r.Ok? {
        return r;
      }
      if env.diesBeforeReboot.Some? {
        state.PowerLoss(env.diesBeforeReboot.value);
        return NoAnswer;
      }
      r := CallReboot(next.(updatedUnixMs := env.now), env);
    }

    // The call itself, with the state it relies on already durable, and the rollback.
    method CallReboot(saved: RunnerState, env: Env) returns (r: Response)
      requires Valid() && state.live == state.durable == Some(Whole(saved))
      requires Matches(saved, authorization.campaignId) && saved.resumePending && !saved.cancelled
      requires UsedBefore(authorization, initial) + Reboots(effects) < saved.rebootsUsed <= authorization.maxReboots
      requires Covering(authorization, initial, Reboots(effects), saved)
      modifies this, state
      ensures Valid() && effects == old(effects) + [RebootCall(old(state.durable), env.effectOk)]
      ensures Reboots(effects) == Reboots(old(effects)) + (if env.effectOk then 1 else 0)
      ensures env.effectOk ==> unchanged(state) && r == Ok
      ensures !env.effectOk ==> r == if Expected(env.rollback).Crashed? then NoAnswer else Failure(Unsupported)
      ensures !env.effectOk && env.rollback.NoFault? ==>
        state.live == Some(Whole(saved.(
          rebootsUsed := saved.rebootsUsed - 1, resumePending := false, updatedUnixMs := env.now)))
    {
      hide Reboots;
      Perform(RebootCall(state.durable, env.effectOk));
      if env.effectOk {
        return Ok;
      }
      var next := saved.(rebootsUsed := saved.rebootsUsed - 1, resumePending := false);
      var rolledBack := Persist(next, env.(save := env.rollback));
      return if rolledBack.NoAnswer? then NoAnswer else Failure(Unsupported);
    }

    method LosePower(keepRename: bool)
      requires Valid()
      modifies this, state
      ensures Valid() && Continues() && effects == old(effects)
    {
      state.PowerLoss(keepRename);
    }

    // One event of a run.
    method Take(e: Event) returns (answer: Response)
      requires Valid()
      modifies this, state
      ensures Valid() && Continues()
      ensures Cancels(e, answer) ==> CancelDurable()
      ensures Reboots(effects) == Reboots(old(effects)) + (if IsReboot(e) && answer.Ok? then 1 else 0)
    {
      hide Covers, Lawful, Reboots, WholeOr, Within, IsCancelled;
      answer := NoAnswer;
      match e {
        case Incoming(peer, envelope, env) => answer := Handle(peer, envelope, env);
        case LosesPower(keep) => LosePower(keep);
      }
    }
  }

  predicate Cancels(e: Event, answer: Response) {
    e.Incoming? && e.envelope.body.CancelCampaign? && answer.Ok?
  }

  // The state file at one moment (durable: what a power loss could leave of it) and how many
  // effects had happened by then.
  datatype Moment = Moment(live: Option<File>, durable: Option<File>, effects: nat)

  // The campaign is cancelled whatever a power loss leaves.
  predicate CancelledAt(a: Authorization, m: Moment) {
    IsCancelled(a, m.live) && IsCancelled(a, m.durable)
  }

  function InitialFile(initial: Option<Content>): Option<File> {
    if initial.None? then None else Some(File(initial.value, true, true))
  }

  // Every run of serialised requests and power losses, from whatever the state file was.
  // answers[k] replies to events[k]; moments[k] is before it and moments[k + 1] after it.
  method Campaign(a: Authorization, initial: Option<Content>, events: seq<Event>)
    returns (moments: seq<Moment>, effects: seq<Effect>, answers: seq<Response>)
    ensures |moments| == |events| + 1 && |answers| == |events|
    ensures moments[0] == Moment(InitialFile(initial), InitialFile(initial), 0)
    ensures moments[|events|].effects == |effects|
    ensures Within(a, initial, Reboots(effects))
    ensures OkReboots(events, answers) == Reboots(effects)
    ensures forall k :: 0 <= k <= |events| ==>
      && moments[k].effects <= |effects|
      && Recorded(a, initial, Reboots(effects[..moments[k].effects]), moments[k])
    ensures forall i :: 0 <= i < |effects| ==> Lawful(a, effects[i])
    ensures forall k :: 0 <= k < |events| && Cancels(events[k], answers[k]) ==> CancelledAt(a, moments[k + 1])
    ensures forall j, k :: 0 <= j <= k <= |events| && CancelledAt(a, moments[j]) ==>
      CancelledAt(a, moments[k]) && forall i :: moments[j].effects <= i < moments[k].effects ==> Quiet(effects[i])
  {
    hide Covers, Lawful, Reboots, WholeOr, Within, IsCancelled, OkReboots, Cancels;
    NoReboots();
    var server := new Server(a, initial);
    answers, moments := [], [Moment(server.state.live, server.state.durable, 0)];
    assert server.effects[..0] == server.effects;
    for k := 0 to |events|
      invariant server.Valid() && fresh(server) && fresh(server.state)
      invariant |answers| == k && |moments| == k + 1
      invariant OkReboots(events[..k], answers) == Reboots(server.effects)
      invariant moments[0] == Moment(InitialFile(initial), InitialFile(initial), 0)
      invariant moments[k] == Moment(server.state.live, server.state.durable, |server.effects|)
      invariant forall j :: 0 <= j <= k ==>
        && moments[j].effects <= |server.effects|
        && Recorded(a, initial, Reboots(server.effects[..moments[j].effects]), moments[j])
      invariant forall j :: 0 <= j < k && Cancels(events[j], answers[j]) ==> CancelledAt(a, moments[j + 1])
      invariant forall i, j :: 0 <= i <= j <= k && CancelledAt(a, moments[i]) ==>
        CancelledAt(a, moments[j]) && forall e :: moments[i].effects <= e < moments[j].effects ==> Quiet(server.effects[e])
    {
      ghost var before := server.effects;
      var answer := server.Take(events[k]);
      var moment := Moment(server.state.live, server.state.durable, |server.effects|);
      KeepsMoments(a, initial, before, server.effects, moments);
      assert server.effects[..|server.effects|] == server.effects;
      assert events[..k + 1] == events[..k] + [events[k]];
      OkRebootsSnoc(events[..k], answers, events[k], answer);
      answers, moments := answers + [answer], moments + [moment];
    }
    assert events[..|events|] == events;
    effects := server.effects;
  }

  predicate IsReboot(e: Event) { e.Incoming? && e.envelope.body.Reboot? }

  // How many reboot requests were answered with Ok.
  function OkReboots(events: seq<Event>, answers: seq<Response>): nat
    requires |answers| == |events|
  {
    if events == [] then 0
    else
      var n := |events| - 1;
      OkReboots(events[..n], answers[..n]) + (if IsReboot(events[n]) && answers[n].Ok? then 1 else 0)
  }

  lemma NoReboots()
    ensures OkReboots([], []) == 0
  {
  }

  lemma OkRebootsSnoc(events: seq<Event>, answers: seq<Response>, e: Event, answer: Response)
    requires |answers| == |events|
    ensures OkReboots(events + [e], answers + [answer])
         == OkReboots(events, answers) + (if IsReboot(e) && answer.Ok? then 1 else 0)
  {
    assert (events + [e])[..|events|] == events && (answers + [answer])[..|answers|] == answers;
  }

  // What both versions of the state file say, at a moment with so many reboots behind it.
  predicate Recorded(a: Authorization, initial: Option<Content>, reboots: nat, m: Moment) {
    && Covers(a, initial, reboots, m.live) && Covers(a, initial, reboots, m.durable)
    && WholeOr(a, initial, m.live) && WholeOr(a, initial, m.durable)
  }

  // Appending effects does not disturb what was recorded at earlier moments.
  lemma KeepsMoments(a: Authorization, initial: Option<Content>, before: seq<Effect>, after: seq<Effect>, moments: seq<Moment>)
    requires before <= after
    requires forall j :: 0 <= j < |moments| ==>
      moments[j].effects <= |before| && Recorded(a, initial, Reboots(before[..moments[j].effects]), moments[j])
    ensures forall j :: 0 <= j < |moments| ==>
      moments[j].effects <= |after| && Recorded(a, initial, Reboots(after[..moments[j].effects]), moments[j])
  {
    hide Recorded, Reboots;
    forall j | 0 <= j < |moments|
      ensures moments[j].effects <= |after| && Recorded(a, initial, Reboots(after[..moments[j].effects]), moments[j])
    {
      assert after[..moments[j].effects] == before[..moments[j].effects];
    }
  }

  // ---- resuming after a reboot -----------------------------------------------------------

  datatype Decision = AuthorizationRejected | StateRejected | NothingToResume | Resumed | LaunchFailed

  // One directory under the state root that holds an authorization file.
  datatype CampaignDir = CampaignDir(
    authorization: Option<Authorization>, file: Option<File>, readFails: bool, launchOk: bool)

  // The controller of a campaign is started exactly when its authorization is accepted and
  // its state says that a reboot is in flight and not cancelled.
  predicate ShouldResume(d: CampaignDir) {
    && d.authorization.Some?
    && var loaded := Load(d.file, d.authorization.value.campaignId, d.readFails);
    loaded.Loaded? && !loaded.state.cancelled && loaded.state.resumePending
  }

  // In the terms of the file: it is there, whole, of this campaign and schema, not cancelled,
  // and a reboot is in flight.
  lemma ShouldResumeMeans(d: CampaignDir)
    ensures ShouldResume(d) <==>
      && d.authorization.Some? && !d.readFails && d.file.Some? && d.file.value.content.Parsed?
      && var s := d.file.value.content.state;
      && s.schemaVersion == 2 && s.campaignId == d.authorization.value.campaignId
      && s.resumePending && !s.cancelled
  {
  }

  method ResumeAll(dirs: seq<CampaignDir>) returns (report: seq<Decision>)
    ensures |report| == |dirs|
    ensures forall i :: 0 <= i < |dirs| ==>
      (ShouldResume(dirs[i]) <==> report[i].Resumed? || report[i].LaunchFailed?)
      && (report[i].Resumed? ==> dirs[i].launchOk)
    ensures forall i :: 0 <= i < |dirs| ==>
      (dirs[i].authorization.Some? && IsCancelled(dirs[i].authorization.value, dirs[i].file) ==> !report[i].Resumed?)
  {
    report := [];
    for i := 0 to |dirs|
      invariant |report| == i
      invariant forall j :: 0 <= j < i ==>
        (ShouldResume(dirs[j]) <==> report[j].Resumed? || report[j].LaunchFailed?)
        && (report[j].Resumed? ==> dirs[j].launchOk)
    {
      if dirs[i].authorization.None? {
        report := report + [AuthorizationRejected];
        continue;
      }
      var loaded := Load(dirs[i].file, dirs[i].authorization.value.campaignId, dirs[i].readFails);
      if !loaded.Loaded? {
        report := report + [StateRejected];
        continue;
      }
      if loaded.state.cancelled || !loaded.state.resumePending {
        report := report + [NothingToResume];
        continue;
      }
      report := report + [if dirs[i].launchOk then Resumed else LaunchFailed];
    }
  }

  // A campaign run to any point, cut off by a power loss, and the machine brought up again:
  // its controller is not restarted if the campaign was cancelled at any moment of the run,
  // with or without an answer to the request that cancelled it.
  method RestartAfter(a: Authorization, initial: Option<Content>, events: seq<Event>, keepRename: bool,
                      readFails: bool, launchOk: bool)
    returns (moments: seq<Moment>, decision: Decision)
    ensures |moments| == |events| + 2
    ensures (exists k :: 0 <= k < |moments| && CancelledAt(a, moments[k])) ==>
      !decision.Resumed? && !decision.LaunchFailed?
    ensures decision.Resumed? || decision.LaunchFailed? <==>
      && !readFails
      && var last := moments[|events| + 1];
      && last.live.Some? && last.live.value.content.Parsed?
      && var s := last.live.value.content.state;
      Matches(s, a.campaignId) && s.resumePending && !s.cancelled
    ensures decision.Resumed? ==> launchOk
  {
    hide Covers, Lawful, Reboots, WholeOr, Within, Recorded;
    var effects, answers;
    moments, effects, answers := Campaign(a, initial, events + [LosesPower(keepRename)]);
    var n := |events| + 1;
    if k :| 0 <= k <= n && CancelledAt(a, moments[k]) {
      assert CancelledAt(a, moments[n]);
    }
    var dir := CampaignDir(Some(a), moments[n].live, readFails, launchOk);
    ShouldResumeMeans(dir);
    var report := ResumeAll([dir]);
    assert [dir][0] == dir;
    decision := report[0];
  }
}
