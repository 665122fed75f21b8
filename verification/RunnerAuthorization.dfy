// The root-owned authorization of one campaign: its shape, and which requests it admits.
module RunnerAuthorization {
  import opened Types
  import opened Chars

  const SCHEMA_VERSION: u32 := 2

  datatype Action =
    | StatusAction | LiveSuiteAction | SchedulerBurstAction | RecordingAction | WorkloadOverheadAction
    | StartWorkerAction | StopWorkerAction | PrepareKernelCycleAction | SetNextBootAction
    | RebootAction | ResumeAction | CancelAction

  datatype LiveSuite =
    | Observation | GameRunnable | Overhead | ScoreDegradation | KernelCompat | Affinity | Recovery | AffinityBenefit
  {
    predicate TakesSeconds() {
      Observation? || GameRunnable? || Overhead? || ScoreDegradation? || AffinityBenefit?
    }

    predicate TakesMutation() { Recovery? || Affinity? || AffinityBenefit? }
  }

  // The requests that run something and touch no runner state. benefitPair is the pair of the
  // benefit specification, hasMutation whether a mutation is named; irq is the one the corpus
  // probes watch.
  datatype Job =
    | RunSuite(suite: LiveSuite, attempt: u32, suiteSeconds: Option<u64>, suiteRounds: Option<u32>,
               benefitPair: Option<u32>, hasMutation: bool)
    | Burst(cpu: u32, burstMs: u64, periodMs: u64, seconds: u64)
    | Recording(attempt: u32, capture: u32, targetPid: u32, targetStart: u64, seconds: u64, irq: Option<u32>)
    | WorkloadOverhead(attempt: u32, seconds: u64, rounds: u32, workUnits: u64)
    | StartWorker
    | StopWorker

  datatype Request =
    | Status
    | Execute(job: Job)
    | PrepareKernelCycle(entry: string)
    | SetNextBoot(entry: string)
    | Reboot
    | ResumeCampaign
    | CancelCampaign
  {
    function GetAction(): Action {
      match this
      case Status => StatusAction
      case Execute(RunSuite(_, _, _, _, _, _)) => LiveSuiteAction
      case Execute(Burst(_, _, _, _)) => SchedulerBurstAction
      case Execute(Recording(_, _, _, _, _, _)) => RecordingAction
      case Execute(WorkloadOverhead(_, _, _, _)) => WorkloadOverheadAction
      case Execute(StartWorker) => StartWorkerAction
      case Execute(StopWorker) => StopWorkerAction
      case PrepareKernelCycle(_) => PrepareKernelCycleAction
      case SetNextBoot(_) => SetNextBootAction
      case Reboot => RebootAction
      case ResumeCampaign => ResumeAction
      case CancelCampaign => CancelAction
    }

    function GetSuite(): Option<LiveSuite> {
      if Execute? && job.RunSuite? then Some(job.suite) else None
    }
  }

  datatype TaskGrant = TaskGrant(taskId: string, action: Action, suite: Option<LiveSuite>)

  datatype Authorization = Authorization(
    schemaVersion: u32, campaignId: string, ownerUid: u32, repository: string,
    manifestSha256: string, runnerSha256: string, xtaskSha256: string, stutterSha256: string,
    grants: set<TaskGrant>, maxReboots: u32, rebootSlack: u32,
    originalBootEntry: Option<string>, allowedBootEntries: seq<string>)

  datatype Envelope = Envelope(
    schemaVersion: u32, campaignId: string, taskId: string, requestId: string,
    manifestSha256: string, body: Request)

  datatype ErrorCode =
    | UnauthorizedPeer | UnknownCampaign | ManifestMismatch | ActionNotPermitted | TaskNotPermitted
    | InvalidArgument | BootEntryNotAuthorized | RebootBudgetExhausted | CorruptState | Unsupported
    | ExecutionFailed | SchemaMismatch | Busy | Cancelled

  // Safe to hand to a bootloader tool as an argument.
  predicate IsSafeBootEntryId(value: string) {
    && 0 < |value| <= 256
    && value[0] != '-'
    && forall i :: 0 <= i < |value| ==>
         IsAlphanumeric(value[i]) || value[i] in "-_.+:@>="
  }

  // Safe to use as a path component.
  predicate IsSafeIdentifier(value: string) {
    && 0 < |value| <= 96
    && value[0] != '.'
    && forall i :: 0 <= i < |value| ==> IsAlphanumeric(value[i]) || value[i] in "-_."
  }

  // An identifier is one path component that cannot leave its directory, and neither it nor a
  // boot entry can be taken for several words; a boot entry cannot be taken for an option.
  lemma IdentifiersAreSafe(value: string)
    ensures IsSafeIdentifier(value) ==>
      value != "" && '/' !in value && ' ' !in value && value != "." && value != ".." && |value| <= 96
    ensures IsSafeBootEntryId(value) ==>
      && value != "" && '/' !in value && ' ' !in value && '\'' !in value && '"' !in value && '$' !in value
      && value[0] != '-' && |value| <= 256
  {
  }

  // Letters, digits and the listed marks are all allowed.
  lemma IdentifiersAreAllowed(value: string)
    requires 0 < |value| <= 96 && forall i :: 0 <= i < |value| ==> IsAlphanumeric(value[i]) || value[i] == '_'
    ensures IsSafeIdentifier(value) && IsSafeBootEntryId(value)
    ensures IsSafeIdentifier(value + "-.") <==> |value| <= 94
    ensures IsSafeBootEntryId(value + "-_.+:@>=")
  {
    var v := value + "-.";
    assert forall i :: 0 <= i < |value| ==> v[i] == value[i];
    assert v[|value|] == '-' && v[|value| + 1] == '.';
    var w := value + "-_.+:@>=";
    assert forall i :: 0 <= i < |value| ==> w[i] == value[i];
    assert forall i :: |value| <= i < |w| ==> w[i] in "-_.+:@>=";
  }

  predicate HasDotDot(value: string) {
    exists i :: 0 <= i < |value| - 1 && value[i] == '.' && value[i + 1] == '.'
  }

  predicate ValidShape(a: Authorization) {
    && a.schemaVersion == SCHEMA_VERSION
    && IsSafeIdentifier(a.campaignId)
    && |a.repository| > 0 && a.repository[0] == '/' && !HasDotDot(a.repository)
    && IsHex(a.manifestSha256, 64) && IsHex(a.runnerSha256, 64)
    && IsHex(a.xtaskSha256, 64) && IsHex(a.stutterSha256, 64)
    && a.ownerUid != 0
    && (forall g :: g in a.grants ==>
          IsSafeIdentifier(g.taskId) && (g.action == LiveSuiteAction <==> g.suite.Some?))
    && (forall i :: 0 <= i < |a.allowedBootEntries| ==> IsSafeBootEntryId(a.allowedBootEntries[i]))
    && (a.originalBootEntry.Some? ==> IsSafeBootEntryId(a.originalBootEntry.value))
  }

  // The checks of one request, in order.
  function CheckArguments(a: Authorization, r: Request, onlineCpus: u32): Option<ErrorCode> {
    match r
    case Execute(job) => CheckJob(job, onlineCpus)
    case SetNextBoot(entry) => if entry in a.allowedBootEntries then None else Some(BootEntryNotAuthorized)
    case PrepareKernelCycle(entry) => if entry in a.allowedBootEntries then None else Some(BootEntryNotAuthorized)
    case _ => None
  }

  function CheckJob(job: Job, onlineCpus: u32): (denial: Option<ErrorCode>)
    ensures denial == if InRange(job, onlineCpus) then None else Some(InvalidArgument)
  {
    match job
    case RunSuite(suite, attempt, seconds, rounds, pair, hasMutation) =>
      if hasMutation && !suite.TakesMutation() then Some(InvalidArgument)
      else if attempt == 0 || attempt > 9_999 then Some(InvalidArgument)
      else if seconds.Some? && !suite.TakesSeconds() then Some(InvalidArgument)
      else if seconds.Some? && !(10 <= seconds.value <= 60) then Some(InvalidArgument)
      else if rounds.Some? && suite != Overhead then Some(InvalidArgument)
      else if rounds.Some? && !(6 <= rounds.value <= 48) then Some(InvalidArgument)
      else if suite.AffinityBenefit? then
        if pair.Some? && pair.value <= 9_999 then None else Some(InvalidArgument)
      else if pair.Some? then Some(InvalidArgument)
      else None
    case Burst(cpu, burstMs, periodMs, seconds) =>
      if cpu >= (if onlineCpus > 1 then onlineCpus else 1) then Some(InvalidArgument)
      else if !(1 <= periodMs <= 1_000) || burstMs >= periodMs then Some(InvalidArgument)
      else if !(1 <= seconds <= 3_600) then Some(InvalidArgument)
      else None
    case Recording(attempt, capture, targetPid, targetStart, seconds, irq) =>
      if attempt == 0 || attempt > 9_999 || capture > 9_999 then Some(InvalidArgument)
      else if targetPid <= 1 || targetStart == 0 then Some(InvalidArgument)
      else if !(10 <= seconds <= 300) then Some(InvalidArgument)
      else if irq.Some? && irq.value >= 4_096 then Some(InvalidArgument)
      else None
    case WorkloadOverhead(attempt, seconds, rounds, workUnits) =>
      if attempt == 0 || attempt > 9_999 then Some(InvalidArgument)
      else if !(10 <= seconds <= 60) || !(6 <= rounds <= 48) then Some(InvalidArgument)
      else if !(1 <= workUnits <= 100_000) then Some(InvalidArgument)
      else None
    case StartWorker => None
    case StopWorker => None
  }

  // What an accepted job can ask for: every number is bounded, and each option comes only
  // with a suite that takes it.
  predicate InRange(job: Job, onlineCpus: u32) {
    match job
    case RunSuite(suite, attempt, seconds, rounds, pair, hasMutation) =>
      && 1 <= attempt <= 9_999
      && (hasMutation ==> suite.TakesMutation())
      && (seconds.Some? ==> suite.TakesSeconds() && 10 <= seconds.value <= 60)
      && (rounds.Some? ==> suite.Overhead? && 6 <= rounds.value <= 48)
      && (pair.Some? <==> suite.AffinityBenefit?) && (pair.Some? ==> pair.value <= 9_999)
    case Burst(cpu, burstMs, periodMs, seconds) =>
      (cpu == 0 || cpu < onlineCpus) && burstMs < periodMs <= 1_000 && 1 <= seconds <= 3_600
    case Recording(attempt, capture, targetPid, targetStart, seconds, irq) =>
      && 1 <= attempt <= 9_999 && capture <= 9_999 && targetPid > 1 && targetStart > 0
      && 10 <= seconds <= 300 && (irq.Some? ==> irq.value < 4_096)
    case WorkloadOverhead(attempt, seconds, rounds, workUnits) =>
      1 <= attempt <= 9_999 && 10 <= seconds <= 60 && 6 <= rounds <= 48 && 1 <= workUnits <= 100_000
    case StartWorker => true
    case StopWorker => true
  }

  // None when the request is admitted, otherwise why it is denied.
  function Authorize(a: Authorization, peerUid: u32, e: Envelope, onlineCpus: u32): (denial: Option<ErrorCode>)
    ensures denial.None? <==>
      && peerUid == a.ownerUid && e.schemaVersion == SCHEMA_VERSION
      && e.campaignId == a.campaignId && e.manifestSha256 == a.manifestSha256
      && IsSafeIdentifier(e.taskId) && IsSafeIdentifier(e.requestId)
      && TaskGrant(e.taskId, e.body.GetAction(), e.body.GetSuite()) in a.grants
      && (e.body.Execute? ==> InRange(e.body.job, onlineCpus))
      && (e.body.SetNextBoot? || e.body.PrepareKernelCycle? ==> e.body.entry in a.allowedBootEntries)
    ensures denial == Some(TaskNotPermitted) ==>
      exists g :: g in a.grants && g.action == e.body.GetAction() && (g.taskId != e.taskId || g.suite != e.body.GetSuite())
  {
    if peerUid != a.ownerUid then Some(UnauthorizedPeer)
    else if e.schemaVersion != SCHEMA_VERSION then Some(SchemaMismatch)
    else if e.campaignId != a.campaignId then Some(UnknownCampaign)
    else if e.manifestSha256 != a.manifestSha256 then Some(ManifestMismatch)
    else if !IsSafeIdentifier(e.taskId) || !IsSafeIdentifier(e.requestId) then Some(InvalidArgument)
    else if !(exists g :: g in a.grants && g.action == e.body.GetAction()) then Some(ActionNotPermitted)
    else if TaskGrant(e.taskId, e.body.GetAction(), e.body.GetSuite()) !in a.grants then Some(TaskNotPermitted)
    else CheckArguments(a, e.body, onlineCpus)
  }

  // The first thing that is wrong decides the answer: who asks, then what is asked of whom,
  // then whether it was granted, then its arguments.
  lemma DenialsMean(a: Authorization, peerUid: u32, e: Envelope, onlineCpus: u32)
    ensures var d := Authorize(a, peerUid, e, onlineCpus);
      var addressed := e.schemaVersion == 2 && e.campaignId == a.campaignId && e.manifestSha256 == a.manifestSha256
        && IsSafeIdentifier(e.taskId) && IsSafeIdentifier(e.requestId);
      && (d == Some(UnauthorizedPeer) <==> peerUid != a.ownerUid)
      && (d == Some(SchemaMismatch) <==> peerUid == a.ownerUid && e.schemaVersion != 2)
      && (d == Some(UnknownCampaign) <==>
            peerUid == a.ownerUid && e.schemaVersion == 2 && e.campaignId != a.campaignId)
      && (d == Some(ManifestMismatch) <==>
            peerUid == a.ownerUid && e.schemaVersion == 2 && e.campaignId == a.campaignId
            && e.manifestSha256 != a.manifestSha256)
      && (d == Some(ActionNotPermitted) <==>
            peerUid == a.ownerUid && addressed && forall g :: g in a.grants ==> g.action != e.body.GetAction())
      && (d == Some(TaskNotPermitted) <==>
            peerUid == a.ownerUid && addressed && TaskGrant(e.taskId, e.body.GetAction(), e.body.GetSuite()) !in a.grants
            && exists g :: g in a.grants && g.action == e.body.GetAction())
      && (d == Some(BootEntryNotAuthorized) ==>
            (e.body.SetNextBoot? || e.body.PrepareKernelCycle?) && e.body.entry !in a.allowedBootEntries)
      && (d == Some(InvalidArgument) ==>
            !addressed || (e.body.Execute? && !InRange(e.body.job, onlineCpus)))
      && d != Some(Busy) && d != Some(Cancelled) && d != Some(CorruptState) && d != Some(Unsupported)
      && d != Some(ExecutionFailed) && d != Some(RebootBudgetExhausted)
  {
    var wanted := TaskGrant(e.taskId, e.body.GetAction(), e.body.GetSuite());
    assert wanted in a.grants ==> exists g :: g in a.grants && g.action == e.body.GetAction();
  }

  // Each request is admitted only under the grant named after it, to the task it was given to.
  lemma GrantsMean(a: Authorization, peerUid: u32, e: Envelope, onlineCpus: u32)
    requires Authorize(a, peerUid, e, onlineCpus).None?
    ensures e.body.Status? ==> TaskGrant(e.taskId, StatusAction, None) in a.grants
    ensures e.body.Reboot? ==> TaskGrant(e.taskId, RebootAction, None) in a.grants
    ensures e.body.ResumeCampaign? ==> TaskGrant(e.taskId, ResumeAction, None) in a.grants
    ensures e.body.CancelCampaign? ==> TaskGrant(e.taskId, CancelAction, None) in a.grants
    ensures e.body.SetNextBoot? ==> TaskGrant(e.taskId, SetNextBootAction, None) in a.grants
    ensures e.body.PrepareKernelCycle? ==> TaskGrant(e.taskId, PrepareKernelCycleAction, None) in a.grants
    ensures e.body.Execute? ==>
      match e.body.job
      case RunSuite(suite, _, _, _, _, _) => TaskGrant(e.taskId, LiveSuiteAction, Some(suite)) in a.grants
      case Burst(_, _, _, _) => TaskGrant(e.taskId, SchedulerBurstAction, None) in a.grants
      case Recording(_, _, _, _, _, _) => TaskGrant(e.taskId, RecordingAction, None) in a.grants
      case WorkloadOverhead(_, _, _, _) => TaskGrant(e.taskId, WorkloadOverheadAction, None) in a.grants
      case StartWorker => TaskGrant(e.taskId, StartWorkerAction, None) in a.grants
      case StopWorker => TaskGrant(e.taskId, StopWorkerAction, None) in a.grants
  {
  }
}
