/**
  Update admission: the update driver of backend/app/settings.py and the operation registries
  of backend/app/update_coordination.py. Every region under the coordination lock is one step;
  launching the installer together with its bookkeeping is one step, and so is reading its log.

  Operations that active_operations reports come in two kinds: `admitted` ones were registered
  under operation_admission (uploads, transient operations, mount, file and package tasks);
  `submitted` ones are jobs of the job service, which starts, retries and releases them without
  asking for admission. An operation that is still at work may stop being reported: a finished
  upload leaves its registry before its import, and a job with a requested cancellation is
  filtered out. Those are `detached`; some of them may be reported again.
 */
module UpdateProtocol {
  import opened Wrappers
  import opened UpdateSteps

  /**
    `launching` holds the requests whose driver has left the lock to launch the installer,
    `installing` those whose installer is running, `noticing` those that some poller has read as
    being prepared, without the lock, and may write as running at any later time. `polling` says
    that some poller has read a request in progress and may yet apply the log to whatever
    request it finds then. `nextId` stands for fresh random identifiers.
   */
  datatype System = System(
    request: Request, admitted: set<nat>, submitted: set<nat>, detached: set<nat>,
    launching: set<nat>, installing: set<nat>, noticing: set<nat>, polling: bool, nextId: nat)

  datatype Step =
    | Admit(op: nat)
    | Submit(job: nat)
    | Finish(op: nat)
    | Detach(op: nat)
    | Ask
    | Process(wanted: Option<nat>, reachable: bool)
    | Launch(launched: nat, succeeds: bool)
    | Synchronize(markers: seq<Marker>)
    | Conclude(exitCode: int)
    | Recover
    | Observe
    | Notice(noticed: nat)
    | FindUpToDate
    | InstallerEnds(id: nat)

  function Start(): System {
    System(IdleRequest(), {}, {}, {}, {}, {}, {}, false, 1)
  }

  /** What active_operations reports when every registry can be reached. */
  function Active(s: System): set<nat> {
    s.admitted + s.submitted
  }

  predicate WellFormedSystem(s: System) {
    && WellFormed(s.request)
    && s.request.id < s.nextId
    && (forall id :: id in s.launching ==> id < s.nextId)
    && (forall id :: id in s.noticing ==> id < s.nextId)
  }

  /** When a step can be taken; those not listed can always be tried. */
  predicate Enabled(s: System, step: Step) {
    match step
    case Admit(op) => op !in Active(s)
    case Submit(op) => op !in Active(s)
    case Detach(op) => op in Active(s)
    case Launch(id, _) => id in s.launching
    case Synchronize(markers) => s.polling && KnownMarkers(markers)
    case Conclude(_) => InProgress(s.request.state)
    case Recover => InProgress(s.request.state)
    case Observe => InProgress(s.request.state)
    case Notice(id) => id in s.noticing
    case _ => true
  }

  /** Whether _process_waiting_update gets as far as looking for active operations. */
  predicate Handles(s: System, id: Option<nat>) {
    (id == None || id.value == s.request.id) && s.request.state.Waiting?
  }

  function After(s: System, step: Step): System
    requires WellFormedSystem(s) && Enabled(s, step)
  {
    match step
    case Admit(op) =>
      if Blocking(s.request.state) then s else s.(admitted := s.admitted + {op}, detached := s.detached - {op})
    case Submit(op) => s.(submitted := s.submitted + {op}, detached := s.detached - {op})
    case Finish(op) =>
      s.(admitted := s.admitted - {op}, submitted := s.submitted - {op}, detached := s.detached - {op})
    case Detach(op) =>
      s.(admitted := s.admitted - {op}, submitted := s.submitted - {op}, detached := s.detached + {op})
    case Ask =>
      if Blocking(s.request.state) then s else s.(request := Requested(s.nextId), nextId := s.nextId + 1)
    case Process(id, reachable) =>
      if !Handles(s, id) then s
      else if !reachable || Active(s) != {} then s.(request := Processed(s.request, true))
      else s.(request := Processed(s.request, false), launching := s.launching + {s.request.id})
    case Launch(id, succeeds) =>
      var installing := if succeeds then s.installing + {id} else s.installing;
      var left := s.(launching := s.launching - {id}, installing := installing);
      if id != s.request.id then left
      else if succeeds then left.(request := Launched(s.request))
      else left.(request := LaunchFailed(s.request))
    case Synchronize(markers) => s.(request := Synchronized(s.request, markers))
    case Conclude(exitCode) => s.(request := Finished(s.request, exitCode))
    case Recover => s.(request := Recovered(s.request))
    case Observe =>
      s.(polling := true, noticing := if s.request.state.Preparing? then s.noticing + {s.request.id} else s.noticing)
    case Notice(id) => if id != s.request.id then s else s.(request := s.request.(state := Installing))
    case FindUpToDate => s.(request := UpToDate(s.nextId), nextId := s.nextId + 1)
    case InstallerEnds(id) => s.(installing := s.installing - {id})
  }

  lemma AfterIsWellFormed(s: System, step: Step)
    requires WellFormedSystem(s) && Enabled(s, step)
    ensures WellFormedSystem(After(s, step))
  {
    match step
    case Process(_, _) =>
      StagesAreWellFormed(s.request, 0);
      StagesStates(s.request);
    case Launch(_, _) =>
      StagesAreWellFormed(s.request, 0);
      StagesStates(s.request);
    case Recover =>
      StagesAreWellFormed(s.request, 0);
      StagesStates(s.request);
    case Conclude(exitCode) =>
      StagesAreWellFormed(s.request, exitCode);
      StagesStates(s.request);
    case Synchronize(markers) => SynchronizedState(s.request, markers);
    case _ =>
  }

  // ---- Operations at work ------------------------------------------------------

  /** An operation is in one place: admitted, submitted, or at work without being reported. */
  predicate Separate(s: System) {
    s.admitted !! s.submitted && s.admitted !! s.detached && s.submitted !! s.detached
  }

  function AtWork(s: System): set<nat> {
    s.admitted + s.submitted + s.detached
  }

  /**
    An operation is at work from its admission or submission until it ends, and no step of an
    update starts, ends or moves one. One that is detached is at work and not reported.
   */
  lemma OperationsStayAtWork(s: System, step: Step)
    requires WellFormedSystem(s) && Enabled(s, step) && Separate(s)
    ensures Separate(After(s, step))
    ensures AtWork(After(s, step)) ==
              match step
              case Admit(op) =>
                if s.request.state in {Waiting, Preparing, Installing} then AtWork(s) else AtWork(s) + {op}
              case Submit(job) => AtWork(s) + {job}
              case Finish(op) => AtWork(s) - {op}
              case _ => AtWork(s)
    ensures step.Detach? ==> step.op in After(s, step).detached
    ensures step.Submit? ==> step.job in After(s, step).submitted
    ensures step.Admit? && step.op in AtWork(After(s, step)) && step.op !in s.detached ==>
              step.op in After(s, step).admitted
    ensures !step.Admit? && !step.Submit? && !step.Finish? && !step.Detach? ==>
              var t := After(s, step);
              t.admitted == s.admitted && t.submitted == s.submitted && t.detached == s.detached
  {
  }

  /** Launches begin with a started request and end with the launch; an installer runs from then to its end. */
  lemma InstallersRun(s: System, step: Step)
    requires WellFormedSystem(s) && Enabled(s, step)
    ensures After(s, step).installing ==
              match step
              case Launch(id, succeeds) => if succeeds then s.installing + {id} else s.installing
              case InstallerEnds(id) => s.installing - {id}
              case _ => s.installing
    ensures After(s, step).launching ==
              match step
              case Process(_, _) =>
                if After(s, step).request.state == Preparing && s.request.state == Waiting
                then s.launching + {s.request.id} else s.launching
              case Launch(id, _) => s.launching - {id}
              case _ => s.launching
  {
  }

  // ---- Exclusion ---------------------------------------------------------------

  /** A request that is being prepared or installed excludes every admitted operation. */
  predicate Exclusive(s: System) {
    InProgress(s.request.state) ==> s.admitted == {}
  }

  /** It excludes every reported operation. */
  predicate Quiet(s: System) {
    InProgress(s.request.state) ==> Active(s) == {}
  }

  /** A launch that is under way belongs to a request that is still in progress, or to an overwritten one. */
  predicate LaunchesAreCurrent(s: System) {
    s.request.id in s.launching ==> InProgress(s.request.state)
  }

  /**
    The finishing branches wait for a launch: it takes less than two minutes, leaves a fresh
    progress file, and its installer does not end before the bookkeeping that follows it.
   */
  predicate Prompt(s: System, step: Step) {
    step.Conclude? || step.Recover? ==> s.request.id !in s.launching
  }

  /** When a poller acts on what it read, the request it acts on is still in progress. */
  predicate Timely(s: System, step: Step) {
    step.Synchronize? || (step.Notice? && step.noticed == s.request.id) ==> InProgress(s.request.state)
  }

  /** A step that puts the request in progress without looking at its state. */
  predicate Resurrects(s: System, step: Step) {
    || (step.Launch? && step.succeeds && step.launched == s.request.id)
    || (step.Notice? && step.noticed == s.request.id)
    || (step.Synchronize? && exists i :: 0 <= i < |step.markers| && Starts(s.request, step.markers[i]))
  }

  /**
    Exactly three steps can break the exclusion, when operations are admitted: a launch or a
    poller's notice for a request that was meanwhile given up or concluded, and a poller's log
    that starts a step of a request that is not in progress.
   */
  lemma ExclusionStep(s: System, step: Step)
    requires WellFormedSystem(s) && Enabled(s, step) && Exclusive(s)
    ensures Exclusive(After(s, step)) <==> !(Resurrects(s, step) && s.admitted != {})
  {
    StagesStates(s.request);
    match step
    case Synchronize(markers) => SynchronizedState(s.request, markers);
    case _ =>
  }

  /** Reported operations are excluded but for those steps and for a job that is submitted meanwhile. */
  lemma QuietStep(s: System, step: Step)
    requires WellFormedSystem(s) && Enabled(s, step) && Quiet(s)
    ensures Quiet(After(s, step)) <==>
              !(Resurrects(s, step) && Active(s) != {}) && !(step.Submit? && InProgress(s.request.state))
  {
    StagesStates(s.request);
    match step
    case Synchronize(markers) => SynchronizedState(s.request, markers);
    case _ =>
  }

  lemma StagesStates(r: Request)
    requires WellFormed(r)
    ensures Processed(r, true).state == r.state && Processed(r, false).state.Preparing?
    ensures Launched(r).state.Installing? && LaunchFailed(r).state.Broken?
    ensures Processed(r, true).id == Processed(r, false).id == Launched(r).id == LaunchFailed(r).id == r.id
    ensures !InProgress(Recovered(r).state) && Recovered(r).id == r.id
    ensures forall exitCode :: !InProgress(Finished(r, exitCode).state) && Finished(r, exitCode).id == r.id
  {
  }

  lemma LaunchesStayCurrent(s: System, step: Step)
    requires WellFormedSystem(s) && Enabled(s, step) && LaunchesAreCurrent(s) && Prompt(s, step)
    ensures LaunchesAreCurrent(After(s, step))
  {
    StagesStates(s.request);
    match step
    case Synchronize(markers) => SynchronizedState(s.request, markers);
    case _ =>
  }

  ghost predicate Run(states: seq<System>, steps: seq<Step>) {
    && |states| == |steps| + 1
    && states[0] == Start()
    && forall i :: 0 <= i < |steps| ==>
         WellFormedSystem(states[i]) && Enabled(states[i], steps[i]) && states[i + 1] == After(states[i], steps[i])
  }

  /**
    Update exclusion over whole runs: as long as the finishing branches do not give up a request
    while its installer is being launched, and pollers do not act on requests that have left
    that state, no admitted operation is ever active while a request is being prepared or
    installed. If no job is submitted meanwhile either, no reported operation is.
   */
  lemma {:induction false} RunsExclude(states: seq<System>, steps: seq<Step>, k: nat)
    requires Run(states, steps) && k < |states|
    requires forall i :: 0 <= i < |steps| ==> Prompt(states[i], steps[i]) && Timely(states[i], steps[i])
    ensures WellFormedSystem(states[k]) && Exclusive(states[k]) && LaunchesAreCurrent(states[k])
    ensures (forall i :: 0 <= i < k && steps[i].Submit? ==> !InProgress(states[i].request.state)) ==> Quiet(states[k])
  {
    if k > 0 {
      RunsExclude(states, steps, k - 1);
      var s, step := states[k - 1], steps[k - 1];
      assert states[k - 1 + 1] == After(s, step) && Prompt(s, step) && Timely(s, step);
      RunStep(s, step);
    }
  }

  lemma RunStep(s: System, step: Step)
    requires WellFormedSystem(s) && Enabled(s, step) && Exclusive(s) && LaunchesAreCurrent(s)
    requires Prompt(s, step) && Timely(s, step)
    ensures WellFormedSystem(After(s, step)) && Exclusive(After(s, step)) && LaunchesAreCurrent(After(s, step))
    ensures Quiet(s) && (step.Submit? ==> !InProgress(s.request.state)) ==> Quiet(After(s, step))
  {
    AfterIsWellFormed(s, step);
    ExclusionStep(s, step);
    LaunchesStayCurrent(s, step);
    if Quiet(s) {
      QuietStep(s, step);
    }
  }

  /**
    A submitted job asks for nothing: it is active while an update is prepared or installed, and
    it keeps a waiting request waiting.
   */
  lemma SubmittedJobsIgnoreUpdates(s: System, job: nat)
    requires WellFormedSystem(s) && job !in Active(s)
    ensures Enabled(s, Submit(job)) && Prompt(s, Submit(job)) && Timely(s, Submit(job))
    ensures var t := After(s, Submit(job));
            && t.request == s.request && job in Active(t)
            && (InProgress(s.request.state) ==> !Quiet(t))
            && (s.request.state.Waiting? ==>
                  WellFormedSystem(t) && After(t, Process(None, true)).request.state.Waiting?)
  {
  }

  /** A request is being launched: its driver has left the lock. */
  predicate BeingLaunched(s: System) {
    && WellFormedSystem(s) && s.request.state.Preparing? && s.request.phase == At(PREPARE)
    && s.request.id in s.launching
  }

  lemma LaunchesHappen()
    ensures Separate(Start()) && AtWork(Start()) == {} && Start().request == IdleRequest()
    ensures !Start().polling && Start().launching == Start().installing == Start().noticing == {}
    ensures WellFormedSystem(Start()) && WellFormedSystem(After(Start(), Ask))
    ensures BeingLaunched(After(After(Start(), Ask), Process(None, true)))
  {
    AfterIsWellFormed(Start(), Ask);
    StartsLaunch(After(Start(), Ask));
  }

  lemma StartsLaunch(s: System)
    requires WellFormedSystem(s) && s.request.state.Waiting? && Active(s) == {}
    ensures BeingLaunched(After(s, Process(None, true)))
  {
    AfterIsWellFormed(s, Process(None, true));
  }

  /**
    Without the first condition the exclusion fails: a launch that outlives its request resurrects
    it over an admitted operation.
   */
  lemma LateLaunchOverlaps(s: System, op: nat)
    requires BeingLaunched(s) && op !in Active(s)
    ensures var abandoned := After(s, Recover);
            && WellFormedSystem(abandoned) && Enabled(abandoned, Admit(op))
            && var admitted := After(abandoned, Admit(op));
               && WellFormedSystem(admitted) && Enabled(admitted, Launch(s.request.id, true))
               && var late := After(admitted, Launch(s.request.id, true));
                  late.request.state.Installing? && op in late.admitted
  {
    AfterIsWellFormed(s, Recover);
    var abandoned := After(s, Recover);
    assert abandoned.request.state.Broken? && abandoned.request.id == s.request.id;
    AfterIsWellFormed(abandoned, Admit(op));
    StagesStates(abandoned.request);
  }

  /** A poller may have read the request before its installer was launched. */
  lemma NoticesArePending(s: System)
    requires BeingLaunched(s)
    ensures Enabled(s, Observe) && WellFormedSystem(After(s, Observe))
    ensures var id := s.request.id;
            && Enabled(After(s, Observe), Launch(id, true))
            && var t := After(After(s, Observe), Launch(id, true));
               && WellFormedSystem(t) && t.request.id == id && t.request.state.Installing?
               && id in t.noticing && id !in t.launching && Active(t) == Active(s) && t.detached == s.detached
  {
    AfterIsWellFormed(s, Observe);
    AfterIsWellFormed(After(s, Observe), Launch(s.request.id, true));
    StagesStates(After(s, Observe).request);
  }

  /**
    Without the second condition it fails too, although every finishing branch is prompt:
    another poller concludes the request after the installer has failed, an operation is
    admitted, and the first poller writes the request as running.
   */
  lemma LateNoticeOverlaps(s: System, op: nat)
    requires WellFormedSystem(s) && s.request.state.Installing? && s.request.id in s.noticing
    requires s.request.id !in s.launching && op !in Active(s)
    ensures Enabled(s, Conclude(1)) && Prompt(s, Conclude(1)) && WellFormedSystem(After(s, Conclude(1)))
    ensures var concluded := After(s, Conclude(1));
            && Enabled(concluded, Admit(op)) && WellFormedSystem(After(concluded, Admit(op)))
            && var admitted := After(concluded, Admit(op));
               && Enabled(admitted, Notice(s.request.id))
               && var late := After(admitted, Notice(s.request.id));
                  late.request.state.Installing? && op in late.admitted
  {
    AfterIsWellFormed(s, Conclude(1));
    StagesStates(s.request);
    AfterIsWellFormed(After(s, Conclude(1)), Admit(op));
  }

  /**
    And so it does when the log is applied late: a poller reads a request in progress, another
    one concludes it, an operation is admitted, a new request waits for that operation, and the
    first poller applies an old line of the log to it.
   */
  lemma LateLogOverlaps(s: System, op: nat)
    requires WellFormedSystem(s) && s.request.state.Installing? && s.request.id !in s.launching
    requires op !in Active(s)
    ensures var read := After(s, Observe);
            && Enabled(s, Observe) && WellFormedSystem(read) && Enabled(read, Conclude(0)) && Prompt(read, Conclude(0))
            && var concluded := After(read, Conclude(0));
               && WellFormedSystem(concluded) && Enabled(concluded, Admit(op))
               && var admitted := After(concluded, Admit(op));
                  && WellFormedSystem(admitted)
                  && var asked := After(admitted, Ask);
                     && WellFormedSystem(asked) && asked.request.state.Waiting?
                     && var old_ := Step.Synchronize([Marker(DOWNLOAD_REPOSITORY, Started)]);
                        && Enabled(asked, old_)
                        && After(asked, old_).request.state.Installing? && op in After(asked, old_).admitted
  {
    AfterIsWellFormed(s, Observe);
    var read := After(s, Observe);
    AfterIsWellFormed(read, Conclude(0));
    StagesStates(read.request);
    var concluded := After(read, Conclude(0));
    AfterIsWellFormed(concluded, Admit(op));
    var admitted := After(concluded, Admit(op));
    assert admitted.request.state.Completed?;
    AfterIsWellFormed(admitted, Ask);
    OneStart(After(admitted, Ask).request);
  }

  lemma OneStart(r: Request)
    requires WellFormed(r)
    ensures Synchronized(r, [Marker(DOWNLOAD_REPOSITORY, Started)]).state
         == if Marker(DOWNLOAD_REPOSITORY, Started) in r.processed then r.state else Installing
  {
    var marker := Marker(DOWNLOAD_REPOSITORY, Started);
    assert [marker][1..] == [];
    assert Synchronized(r, [marker]) == Synchronized(Marked(r, marker), []);
  }

  // ---- Waiting ------------------------------------------------------------------

  /** While a request waits, no step adds an admitted operation, and only a submission adds a reported one. */
  lemma WaitingAdmitsNothing(s: System, step: Step)
    requires WellFormedSystem(s) && Enabled(s, step) && s.request.state.Waiting?
    ensures After(s, step).admitted <= s.admitted
    ensures Active(After(s, step)) <= Active(s) <==> !step.Submit?
  {
    if step.Submit? {
      assert step.job in Active(After(s, step));
    }
  }

  /**
    Over any stretch of a run in which requests wait, the admitted operations only shrink; so
    do the reported ones if no job is submitted.
   */
  lemma {:induction false} WaitingOnlyShrinks(states: seq<System>, steps: seq<Step>, i: nat, j: nat)
    requires Run(states, steps) && i <= j < |states|
    requires forall k :: i <= k < j ==> states[k].request.state.Waiting?
    ensures states[j].admitted <= states[i].admitted
    ensures (forall k :: i <= k < j ==> !steps[k].Submit?) ==> Active(states[j]) <= Active(states[i])
    decreases j - i
  {
    if i < j {
      WaitingOnlyShrinks(states, steps, i, j - 1);
      WaitingAdmitsNothing(states[j - 1], steps[j - 1]);
      assert states[j - 1 + 1] == After(states[j - 1], steps[j - 1]);
    }
  }

  /** The driver starts a waiting request exactly when every registry answers and reports nothing. */
  lemma EmptyMeansStart(s: System, reachable: bool)
    requires WellFormedSystem(s) && s.request.state.Waiting?
    ensures var t := After(s, Process(Some(s.request.id), reachable));
            && (t.request.state.Preparing? <==> reachable && Active(s) == {})
            && (t.request.state.Waiting? <==> !reachable || Active(s) != {})
            && (t.request.state.Preparing? ==> t.request.id in t.launching)
  {
  }

  /** The system once these operations have ended, one after the other. */
  function Drained(s: System, ops: seq<nat>): System
    requires WellFormedSystem(s)
    decreases |ops|
  {
    if ops == [] then s else Drained(After(s, Finish(ops[0])), ops[1..])
  }

  lemma {:induction false} DrainedEmpties(s: System, ops: seq<nat>)
    requires WellFormedSystem(s) && forall op :: op in Active(s) ==> op in ops
    ensures Active(Drained(s, ops)) == {} && WellFormedSystem(Drained(s, ops))
    ensures Drained(s, ops).request == s.request
    decreases |ops|
  {
    if ops != [] {
      var t := After(s, Finish(ops[0]));
      forall op | op in Active(t)
        ensures op in ops[1..]
      {
        assert op in ops && op != ops[0];
      }
      DrainedEmpties(t, ops[1..]);
    }
  }

  /** A waiting request can always start: once the operations it waits for have ended, the driver launches it. */
  lemma WaitingCanStart(s: System, ops: seq<nat>)
    requires WellFormedSystem(s) && s.request.state.Waiting? && forall op :: op in Active(s) ==> op in ops
    ensures WellFormedSystem(Drained(s, ops))
    ensures BeingLaunched(After(Drained(s, ops), Process(None, true)))
  {
    DrainedEmpties(s, ops);
    StartsLaunch(Drained(s, ops));
  }

  /** A driver that was started for another request, or finds none that waits, changes nothing. */
  lemma DriverServesItsRequest(s: System, wanted: Option<nat>, reachable: bool)
    requires WellFormedSystem(s)
    ensures (wanted.Some? && wanted.value != s.request.id) || s.request.state != Waiting ==>
              After(s, Process(wanted, reachable)) == s
    ensures wanted in {None, Some(s.request.id)} && s.request.state == Waiting && reachable && Active(s) == {} ==>
              var t := After(s, Process(wanted, reachable));
              t.request.id == s.request.id && t.launching == s.launching + {s.request.id}
  {
  }

  // ---- What is not excluded -----------------------------------------------------

  /** An installer that runs, or is about to, keeps new operations out. */
  predicate Guarded(s: System) {
    s.installing + s.launching != {} ==> Blocking(s.request.state)
  }

  /** Recording an up-to-date system overwrites the request: it is safe exactly when nothing is being installed. */
  lemma UpToDateKeepsGuard(s: System)
    requires WellFormedSystem(s)
    ensures Guarded(After(s, FindUpToDate)) <==> s.installing + s.launching == {}
  {
  }

  /** Otherwise the next operation is admitted beside the running installer. */
  lemma UpToDateLetsOperationsIn(s: System, op: nat)
    requires WellFormedSystem(s) && s.installing != {} && op !in Active(s)
    ensures var t := After(s, FindUpToDate);
            && WellFormedSystem(t) && Enabled(t, Admit(op))
            && op in After(t, Admit(op)).admitted && After(t, Admit(op)).installing == s.installing
  {
  }

  /** When an update starts, the operations still at work are exactly the detached ones. */
  lemma StartLeavesDetached(s: System)
    requires WellFormedSystem(s) && s.request.state.Waiting?
    ensures var t := After(s, Process(None, true));
            t.request.state.Preparing? ==> Active(t) + t.detached == s.detached
  {
  }

  // ---- The driver --------------------------------------------------------------

  /** The persisted request, the registries and the drivers under way, changed in place. */
  class Coordinator {
    var request: Request
    var admitted: set<nat>
    var submitted: set<nat>
    var detached: set<nat>
    var launching: set<nat>
    var installing: set<nat>
    var noticing: set<nat>
    var polling: bool
    var nextId: nat

    ghost function Now(): System
      reads this
    {
      System(request, admitted, submitted, detached, launching, installing, noticing, polling, nextId)
    }

    ghost predicate Valid()
      reads this
    {
      WellFormedSystem(Now())
    }

    constructor ()
      ensures Valid() && Now() == Start()
    {
      request, admitted, submitted, detached := IdleRequest(), {}, {}, {};
      launching, installing := {}, {};
      noticing, polling, nextId := {}, false, 1;
    }

    /** operation_admission: the new operation is registered under the lock, or refused. */
    method AdmitOperation(op: nat) returns (accepted: bool)
      requires Valid() && Enabled(Now(), Admit(op))
      modifies this`admitted, this`detached
      ensures Valid() && Now() == After(old(Now()), Admit(op))
      ensures accepted <==> !Blocking(request.state)
      ensures accepted <==> op in admitted
    {
      accepted := !Blocking(request.state);
      if accepted {
        admitted := admitted + {op};
        detached := detached - {op};
      }
    }

    /** A job is started, retried or released by the job service, which does not ask for admission. */
    method SubmitJob(job: nat)
      requires Valid() && Enabled(Now(), Submit(job))
      modifies this`submitted, this`detached
      ensures Valid() && Now() == After(old(Now()), Submit(job))
    {
      submitted := submitted + {job};
      detached := detached - {job};
    }

    /** The end of an operation, wherever it is registered. */
    method FinishOperation(op: nat)
      requires Valid()
      modifies this`admitted, this`submitted, this`detached
      ensures Valid() && Now() == After(old(Now()), Finish(op))
    {
      admitted := admitted - {op};
      submitted := submitted - {op};
      detached := detached - {op};
    }

    /** An operation leaves its registry, or is cancelled, before its work ends. */
    method DetachOperation(op: nat)
      requires Valid() && op in Active(Now())
      modifies this`admitted, this`submitted, this`detached
      ensures Valid() && Now() == After(old(Now()), Detach(op))
    {
      admitted := admitted - {op};
      submitted := submitted - {op};
      detached := detached + {op};
    }

    /** _transition_update_step. */
    method TransitionStep(step: nat, status: Status)
      requires WellFormed(request) && step < COUNT
      modifies this`request
      ensures request == Transition(old(request), step, status) && WellFormed(request)
    {
      TransitionKeepsWellFormed(request, step, status);
      var steps := request.steps[step := status];
      if status.Running? {
        var state := if request.state.Waiting? && step <= CHECK_OPERATIONS then Waiting else Installing;
        request := request.(state := state, phase := At(step), failedPhase := None);
      } else if status.Failed? {
        request := request.(state := Broken, phase := PhaseFailed, failedPhase := Some(InStep(step)));
      }
      request := request.(steps := steps, progress := Percent(SettledCount(steps)));
    }

    /** The loops that skip what is still pending; the steps are read once, before the loop. */
    method SkipPendingSteps()
      requires WellFormed(request)
      modifies this`request
      ensures WellFormed(request) && request.steps == SkipPending(old(request).steps, 0)
      ensures request == old(request).(steps := request.steps, progress := request.progress)
    {
      var steps := request.steps;
      for i := 0 to COUNT
        invariant WellFormed(request) && request == old(request).(steps := request.steps, progress := request.progress)
        invariant forall k :: 0 <= k < COUNT ==>
            request.steps[k] == if k < i && k != COMPLETE && steps[k].Pending? then Skipped else steps[k]
      {
        if steps[i].Pending? && i != COMPLETE {
          TransitionStep(i, Skipped);
        }
      }
    }

    /** The locked part of _request_update, without recovery: refused while a request is active. */
    method RequestUpdate() returns (accepted: bool)
      requires Valid()
      modifies this`request, this`nextId
      ensures Valid() && Now() == After(old(Now()), Ask)
      ensures accepted <==> !Blocking(old(request).state)
    {
      accepted := !Blocking(request.state);
      if accepted {
        request := Request(nextId, Waiting, PhaseWaiting, None, FreshSteps(), 0, {});
        nextId := nextId + 1;
        TransitionStep(PREPARE, Running);
        TransitionStep(PREPARE, Success);
        TransitionStep(CHECK_OPERATIONS, Running);
      }
    }

    /**
      The locked part of _process_waiting_update; a registry that cannot be reached counts as busy,
      and `started` sends the driver to launch the installer.
     */
    method ProcessWaiting(wanted: Option<nat>, reachable: bool) returns (started: bool)
      requires Valid()
      modifies this`request, this`launching
      ensures Valid() && Now() == After(old(Now()), Process(wanted, reachable))
      ensures started <==> Handles(old(Now()), wanted) && reachable && Active(old(Now())) == {}
    {
      if (wanted.Some? && wanted.value != request.id) || !request.state.Waiting? {
        return false;
      }
      if !reachable || admitted + submitted != {} {
        request := request.(phase := PhaseWaiting);
        return false;
      }
      TransitionStep(CHECK_OPERATIONS, Success);
      request := request.(state := Preparing, phase := At(PREPARE));
      launching := launching + {request.id};
      started := true;
    }

    /** The launch and its bookkeeping, which looks at the identifier of the request and at nothing else. */
    method LaunchInstaller(id: nat, succeeds: bool)
      requires Valid() && id in launching
      modifies this`request, this`launching, this`installing
      ensures Valid() && Now() == After(old(Now()), Launch(id, succeeds))
    {
      launching := launching - {id};
      if succeeds {
        installing := installing + {id};
      }
      if id == request.id {
        if succeeds {
          TransitionStep(CHECK_UPDATE, Success);
          TransitionStep(DOWNLOAD_REPOSITORY, Running);
          request := request.(state := Installing);
        } else {
          TransitionStep(CurrentStep(request), Failed);
          request := request.(failedPhase := Some(InPreparing));
        }
      }
    }

    /** _synchronize_update_steps over the lines of the log that name a step. */
    method SynchronizeSteps(markers: seq<Marker>)
      requires Valid() && polling && KnownMarkers(markers)
      modifies this`request
      ensures Valid() && Now() == After(old(Now()), Step.Synchronize(markers))
    {
      SynchronizedState(request, markers);
      var processed := request.processed;
      for i := 0 to |markers|
        invariant WellFormed(request) && request.processed == old(request).processed
        invariant Synchronized(request.(processed := processed), markers[i..]) == Synchronized(old(request), markers)
      {
        assert markers[i..][0] == markers[i] && markers[i..][1..] == markers[i + 1..];
        if markers[i] !in processed {
          TransitionStep(markers[i].step, StatusOf(markers[i].event));
          processed := processed + {markers[i]};
        }
      }
      request := request.(processed := processed);
    }

    /** The finishing branch of _update_progress once the installer has left its exit code. */
    method ConcludeUpdate(exitCode: int)
      requires Valid() && InProgress(request.state)
      modifies this`request
      ensures Valid() && Now() == After(old(Now()), Conclude(exitCode))
    {
      var current := CurrentStep(request);
      if exitCode == 0 {
        if request.phase.At? && current != COMPLETE {
          TransitionStep(current, Success);
        }
        SkipPendingSteps();
        TransitionStep(COMPLETE, Success);
        request := request.(state := Completed, phase := At(COMPLETE), failedPhase := None);
      } else {
        TransitionStep(current, Failed);
      }
    }

    /** The branch of _update_progress for a request of which nothing was heard for two minutes. */
    method RecoverUpdate()
      requires Valid() && InProgress(request.state)
      modifies this`request
      ensures Valid() && Now() == After(old(Now()), Step.Recover)
    {
      if request.phase == At(RESTART_SERVICES) {
        TransitionStep(RESTART_SERVICES, Success);
        TransitionStep(HEALTH_CHECK, Running);
        TransitionStep(HEALTH_CHECK, Success);
        SkipPendingSteps();
        TransitionStep(COMPLETE, Success);
        request := request.(state := Completed, phase := At(COMPLETE), progress := 100);
      } else {
        var phase := request.phase;
        TransitionStep(CurrentStep(request), Failed);
        if !phase.At? {
          request := request.(failedPhase := Some(InWord(phase)));
        }
      }
    }

    /** _update_progress begins by reading the request without the lock; it acts on that later. */
    method ObserveProgress()
      requires Valid() && InProgress(request.state)
      modifies this`noticing, this`polling
      ensures Valid() && Now() == After(old(Now()), Observe)
    {
      polling := true;
      if request.state.Preparing? {
        noticing := noticing + {request.id};
      }
    }

    /** Later, under the lock, the poller writes it as running; only the identifier is read again. */
    method NoticeRunning(id: nat)
      requires Valid() && id in noticing
      modifies this`request
      ensures Valid() && Now() == After(old(Now()), Notice(id))
    {
      if id == request.id {
        request := request.(state := Installing);
      }
    }

    /** _record_up_to_date: a request of its own, run through all steps at once. */
    method RecordUpToDate()
      requires Valid()
      modifies this`request, this`nextId
      ensures Valid() && Now() == After(old(Now()), FindUpToDate)
    {
      request := Request(nextId, Installing, At(PREPARE), None, FreshSteps(), 0, {});
      nextId := nextId + 1;
      CompleteSteps(CHECK_UPDATE + 1);
      SkipSteps(CHECK_UPDATE + 1, COMPLETE);
      TransitionStep(COMPLETE, Success);
      request := request.(state := Completed, phase := At(COMPLETE), progress := 100);
      assert request.steps == UpToDate(request.id).steps;
    }

    method CompleteSteps(until: nat)
      requires WellFormed(request) && until <= COUNT && request.failedPhase == None
      modifies this`request
      ensures WellFormed(request) && SameRequest(request, old(request)) && |request.steps| == |old(request).steps|
      ensures forall k :: 0 <= k < COUNT ==> request.steps[k] == if k < until then Success else old(request).steps[k]
    {
      for step := 0 to until
        invariant WellFormed(request) && SameRequest(request, old(request))
        invariant forall k :: 0 <= k < COUNT ==> request.steps[k] == if k < step then Success else old(request).steps[k]
      {
        TransitionStep(step, Running);
        TransitionStep(step, Success);
      }
    }

    method SkipSteps(from: nat, until: nat)
      requires WellFormed(request) && from <= until <= COUNT
      modifies this`request
      ensures WellFormed(request) && SameRequest(request, old(request)) && |request.steps| == |old(request).steps|
      ensures forall k :: 0 <= k < COUNT ==>
          request.steps[k] == if from <= k < until then Skipped else old(request).steps[k]
    {
      for step := from to until
        invariant WellFormed(request) && SameRequest(request, old(request))
        invariant forall k :: 0 <= k < COUNT ==>
            request.steps[k] == if from <= k < step then Skipped else old(request).steps[k]
      {
        TransitionStep(step, Skipped);
      }
    }
  }

  predicate SameRequest(a: Request, b: Request) {
    a.id == b.id && a.processed == b.processed && a.failedPhase == b.failedPhase
  }
}
