/**
  The persisted update request and its fourteen steps: backend/app/update_coordination.py and
  the finishing branches of backend/app/settings.py. Times, messages and versions are left out.
 */
module UpdateSteps {
  import opened Wrappers

  datatype Status = Pending | Running | Success | Failed | Skipped

  datatype UpdateState = Idle | Waiting | Preparing | Installing | Completed | Broken

  /** The phase text: a step of the list, or one of three words. */
  datatype Phase = PhaseIdle | PhaseWaiting | PhaseFailed | At(step: nat)

  datatype FailedPhase = InStep(step: nat) | InPreparing | InWord(phase: Phase)

  datatype Event = Started | Ended | Passed

  /** A line of the installer's log that names a step. */
  datatype Marker = Marker(step: nat, event: Event)

  datatype Request = Request(
    id: nat, state: UpdateState, phase: Phase, failedPhase: Option<FailedPhase>, steps: seq<Status>, progress: nat,
    processed: set<Marker>)

  const COUNT := 14
  const PREPARE := 0
  const CHECK_OPERATIONS := 1
  const CHECK_UPDATE := 2
  const DOWNLOAD_REPOSITORY := 3
  const RESTART_SERVICES := 11
  const HEALTH_CHECK := 12
  const COMPLETE := 13

  /** No step has begun. */
  function FreshSteps(): (r: seq<Status>)
    ensures |r| == COUNT && forall i :: 0 <= i < COUNT ==> r[i].Pending?
  {
    seq(COUNT, i => Pending)
  }

  function IdleRequest(): Request {
    Request(0, Idle, PhaseIdle, None, FreshSteps(), 0, {})
  }

  predicate Settled(status: Status) {
    status.Success? || status.Skipped?
  }

  predicate Blocking(state: UpdateState) {
    state.Waiting? || state.Preparing? || state.Installing?
  }

  predicate InProgress(state: UpdateState) {
    state.Preparing? || state.Installing?
  }

  predicate WellFormed(r: Request) {
    |r.steps| == COUNT && r.progress <= 100 && (r.phase.At? ==> r.phase.step < COUNT)
  }

  function SettledCount(steps: seq<Status>): (n: nat)
    ensures n <= |steps|
  {
    if steps == [] then 0 else SettledCount(steps[1..]) + if Settled(steps[0]) then 1 else 0
  }

  /** Python's round of settled * 100 / 14, which is never half way between two integers. */
  function Percent(settled: nat): nat {
    (settled * 100 + COUNT / 2) / COUNT
  }

  lemma {:induction false} AllSettled(steps: seq<Status>)
    ensures SettledCount(steps) == |steps| <==> forall i :: 0 <= i < |steps| ==> Settled(steps[i])
  {
    if steps != [] {
      AllSettled(steps[1..]);
      assert forall i :: 0 <= i < |steps| - 1 ==> steps[1..][i] == steps[i + 1];
      if SettledCount(steps) == |steps| {
        assert Settled(steps[0]);
      }
    }
  }

  // ---- One transition ----------------------------------------------------------

  /** _transition_update_step. Starting one of the first two steps leaves a waiting request waiting. */
  function Transition(r: Request, step: nat, status: Status): Request
    requires WellFormed(r) && step < COUNT
  {
    var steps := r.steps[step := status];
    var moved := match status
      case Running =>
        r.(state := if r.state.Waiting? && step <= CHECK_OPERATIONS then Waiting else Installing,
           phase := At(step), failedPhase := None)
      case Failed => r.(state := Broken, phase := PhaseFailed, failedPhase := Some(InStep(step)))
      case _ => r;
    moved.(steps := steps, progress := Percent(SettledCount(steps)))
  }

  lemma TransitionKeepsWellFormed(r: Request, step: nat, status: Status)
    requires WellFormed(r) && step < COUNT
    ensures WellFormed(Transition(r, step, status))
  {
  }

  /** After a transition the progress is 100 exactly when every step succeeded or was skipped. */
  lemma ProgressIsComplete(r: Request, step: nat, status: Status)
    requires WellFormed(r) && step < COUNT
    ensures var t := Transition(r, step, status);
            t.progress == 100 <==> forall i :: 0 <= i < COUNT ==> Settled(t.steps[i])
  {
    AllSettled(Transition(r, step, status).steps);
  }

  lemma {:induction false} SettledAreCounted(steps: seq<Status>)
    ensures SettledCount(steps) == multiset(steps)[Success] + multiset(steps)[Skipped]
  {
    if steps != [] {
      SettledAreCounted(steps[1..]);
      assert steps == [steps[0]] + steps[1..];
    }
  }

  /**
    A transition sets one step, shows the share of settled steps to the nearest percent, and
    moves the request only when the step starts or fails.
   */
  lemma WhatTransitionsLeave(r: Request, step: nat, status: Status)
    requires WellFormed(r) && step < 14
    ensures var t := Transition(r, step, status);
            && t.steps == r.steps[step := status] && t.id == r.id && t.processed == r.processed
            && (status.Running? ==>
                  && t.phase == At(step) && t.failedPhase == None
                  && t.state == if r.state.Waiting? && step in {0, 1} then Waiting else Installing)
            && (status.Failed? ==> t.state == Broken && t.phase == PhaseFailed && t.failedPhase == Some(InStep(step)))
            && (!status.Running? && !status.Failed? ==>
                  t.state == r.state && t.phase == r.phase && t.failedPhase == r.failedPhase)
            && -7 <= 14 * t.progress - 100 * (multiset(t.steps)[Success] + multiset(t.steps)[Skipped]) <= 7
  {
    SettledAreCounted(Transition(r, step, status).steps);
  }

  /** Pending steps other than the last are skipped. */
  function SkipPending(steps: seq<Status>, from: nat): (r: seq<Status>)
    requires |steps| == COUNT
    ensures |r| == COUNT
    ensures forall i :: 0 <= i < COUNT ==>
        r[i] == if i >= from && i != COMPLETE && steps[i].Pending? then Skipped else steps[i]
  {
    seq(COUNT, i requires 0 <= i < COUNT =>
      if i >= from && i != COMPLETE && steps[i].Pending? then Skipped else steps[i])
  }

  // ---- The life of a request ---------------------------------------------------

  /** _request_update: a waiting request whose first step is done and whose second has begun. */
  function Requested(id: nat): (r: Request)
    ensures WellFormed(r) && r.id == id && r.state.Waiting? && r.phase == At(CHECK_OPERATIONS)
    ensures r.steps[PREPARE].Success? && r.steps[CHECK_OPERATIONS].Running?
    ensures forall i :: CHECK_UPDATE <= i < COUNT ==> r.steps[i].Pending?
  {
    var r := Request(id, Waiting, PhaseWaiting, None, FreshSteps(), 0, {});
    Transition(Transition(Transition(r, PREPARE, Running), PREPARE, Success), CHECK_OPERATIONS, Running)
  }

  /** _process_waiting_update under the lock, by whether operations are active. */
  function Processed(r: Request, blocked: bool): Request
    requires WellFormed(r)
  {
    if blocked then r.(phase := PhaseWaiting)
    else Transition(r, CHECK_OPERATIONS, Success).(state := Preparing, phase := At(PREPARE))
  }

  /** The bookkeeping after the installer was launched. */
  function Launched(r: Request): Request
    requires WellFormed(r)
  {
    Transition(Transition(r, CHECK_UPDATE, Success), DOWNLOAD_REPOSITORY, Running).(state := Installing)
  }

  function CurrentStep(r: Request): (step: nat)
    requires WellFormed(r)
    ensures step < COUNT
  {
    if r.phase.At? then r.phase.step else PREPARE
  }

  /** The bookkeeping after the launch failed. */
  function LaunchFailed(r: Request): Request
    requires WellFormed(r)
  {
    Transition(r, CurrentStep(r), Failed).(failedPhase := Some(InPreparing))
  }

  function StatusOf(event: Event): Status {
    match event
    case Started => Running
    case Ended => Success
    case Passed => Skipped
  }

  predicate KnownMarkers(markers: seq<Marker>) {
    forall marker :: marker in markers ==> marker.step < COUNT
  }

  /** _synchronize_update_steps: every marker counts once, however often its line is read. */
  function Synchronized(r: Request, markers: seq<Marker>): Request
    requires WellFormed(r) && KnownMarkers(markers)
    decreases |markers|
  {
    if markers == [] then r
    else Synchronized(Marked(r, markers[0]), markers[1..])
  }

  function Marked(r: Request, marker: Marker): (t: Request)
    requires WellFormed(r) && marker.step < COUNT
    ensures WellFormed(t)
  {
    if marker in r.processed then r
    else Transition(r, marker.step, StatusOf(marker.event)).(processed := r.processed + {marker})
  }

  /** The finishing branch for an installer that reported its exit code. */
  function Finished(r: Request, exitCode: int): Request
    requires WellFormed(r)
  {
    if exitCode == 0 then
      var current := if r.phase.At? && r.phase.step != COMPLETE then Transition(r, r.phase.step, Success) else r;
      Transition(current.(steps := SkipPending(current.steps, 0)), COMPLETE, Success)
        .(state := Completed, phase := At(COMPLETE), failedPhase := None)
    else Transition(r, CurrentStep(r), Failed)
  }

  /** The finishing branch for a request that was interrupted, by default during the restart. */
  function Recovered(r: Request): Request
    requires WellFormed(r)
  {
    if r.phase == At(RESTART_SERVICES) then
      var healthy := Transition(Transition(Transition(r, RESTART_SERVICES, Success), HEALTH_CHECK, Running),
                                HEALTH_CHECK, Success);
      Transition(healthy.(steps := SkipPending(healthy.steps, 0)), COMPLETE, Success)
        .(state := Completed, phase := At(COMPLETE), progress := 100)
    else
      var failed := Transition(r, CurrentStep(r), Failed);
      if r.phase.At? then failed else failed.(failedPhase := Some(InWord(r.phase)))
  }

  /** _record_up_to_date, which starts a request of its own whatever the current one is. */
  function UpToDate(id: nat): Request {
    Request(id, Completed, At(COMPLETE), None,
            seq(COUNT, i => if i <= CHECK_UPDATE || i == COMPLETE then Success else Skipped), 100, {})
  }

  // ---- What the steps add up to ------------------------------------------------

  lemma StagesAreWellFormed(r: Request, exitCode: int)
    requires WellFormed(r)
    ensures WellFormed(Processed(r, true)) && WellFormed(Processed(r, false)) && WellFormed(Launched(r))
    ensures WellFormed(LaunchFailed(r)) && WellFormed(Finished(r, exitCode)) && WellFormed(Recovered(r))
  {
  }

  /** A new request waits with its first step done and its second under way. */
  lemma WhatRequestLeaves(id: nat)
    ensures IdleRequest().state == Idle && IdleRequest().phase == PhaseIdle && IdleRequest().progress == 0
    ensures IdleRequest().processed == {} && IdleRequest().failedPhase == None
    ensures var r := Requested(id);
            && r.steps[0] == Success && r.steps[1] == Running && (forall i :: 2 <= i < 14 ==> r.steps[i] == Pending)
            && r.state == Waiting && r.phase == At(1) && r.failedPhase == None && r.processed == {}
  {
    WhatTransitionsLeave(Request(id, Waiting, PhaseWaiting, None, FreshSteps(), 0, {}), 0, Running);
  }

  /** The driver and the launch: which steps they settle and start, and where the request is then. */
  lemma WhatStagesLeave(r: Request)
    requires WellFormed(r)
    ensures var t := Processed(r, true);
            t.steps == r.steps && t.state == r.state && t.phase == PhaseWaiting && t.progress == r.progress
    ensures var t := Processed(r, false);
            t.steps == r.steps[1 := Success] && t.state == Preparing && t.phase == At(0)
            && t.failedPhase == r.failedPhase
    ensures var t := Launched(r);
            t.steps == r.steps[2 := Success][3 := Running] && t.state == Installing && t.phase == At(3)
            && t.failedPhase == None
    ensures var t := LaunchFailed(r);
            && t.state == Broken && t.phase == PhaseFailed && t.failedPhase == Some(InPreparing)
            && t.steps == r.steps[if r.phase.At? then r.phase.step else 0 := Failed]
    ensures forall t :: t in {Processed(r, true), Processed(r, false), Launched(r), LaunchFailed(r)} ==>
              t.id == r.id && t.processed == r.processed
  {
    StagesAreWellFormed(r, 0);
  }

  /** The two endings: what was under way is settled, what was never begun is skipped. */
  lemma WhatEndingsLeave(r: Request, i: nat)
    requires WellFormed(r) && i < 14
    ensures var t := Finished(r, 0);
            && t.state == Completed && t.phase == At(13) && t.failedPhase == None
            && t.steps[i] == if i == 13 || r.phase == At(i) then Success
                             else if r.steps[i] == Pending then Skipped else r.steps[i]
    ensures r.phase == At(11) ==>
            var t := Recovered(r);
            && t.state == Completed && t.phase == At(13) && t.failedPhase == None && t.progress == 100
            && t.steps[i] == if i in {11, 12, 13} then Success
                             else if r.steps[i] == Pending then Skipped else r.steps[i]
    ensures r.phase != At(11) ==>
            var t := Recovered(r);
            && t.state == Broken && t.phase == PhaseFailed
            && t.failedPhase == Some(if r.phase.At? then InStep(r.phase.step) else InWord(r.phase))
            && t.steps[i] == if i == (if r.phase.At? then r.phase.step else 0) then Failed else r.steps[i]
  {
  }

  /** A system that is up to date: three steps checked, the rest skipped, and done. */
  lemma WhatUpToDateLeaves(id: nat)
    ensures var t := UpToDate(id);
            && t.id == id && t.state == Completed && t.phase == At(13) && t.failedPhase == None && t.progress == 100
            && t.steps == [Success, Success, Success] + seq(10, i => Skipped) + [Success] && t.processed == {}
  {
  }

  /**
    A marker that has not counted yet and puts the request in progress: any start, but for the
    first two steps of a waiting request.
   */
  predicate Starts(r: Request, marker: Marker) {
    marker.event.Started? && marker !in r.processed && !(r.state.Waiting? && marker.step <= CHECK_OPERATIONS)
  }

  /**
    Reading the log remembers every marker, and leaves a request in progress exactly when it
    was, or some marker starts a step. It looks at no state: even a concluded request starts.
   */
  lemma {:induction false} SynchronizedState(r: Request, markers: seq<Marker>)
    requires WellFormed(r) && KnownMarkers(markers)
    ensures WellFormed(Synchronized(r, markers)) && Synchronized(r, markers).id == r.id
    ensures forall marker ::
              marker in Synchronized(r, markers).processed <==> marker in r.processed || marker in markers
    ensures InProgress(Synchronized(r, markers).state) <==>
              InProgress(r.state) || exists i :: 0 <= i < |markers| && Starts(r, markers[i])
    decreases |markers|
  {
    if markers != [] {
      var t := Marked(r, markers[0]);
      var rest := markers[1..];
      SynchronizedState(t, rest);
      assert forall marker :: marker in markers <==> marker == markers[0] || marker in rest;
      assert forall i :: 0 <= i < |rest| ==> rest[i] == markers[i + 1];
      assert InProgress(t.state) <==> InProgress(r.state) || Starts(r, markers[0]);
      if !InProgress(t.state) {
        assert forall marker :: marker != markers[0] ==> (Starts(t, marker) <==> Starts(r, marker));
        forall i | 0 <= i < |rest| && Starts(t, rest[i])
          ensures Starts(r, markers[i + 1])
        {
        }
        forall i | 0 < i < |markers| && Starts(r, markers[i])
          ensures Starts(t, rest[i - 1])
        {
        }
      }
    }
  }

  lemma {:induction false} ProcessedMarkersAreIgnored(r: Request, markers: seq<Marker>)
    requires WellFormed(r) && KnownMarkers(markers) && forall marker :: marker in markers ==> marker in r.processed
    ensures Synchronized(r, markers) == r
    decreases |markers|
  {
    if markers != [] {
      assert markers[0] in markers;
      ProcessedMarkersAreIgnored(r, markers[1..]);
    }
  }

  lemma {:induction false} SynchronizingInParts(r: Request, first: seq<Marker>, second: seq<Marker>)
    requires WellFormed(r) && KnownMarkers(first) && KnownMarkers(second) && KnownMarkers(first + second)
    requires WellFormed(Synchronized(r, first))
    ensures Synchronized(r, first + second) == Synchronized(Synchronized(r, first), second)
    decreases |first|
  {
    if first == [] {
      assert first + second == second;
    } else {
      assert (first + second)[1..] == first[1..] + second;
      assert KnownMarkers(first[1..] + second);
      SynchronizingInParts(Marked(r, first[0]), first[1..], second);
    }
  }

  /** Polling reads the log from its start again; only what is new since the last poll takes effect. */
  lemma ReadingTheLogAgain(r: Request, seen: seq<Marker>, more: seq<Marker>)
    requires WellFormed(r) && KnownMarkers(seen) && KnownMarkers(more) && KnownMarkers(seen + more)
    ensures WellFormed(Synchronized(r, seen))
    ensures Synchronized(Synchronized(r, seen), seen + more) == Synchronized(r, seen + more)
  {
    SynchronizedState(r, seen);
    var s := Synchronized(r, seen);
    ProcessedMarkersAreIgnored(s, seen);
    SynchronizingInParts(s, seen, more);
    SynchronizingInParts(r, seen, more);
  }

  /** The i-th marker of a reading counts: it was not seen before, in this reading or an earlier one. */
  predicate Counts(r: Request, markers: seq<Marker>, i: nat)
    requires i < |markers|
  {
    markers[i] !in r.processed && markers[i] !in markers[..i]
  }

  /** The last marker that counts and is of this kind. */
  ghost predicate LastOf(r: Request, markers: seq<Marker>, i: nat, kind: Marker -> bool) {
    && i < |markers| && Counts(r, markers, i) && kind(markers[i])
    && forall j :: i < j < |markers| && Counts(r, markers, j) ==> !kind(markers[j])
  }

  ghost predicate NoneOf(r: Request, markers: seq<Marker>, kind: Marker -> bool) {
    forall i :: 0 <= i < |markers| && Counts(r, markers, i) ==> !kind(markers[i])
  }

  lemma LastOfRest(r: Request, markers: seq<Marker>, i: nat, kind: Marker -> bool)
    requires WellFormed(r) && KnownMarkers(markers) && markers != []
    ensures i > 0 ==> (LastOf(r, markers, i, kind) <==> LastOf(Marked(r, markers[0]), markers[1..], i - 1, kind))
    ensures LastOf(r, markers, 0, kind) <==>
              Counts(r, markers, 0) && kind(markers[0]) && NoneOf(Marked(r, markers[0]), markers[1..], kind)
    ensures NoneOf(r, markers, kind) <==>
              (Counts(r, markers, 0) ==> !kind(markers[0])) && NoneOf(Marked(r, markers[0]), markers[1..], kind)
  {
    var t, rest := Marked(r, markers[0]), markers[1..];
    forall j | 0 < j < |markers|
      ensures Counts(t, rest, j - 1) <==> Counts(r, markers, j)
      ensures rest[j - 1] == markers[j]
    {
      CountsLater(r, markers, j);
    }
    assert forall j :: 0 <= j < |rest| ==>
                    (Counts(t, rest, j) <==> Counts(r, markers, j + 1)) && rest[j] == markers[j + 1];
  }

  lemma CountsLater(r: Request, markers: seq<Marker>, i: nat)
    requires WellFormed(r) && KnownMarkers(markers) && 0 < i < |markers|
    ensures Counts(Marked(r, markers[0]), markers[1..], i - 1) <==> Counts(r, markers, i)
  {
    assert markers[..i] == [markers[0]] + markers[1..][..i - 1];
  }

  function OfStep(step: nat): Marker -> bool {
    (marker: Marker) => marker.step == step
  }

  function IsStart(): Marker -> bool {
    (marker: Marker) => marker.event.Started?
  }

  /** Without a line that counts a step, and without a start the phase and the state, stay as they were. */
  lemma {:induction false} KeptWithoutLine(r: Request, markers: seq<Marker>, step: nat)
    requires WellFormed(r) && KnownMarkers(markers) && step < COUNT
    ensures WellFormed(Synchronized(r, markers))
    ensures NoneOf(r, markers, OfStep(step)) ==> Synchronized(r, markers).steps[step] == r.steps[step]
    ensures NoneOf(r, markers, IsStart()) ==>
              var t := Synchronized(r, markers);
              t.phase == r.phase && t.failedPhase == r.failedPhase && t.state == r.state
    decreases |markers|
  {
    if markers != [] {
      LastOfRest(r, markers, 0, OfStep(step));
      LastOfRest(r, markers, 0, IsStart());
      KeptWithoutLine(Marked(r, markers[0]), markers[1..], step);
    }
  }

  /**
    After the log has been read a step shows its last line that counted: started, completed or
    skipped. A step without such a line shows what it showed before (KeptWithoutLine).
   */
  lemma {:induction false} StepShowsLastLine(r: Request, markers: seq<Marker>, step: nat, i: nat)
    requires WellFormed(r) && KnownMarkers(markers) && step < COUNT && LastOf(r, markers, i, OfStep(step))
    ensures WellFormed(Synchronized(r, markers))
    ensures Synchronized(r, markers).steps[step] ==
              match markers[i].event case Started => Running case Ended => Success case Passed => Skipped
    decreases |markers|
  {
    LastOfRest(r, markers, i, OfStep(step));
    if i == 0 {
      KeptWithoutLine(Marked(r, markers[0]), markers[1..], step);
    } else {
      StepShowsLastLine(Marked(r, markers[0]), markers[1..], step, i - 1);
    }
  }

  /** The phase is the step that the last counted start names, and that start forgets an earlier failure. */
  lemma {:induction false} PhaseIsLastStart(r: Request, markers: seq<Marker>, i: nat)
    requires WellFormed(r) && KnownMarkers(markers) && LastOf(r, markers, i, IsStart())
    ensures Synchronized(r, markers).phase == At(markers[i].step) && Synchronized(r, markers).failedPhase == None
    decreases |markers|
  {
    LastOfRest(r, markers, i, IsStart());
    if i == 0 {
      KeptWithoutLine(Marked(r, markers[0]), markers[1..], 0);
    } else {
      PhaseIsLastStart(Marked(r, markers[0]), markers[1..], i - 1);
    }
  }

  /** A successful installation settles every step exactly when none but the current one was left running or failed. */
  lemma FinishedProgress(r: Request)
    requires WellFormed(r)
    ensures var t := Finished(r, 0);
            && t.state.Completed? && t.phase == At(COMPLETE) && t.steps[COMPLETE].Success?
            && (t.progress == 100 <==>
                  forall i :: 0 <= i < COMPLETE && (r.steps[i].Running? || r.steps[i].Failed?) ==> r.phase == At(i))
  {
    var current := if r.phase.At? && r.phase.step != COMPLETE then Transition(r, r.phase.step, Success) else r;
    var skipped := current.(steps := SkipPending(current.steps, 0));
    ProgressIsComplete(skipped, COMPLETE, Success);
    var t := Finished(r, 0);
    assert t.progress == Transition(skipped, COMPLETE, Success).progress;
    forall i | 0 <= i < COMPLETE
      ensures Settled(t.steps[i]) <==> (r.steps[i].Running? || r.steps[i].Failed? ==> r.phase == At(i))
    {
      assert t.steps[i] == skipped.steps[i];
    }
    assert Settled(t.steps[COMPLETE]);
  }

  /** A failed installation fails the step that was under way, changes no other, and does not show 100. */
  lemma FinishedFailure(r: Request, exitCode: int)
    requires WellFormed(r) && exitCode != 0
    ensures var t := Finished(r, exitCode);
            && t.state.Broken? && t.failedPhase == Some(InStep(CurrentStep(r)))
            && t.steps[CurrentStep(r)].Failed? && t.progress != 100
            && forall i :: 0 <= i < COUNT && i != CurrentStep(r) ==> t.steps[i] == r.steps[i]
  {
    ProgressIsComplete(r, CurrentStep(r), Failed);
  }

  /** The progress shown after a recovered restart is 100 even when some step was never settled. */
  lemma RecoveredProgress(r: Request)
    requires WellFormed(r) && r.phase == At(RESTART_SERVICES)
    ensures var t := Recovered(r);
            && t.state.Completed? && t.progress == 100
            && ((forall i :: 0 <= i < COUNT ==> Settled(t.steps[i])) <==>
                  forall i :: 0 <= i < RESTART_SERVICES ==> !r.steps[i].Running? && !r.steps[i].Failed?)
  {
    var t := Recovered(r);
    forall i | 0 <= i < RESTART_SERVICES
      ensures Settled(t.steps[i]) <==> !r.steps[i].Running? && !r.steps[i].Failed?
    {
    }
    assert Settled(t.steps[RESTART_SERVICES]) && Settled(t.steps[HEALTH_CHECK]) && Settled(t.steps[COMPLETE]);
  }
}
