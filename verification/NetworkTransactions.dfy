/**
  Plan, snapshot, apply, confirm or roll back: backend/app/network_management.py. Each method
  is one step under the operation locks; confirm and rollback are atomic. Any write of a
  configuration file, command or timer call may fail; the manager's own records are written.
  The ghost field `origin` holds the configuration files as each transaction found them.
 */
module NetworkTransactions {
  import opened Wrappers
  import opened ManagedNetwork
  import opened NetworkFiles

  datatype Plan = Plan(
    actor: string, expiresAt: real, provider: Provider, change: Change, before: Managed, after: Managed,
    phrase: string, rollbackSupported: bool)

  datatype Phase = Pending | Confirmed | RolledBack | Failed

  datatype Transaction = Transaction(
    id: string, phase: Phase, actor: string, provider: Provider, deadline: real, planId: string)

  /** What a rollback returns to: the plan's `before` and the captured files. */
  datatype Snapshot = Snapshot(managed: Managed, files: map<string, Option<string>>)

  datatype Error =
    | ReadOnlyProvider | Refused | Busy | MissingPlan | WrongPhrase | Unsupported | NoTimer
    | WriteFailed | CommandFailed | RollbackFailed | NotFound | NotPending | Expired

  datatype State = State(
    managed: Managed, files: Files, plans: map<string, Plan>, snapshots: map<string, Snapshot>,
    records: map<string, Transaction>, active: Option<Transaction>, origin: map<string, Files>)

  const PLAN_LIFETIME := 600.0

  // ---- Invariants --------------------------------------------------------------

  /** Everything outside the captured files is as the transaction found it. */
  ghost predicate Recoverable(st: State, id: string) {
    && id in st.snapshots && id in st.origin
    && st.snapshots[id].files == Captured(st.origin[id], st.snapshots[id].files.Keys)
    && SameOutside(st.files, st.origin[id], st.snapshots[id].files.Keys)
  }

  ghost predicate Sound(st: State) {
    && st.records.Keys == st.snapshots.Keys
    && (st.active.Some? ==>
          && st.active.value.phase.Pending? && st.active.value.id in st.records
          && st.records[st.active.value.id] == st.active.value
          && Recoverable(st, st.active.value.id))
  }

  /** No transaction but the active one awaits confirmation. */
  ghost predicate Exclusive(st: State) {
    forall id :: id in st.records && st.records[id].phase.Pending? ==> st.active.Some? && st.active.value.id == id
  }

  // ---- Steps -------------------------------------------------------------------

  function Recorded(st: State, id: string, phase: Phase): State
    requires id in st.records
  {
    st.(records := st.records[id := st.records[id].(phase := phase)],
        active := if phase.Pending? then Some(st.records[id].(phase := phase)) else None)
  }

  function Begun(st: State, tx: Transaction, snapshot: Snapshot): State {
    st.(snapshots := st.snapshots[tx.id := snapshot], records := st.records[tx.id := tx],
        active := Some(tx), origin := st.origin[tx.id := st.files])
  }

  /** A complete rollback: captured files, then the managed state, then the record. */
  function Undone(st: State, id: string): State
    requires id in st.records && id in st.snapshots
  {
    var restored := st.(files := Overlaid(st.files, st.snapshots[id].files), managed := st.snapshots[id].managed);
    Recorded(restored, id, RolledBack)
  }

  /** A rollback that failed on its way: only captured files were touched. */
  ghost predicate HalfUndone(was: State, st: State, id: string)
    requires id in was.records && id in was.snapshots
  {
    && st == Recorded(was.(files := st.files, managed := st.managed), id, Failed)
    && SameOutside(st.files, was.files, was.snapshots[id].files.Keys)
    && (st.managed == was.managed || st.managed == was.snapshots[id].managed)
  }

  lemma BegunKeepsSound(st: State, tx: Transaction, snapshot: Snapshot, paths: set<string>)
    requires Sound(st) && tx.phase.Pending? && tx.id !in st.records
    requires snapshot.files == Captured(st.files, paths)
    ensures Sound(Begun(st, tx, snapshot))
    ensures st.active == None && Exclusive(st) ==> Exclusive(Begun(st, tx, snapshot))
  {
    assert snapshot.files.Keys == paths;
  }

  lemma WritingKeepsSound(st: State, files: Files)
    requires Sound(st) && st.active.Some?
    requires SameOutside(files, st.files, st.snapshots[st.active.value.id].files.Keys)
    ensures Sound(st.(files := files))
  {
    var id := st.active.value.id;
    var keys := st.snapshots[id].files.Keys;
    forall path | path !in keys
      ensures Lookup(files, path) == Lookup(st.origin[id], path)
    {
      assert Lookup(files, path) == Lookup(st.files, path);
    }
  }

  lemma RecordingKeepsSound(st: State, id: string, phase: Phase)
    requires Sound(st) && id in st.records && !phase.Pending?
    ensures Sound(Recorded(st, id, phase))
    ensures Exclusive(st) && (st.active == None || st.active.value.id == id) ==> Exclusive(Recorded(st, id, phase))
  {
  }

  lemma EndingKeepsSound(st: State, id: string, files: Files, managed: Managed, phase: Phase)
    requires Sound(st) && id in st.records && !phase.Pending?
    ensures var ended := Recorded(st.(files := files, managed := managed), id, phase);
            && Sound(ended)
            && (Exclusive(st) && (st.active == None || st.active.value.id == id) ==> Exclusive(ended))
  {
  }

  /** Rolling back while another transaction is pending leaves that one without its active record. */
  lemma RollbackOfAnotherOrphans(st: State, id: string, phase: Phase)
    requires Sound(st) && id in st.records && !phase.Pending? && st.active.Some? && st.active.value.id != id
    ensures !Exclusive(Recorded(st, id, phase))
  {
    var other := st.active.value.id;
    assert other in Recorded(st, id, phase).records;
  }

  /** Rolling back the active transaction gives back every file as it was read, and the plan's `before`. */
  lemma UndoneGivesBack(st: State)
    requires Sound(st) && st.active.Some?
    ensures var id := st.active.value.id;
            && Undone(st, id).files == AsRead(st.origin[id], st.snapshots[id].files.Keys)
            && Undone(st, id).managed == st.snapshots[id].managed
  {
    var id := st.active.value.id;
    RestoreGivesBack(st.files, st.origin[id], st.snapshots[id].files.Keys);
  }

  // ---- The manager -------------------------------------------------------------

  class Manager {
    const renderer: Renderer
    var managed: Managed
    var files: Files
    var plans: map<string, Plan>
    var snapshots: map<string, Snapshot>
    var records: map<string, Transaction>
    var active: Option<Transaction>
    ghost var origin: map<string, Files>
    ghost var failures: nat         // how many writes, commands and live checks have failed
    ghost var timers: set<string>   // transactions whose rollback timer is running
    ghost var commanded: set<string>  // transactions whose commands have all succeeded
    ghost var persisted: set<string>  // transactions that have enabled the restore unit

    ghost function Now(): State
      reads this`managed, this`files, this`plans, this`snapshots, this`records, this`active, this`origin
    {
      State(managed, files, plans, snapshots, records, active, origin)
    }

    ghost predicate Valid()
      reads this`managed, this`files, this`plans, this`snapshots, this`records, this`active, this`origin
    {
      Sound(Now())
    }

    constructor (renderer: Renderer, files: Files)
      ensures Valid() && Exclusive(Now())
      ensures Now() == State(NOTHING_MANAGED, files, map[], map[], map[], None, map[]) && this.renderer == renderer
    {
      this.renderer := renderer;
      this.files := files;
      managed := NOTHING_MANAGED;
      plans, snapshots, records, active, origin := map[], map[], map[], None, map[];
    }

    /** Something outside the manager that may fail. */
    method Attempt() returns (ok: bool)
      modifies this`failures
      ensures failures == old(failures) + if ok then 0 else 1
    {
      ok := *;
      if !ok {
        failures := failures + 1;
      }
    }

    /** _schedule_rollback. */
    method Schedule(id: string) returns (ok: bool)
      modifies this`failures, this`timers
      ensures timers == if ok then old(timers) + {id} else old(timers)
      ensures failures == old(failures) + if ok then 0 else 1
    {
      ok := Attempt();
      if ok {
        timers := timers + {id};
      }
    }

    /** _cancel_rollback_timer, whose commands may fail unnoticed. */
    method CancelTimer(id: string)
      modifies this`timers
      ensures timers == old(timers) - {id}
    {
      timers := timers - {id};
    }

    /** The provider's and the generic commands of a change; the first that fails ends them. */
    method RunCommands(id: string) returns (ok: bool)
      modifies this`failures, this`commanded
      ensures commanded == if ok then old(commanded) + {id} else old(commanded)
      ensures failures == old(failures) + if ok then 0 else 1
    {
      ok := Attempt();
      if ok {
        commanded := commanded + {id};
      }
    }

    /** systemctl daemon-reload and enable for the restore unit. */
    method EnableRestoreUnit(id: string) returns (ok: bool)
      modifies this`failures, this`persisted
      ensures persisted == if ok then old(persisted) + {id} else old(persisted)
      ensures failures == old(failures) + if ok then 0 else 1
    {
      ok := Attempt();
      if ok {
        persisted := persisted + {id};
      }
    }

    /** build_plan: `id` is fresh; refusals that depend on the live system are a free choice. */
    method BuildPlan(change: Change, actor: string, provider: Provider, phrase: string, supported: bool, now: real,
                     id: string)
      returns (r: Result<Plan, Error>)
      requires Valid() && id !in plans
      modifies this
      ensures Valid()
      ensures r.Ok? ==>
          && Admitted(change, old(managed)) && (provider.ReadOnly? ==> Generic(change))
          && r.value == Plan(actor, now + 600.0, provider, change, old(managed), Applied(old(managed), change),
                             phrase, supported)
          && Now() == old(Now()).(plans := old(plans)[id := r.value])
      ensures r.Ok? ==> Next(old(Now()), Planning(id, r.value), Now(), renderer)
      ensures r.Err? ==> Now() == old(Now())
      ensures r.Err? ==> r.error == if provider.ReadOnly? && !Generic(change) then ReadOnlyProvider else Refused
      ensures failures == old(failures) && Admitted(change, old(managed)) ==>
          r.Ok? || (provider.ReadOnly? && !Generic(change))
    {
      if provider.ReadOnly? && !Generic(change) {
        return Err(ReadOnlyProvider);
      }
      if !Admitted(change, managed) {
        return Err(Refused);
      }
      var accepted := Attempt();
      if !accepted {
        return Err(Refused);
      }
      var after := Applied(managed, change);
      var plan := Plan(actor, now + PLAN_LIFETIME, provider, change, managed, after, phrase, supported);
      plans := plans[id := plan];
      r := Ok(plan);
    }

    /** Files are written in some order; a write may fail and may then have left anything in its file. */
    method WriteFiles(writes: map<string, Option<string>>) returns (ok: bool)
      modifies this`files, this`failures
      ensures SameOutside(files, old(files), writes.Keys)
      ensures ok ==> files == Overlaid(old(files), writes)
      ensures failures == old(failures) + if ok then 0 else 1
    {
      var left := writes.Keys;
      ghost var done: map<string, Option<string>> := map[];
      assert Overlaid(files, done) == files;
      ok := true;
      while left != {}
        invariant left <= writes.Keys && done.Keys == writes.Keys - left
        invariant forall path :: path in done ==> done[path] == writes[path]
        invariant files == Overlaid(old(files), done) && failures == old(failures)
        decreases left
      {
        var path :| path in left;
        var written := Attempt();
        var content := writes[path];
        if !written {
          content := *;
        }
        OverlaidTwice(old(files), done, map[path := content]);
        files := Overlaid(files, map[path := content]);
        done := done + map[path := content];
        left := left - {path};
        if !written {
          OverlaidSameOutside(old(files), done, writes.Keys);
          return false;
        }
      }
      assert done == writes;
      OverlaidSameOutside(old(files), done, writes.Keys);
    }

    /** The record of a transaction and the active record, which only a pending one has. */
    method Record(id: string, phase: Phase)
      requires id in records
      modifies this`records, this`active
      ensures Now() == Recorded(old(Now()), id, phase)
    {
      var tx := records[id].(phase := phase);
      records := records[id := tx];
      active := if phase.Pending? then Some(tx) else None;
    }

    /**
      rollback_transaction: by the timer (`automatic`), by a user, or by a failing apply. A
      confirmed transaction is rolled back by a user only, a rolled back one never again.
     */
    method RollbackTransaction(id: string, automatic: bool) returns (r: Result<Transaction, Error>)
      requires Valid()
      modifies this`files, this`managed, this`records, this`active, this`failures, this`timers
      ensures Valid()
      ensures id !in old(records) ==> r == Err(NotFound) && Now() == old(Now())
      ensures id in old(records) && SkipsRollback(old(records)[id], automatic) ==>
          r == Ok(old(records)[id]) && Now() == old(Now())
      ensures id in old(records) && !SkipsRollback(old(records)[id], automatic) ==>
          && (r.Ok? ==> Next(old(Now()), RollingBack(id), Now(), renderer) && r.value == records[id])
          && (r.Err? ==> r.error == RollbackFailed && Next(old(Now()), FailingRollback(id), Now(), renderer))
      ensures failures == old(failures) + if r == Err(RollbackFailed) then 1 else 0
      ensures timers == if automatic || id !in old(records) || SkipsRollback(old(records)[id], automatic)
                        then old(timers) else old(timers) - {id}
      ensures Exclusive(old(Now())) && (old(active) == None || old(active).value.id == id) ==> Exclusive(Now())
    {
      if id !in records {
        return Err(NotFound);
      }
      if SkipsRollback(records[id], automatic) {
        return Ok(records[id]);
      }
      if !automatic {
        CancelTimer(id);
      }
      var ok := RestoreSnapshot(id);
      r := if ok then Ok(records[id]) else Err(RollbackFailed);
    }

    /** _rollback_transaction from the restoring of files on, and the record of how it ended. */
    method RestoreSnapshot(id: string) returns (ok: bool)
      requires Valid() && id in records && id in snapshots
      modifies this`files, this`managed, this`records, this`active, this`failures
      ensures Valid()
      ensures if ok then Now() == Undone(old(Now()), id) else HalfUndone(old(Now()), Now(), id)
      ensures Exclusive(old(Now())) && (old(active) == None || old(active).value.id == id) ==> Exclusive(Now())
      ensures failures == old(failures) + if ok then 0 else 1
    {
      ghost var was := Now();
      ok := WriteFiles(snapshots[id].files);
      if ok {
        ok := Attempt();
      }
      if ok {
        managed := snapshots[id].managed;
        ok := Attempt();
      }
      EndingKeepsSound(was, id, files, managed, if ok then RolledBack else Failed);
      Record(id, if ok then RolledBack else Failed);
    }

    /** confirm_transaction: only the active transaction, and only before its deadline. */
    method ConfirmTransaction(id: string, now: real) returns (r: Result<Transaction, Error>)
      requires Valid()
      modifies this`records, this`active, this`timers
      ensures Valid() && (Exclusive(old(Now())) ==> Exclusive(Now()))
      ensures id in old(records) && old(records)[id].phase.Confirmed? ==>
                r == Ok(old(records)[id]) && Now() == old(Now())
      ensures !(id in old(records) && old(records)[id].phase.Confirmed?) ==>
          if old(active) == None || old(active).value.id != id then r == Err(NotPending) && Now() == old(Now())
          else if now >= old(active).value.deadline then r == Err(Expired) && Now() == old(Now())
          else Next(old(Now()), Confirming(id), Now(), renderer) && r == Ok(records[id])
      ensures timers == if Now() == old(Now()) then old(timers) else old(timers) - {id}
    {
      if id in records && records[id].phase.Confirmed? {
        return Ok(records[id]);
      }
      if active == None || active.value.id != id {
        return Err(NotPending);
      }
      if now >= active.value.deadline {
        return Err(Expired);
      }
      RecordingKeepsSound(Now(), id, Confirmed);
      Record(id, Confirmed);
      CancelTimer(id);
      r := Ok(records[id]);
    }

    /** The checks of apply_plan before anything is stored. */
    method CheckPlan(planId: string, actor: string, phrase: string, now: real) returns (r: Result<Plan, Error>)
      ensures r.Ok? <==> Applicable(Now(), planId, actor, phrase, now)
      ensures r == Err(Busy) <==> active.Some?
      ensures r == Err(MissingPlan) <==>
          active == None
          && !(planId in plans && plans[planId].actor == actor && now <= plans[planId].expiresAt)
      ensures r.Err? && r.error !in {Busy, MissingPlan} ==>
          r.error == if plans[planId].phrase !in {"", phrase} then WrongPhrase else Unsupported
      ensures r.Ok? ==> r.value == plans[planId]
    {
      if active.Some? {
        return Err(Busy);
      }
      if planId !in plans || plans[planId].actor != actor || plans[planId].expiresAt < now {
        return Err(MissingPlan);
      }
      if plans[planId].phrase != "" && plans[planId].phrase != phrase {
        return Err(WrongPhrase);
      }
      if !plans[planId].rollbackSupported {
        return Err(Unsupported);
      }
      r := Ok(plans[planId]);
    }

    /** The snapshot and the pending record are stored before anything is written. */
    method Begin(plan: Plan, planId: string, id: string, deadline: real, extra: set<string>)
      requires Valid() && active == None && id !in records
      modifies this`snapshots, this`records, this`active, this`origin
      ensures Valid() && (Exclusive(old(Now())) ==> Exclusive(Now()))
      ensures Now() == BegunFrom(old(Now()), plan, planId, id, deadline, extra)
    {
      var tx := Transaction(id, Pending, plan.actor, plan.provider, deadline, planId);
      var snapshot := Snapshot(plan.before, Captured(files, Scope(plan, managed, extra)));
      BegunKeepsSound(Now(), tx, snapshot, Scope(plan, managed, extra));
      snapshots := snapshots[id := snapshot];
      records := records[id := tx];
      active := Some(tx);
      origin := origin[id := files];
    }

    /** apply_plan from the scheduling of its rollback on. */
    method Proceed(plan: Plan, id: string) returns (r: Result<Transaction, Error>)
      requires Valid() && active.Some? && active.value.id == id && Prepared(Now(), plan, id)
      modifies this
      ensures Valid() && (Exclusive(old(Now())) ==> Exclusive(Now()))
      ensures Outcome(old(Now()), Now(), plan, id, renderer, r)
      ensures failures == old(failures) + FailuresOf(r)
      ensures r != Err(NoTimer) ==> id in timers
      ensures r.Ok? ==> id in commanded && (Generic(plan.change) ==> id in persisted)
    {
      RecordingKeepsSound(Now(), id, Failed);
      var scheduled := Schedule(id);
      if !scheduled {
        Record(id, Failed);
        return Err(NoTimer);
      }
      r := Install(plan, id);
    }

    /** The writes and commands of apply_plan, once its rollback is scheduled. */
    method Install(plan: Plan, id: string) returns (r: Result<Transaction, Error>)
      requires Valid() && active.Some? && active.value.id == id && Prepared(Now(), plan, id)
      modifies this
      ensures Valid() && (Exclusive(old(Now())) ==> Exclusive(Now()))
      ensures Outcome(old(Now()), Now(), plan, id, renderer, r)
      ensures failures == old(failures) + FailuresOf(r)
      ensures timers == old(timers) && r != Err(NoTimer)
      ensures r.Ok? ==> id in commanded && (Generic(plan.change) ==> id in persisted)
    {
      ghost var begun := Now();
      var ok := WritePlanned(plan, id);
      if !ok {
        InterruptedIsOutcome(begun, files, plan, id, renderer);
        return Err(WriteFailed);
      }
      ok := Activate(plan, id);
      if ok {
        AppliedIsOutcome(begun, plan, id, renderer);
        return Ok(records[id]);
      }
      r := GiveUp(plan, id, begun);
    }

    /** The commands, the new managed state and, for routes and traffic rules, the restore unit. */
    method Activate(plan: Plan, id: string) returns (ok: bool)
      requires Valid()
      modifies this`managed, this`failures, this`commanded, this`persisted
      ensures Valid() && managed in {old(managed), plan.after} && Now() == old(Now()).(managed := managed)
      ensures ok ==> managed == plan.after && id in commanded && (Generic(plan.change) ==> id in persisted)
      ensures failures == old(failures) + if ok then 0 else 1
    {
      ok := RunCommands(id);
      if ok {
        managed := plan.after;
        if Generic(plan.change) {
          ok := EnableRestoreUnit(id);
        }
      }
    }

    /** _write_provider_files and _write_restore_service. */
    method WritePlanned(plan: Plan, id: string) returns (ok: bool)
      requires Valid() && active.Some? && active.value.id == id && Prepared(Now(), plan, id)
      modifies this`files, this`failures
      ensures Valid() && Now() == old(Now()).(files := files)
      ensures SameOutside(files, old(files), snapshots[id].files.Keys)
      ensures ok ==> files == Overlaid(old(files), Writes(plan.provider, plan.change, managed, renderer))
      ensures failures == old(failures) + if ok then 0 else 1
    {
      ghost var begun := Now();
      var writes := Writes(plan.provider, plan.change, managed, renderer);
      WritesAreCaptured(plan.provider, plan.change, managed, renderer);
      ok := WriteFiles(writes);
      SameOutsideMore(files, begun.files, writes.Keys, snapshots[id].files.Keys);
      WritingKeepsSound(begun, files);
      assert Now() == begun.(files := files);
    }

    /** A command failed: roll back at once. */
    method GiveUp(plan: Plan, id: string, ghost begun: State) returns (r: Result<Transaction, Error>)
      requires Valid() && active.Some? && active.value.id == id && Prepared(begun, plan, id)
      requires Now() == begun.(files := files, managed := managed)
      requires SameOutside(files, begun.files, snapshots[id].files.Keys) && managed in {begun.managed, plan.after}
      modifies this
      ensures Valid() && (Exclusive(begun) ==> Exclusive(Now()))
      ensures Outcome(begun, Now(), plan, id, renderer, r)
      ensures failures + 1 == old(failures) + FailuresOf(r) && timers == old(timers) && r.Err? && r != Err(NoTimer)
    {
      UndoneGivesBack(Now());
      ghost var was := files;
      var undone := RollbackTransaction(id, true);
      SameOutsideTwice(files, was, begun.files, begun.snapshots[id].files.Keys);
      r := Err(if undone.Ok? then CommandFailed else RollbackFailed);
    }

    method Accept(plan: Plan, planId: string, id: string, deadline: real, extra: set<string>)
      returns (r: Result<Transaction, Error>)
      requires Valid() && active == None && id !in records
      modifies this
      ensures Valid() && (Exclusive(old(Now())) ==> Exclusive(Now()))
      ensures Outcome(BegunFrom(old(Now()), plan, planId, id, deadline, extra), Now(), plan, id, renderer, r)
      ensures failures == old(failures) + FailuresOf(r)
      ensures r != Err(NoTimer) ==> id in timers
      ensures r.Ok? ==> id in commanded && (Generic(plan.change) ==> id in persisted)
    {
      Begin(plan, planId, id, deadline, extra);
      r := Proceed(plan, id);
    }

    /**
      apply_plan. `id` is fresh; `extra` is what the NetworkManager glob captured besides. A
      refused plan changes nothing; `Outcome` says what an accepted one can lead to.
     */
    method ApplyPlan(planId: string, actor: string, phrase: string, now: real, timeout: real, id: string,
                     extra: set<string>)
      returns (r: Result<Transaction, Error>)
      requires Valid() && id !in records
      modifies this
      ensures Valid() && (Exclusive(old(Now())) ==> Exclusive(Now()))
      ensures Applicable(old(Now()), planId, actor, phrase, now) ==>
          var plan := old(plans)[planId];
          Outcome(BegunFrom(old(Now()), plan, planId, id, now + timeout, extra), Now(), plan, id, renderer, r)
      ensures Applicable(old(Now()), planId, actor, phrase, now) ==>
          Next(old(Now()), Applying(planId, id, now + timeout, extra, r), Now(), renderer)
      ensures Applicable(old(Now()), planId, actor, phrase, now) ==>
          && failures <= old(failures) + 2 && (failures == old(failures) <==> r.Ok?)
          && (failures == old(failures) + 2 <==> r == Err(RollbackFailed))
          && (r != Err(NoTimer) ==> id in timers)
          && (r.Ok? ==> id in commanded && (Generic(old(plans)[planId].change) ==> id in persisted))
      ensures !Applicable(old(Now()), planId, actor, phrase, now) ==>
          && Now() == old(Now()) && failures == old(failures)
          && r.Err? && r.error in {Busy, MissingPlan, WrongPhrase, Unsupported}
          && (r.error == Busy <==> old(active).Some?)
    {
      var checked := CheckPlan(planId, actor, phrase, now);
      if checked.Err? {
        return Err(checked.error);
      }
      r := Accept(checked.value, planId, id, now + timeout, extra);
      OutcomeIsNext(old(Now()), Now(), planId, id, now + timeout, extra, renderer, r);
    }
  }

  /** How many failures lead to an answer: without one it succeeds, with one it is undone or interrupted. */
  function FailuresOf(r: Result<Transaction, Error>): nat {
    match r
    case Ok(_) => 0
    case Err(RollbackFailed) => 2
    case Err(_) => 1
  }

  /** The checks of apply_plan: nothing is pending, and the plan is the actor's, fresh and confirmed. */
  predicate Applicable(st: State, planId: string, actor: string, phrase: string, now: real) {
    && st.active == None && planId in st.plans && st.plans[planId].actor == actor && st.plans[planId].expiresAt >= now
    && (st.plans[planId].phrase == "" || st.plans[planId].phrase == phrase) && st.plans[planId].rollbackSupported
  }

  /** A plan can be applied by its maker alone, in time, with its phrase if it has one, while nothing is pending. */
  lemma ApplicableInFields(st: State, planId: string, actor: string, phrase: string, now: real)
    ensures Applicable(st, planId, actor, phrase, now) <==>
              st.active == None && exists plan: Plan ::
                && planId in st.plans && plan == st.plans[planId]
                && plan.actor == actor && now <= plan.expiresAt && plan.phrase in {"", phrase}
                && plan.rollbackSupported
  {
  }

  /**
    What a transaction begins with: a pending record under its identifier, and a snapshot of the
    plan's `before` and of every file that may be written or that the connection files add.
   */
  lemma WhatBeginLeaves(was: State, plan: Plan, planId: string, id: string, deadline: real, extra: set<string>,
                        path: string)
    ensures var st := BegunFrom(was, plan, planId, id, deadline, extra);
            && st.managed == was.managed && st.files == was.files && st.plans == was.plans
            && id in st.records && id in st.snapshots
            && st.records[id] == Transaction(id, Pending, plan.actor, plan.provider, deadline, planId)
            && st.active == Some(st.records[id]) && st.snapshots[id].managed == plan.before
            && (path in st.snapshots[id].files <==>
                  path in extra || path in CapturedPaths(plan.provider, plan.change, was.managed))
            && (path in st.snapshots[id].files ==>
                  st.snapshots[id].files[path] == if path in was.files then Some(ReadText(was.files[path])) else None)
            && forall other :: other in was.records && other != id ==>
                 other in st.records && st.records[other] == was.records[other]
  {
  }

  /**
    How transactions end: a confirmed one is spared by the timer and can be undone by a user, an
    undone one is never undone again, and a failed or pending one always can be. None is active.
   */
  lemma WhatEndsATransaction(st: State, id: string, automatic: bool)
    requires id in st.records && id in st.snapshots && st.records[id].phase.Pending?
    ensures var confirmed := Recorded(st, id, Confirmed);
            && confirmed.records[id].phase == Confirmed && confirmed.active == None
            && confirmed.files == st.files && confirmed.managed == st.managed
            && (SkipsRollback(confirmed.records[id], automatic) <==> automatic)
    ensures var undone := Undone(st, id);
            && undone.records[id].phase == RolledBack && undone.active == None
            && SkipsRollback(undone.records[id], automatic)
    ensures var failed := Recorded(st, id, Failed);
            && failed.records[id].phase == Failed && failed.active == None
            && !SkipsRollback(failed.records[id], automatic) && !SkipsRollback(st.records[id], automatic)
    ensures forall other :: other in st.records && other != id ==>
              && other in Undone(st, id).records && Undone(st, id).records[other] == st.records[other]
              && Recorded(st, id, Confirmed).records[other] == st.records[other]
  {
  }

  function BegunFrom(was: State, plan: Plan, planId: string, id: string, deadline: real, extra: set<string>): State {
    Begun(was, Transaction(id, Pending, plan.actor, plan.provider, deadline, planId),
          Snapshot(plan.before, Captured(was.files, Scope(plan, was.managed, extra))))
  }

  /** A transaction that has begun and written nothing yet. */
  ghost predicate Prepared(st: State, plan: Plan, id: string) {
    && id in st.records && id in st.snapshots && id in st.origin && st.origin[id] == st.files
    && st.records[id].id == id && st.records[id].phase.Pending? && st.active == Some(st.records[id])
    && st.snapshots[id].managed == plan.before
    && CapturedPaths(plan.provider, plan.change, st.managed) <= st.snapshots[id].files.Keys
  }

  /**
    What apply_plan leaves of a begun transaction: no timer and nothing written; some files
    written and the timer running; everything in place and pending; everything rolled back; or
    a failed rollback. No file but the captured ones differs in any case.
   */
  ghost predicate Outcome(begun: State, st: State, plan: Plan, id: string, renderer: Renderer,
                          r: Result<Transaction, Error>)
  {
    && id in begun.records && id in begun.snapshots
    && SameOutside(st.files, begun.files, begun.snapshots[id].files.Keys)
    && match r {
         case Ok(tx) =>
           && tx == begun.records[id]
           && st == begun.(files := Overlaid(begun.files, Writes(plan.provider, plan.change, begun.managed, renderer)),
                           managed := plan.after)
         case Err(NoTimer) => st == Recorded(begun, id, Failed)
         case Err(WriteFailed) => st == begun.(files := st.files)
         case Err(CommandFailed) =>
           st == Recorded(begun.(files := AsRead(begun.files, begun.snapshots[id].files.Keys), managed := plan.before),
                          id, RolledBack)
         case Err(RollbackFailed) =>
           && st == Recorded(begun.(files := st.files, managed := st.managed), id, Failed)
           && st.managed in {begun.managed, plan.after, plan.before}
         case Err(_) => false
       }
  }

  lemma InterruptedIsOutcome(begun: State, files: Files, plan: Plan, id: string, renderer: Renderer)
    requires id in begun.records && id in begun.snapshots
    requires SameOutside(files, begun.files, begun.snapshots[id].files.Keys)
    ensures Outcome(begun, begun.(files := files), plan, id, renderer, Err(WriteFailed))
  {
  }

  lemma AppliedIsOutcome(begun: State, plan: Plan, id: string, renderer: Renderer)
    requires id in begun.records && id in begun.snapshots
    requires var files := Overlaid(begun.files, Writes(plan.provider, plan.change, begun.managed, renderer));
             SameOutside(files, begun.files, begun.snapshots[id].files.Keys)
    ensures var files := Overlaid(begun.files, Writes(plan.provider, plan.change, begun.managed, renderer));
            Outcome(begun, begun.(files := files, managed := plan.after), plan, id, renderer, Ok(begun.records[id]))
  {
  }

  lemma SameOutsideMore(files: Files, was: Files, some: set<string>, more: set<string>)
    requires SameOutside(files, was, some) && some <= more
    ensures SameOutside(files, was, more)
  {
  }

  lemma SameOutsideTwice(c: Files, b: Files, a: Files, paths: set<string>)
    requires SameOutside(c, b, paths) && SameOutside(b, a, paths)
    ensures SameOutside(c, a, paths)
  {
    forall path | path !in paths
      ensures Lookup(c, path) == Lookup(a, path)
    {
      assert Lookup(c, path) == Lookup(b, path);
    }
  }

  /** What a plan's transaction captures. */
  function Scope(plan: Plan, managed: Managed, extra: set<string>): set<string> {
    CapturedPaths(plan.provider, plan.change, managed) + extra
  }

  predicate SkipsRollback(tx: Transaction, automatic: bool) {
    (automatic && tx.phase.Confirmed?) || tx.phase.RolledBack?
  }

  /**
    However apply_plan ended, a complete rollback of its transaction gives every file as it was
    read before, and the plan's `before`. Nothing has changed then exactly when no captured file
    held a carriage return and the plan was not stale.
   */
  lemma RollbackReturnsToStart(begun: State, st: State, plan: Plan, id: string, renderer: Renderer,
                               r: Result<Transaction, Error>)
    requires Prepared(begun, plan, id) && Recoverable(begun, id) && Outcome(begun, st, plan, id, renderer, r)
    ensures Undone(st, id).files == AsRead(begun.files, begun.snapshots[id].files.Keys)
    ensures Undone(st, id).managed == plan.before
    ensures Undone(st, id).files == begun.files && Undone(st, id).managed == begun.managed <==>
              && plan.before == begun.managed
              && forall path :: path in begun.snapshots[id].files.Keys && path in begun.files ==>
                                  '\r' !in begun.files[path]
  {
    var keys := begun.snapshots[id].files.Keys;
    OutcomeStores(begun, st, plan, id, renderer, r);
    AsReadIsOriginal(begun.files, keys);
    RestoreGivesBack(st.files, begun.files, keys);
  }

  /**
    A failed rollback can be repeated, by the timer or a user, and a complete repetition ends as
    the first would have.
   */
  lemma RepeatedRollback(was: State, st: State, id: string, automatic: bool)
    requires id in was.records && id in was.snapshots && HalfUndone(was, st, id)
    ensures !SkipsRollback(st.records[id], automatic)
    ensures Undone(st, id).files == Undone(was, id).files && Undone(st, id).managed == Undone(was, id).managed
  {
    var captured := was.snapshots[id].files;
    forall path
      ensures Lookup(Overlaid(st.files, captured), path) == Lookup(Overlaid(was.files, captured), path)
    {
      OverlaidLookup(st.files, captured, path);
      OverlaidLookup(was.files, captured, path);
      assert path !in captured.Keys ==> Lookup(st.files, path) == Lookup(was.files, path);
    }
    SameLookups(Overlaid(st.files, captured), Overlaid(was.files, captured));
  }

  // ---- No conflicts on any run -------------------------------------------------

  predicate PlanOk(plan: Plan) {
    Clean(plan.before) && Clean(plan.after) && plan.after == Applied(plan.before, plan.change)
  }

  predicate SnapshotOk(snapshot: Snapshot) {
    Clean(snapshot.managed)
  }

  /** Every configuration that is stored anywhere is free of conflicts. */
  predicate AllClean(st: State) {
    && Clean(st.managed)
    && (forall id {:trigger PlanOk(st.plans[id])} :: id in st.plans ==> PlanOk(st.plans[id]))
    && (forall id {:trigger SnapshotOk(st.snapshots[id])} :: id in st.snapshots ==> SnapshotOk(st.snapshots[id]))
  }

  /** The steps of a run, as the contracts of the manager's methods give them. */
  datatype Step =
    | Planning(planId: string, plan: Plan)
    | Applying(planId: string, id: string, deadline: real, extra: set<string>, result: Result<Transaction, Error>)
    | Confirming(id: string)
    | RollingBack(id: string)
    | FailingRollback(id: string)

  ghost predicate Next(was: State, step: Step, st: State, renderer: Renderer) {
    match step
    case Planning(planId, plan) =>
      && planId !in was.plans && Admitted(plan.change, was.managed)
      && plan.before == was.managed && plan.after == Applied(was.managed, plan.change)
      && st == was.(plans := was.plans[planId := plan])
    case Applying(planId, id, deadline, extra, result) =>
      && planId in was.plans && id !in was.records
      && var plan := was.plans[planId];
      Outcome(BegunFrom(was, plan, planId, id, deadline, extra), st, plan, id, renderer, result)
    case Confirming(id) => id in was.records && st == Recorded(was, id, Confirmed)
    case RollingBack(id) => id in was.records && id in was.snapshots && st == Undone(was, id)
    case FailingRollback(id) => id in was.records && id in was.snapshots && HalfUndone(was, st, id)
  }

  lemma OutcomeIsNext(was: State, st: State, planId: string, id: string, deadline: real, extra: set<string>,
                      renderer: Renderer, r: Result<Transaction, Error>)
    requires planId in was.plans && id !in was.records
    requires var plan := was.plans[planId];
             Outcome(BegunFrom(was, plan, planId, id, deadline, extra), st, plan, id, renderer, r)
    ensures Next(was, Applying(planId, id, deadline, extra, r), st, renderer)
  {
  }

  lemma PlanningKeepsClean(was: State, planId: string, plan: Plan)
    requires AllClean(was) && Admitted(plan.change, was.managed)
    requires plan.before == was.managed && plan.after == Applied(was.managed, plan.change)
    ensures AllClean(was.(plans := was.plans[planId := plan]))
  {
    AppliedKeepsClean(was.managed, plan.change);
    var plans := was.plans[planId := plan];
    forall id | id in plans
      ensures PlanOk(plans[id])
    {
      if id != planId {
        assert PlanOk(was.plans[id]);
      }
    }
  }

  lemma ApplyingKeepsClean(was: State, planId: string, id: string, deadline: real, extra: set<string>,
                           result: Result<Transaction, Error>, st: State, renderer: Renderer)
    requires AllClean(was) && Next(was, Applying(planId, id, deadline, extra, result), st, renderer)
    ensures AllClean(st)
  {
    var plan := was.plans[planId];
    var begun := BegunFrom(was, plan, planId, id, deadline, extra);
    OutcomeStores(begun, st, plan, id, renderer, result);
    assert PlanOk(plan);
    forall other | other in st.snapshots
      ensures SnapshotOk(st.snapshots[other])
    {
      if other != id {
        assert SnapshotOk(was.snapshots[other]);
      }
    }
  }

  lemma OutcomeStores(begun: State, st: State, plan: Plan, id: string, renderer: Renderer,
                      r: Result<Transaction, Error>)
    requires Outcome(begun, st, plan, id, renderer, r)
    ensures st.plans == begun.plans && st.snapshots == begun.snapshots && id in st.records
    ensures st.managed == begun.managed || st.managed == plan.before || st.managed == plan.after
  {
  }

  lemma NextKeepsClean(was: State, step: Step, st: State, renderer: Renderer)
    requires AllClean(was) && Next(was, step, st, renderer)
    ensures AllClean(st)
  {
    match step
    case Planning(planId, plan) => PlanningKeepsClean(was, planId, plan);
    case Applying(planId, id, deadline, extra, result) =>
      ApplyingKeepsClean(was, planId, id, deadline, extra, result, st, renderer);
    case Confirming(_) =>
    case RollingBack(id) => assert SnapshotOk(was.snapshots[id]);
    case FailingRollback(id) => assert SnapshotOk(was.snapshots[id]);
  }

  lemma EmptyIsClean(st: State)
    requires st.managed == NOTHING_MANAGED && st.plans == map[] && st.snapshots == map[]
    ensures AllClean(st)
  {
  }

  /**
    On every run from an empty configuration, however stale the applied plans are, no stored
    configuration has two interfaces with a common member, a VLAN twice, a route twice, or more
    than the allowed number of objects.
   */
  lemma {:induction false} RunsStayClean(states: seq<State>, steps: seq<Step>, renderer: Renderer, k: nat)
    requires |states| == |steps| + 1 && k < |states|
    requires states[0].managed == NOTHING_MANAGED && states[0].plans == map[] && states[0].snapshots == map[]
    requires forall i :: 0 <= i < |steps| ==> Next(states[i], steps[i], states[i + 1], renderer)
    ensures AllClean(states[k])
  {
    if k == 0 {
      EmptyIsClean(states[0]);
    } else {
      RunsStayClean(states, steps, renderer, k - 1);
      var step, st := steps[k - 1], states[k - 1 + 1];
      NextKeepsClean(states[k - 1], step, st, renderer);
    }
  }
}
