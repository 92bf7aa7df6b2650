/**
  The coordination lock of backend/app/update_coordination.py: a re-entrant lock per process, a
  nesting depth per thread, and a lock on a file that excludes other processes. A thread
  belongs to one process; flock conflicts between any two open descriptors.
 */
module CoordinationLock {
  import opened Wrappers

  /** `regions` counts, per thread, the protected regions it is in the middle of. */
  datatype State = State(
    owner: map<nat, nat>, depth: map<nat, nat>, fileLock: Option<nat>, regions: map<nat, nat>)

  function Value(m: map<nat, nat>, key: nat): nat {
    if key in m then m[key] else 0
  }

  predicate Holds(s: State, process: nat, thread: nat) {
    process in s.owner && s.owner[process] == thread
  }

  /**
    A thread holds the lock of its process exactly while its depth is positive. With the file
    lock it is in as many regions as its depth says; without, it is in none and not nested.
   */
  predicate ThreadOk(s: State, process: nat, thread: nat) {
    && (Value(s.depth, thread) > 0 <==> Holds(s, process, thread))
    && if s.fileLock == Some(thread) then Value(s.regions, thread) == Value(s.depth, thread) > 0
       else Value(s.regions, thread) == 0 && Value(s.depth, thread) <= 1
  }

  ghost predicate Sound(s: State, processOf: nat -> nat) {
    forall thread: nat {:trigger ThreadOk(s, processOf(thread), thread)} :: ThreadOk(s, processOf(thread), thread)
  }

  /** At most one thread of all processes is inside, and the file is locked exactly when one is. */
  lemma OneThreadInside(s: State, processOf: nat -> nat, t: nat, u: nat)
    requires Sound(s, processOf)
    ensures Value(s.regions, t) > 0 && Value(s.regions, u) > 0 ==> t == u
    ensures Value(s.regions, t) > 0 <==> s.fileLock == Some(t)
  {
    assert ThreadOk(s, processOf(t), t) && ThreadOk(s, processOf(u), u);
  }

  // ---- Steps -------------------------------------------------------------------

  /** Taking the process lock and counting the depth; a nested call is inside at once. */
  function Entered(s: State, process: nat, thread: nat): State {
    var nested := Value(s.depth, thread) > 0;
    s.(owner := s.owner[process := thread],
       depth := s.depth[thread := Value(s.depth, thread) + 1],
       regions := if nested then s.regions[thread := Value(s.regions, thread) + 1] else s.regions)
  }

  function Granted(s: State, thread: nat): State {
    s.(fileLock := Some(thread), regions := s.regions[thread := 1])
  }

  function Left(s: State, process: nat, thread: nat): State
    requires Value(s.regions, thread) > 0
  {
    var regions := s.regions[thread := Value(s.regions, thread) - 1];
    if Value(s.depth, thread) > 1 then s.(depth := s.depth[thread := Value(s.depth, thread) - 1], regions := regions)
    else s.(fileLock := None, depth := s.depth[thread := 0], owner := s.owner - {process}, regions := regions)
  }

  function Abandoned(s: State, process: nat, thread: nat): State {
    s.(depth := s.depth[thread := 0], owner := s.owner - {process})
  }

  lemma EnteredKeepsSound(s: State, processOf: nat -> nat, thread: nat)
    requires Sound(s, processOf)
    requires processOf(thread) in s.owner ==> s.owner[processOf(thread)] == thread && s.fileLock == Some(thread)
    ensures Sound(Entered(s, processOf(thread), thread), processOf)
  {
    var e := Entered(s, processOf(thread), thread);
    assert ThreadOk(s, processOf(thread), thread);
    forall t: nat
      ensures ThreadOk(e, processOf(t), t)
    {
      assert ThreadOk(s, processOf(t), t);
    }
  }

  lemma GrantedKeepsSound(s: State, processOf: nat -> nat, thread: nat)
    requires Sound(s, processOf) && s.fileLock == None && Value(s.depth, thread) > 0
    ensures Sound(Granted(s, thread), processOf)
  {
    assert ThreadOk(s, processOf(thread), thread);
    forall t: nat
      ensures ThreadOk(Granted(s, thread), processOf(t), t)
    {
      assert ThreadOk(s, processOf(t), t);
    }
  }

  lemma LeftKeepsSound(s: State, processOf: nat -> nat, thread: nat)
    requires Sound(s, processOf) && Value(s.regions, thread) > 0
    ensures Sound(Left(s, processOf(thread), thread), processOf)
  {
    assert ThreadOk(s, processOf(thread), thread);
    forall t: nat
      ensures ThreadOk(Left(s, processOf(thread), thread), processOf(t), t)
    {
      assert ThreadOk(s, processOf(t), t);
    }
  }

  lemma AbandonedKeepsSound(s: State, processOf: nat -> nat, thread: nat)
    requires Sound(s, processOf) && Value(s.depth, thread) > 0 && s.fileLock != Some(thread)
    ensures Sound(Abandoned(s, processOf(thread), thread), processOf)
  {
    assert ThreadOk(s, processOf(thread), thread);
    forall t: nat
      ensures ThreadOk(Abandoned(s, processOf(thread), thread), processOf(t), t)
    {
      assert ThreadOk(s, processOf(t), t);
    }
  }

  // ---- Runs --------------------------------------------------------------------

  datatype Step = Enter(thread: nat) | Grant(thread: nat) | Leave(thread: nat) | Abandon(thread: nat)

  /**
    The process lock admits its owner only, a thread that is blocked on the file lock calls
    nothing, and flock grants a free file to any descriptor that asks for it.
   */
  predicate Enabled(s: State, processOf: nat -> nat, step: Step) {
    match step
    case Enter(t) => processOf(t) in s.owner ==> s.owner[processOf(t)] == t && s.fileLock == Some(t)
    case Grant(t) => s.fileLock == None && Value(s.depth, t) > 0
    case Leave(t) => Value(s.regions, t) > 0
    case Abandon(t) => Value(s.depth, t) > 0 && s.fileLock != Some(t)
  }

  function After(s: State, processOf: nat -> nat, step: Step): State
    requires Enabled(s, processOf, step)
  {
    match step
    case Enter(t) => Entered(s, processOf(t), t)
    case Grant(t) => Granted(s, t)
    case Leave(t) => Left(s, processOf(t), t)
    case Abandon(t) => Abandoned(s, processOf(t), t)
  }

  ghost predicate Run(states: seq<State>, steps: seq<Step>, processOf: nat -> nat) {
    && |states| == |steps| + 1 && states[0] == State(map[], map[], None, map[])
    && forall i :: 0 <= i < |steps| ==>
         Enabled(states[i], processOf, steps[i]) && states[i + 1] == After(states[i], processOf, steps[i])
  }

  lemma {:induction false} RunsAreSound(states: seq<State>, steps: seq<Step>, processOf: nat -> nat, k: nat)
    requires Run(states, steps, processOf) && k < |states|
    ensures Sound(states[k], processOf)
  {
    if k == 0 {
      forall t: nat
        ensures ThreadOk(states[0], processOf(t), t)
      {
      }
    } else {
      RunsAreSound(states, steps, processOf, k - 1);
      var s := states[k - 1];
      assert Enabled(s, processOf, steps[k - 1]) && states[k - 1 + 1] == After(s, processOf, steps[k - 1]);
      match steps[k - 1]
      case Enter(t) => EnteredKeepsSound(s, processOf, t);
      case Grant(t) => GrantedKeepsSound(s, processOf, t);
      case Leave(t) => LeftKeepsSound(s, processOf, t);
      case Abandon(t) => AbandonedKeepsSound(s, processOf, t);
    }
  }

  /** Over every run of nested, failing and competing calls, at most one thread of all processes is inside. */
  lemma RunsExclude(states: seq<State>, steps: seq<Step>, processOf: nat -> nat, k: nat, t: nat, u: nat)
    requires Run(states, steps, processOf) && k < |states|
    ensures Value(states[k].regions, t) > 0 && Value(states[k].regions, u) > 0 ==> t == u
    ensures Value(states[k].regions, t) > 0 <==> states[k].fileLock == Some(t)
  {
    RunsAreSound(states, steps, processOf, k);
    OneThreadInside(states[k], processOf, t, u);
  }

  /** The same locks are held to the same depth. */
  ghost predicate Same(a: State, b: State) {
    && a.fileLock == b.fileLock && a.owner == b.owner
    && forall t: nat :: Value(a.depth, t) == Value(b.depth, t) && Value(a.regions, t) == Value(b.regions, t)
  }

  /** A call on free locks gets inside, excludes every other request for the file, and gives both locks back. */
  lemma OutermostCallGivesBack(s: State, processOf: nat -> nat, t: nat)
    requires Sound(s, processOf) && processOf(t) !in s.owner && s.fileLock == None
    ensures Enabled(s, processOf, Enter(t))
    ensures var entered := After(s, processOf, Enter(t));
            && entered.owner == s.owner[processOf(t) := t] && Enabled(entered, processOf, Grant(t))
            && var inside := After(entered, processOf, Grant(t));
               && Value(inside.regions, t) == 1 && inside.fileLock == Some(t)
               && (forall u :: !Enabled(inside, processOf, Grant(u)))
               && Enabled(inside, processOf, Leave(t))
               && Same(After(inside, processOf, Leave(t)), s)
  {
    assert ThreadOk(s, processOf(t), t);
  }

  /** A nested call is inside at once, and leaves the thread inside as often as before. */
  lemma NestedCallGivesBack(s: State, processOf: nat -> nat, t: nat)
    requires Sound(s, processOf) && s.fileLock == Some(t)
    ensures Enabled(s, processOf, Enter(t))
    ensures var nested := After(s, processOf, Enter(t));
            && Value(nested.regions, t) == Value(s.regions, t) + 1 && nested.fileLock == Some(t)
            && Enabled(nested, processOf, Leave(t)) && Same(After(nested, processOf, Leave(t)), s)
  {
    assert ThreadOk(s, processOf(t), t);
  }

  /** A call whose request for the file lock fails leaves everything as it was. */
  lemma FailedCallGivesBack(s: State, processOf: nat -> nat, t: nat)
    requires Sound(s, processOf) && processOf(t) !in s.owner
    ensures Enabled(s, processOf, Enter(t))
    ensures var entered := After(s, processOf, Enter(t));
            && Enabled(entered, processOf, Abandon(t)) && Same(After(entered, processOf, Abandon(t)), s)
  {
    assert ThreadOk(s, processOf(t), t);
  }

  // ---- The lock ----------------------------------------------------------------

  class Lock {
    const processOf: nat -> nat
    var owner: map<nat, nat>
    var depth: map<nat, nat>
    var fileLock: Option<nat>
    ghost var regions: map<nat, nat>

    ghost function Now(): State
      reads this
    {
      State(owner, depth, fileLock, regions)
    }

    ghost predicate Valid()
      reads this
    {
      Sound(Now(), processOf)
    }

    constructor (processOf: nat -> nat)
      ensures Valid() && this.processOf == processOf && Now() == State(map[], map[], None, map[])
    {
      this.processOf := processOf;
      owner, depth, fileLock, regions := map[], map[], None, map[];
    }

    /**
      Entering: the process lock is free or the thread's own, and a thread that is blocked on
      the file lock calls nothing. An outermost call goes on to ask for the file lock.
     */
    method Enter(thread: nat) returns (nested: bool)
      requires Valid()
      requires processOf(thread) in owner ==> owner[processOf(thread)] == thread && fileLock == Some(thread)
      modifies this
      ensures Valid() && Now() == Entered(old(Now()), processOf(thread), thread)
      ensures nested <==> old(fileLock) == Some(thread)
      ensures fileLock == old(fileLock)
    {
      assert ThreadOk(Now(), processOf(thread), thread);
      EnteredKeepsSound(Now(), processOf, thread);
      owner := owner[processOf(thread) := thread];
      var current := Value(depth, thread);
      depth := depth[thread := current + 1];
      nested := current > 0;
      if nested {
        regions := regions[thread := Value(regions, thread) + 1];
      }
    }

    /** flock grants the lock to one descriptor at a time. */
    method Grant(thread: nat)
      requires Valid() && fileLock == None && Value(depth, thread) > 0
      modifies this
      ensures Valid() && Now() == Granted(old(Now()), thread)
    {
      GrantedKeepsSound(Now(), processOf, thread);
      fileLock := Some(thread);
      regions := regions[thread := 1];
    }

    /** Leaving: the file stays locked until the outermost region ends. */
    method Leave(thread: nat)
      requires Valid() && Value(regions, thread) > 0
      modifies this
      ensures Valid() && Now() == Left(old(Now()), processOf(thread), thread)
      ensures fileLock == if old(Value(regions, thread)) > 1 then Some(thread) else None
    {
      assert ThreadOk(Now(), processOf(thread), thread);
      LeftKeepsSound(Now(), processOf, thread);
      var current := Value(depth, thread);
      if current > 1 {
        depth := depth[thread := current - 1];
      } else {
        fileLock := None;
        depth := depth[thread := 0];
        owner := owner - {processOf(thread)};
      }
      regions := regions[thread := Value(regions, thread) - 1];
    }

    /** The request for the file lock fails: its own descriptor is closed, and no other is touched. */
    method Abandon(thread: nat)
      requires Valid() && Value(depth, thread) > 0 && fileLock != Some(thread)
      modifies this
      ensures Valid() && Now() == Abandoned(old(Now()), processOf(thread), thread)
    {
      AbandonedKeepsSound(Now(), processOf, thread);
      depth := depth[thread := 0];
      owner := owner - {processOf(thread)};
    }
  }
}
