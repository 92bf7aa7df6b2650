/**
  Blue/green release activation: scripts/webnas_release.py and
  scripts/rollback_release.py.

  A `Host` is everything the two scripts change: the nginx file and the port nginx
  has loaded, the `current` link, the active-slot file, deployment.json, the broker
  unit, the slot environments, the running backends and the release directories.
  Every external command may exit with an error or raise, at any point; the ghost
  `trace` holds the host after every single change.
 */
module Release {
  import opened Wrappers

  datatype Slot = Blue | Green

  type Path = string

  function PortOf(slot: Slot): nat {
    match slot
    case Blue => 15101
    case Green => 15102
  }

  lemma SlotPorts(slot: Slot)
    ensures PortOf(Blue) == 15101 && PortOf(Green) == 15102
    ensures Other(slot) != slot && PortOf(Other(slot)) != PortOf(slot) && Other(Other(slot)) == slot
  {
  }

  function Other(slot: Slot): Slot {
    if slot == Blue then Green else Blue
  }

  /** deployment.json. */
  datatype Record = Record(
    activeSlot: Option<Slot>, activePort: Option<nat>, activeRelease: Option<Path>,
    previousSlot: Option<Slot>, previousPort: Option<nat>, previousRelease: Option<Path>)

  datatype Host = Host(
    nginxFile: Option<nat>,      // port written in the nginx configuration file
    nginxLoaded: Option<nat>,    // port nginx forwards to; None while nginx is down
    current: Option<Path>,       // target of the `current` link
    slotFile: Option<Slot>,      // contents of runtime/active-slot
    record: Record,              // contents of deployment.json
    brokerUnit: Option<Path>,    // release named by the broker unit file
    brokerLoaded: Option<Path>,  // release the broker process was started from
    env: map<Slot, Path>,        // WEBNAS_RELEASE in runtime/backend-<slot>.env
    running: map<Slot, Path>,    // backends that run, with the release they were started from
    healthy: set<Slot>,          // backends that answered a health check since they were started
    dirs: set<Path>)             // release directories on disk

  /** How an external command ends: exit status 0, another status, or an exception (timeout, missing tool). */
  datatype Exit = Zero | NonZero | Raised

  /** The slot behind the port nginx forwards to runs and has answered a health check. */
  ghost predicate Live(h: Host) {
    h.nginxLoaded.Some? ==>
      exists s :: PortOf(s) == h.nginxLoaded.value && s in h.running && s in h.healthy
  }

  /** From `start` on nginx forwards only to these ports, or is down. */
  ghost predicate PortsFrom(trace: seq<Host>, start: nat, ports: set<Option<nat>>) {
    forall i :: start <= i < |trace| ==> trace[i].nginxLoaded in ports
  }

  /** Two stretches of a trace that keep to the old and the new port. */
  lemma PortsJoin(a: seq<Host>, b: seq<Host>, c: seq<Host>, was: Option<nat>, now: Option<nat>)
    requires a <= b <= c && PortsFrom(b, |a|, {was, now, None})
    requires PortsFrom(c, |b|, {was, now, None}) || PortsFrom(c, |b|, {was}) || PortsFrom(c, |b|, {now})
    ensures PortsFrom(c, |a|, {was, now, None})
  {
    forall i | |a| <= i < |c|
      ensures c[i].nginxLoaded in {was, now, None}
    {
      if i < |b| {
        assert c[i] == b[i];
      }
    }
  }

  ghost predicate AllLive(trace: seq<Host>) {
    forall i :: 0 <= i < |trace| ==> Live(trace[i])
  }

  /** nginx, the link, the slot file and deployment.json all name this slot and release, and it serves. */
  ghost predicate Names(h: Host, slot: Slot, release: Path) {
    && h.nginxFile == h.nginxLoaded == Some(PortOf(slot))
    && h.current == Some(release)
    && h.slotFile == Some(slot)
    && h.record.activeSlot == Some(slot)
    && h.record.activePort == Some(PortOf(slot))
    && h.record.activeRelease == Some(release)
    && slot in h.running && h.running[slot] == release
    && slot in h.healthy
    && slot in h.env && h.env[slot] == release
  }

  /** The host is at rest: the records agree and the recorded releases are on disk. */
  ghost predicate Settled(h: Host) {
    && h.record.activeSlot.Some? && h.record.activeRelease.Some?
    && Names(h, h.record.activeSlot.value, h.record.activeRelease.value)
    && RecordedOnDisk(h)
    && PreviousIsOtherSlot(h.record)
  }

  /** The previous half of the record is either absent or a complete triple for the other slot. */
  ghost predicate PreviousIsOtherSlot(r: Record) {
    && (r.previousSlot.Some? <==> r.previousPort.Some?)
    && (r.previousSlot.Some? <==> r.previousRelease.Some?)
    && (r.previousSlot.Some? ==>
          && r.activeSlot.Some?
          && r.previousSlot.value == Other(r.activeSlot.value)
          && r.previousPort.value == PortOf(r.previousSlot.value))
  }

  ghost predicate RecordedOnDisk(h: Host) {
    && (h.record.activeRelease.Some? ==> h.record.activeRelease.value in h.dirs)
    && (h.record.previousRelease.Some? ==> h.record.previousRelease.value in h.dirs)
  }

  ghost predicate Up(h: Host, slot: Slot) {
    slot in h.running && slot in h.healthy
  }

  /** The record names an active slot, its port and its release, as both scripts write them. */
  ghost predicate ActiveKnown(r: Record) {
    r.activeSlot.Some? && r.activePort == Some(PortOf(r.activeSlot.value)) && r.activeRelease.Some?
  }

  ghost predicate RecordOk(r: Record) {
    ActiveKnown(r) && PreviousIsOtherSlot(r)
  }

  /**
    What a deploy needs of the host, whatever else an earlier failure left behind: the old slot
    is up, and nginx does not forward to the slot that the deploy is going to restart.
   */
  ghost predicate Safe(h: Host) {
    && Live(h) && ActiveKnown(h.record)
    && Up(h, h.record.activeSlot.value)
    && h.nginxLoaded != Some(PortOf(Other(h.record.activeSlot.value)))
  }

  /** The candidate directory is not one the records still need. */
  ghost predicate Fresh(r: Record, release: Path) {
    r.activeRelease != Some(release) && r.previousRelease != Some(release)
  }

  /** `b` differs from `a` at most in the public handover: broker process, nginx, link, slot file, record. */
  ghost predicate SameBackends(a: Host, b: Host) {
    b.brokerUnit == a.brokerUnit && b.env == a.env && b.running == a.running
    && b.healthy == a.healthy && b.dirs == a.dirs
  }

  /** `b` differs from `a` at most in the broker, the given slot and the candidate directory. */
  ghost predicate SamePublic(a: Host, b: Host, slot: Slot) {
    && b.nginxFile == a.nginxFile && b.nginxLoaded == a.nginxLoaded && b.current == a.current
    && b.slotFile == a.slotFile && b.record == a.record
    && OtherSlotKept(a, b, slot)
  }

  ghost predicate OtherSlotKept(a: Host, b: Host, slot: Slot) {
    && Agree(a.running, b.running, Other(slot))
    && Agree(a.env, b.env, Other(slot))
    && (Other(slot) in a.healthy <==> Other(slot) in b.healthy)
  }

  ghost predicate Agree(m: map<Slot, Path>, n: map<Slot, Path>, slot: Slot) {
    && (slot in m <==> slot in n)
    && (slot in m ==> m[slot] == n[slot])
  }

  /** How a run of deploy ends. The flags say whether the undo itself ran to its end. */
  datatype Outcome =
    | Refused                             // validation failed, nothing was changed
    | CandidateFailed(undone: bool, removed: bool)  // the candidate never became healthy; was its directory removed?
    | Abandoned                           // probing the legacy unit raised between the two guarded blocks
    | SwitchFailed(undone: bool)          // the handover failed and rollback was entered
    | Activated(drain: DrainResult)       // the handover succeeded; draining may still report an error

  /** Whether the old backend was stopped, and which stale directories cleanup left behind if it was reached. */
  datatype DrainResult = DrainResult(stopped: bool, left: Option<set<Path>>)

  // ---- The changes of a host ---------------------------------------------------

  function UnitWritten(h: Host, release: Option<Path>): Host {
    h.(brokerUnit := release)
  }

  function EnvironmentWritten(h: Host, slot: Slot, release: Path): Host {
    h.(env := h.env[slot := release])
  }

  /** A restarted backend serves the release of its environment and has yet to answer a health check. */
  function Restarted(h: Host, slot: Slot, up: bool): Host {
    h.(running := if up && slot in h.env then h.running[slot := h.env[slot]] else h.running - {slot},
       healthy := h.healthy - {slot})
  }

  function Answered(h: Host, slot: Slot): Host {
    h.(healthy := h.healthy + {slot})
  }

  function GatewayWritten(h: Host, port: Option<nat>): Host {
    h.(nginxFile := port)
  }

  function GatewayLoaded(h: Host): Host {
    h.(nginxLoaded := h.nginxFile)
  }

  function BrokerRestarted(h: Host): Host {
    h.(brokerLoaded := h.brokerUnit)
  }

  // ---- The scripts -------------------------------------------------------------

  class Deployment {
    const release: Path
    const inReleases: bool          // the candidate lies below root/releases
    const previous: Record          // previous_state
    const previousBroker: Option<Path>
    var host: Host
    ghost var trace: seq<Host>
    ghost var failures: nat         // how many commands, writes and checks have failed
    ghost var answered: bool        // the public address has passed its health check
    ghost var tested: bool          // nginx -t has accepted the gateway file as it is
    ghost var enabled: set<Slot>    // the slots that are started at boot

    constructor (host: Host, release: Path, inReleases: bool, ghost enabled: set<Slot>)
      ensures this.host == host && trace == [host] && failures == 0 && !answered && !tested
      ensures this.enabled == enabled
      ensures this.release == release && this.inReleases == inReleases
      ensures previous == host.record && previousBroker == host.brokerUnit
    {
      this.host := host;
      this.trace := [host];
      this.failures := 0;
      this.answered := false;
      this.tested := false;
      this.enabled := enabled;
      this.release := release;
      this.inReleases := inReleases;
      this.previous := host.record;
      this.previousBroker := host.brokerUnit;
    }

    function OldSlot(): Slot
      requires previous.activeSlot.Some?
    {
      previous.activeSlot.value
    }

    /** The slot choice of `__init__`. */
    function NewSlot(): Slot {
      if previous.activeSlot == Some(Blue) then Green else Blue
    }

    /** Every step so far is recorded and was live. */
    ghost predicate Tracked()
      reads this`host, this`trace
    {
      && AllLive(trace)
      && |trace| > 0 && trace[|trace| - 1] == host
    }

    /** One observable change of the host. */
    method Change(h: Host)
      requires Tracked() && Live(h)
      modifies this`host, this`trace
      ensures host == h && trace == old(trace) + [h] && Tracked()
    {
      host := h;
      trace := trace + [h];
    }

    /** An external command may end in any way. */
    method Command() returns (exit: Exit)
      modifies this`failures
      ensures failures == old(failures) + if exit.Zero? then 0 else 1
    {
      exit := *;
      if !exit.Zero? {
        failures := failures + 1;
      }
    }

    /** Any other check or action that may fail. */
    method Attempt() returns (ok: bool)
      modifies this`failures
      ensures failures == old(failures) + if ok then 0 else 1
    {
      ok := *;
      if !ok {
        failures := failures + 1;
      }
    }

    /** Starting or stopping a backend; on failure it may or may not have taken effect. */
    method RestartBackend(slot: Slot) returns (ok: bool)
      requires Tracked() && host.nginxLoaded != Some(PortOf(slot))
      modifies this`host, this`trace, this`failures
      ensures Tracked() && old(trace) <= trace
      ensures SamePublic(old(host), host, slot) && host.env == old(host).env && host.dirs == old(host).dirs
      ensures host.brokerUnit == old(host).brokerUnit && host.brokerLoaded == old(host).brokerLoaded
      ensures slot !in host.healthy || host == old(host)
      ensures slot in host.running ==>
                || host.running == old(host).running
                || (slot in host.env && host.running[slot] == host.env[slot])
      ensures ok ==> slot !in host.healthy
      ensures ok && slot in host.running ==> slot in host.env && host.running[slot] == host.env[slot]
      ensures failures >= old(failures)
      ensures failures == old(failures) ==> ok && (slot in host.env ==> slot in host.running)
    {
      var exit := Command();
      var took: bool := *;
      if exit.Zero? || took {
        var stays := Attempt();
        Change(Restarted(host, slot, stays));
      }
      ok := exit.Zero?;
    }

    method StopBackend(slot: Slot) returns (exit: Exit)
      requires Tracked() && host.nginxLoaded != Some(PortOf(slot))
      modifies this`host, this`trace, this`failures
      ensures Tracked() && old(trace) <= trace
      ensures SamePublic(old(host), host, slot) && host.env == old(host).env && host.dirs == old(host).dirs
      ensures host.brokerUnit == old(host).brokerUnit && host.brokerLoaded == old(host).brokerLoaded
      ensures exit.Zero? ==> slot !in host.running && slot !in host.healthy
      ensures failures == old(failures) + if exit.Zero? then 0 else 1
      ensures slot in host.running ==> host.running == old(host).running
    {
      exit := Command();
      var took: bool := *;
      if exit.Zero? || took {
        Change(host.(running := host.running - {slot}, healthy := host.healthy - {slot}));
      }
    }

    /** health(port): passes only if the backend behind the port runs. */
    method Health(slot: Slot) returns (ok: bool)
      requires Tracked()
      modifies this`host, this`trace, this`failures
      ensures Tracked() && old(trace) <= trace
      ensures host == if ok then old(host).(healthy := old(host).healthy + {slot}) else old(host)
      ensures ok ==> slot in host.running
      ensures failures >= old(failures)
      ensures failures == old(failures) && slot in host.running ==> ok
    {
      ok := Attempt();
      ok := ok && slot in host.running;
      if ok {
        Change(Answered(host, slot));
      }
    }

    method ActivateNginx(slot: Slot) returns (ok: bool, ghost raised: bool)
      requires Tracked() && slot in host.running && slot in host.healthy
      modifies this`host, this`trace, this`failures, this`tested
      ensures Tracked() && old(trace) <= trace
      ensures host == old(host).(nginxFile := host.nginxFile, nginxLoaded := host.nginxLoaded)
      ensures host.nginxFile == old(host.nginxFile) || host.nginxFile == Some(PortOf(slot))
      ensures host.nginxLoaded in {old(host.nginxLoaded), Some(PortOf(slot)), None}
      ensures PortsFrom(trace, |old(trace)|, {old(host.nginxLoaded), Some(PortOf(slot)), None})
      ensures ok ==> host.nginxFile == host.nginxLoaded == Some(PortOf(slot))
      ensures failures >= old(failures) && (failures == old(failures) ==> ok)
      ensures raised || tested || host.nginxFile == old(host.nginxFile)
    {
      ok, raised := false, false;
      var written := Attempt();
      if !written {
        return;
      }
      var before := host.nginxFile;
      WriteGateway(Some(PortOf(slot)));
      var validation := TestGateway();
      raised := validation.Raised?;
      if validation.Raised? {
        return;
      }
      if validation.NonZero? {
        WriteGateway(before);
        return;
      }
      ghost var late;
      ok, late := Reload(slot);
    }

    method WriteGateway(port: Option<nat>)
      requires Tracked()
      modifies this`host, this`trace, this`tested
      ensures Tracked() && trace == old(trace) + [host] && host == GatewayWritten(old(host), port) && !tested
    {
      Change(GatewayWritten(host, port));
      tested := false;
    }

    /** nginx -t: exit status 0 means that the file can be loaded. */
    method TestGateway() returns (exit: Exit)
      modifies this`tested, this`failures
      ensures tested <==> exit.Zero?
      ensures failures == old(failures) + if exit.Zero? then 0 else 1
    {
      exit := Command();
      tested := exit.Zero?;
    }

    /** systemctl reload nginx, and restart when the reload reports an error; only a tested file is loaded. */
    method Reload(slot: Slot) returns (ok: bool, ghost raised: bool)
      requires Tracked() && slot in host.running && slot in host.healthy
      requires host.nginxFile == Some(PortOf(slot)) && tested
      modifies this`host, this`trace, this`failures
      ensures Tracked() && old(trace) <= trace
      ensures host == old(host).(nginxLoaded := host.nginxLoaded)
      ensures host.nginxLoaded in {old(host.nginxLoaded), Some(PortOf(slot)), None}
      ensures PortsFrom(trace, |old(trace)|, {old(host.nginxLoaded), Some(PortOf(slot)), None})
      ensures ok ==> host.nginxLoaded == Some(PortOf(slot))
      ensures failures >= old(failures) && (failures == old(failures) ==> ok)
      ensures failures == old(failures) + 1 && !raised ==> ok
    {
      var reload := Command();
      raised := reload.Raised?;
      var took: bool := *;
      if reload.Zero? || (reload.Raised? && took) {
        Change(GatewayLoaded(host));
      }
      if !reload.NonZero? {
        return reload.Zero?, raised;
      }
      var restart := Command();
      raised := restart.Raised?;
      var down: bool := *;
      if restart.Zero? {
        Change(GatewayLoaded(host));
      } else if down {
        Change(host.(nginxLoaded := None));
      }
      ok := restart.Zero?;
    }

    /** A file or link replaced in one step; `h` is the host with the new contents. */
    method Replace(h: Host) returns (ok: bool)
      requires Tracked() && Live(h)
      modifies this`host, this`trace, this`failures
      ensures Tracked() && old(trace) <= trace
      ensures host == if ok then h else old(host)
      ensures trace == if ok then old(trace) + [h] else old(trace)
      ensures failures == old(failures) + if ok then 0 else 1
    {
      ok := Attempt();
      if ok {
        Change(h);
      }
    }

    method RestoreBroker() returns (ok: bool)
      requires Tracked()
      modifies this`host, this`trace, this`failures
      ensures Tracked() && old(trace) <= trace
      ensures host == old(host).(brokerUnit := host.brokerUnit, brokerLoaded := host.brokerLoaded)
      ensures ok ==> host.brokerUnit == previousBroker
      ensures ok && previousBroker.Some? ==> host.brokerLoaded == previousBroker
      ensures previousBroker.Some? ==> host.brokerLoaded in {old(host).brokerLoaded, previousBroker}
      ensures failures >= old(failures) && (failures == old(failures) ==> ok && host.brokerLoaded == previousBroker)
    {
      ok := false;
      if previousBroker.None? {
        var stop := Command();
        if stop.Zero? {
          Change(host.(brokerLoaded := None));
        }
        if stop.Raised? {
          return;
        }
      }
      var replaced := Replace(UnitWritten(host, previousBroker));
      if !replaced {
        return;
      }
      var reload := Command();
      if !reload.Zero? {
        return;
      }
      if previousBroker.Some? {
        var restart := Command();
        if !restart.Zero? {
          return;
        }
        Change(BrokerRestarted(host));
      }
      ok := true;
    }

    /** The first guarded block of deploy: units, slot environment, start, health. */
    method StartCandidate() returns (ok: bool)
      requires Tracked() && host.nginxLoaded != Some(PortOf(NewSlot()))
      modifies this`host, this`trace, this`failures
      ensures Tracked() && old(trace) <= trace
      ensures SamePublic(old(host), host, NewSlot()) && host.dirs == old(host).dirs
      ensures host.brokerUnit == old(host).brokerUnit || host.brokerUnit == Some(release)
      ensures host.brokerLoaded == old(host).brokerLoaded
      ensures host.env == old(host).env || host.env == old(host).env[NewSlot() := release]
      ensures NewSlot() in host.running ==>
                || host.running == old(host).running
                || (host.env == old(host).env[NewSlot() := release] && host.running[NewSlot()] == release)
      ensures ok ==>
                && NewSlot() in host.running && NewSlot() in host.healthy
                && host.running[NewSlot()] == release
                && host.env == old(host).env[NewSlot() := release]
                && host.brokerUnit == Some(release)
      ensures failures >= old(failures) && (failures == old(failures) ==> ok)
    {
      ok := false;
      var unit := Replace(UnitWritten(host, Some(release)));
      var units := Attempt();
      if !unit || !units {
        return;
      }
      var environment := Replace(EnvironmentWritten(host, NewSlot(), release));
      if !environment {
        return;
      }
      var restarted := RestartBackend(NewSlot());
      if !restarted {
        return;
      }
      ok := Health(NewSlot());
    }

    /** The second guarded block of deploy: broker, nginx, link, slot file, record, public health. */
    method Switch() returns (ok: bool)
      requires Tracked() && previous.activeSlot.Some?
      requires NewSlot() in host.running && NewSlot() in host.healthy
      modifies this`host, this`trace, this`failures, this`tested, this`answered
      ensures Tracked() && old(trace) <= trace
      ensures SameBackends(old(host), host)
      ensures host.nginxLoaded in {old(host.nginxLoaded), Some(PortOf(NewSlot())), None}
      ensures PortsFrom(trace, |old(trace)|, {old(host.nginxLoaded), Some(PortOf(NewSlot())), None})
      ensures host.record == old(host.record) || host.record == NextRecord(previous, NewSlot(), release)
      ensures ok ==>
                && host.nginxFile == host.nginxLoaded == Some(PortOf(NewSlot()))
                && host.current == Some(release) && host.slotFile == Some(NewSlot())
                && host.record == NextRecord(previous, NewSlot(), release)
                && host.brokerLoaded == host.brokerUnit
                && answered
      ensures failures >= old(failures) && (failures == old(failures) ==> ok)
    {
      ok := false;
      var restart := Command();
      var took: bool := *;
      if restart.Zero? || took {
        Change(BrokerRestarted(host));
      }
      if !restart.Zero? {
        return;
      }
      ghost var start := trace;
      var activated, raised := ActivateNginx(NewSlot());
      PortsJoin(old(trace), start, trace, old(host.nginxLoaded), Some(PortOf(NewSlot())));
      if !activated {
        return;
      }
      start := trace;
      ok := RecordSwitch();
      PortsJoin(old(trace), start, trace, old(host.nginxLoaded), Some(PortOf(NewSlot())));
    }

    method PublicHealth() returns (ok: bool)
      modifies this`failures, this`answered
      ensures answered == (old(answered) || ok)
      ensures failures == old(failures) + if ok then 0 else 1
    {
      ok := Attempt();
      answered := answered || ok;
    }

    /** The records of a handover, once nginx forwards to the candidate. */
    method RecordSwitch() returns (ok: bool)
      requires Tracked() && host.nginxLoaded == Some(PortOf(NewSlot()))
      modifies this`host, this`trace, this`failures, this`answered
      ensures Tracked() && old(trace) <= trace && SameBackends(old(host), host)
      ensures host.nginxLoaded == old(host).nginxLoaded && host.nginxFile == old(host).nginxFile
      ensures host.brokerLoaded == old(host).brokerLoaded
      ensures PortsFrom(trace, |old(trace)|, {host.nginxLoaded})
      ensures host.record == old(host.record) || host.record == NextRecord(previous, NewSlot(), release)
      ensures ok ==>
                && host.current == Some(release) && host.slotFile == Some(NewSlot())
                && host.record == NextRecord(previous, NewSlot(), release)
                && answered
      ensures failures >= old(failures) && (failures == old(failures) ==> ok)
    {
      ok := false;
      var linked := Replace(host.(current := Some(release)));
      if !linked {
        return;
      }
      var marked := Replace(host.(slotFile := Some(NewSlot())));
      if !marked {
        return;
      }
      var recorded := Replace(host.(record := NextRecord(previous, NewSlot(), release)));
      if !recorded {
        return;
      }
      ok := PublicHealth();
    }

    method Rollback() returns (ok: bool)
      requires Tracked()
      requires previous.activeSlot.Some? && previous.activePort.Some? && previous.activeRelease.Some?
      requires previous.activePort == Some(PortOf(OldSlot()))
      requires OldSlot() in host.running && OldSlot() in host.healthy
      modifies this`host, this`trace, this`failures, this`tested
      ensures Tracked() && old(trace) <= trace
      ensures host.dirs == old(host).dirs && host.env == old(host).env
      ensures OtherSlotKept(old(host), host, NewSlot())
      ensures NewSlot() in host.running ==> host.running == old(host).running
      ensures host.record == old(host.record) || host.record == previous
      ensures host.nginxLoaded in {old(host.nginxLoaded), Some(PortOf(OldSlot())), None}
      ensures host.nginxLoaded != Some(PortOf(OldSlot())) ==>
                host.running == old(host).running && host.healthy == old(host).healthy
      ensures ok ==>
                && host.nginxFile == host.nginxLoaded == Some(PortOf(OldSlot()))
                && host.current == previous.activeRelease && host.slotFile == Some(OldSlot())
                && host.record == previous
                && host.brokerUnit == previousBroker
                && (previousBroker.Some? ==> host.brokerLoaded == previousBroker)
      ensures failures >= old(failures) && (failures == old(failures) ==> ok && NewSlot() !in host.running)
    {
      ok := false;
      var broker := RestoreBroker();
      if !broker {
        return;
      }
      var activated, raised := ActivateNginx(OldSlot());
      if !activated {
        return;
      }
      ok := RecordRollback();
    }

    /** The records of the old release, and the end of the candidate, once nginx forwards to the old slot. */
    method RecordRollback() returns (ok: bool)
      requires Tracked() && previous.activeSlot.Some? && host.nginxLoaded == Some(PortOf(OldSlot()))
      modifies this`host, this`trace, this`failures
      ensures Tracked() && old(trace) <= trace
      ensures host == old(host).(current := host.current, slotFile := host.slotFile, running := host.running,
                                 healthy := host.healthy, record := host.record)
      ensures OtherSlotKept(old(host), host, NewSlot())
      ensures NewSlot() in host.running ==> host.running == old(host).running
      ensures host.record == old(host.record) || host.record == previous
      ensures ok ==>
                && host.current == previous.activeRelease && host.slotFile == Some(OldSlot())
                && host.record == previous
      ensures failures >= old(failures) && (failures == old(failures) ==> ok && NewSlot() !in host.running)
    {
      ok := false;
      var linked := Replace(host.(current := previous.activeRelease));
      if !linked {
        return;
      }
      var marked := Replace(host.(slotFile := Some(OldSlot())));
      if !marked {
        return;
      }
      var stop := StopBackend(NewSlot());
      if stop.Raised? {
        return;
      }
      ok := Replace(host.(record := previous));
    }

    /** rmtree with one retry. */
    method RemoveDirectory(p: Path) returns (ok: bool)
      requires Tracked()
      modifies this`host, this`trace, this`failures
      ensures Tracked() && old(trace) <= trace
      ensures host == old(host).(dirs := if ok then old(host).dirs - {p} else old(host).dirs)
      ensures failures >= old(failures) && (failures <= old(failures) + 1 ==> ok)
    {
      ok := Replace(host.(dirs := host.dirs - {p}));
      if !ok {
        ok := Replace(host.(dirs := host.dirs - {p}));
      }
    }

    /** One directory of the listing: a kept one stays, another is removed or noted. */
    method CleanupOne(p: Path, noted: set<Path>) returns (left: set<Path>)
      requires Tracked() && |Keep()| >= 2
      modifies this`host, this`trace, this`failures
      ensures Tracked() && old(trace) <= trace
      ensures host == old(host).(dirs := host.dirs)
      ensures p in Keep() ==> left == noted && host.dirs == old(host).dirs
      ensures forall q :: q != p ==> (q in host.dirs <==> q in old(host).dirs) && (q in left <==> q in noted)
      ensures p !in Keep() && p in old(host).dirs ==> (p in left <==> p in host.dirs)
      ensures p !in old(host).dirs ==> p !in host.dirs && (p in left ==> p in noted)
      ensures failures >= old(failures) && (failures == old(failures) ==> left <= noted)
    {
      left := noted;
      if p !in Keep() {
        var removed := RemoveDirectory(p);
        left := if removed then left - {p} else if p in host.dirs then left + {p} else left;
      }
    }

    /** cleanup_releases over the directories in the order found; each removal is tried twice and may fail. */
    method CleanupReleases(found: seq<Path>) returns (left: set<Path>)
      requires Tracked() && forall p :: p in found <==> p in host.dirs
      modifies this`host, this`trace, this`failures
      ensures Tracked() && old(trace) <= trace
      ensures host == old(host).(dirs := host.dirs)
      ensures left <= old(host.dirs) - Keep()
      ensures host.dirs == if |Keep()| < 2 then old(host.dirs) else old(host.dirs) * Keep() + left
      ensures failures >= old(failures) && (failures == old(failures) ==> left == {})
    {
      left := {};
      if |Keep()| < 2 {
        return;
      }
      for i := 0 to |found|
        invariant Tracked() && old(trace) <= trace
        invariant host == old(host).(dirs := host.dirs) && host.dirs <= old(host.dirs)
        invariant left <= old(host.dirs) - Keep()
        invariant forall p :: p in old(host.dirs) ==>
          (p in host.dirs <==> p in Keep() || p !in found[..i] || p in left)
        invariant forall p :: p in left ==> p in found[..i]
        invariant failures >= old(failures) && (failures == old(failures) ==> left == {})
      {
        assert found[i] in old(host.dirs);
        left := CleanupOne(found[i], left);
      }
    }

    function Keep(): set<Path> {
      {release} + if previous.activeRelease.Some? then {previous.activeRelease.value} else {}
    }

    /** systemctl enable and disable; a failing command may have taken effect. */
    method EnableUnit(slot: Slot) returns (exit: Exit)
      modifies this`enabled, this`failures
      ensures old(enabled) <= enabled <= old(enabled) + {slot} && (exit.Zero? ==> slot in enabled)
      ensures failures == old(failures) + if exit.Zero? then 0 else 1
    {
      exit := Command();
      var took: bool := *;
      if exit.Zero? || took {
        enabled := enabled + {slot};
      }
    }

    method DisableUnit(slot: Slot) returns (exit: Exit)
      modifies this`enabled, this`failures
      ensures old(enabled) - {slot} <= enabled <= old(enabled) && (exit.Zero? ==> slot !in enabled)
      ensures failures == old(failures) + if exit.Zero? then 0 else 1
    {
      exit := Command();
      var took: bool := *;
      if exit.Zero? || took {
        enabled := enabled - {slot};
      }
    }

    /** Everything deploy does once the handover has succeeded. Any step may end the run early. */
    method Drain(found: seq<Path>) returns (result: DrainResult)
      requires Tracked() && previous.activeSlot.Some?
      requires host.nginxLoaded == Some(PortOf(NewSlot()))
      requires forall p :: p in found <==> p in host.dirs
      modifies this`host, this`trace, this`failures, this`enabled, this`answered
      ensures Tracked() && old(trace) <= trace
      ensures SamePublic(old(host), host, OldSlot()) && host.env == old(host).env
      ensures host.brokerUnit == old(host).brokerUnit && host.brokerLoaded == old(host).brokerLoaded
      ensures OldSlot() in host.running ==> host.running == old(host).running
      ensures result.stopped ==> OldSlot() !in host.running
      ensures Cleaned(old(host).dirs, Keep(), result, host.dirs)
      ensures result.stopped ==> NewSlot() in enabled
      ensures failures >= old(failures) && (old(answered) ==> answered)
      ensures failures == old(failures) ==>
                && result == DrainResult(true, Some({})) && answered
                && NewSlot() in enabled && OldSlot() !in enabled
    {
      result := DrainResult(false, None);
      var enableNginx := Command();
      if !enableNginx.Zero? {
        return;
      }
      var enableUnit := EnableUnit(NewSlot());
      if !enableUnit.Zero? {
        return;
      }
      assert Other(NewSlot()) == OldSlot() by {
        assert OldSlot() == Blue || OldSlot() == Green;
      }
      var stop, disabled := RetireOld();
      result := DrainResult(stop, None);
      if !disabled {
        return;
      }
      var left := CleanupReleases(found);
      result := result.(left := Some(left));
      var reached := PublicHealth();
    }

    /** Stops the old backend and keeps it from being started at boot; only an exception ends the run. */
    method RetireOld() returns (stopped: bool, goOn: bool)
      requires Tracked() && previous.activeSlot.Some? && OldSlot() == Other(NewSlot())
      requires host.nginxLoaded == Some(PortOf(NewSlot()))
      modifies this`host, this`trace, this`failures, this`enabled
      ensures Tracked() && old(trace) <= trace
      ensures SamePublic(old(host), host, OldSlot()) && host.env == old(host).env && host.dirs == old(host).dirs
      ensures host.brokerUnit == old(host).brokerUnit && host.brokerLoaded == old(host).brokerLoaded
      ensures OldSlot() in host.running ==> host.running == old(host).running
      ensures stopped ==> OldSlot() !in host.running
      ensures old(enabled) - {OldSlot()} <= enabled
      ensures failures >= old(failures)
      ensures failures == old(failures) ==> stopped && goOn && OldSlot() !in enabled
    {
      goOn := false;
      var stop := StopBackend(Other(NewSlot()));
      stopped := stop.Zero?;
      if stop.Raised? {
        return;
      }
      var disable := DisableUnit(Other(NewSlot()));
      var disableLegacy := Query();
      goOn := !disable.Raised? && !disableLegacy.Raised?;
    }

    /** The handler of the first guarded block: stop the candidate, restore the broker, drop the directory. */
    method Withdraw() returns (outcome: Outcome)
      requires Tracked() && host.nginxLoaded != Some(PortOf(NewSlot()))
      modifies this`host, this`trace, this`failures
      ensures Tracked() && old(trace) <= trace
      ensures SamePublic(old(host), host, NewSlot()) && host.env == old(host).env
      ensures outcome.CandidateFailed?
      ensures NewSlot() in host.running ==> host.running == old(host).running
      ensures outcome.undone ==> host.brokerUnit == previousBroker
      ensures outcome.undone && previousBroker.Some? ==> host.brokerLoaded == previousBroker
      ensures host.dirs == if outcome.removed then old(host).dirs - {release} else old(host).dirs
      ensures outcome.removed ==> outcome.undone && inReleases
      ensures failures >= old(failures)
      ensures failures == old(failures) ==> outcome == CandidateFailed(true, inReleases) && NewSlot() !in host.running
    {
      var stop := StopBackend(NewSlot());
      if stop.Raised? {
        return CandidateFailed(false, false);
      }
      var restored := RestoreBroker();
      var removed := false;
      if restored && inReleases {
        removed := Replace(host.(dirs := host.dirs - {release}));
      }
      return CandidateFailed(restored, removed);
    }

    /** The second guarded block with its handler, and what follows it. */
    method Handover(ghost a: Host, found: seq<Path>) returns (outcome: Outcome)
      requires Tracked() && Safe(a) && previous == a.record && previousBroker == a.brokerUnit
      requires SamePublic(a, host, NewSlot()) && host.env == a.env[NewSlot() := release]
      requires host.dirs == a.dirs && host.brokerUnit == Some(release)
      requires NewSlot() in host.running && NewSlot() in host.healthy && host.running[NewSlot()] == release
      requires release in host.dirs && forall p :: p in found <==> p in host.dirs
      modifies this
      ensures Tracked() && old(trace) <= trace
      ensures outcome.SwitchFailed? || outcome.Activated?
      ensures DeployTraffic(a, release, outcome, host)
      ensures Settled(a) ==> DeployRel(a, release, outcome, host)
      ensures failures >= old(failures)
      ensures failures == old(failures) ==> outcome == Activated(DrainResult(true, Some({})))
      ensures outcome.Activated? ==> answered
      ensures failures == old(failures) + 1 ==>
                outcome != SwitchFailed(false) && (outcome.SwitchFailed? ==> NewSlot() !in host.running)
      ensures failures == old(failures) ==> NewSlot() in enabled && OldSlot() !in enabled
      ensures !outcome.Activated? ==> enabled == old(enabled)
    {
      var switched := Switch();
      if !switched {
        var undone := Rollback();
        return SwitchFailed(undone);
      }
      var drain := Drain(found);
      return Activated(drain);
    }

    /** systemctl is-active answers with its status; only an exception is a failure. */
    method Query() returns (exit: Exit)
      modifies this`failures
      ensures failures == old(failures) + if exit.Raised? then 1 else 0
    {
      exit := *;
      if exit.Raised? {
        failures := failures + 1;
      }
    }

    /**
      Every step of every run is live as long as the run starts from a safe host. What the run
      leaves is said twice: of the traffic for any such host, and of everything for a settled one.
     */
    method Deploy(found: seq<Path>) returns (outcome: Outcome)
      requires Tracked() && Safe(host)
      requires previous == host.record && previousBroker == host.brokerUnit
      requires forall p :: p in found <==> p in host.dirs
      modifies this
      ensures Tracked() && old(trace) <= trace
      ensures DeployTraffic(old(host), release, outcome, host)
      ensures Settled(old(host)) ==> DeployRel(old(host), release, outcome, host)
      ensures failures >= old(failures)
      ensures failures == old(failures) && release in old(host).dirs ==>
                outcome == Activated(DrainResult(true, Some({})))
      ensures outcome.Activated? ==> answered
      ensures failures == old(failures) && release in old(host).dirs ==> NewSlot() in enabled && OldSlot() !in enabled
      ensures !outcome.Activated? ==> enabled == old(enabled)
      ensures failures == old(failures) + 1 ==>
                && outcome != SwitchFailed(false)
                && (outcome.CandidateFailed? ==> outcome == CandidateFailed(true, inReleases))
                && (outcome.CandidateFailed? || outcome.SwitchFailed? ==> NewSlot() !in host.running)
    {
      var valid := Attempt();
      if !valid || release !in host.dirs {
        return Refused;
      }
      var started := StartCandidate();
      if !started {
        outcome := Withdraw();
        return;
      }
      var probe := Query();
      if probe.Raised? {
        return Abandoned;
      }
      outcome := Handover(old(host), found);
    }

    /**
      rollback_release.main after the record has been read: `this` was built with the
      active release as its (unused) candidate. It may start from any live host. `ok` says that
      the record was swapped; the script then still reports an error unless the public address answers.
     */
    method RestorePrevious() returns (ok: bool)
      requires Tracked() && RecordOk(host.record) && previous == host.record
      modifies this
      ensures Tracked() && old(trace) <= trace
      ensures RestoreTraffic(old(host), ok, host)
      ensures Settled(old(host)) ==> RestoreRel(old(host), ok, host)
      ensures failures >= old(failures)
      ensures failures == old(failures) && CanRestore(old(host)) ==>
                && ok && answered && previous.previousSlot.value in enabled && OldSlot() !in enabled
                && OldSlot() !in host.running
      ensures ok ==> host.brokerUnit == Some(release)
      ensures previous.previousRelease == None || previous.previousRelease.value !in old(host).dirs ==>
                !ok && host == old(host)
    {
      ok := false;
      if previous.previousSlot.None? || previous.previousPort.None? || previous.previousRelease.None? {
        return;
      }
      if previous.previousRelease.value !in host.dirs {
        return;
      }
      var slot := previous.previousSlot.value;
      var started := StartPrevious(slot);
      if !started {
        return;
      }
      var activated, raised := ActivateNginx(slot);
      if !activated {
        return;
      }
      ok := RecordPrevious(slot);
      if ok {
        var reached := PublicHealth();
      }
    }

    /** The units, and the previous backend up and healthy. */
    method StartPrevious(slot: Slot) returns (ok: bool)
      requires Tracked()
      modifies this`host, this`trace, this`failures, this`enabled
      ensures Tracked() && old(trace) <= trace
      ensures SamePublic(old(host), host, slot) && host.env == old(host).env && host.dirs == old(host).dirs
      ensures host.brokerLoaded == old(host).brokerLoaded && (ok ==> host.brokerUnit == Some(release))
      ensures slot in host.running ==>
                if slot in old(host).running then host.running[slot] == old(host).running[slot]
                else slot in host.env && host.running[slot] == host.env[slot]
      ensures ok ==> slot in host.running && slot in host.healthy && slot in enabled
      ensures failures >= old(failures)
      ensures failures == old(failures) && (slot in host.env || slot in old(host).running) ==> ok
    {
      ok := false;
      var unit := Replace(UnitWritten(host, Some(release)));
      var units := Attempt();
      if !unit || !units {
        return;
      }
      var enable := EnableUnit(slot);
      if !enable.Zero? {
        return;
      }
      var started := StartBackend(slot);
      if !started {
        return;
      }
      ok := Health(slot);
    }

    /** systemctl start: nothing happens to a backend that already runs. */
    method StartBackend(slot: Slot) returns (ok: bool)
      requires Tracked()
      modifies this`host, this`trace, this`failures
      ensures Tracked() && old(trace) <= trace
      ensures SamePublic(old(host), host, slot) && host.env == old(host).env && host.dirs == old(host).dirs
      ensures host.brokerUnit == old(host).brokerUnit && host.brokerLoaded == old(host).brokerLoaded
      ensures slot in host.running ==>
                if slot in old(host).running then host.running[slot] == old(host).running[slot]
                else slot in host.env && host.running[slot] == host.env[slot]
      ensures failures >= old(failures)
      ensures failures == old(failures) ==>
                ok && (slot in host.env || slot in old(host).running ==> slot in host.running)
    {
      if slot in host.running {
        var exit := Command();
        return exit.Zero?;
      }
      assert Live(host);
      ok := RestartBackend(slot);
    }

    /** The part of rollback_release after the gateway switch: link, slot file, stop, record. */
    method RecordPrevious(slot: Slot) returns (ok: bool)
      requires Tracked() && previous.activeSlot.Some? && previous.previousRelease.Some?
      requires slot != OldSlot() && host.nginxLoaded == Some(PortOf(slot))
      modifies this`host, this`trace, this`failures, this`enabled
      ensures Tracked() && old(trace) <= trace
      ensures host.nginxFile == old(host).nginxFile && host.nginxLoaded == old(host).nginxLoaded
      ensures OtherSlotKept(old(host), host, OldSlot()) && host.env == old(host).env && host.dirs == old(host).dirs
      ensures host.brokerUnit == old(host).brokerUnit && host.brokerLoaded == old(host).brokerLoaded
      ensures OldSlot() in host.running ==> host.running == old(host).running
      ensures ok ==>
                && host.current == previous.previousRelease && host.slotFile == Some(slot)
                && host.record == Swapped(previous)
      ensures !ok ==> host.record == old(host.record)
      ensures failures >= old(failures)
      ensures old(enabled) - {OldSlot()} <= enabled
      ensures failures == old(failures) ==> ok && OldSlot() !in enabled && OldSlot() !in host.running
    {
      ok := false;
      var linked := Replace(host.(current := previous.previousRelease));
      if !linked {
        return;
      }
      var marked := Replace(host.(slotFile := Some(slot)));
      if !marked {
        return;
      }
      var stop := StopBackend(OldSlot());
      if stop.Raised? {
        return;
      }
      var disable := DisableUnit(OldSlot());
      if disable.Raised? {
        return;
      }
      ok := Replace(host.(record := Swapped(previous)));
    }
  }

  /** The record deploy writes after a handover. */
  function NextRecord(previous: Record, slot: Slot, release: Path): Record {
    Record(Some(slot), Some(PortOf(slot)), Some(release),
           previous.activeSlot, previous.activePort, previous.activeRelease)
  }

  /** The record rollback_release writes. */
  function Swapped(r: Record): Record {
    Record(r.previousSlot, r.previousPort, r.previousRelease, r.activeSlot, r.activePort, r.activeRelease)
  }

  /** What any finished deploy does to the traffic and the record, from any safe host. */
  ghost predicate DeployTraffic(a: Host, release: Path, outcome: Outcome, b: Host)
    requires Safe(a)
  {
    var was := a.record.activeSlot.value;
    var next := NextRecord(a.record, Other(was), release);
    && Live(b)
    && match outcome
       case Refused => b == a
       case CandidateFailed(_, _) => b.nginxLoaded == a.nginxLoaded && b.record == a.record && Up(b, was)
       case Abandoned => b.nginxLoaded == a.nginxLoaded && b.record == a.record && Up(b, was)
       case SwitchFailed(undone) =>
         && Up(b, was) && (b.record == a.record || b.record == next)
         && (b.nginxLoaded != Some(PortOf(was)) ==> Up(b, Other(was)))
         && (undone ==> RecordedAgain(a, b) && BrokerKept(a, b))
       case Activated(_) =>
         && b.record == next && Names(b, Other(was), release)
         && b.brokerUnit == b.brokerLoaded == Some(release)
  }

  /** nginx, link and slot file are what the unchanged record says, wherever they pointed before. */
  ghost predicate RecordedAgain(a: Host, b: Host)
    requires ActiveKnown(a.record)
  {
    && b.record == a.record
    && b.nginxFile == b.nginxLoaded == Some(PortOf(a.record.activeSlot.value))
    && b.current == a.record.activeRelease && b.slotFile == a.record.activeSlot
  }

  /** What any finished rollback_release does to them, from any live host. */
  ghost predicate RestoreTraffic(a: Host, ok: bool, b: Host)
    requires RecordOk(a.record)
  {
    var was := a.record.activeSlot.value;
    && Live(b) && b.brokerLoaded == a.brokerLoaded
    && (ok ==> a.record.previousSlot.Some? && b.record == Swapped(a.record)
               && b.nginxLoaded == Some(PortOf(Other(was))) && Up(b, Other(was)))
    && (!ok ==> b.record == a.record
                && (Up(a, was) && b.nginxLoaded != Some(PortOf(Other(was))) ==> Up(b, was)))
  }

  /** What a finished deploy of `release` guarantees for a settled host, whatever failed on the way. */
  ghost predicate DeployRel(a: Host, release: Path, outcome: Outcome, b: Host)
    requires Settled(a)
  {
    var was := a.record.activeSlot.value;
    && Live(b)
    && match outcome
       case Refused => b == a
       case Activated(drain) =>
         && Names(b, Other(was), release)
         && b.record == NextRecord(a.record, Other(was), release)
         && b.brokerUnit == b.brokerLoaded == Some(release)
         && b.env == a.env[Other(was) := release]
         && (was in b.running ==> b.running[was] == a.running[was])
         && (drain.stopped ==> was !in b.running)
         && Cleaned(a.dirs, {release, a.record.activeRelease.value}, drain, b.dirs)
         && release in a.dirs
       case CandidateFailed(undone, removed) =>
         && KeptOld(a, b)
         && (undone ==> BrokerKept(a, b))
         && (b.env == a.env || b.env == a.env[Other(was) := release])
         && (Other(was) in b.running ==>
               || (Other(was) in a.running && b.running[Other(was)] == a.running[Other(was)])
               || (b.env == a.env[Other(was) := release] && b.running[Other(was)] == release))
         && b.dirs == (if removed then a.dirs - {release} else a.dirs)
       case Abandoned =>
         && KeptOld(a, b)
         && b.brokerUnit == Some(release) && b.brokerLoaded == a.brokerLoaded
         && b.env == a.env[Other(was) := release] && b.dirs == a.dirs
         && Other(was) in b.running && b.running[Other(was)] == release
       case SwitchFailed(undone) =>
         && (undone ==> KeptOld(a, b) && BrokerKept(a, b))
         && b.env == a.env[Other(was) := release] && b.dirs == a.dirs
         && (Other(was) in b.running ==> b.running[Other(was)] == release)
         && was in b.running && b.running[was] == a.running[was]
         && (b.record == a.record || b.record == NextRecord(a.record, Other(was), release))
  }

  /** Cleanup keeps the two releases and what it failed to remove; with fewer than two it removes nothing. */
  ghost predicate Cleaned(dirs: set<Path>, keep: set<Path>, drain: DrainResult, dirs': set<Path>) {
    match drain.left
    case None => dirs' == dirs
    case Some(left) => left <= dirs - keep && dirs' == if |keep| < 2 then dirs else dirs * keep + left
  }

  /** nginx, link, slot file and record name what they named before, and it still serves. */
  ghost predicate KeptOld(a: Host, b: Host)
    requires Settled(a)
  {
    && b.record == a.record
    && Names(b, a.record.activeSlot.value, a.record.activeRelease.value)
  }

  ghost predicate BrokerKept(a: Host, b: Host) {
    && b.brokerUnit == a.brokerUnit
    && (a.brokerUnit.Some? ==> b.brokerLoaded == a.brokerUnit)
  }

  /** What the previous slot serves once started: a running backend is left alone, else its environment decides. */
  ghost function ServedByPrevious(h: Host): Option<Path>
    requires h.record.previousSlot.Some?
  {
    var slot := h.record.previousSlot.value;
    if slot in h.running then Some(h.running[slot])
    else if slot in h.env then Some(h.env[slot])
    else None
  }

  /** What rollback_release guarantees. */
  ghost predicate RestoreRel(a: Host, ok: bool, b: Host)
    requires Settled(a)
  {
    && Live(b) && b.env == a.env && b.dirs == a.dirs && b.brokerLoaded == a.brokerLoaded
    && (ok ==>
          && var was := a.record.activeSlot.value;
          && a.record.previousSlot.Some? && a.record.previousRelease.Some?
          && (was in b.running ==> b.running[was] == a.running[was])
          && b.record == Swapped(a.record)
          && b.nginxFile == b.nginxLoaded == Some(PortOf(a.record.previousSlot.value))
          && b.current == a.record.previousRelease
          && b.slotFile == a.record.previousSlot
          && a.record.previousSlot.value in b.running && a.record.previousSlot.value in b.healthy
          && ServedByPrevious(a) == Some(b.running[a.record.previousSlot.value]))
  }

  /** The record names a previous release that is on disk, and its slot runs or can be started. */
  ghost predicate CanRestore(h: Host) {
    && h.record.previousRelease.Some? && h.record.previousRelease.value in h.dirs
    && h.record.previousSlot.Some? && ServedByPrevious(h).Some?
  }

  /** rollback_release would bring back exactly the release its record names. */
  ghost predicate RollbackReady(h: Host) {
    h.record.previousSlot.Some? ==>
      && h.record.previousSlot.value in h.env
      && Some(h.env[h.record.previousSlot.value]) == h.record.previousRelease
      && ServedByPrevious(h) == h.record.previousRelease
  }

  /** Agreement: a deploy of a fresh directory leaves a settled host unless its own rollback failed. */
  lemma DeployKeepsSettled(a: Host, release: Path, outcome: Outcome, b: Host)
    requires Settled(a) && DeployRel(a, release, outcome, b)
    requires Fresh(a.record, release) && outcome != SwitchFailed(false)
    ensures Settled(b)
    ensures if outcome.Activated?
            then Names(b, Other(a.record.activeSlot.value), release) && RollbackReady(b)
            else KeptOld(a, b)
    ensures outcome.Activated? ==> b.brokerUnit == Some(release)
    ensures outcome in {Refused, SwitchFailed(true)} || (outcome.CandidateFailed? && outcome.undone) ==>
              b.brokerUnit == a.brokerUnit
    ensures outcome.Abandoned? ==> b.brokerUnit == Some(release)
  {
    if outcome.Activated? {
      assert PreviousIsOtherSlot(b.record);
    }
  }

  /**
    Why the directory must be fresh: once a failed candidate's directory has been removed,
    the recorded releases are still on disk exactly when it was not one of them.
   */
  lemma RemovedCandidateMustBeFresh(a: Host, release: Path, undone: bool, b: Host)
    requires Settled(a) && DeployRel(a, release, CandidateFailed(undone, true), b)
    ensures RecordedOnDisk(b) <==> Fresh(a.record, release)
  {
    assert b.record == a.record;
  }

  /**
    A successful rollback_release settles the host exactly when it was ready for it. Then the
    host serves the previous release and can itself be rolled back.
   */
  lemma RollbackSettles(a: Host, b: Host)
    requires Settled(a) && RestoreRel(a, true, b)
    ensures Settled(b) <==> RollbackReady(a)
    ensures RollbackReady(a) ==>
              RollbackReady(b) && Names(b, a.record.previousSlot.value, a.record.previousRelease.value)
  {
    var was := a.record.activeSlot.value;
    assert b.record.previousSlot == Some(was);
    assert ServedByPrevious(b) == (if was in b.running then Some(a.running[was]) else Some(a.env[was]));
  }

  /** Two successful rollbacks give back the record, the gateway, the link and the serving release. */
  lemma TwoRollbacksGiveBack(a: Host, b: Host, c: Host)
    requires Settled(a) && RollbackReady(a) && RestoreRel(a, true, b)
    requires Settled(b) && RestoreRel(b, true, c)
    ensures c.record == a.record && Settled(c)
    ensures Names(c, a.record.activeSlot.value, a.record.activeRelease.value)
    ensures c.nginxFile == a.nginxFile && c.nginxLoaded == a.nginxLoaded
    ensures c.current == a.current && c.slotFile == a.slotFile
  {
    RollbackSettles(a, b);
    RollbackSettles(b, c);
  }

  /**
    rollback_release never restarts the broker: after a deploy and a successful rollback_release
    the backend serves the old release, the broker still runs the one that was rolled back.
   */
  lemma BrokerIsNotRolledBack(a: Host, release: Path, drain: DrainResult, b: Host, c: Host)
    requires Settled(a) && DeployRel(a, release, Activated(drain), b)
    requires Settled(b) && RollbackReady(b) && RestoreRel(b, true, c)
    ensures Names(c, a.record.activeSlot.value, a.record.activeRelease.value)
    ensures c.brokerLoaded == Some(release)
  {
    RollbackSettles(b, c);
  }

  /**
    No unsuccessful deploy restores the environment of the slot it used. As long as the record
    is the old one, the host stays ready for rollback_release exactly when that environment was
    not written, or there is nothing to roll back to; if the rollback was lost after the new
    record was written, the host is ready to return to the old slot.
   */
  lemma ReadinessAfterDeploy(a: Host, release: Path, outcome: Outcome, b: Host)
    requires Settled(a) && RollbackReady(a) && DeployRel(a, release, outcome, b) && !outcome.Activated?
    ensures b.record == a.record ==> (RollbackReady(b) <==> a.record.previousSlot.None? || b.env == a.env)
    ensures b.record != a.record ==> outcome == SwitchFailed(false) && RollbackReady(b)
  {
    var was := a.record.activeSlot.value;
    if a.record.previousSlot.Some? && b.record == a.record {
      assert a.record.previousSlot.value == Other(was);
      if b.env == a.env[Other(was) := release] {
        assert b.env[Other(was)] == release;
        assert b.env == a.env <==> a.env[Other(was)] == release;
      }
    }
  }

  /**
    So after an unsuccessful deploy a successful rollback_release settles the host exactly when
    the environment was not written; otherwise it serves the abandoned candidate, unless a
    backend that was never stopped still serves the old release there.
   */
  lemma RollbackAfterFailedDeploy(a: Host, release: Path, outcome: Outcome, b: Host, c: Host)
    requires Settled(a) && RollbackReady(a) && DeployRel(a, release, outcome, b) && !outcome.Activated?
    requires Settled(b) && b.record == a.record && RestoreRel(b, true, c)
    ensures Settled(c) <==> b.env == a.env
    ensures b.env != a.env ==>
              || c.running[c.record.activeSlot.value] == release
              || (b.record.previousSlot.value in a.running
                  && c.running[c.record.activeSlot.value] == a.running[b.record.previousSlot.value])
  {
    ReadinessAfterDeploy(a, release, outcome, b);
    RollbackSettles(b, c);
    assert ServedByPrevious(b) == Some(c.running[c.record.activeSlot.value]);
  }

  /** After a rolled-back handover it always serves the candidate. */
  lemma RollbackAfterFailedSwitch(a: Host, release: Path, b: Host, c: Host)
    requires Settled(a) && RollbackReady(a) && DeployRel(a, release, SwitchFailed(true), b)
    requires Settled(b) && RestoreRel(b, true, c)
    ensures c.running[c.record.activeSlot.value] == release
    ensures Settled(c) <==> a.record.previousRelease == Some(release)
  {
    var slot := a.record.previousSlot.value;
    assert slot == Other(a.record.activeSlot.value);
    assert ServedByPrevious(b) == Some(release);
    assert a.env[slot := release] == a.env <==> a.env[slot] == release;
    RollbackAfterFailedDeploy(a, release, SwitchFailed(true), b, c);
  }

  // ---- Traffic over whole runs -------------------------------------------------

  lemma SettledIsSafe(h: Host)
    requires Settled(h)
    ensures Safe(h) && RecordOk(h.record)
  {
    assert PortOf(h.record.activeSlot.value) == h.nginxLoaded.value;
  }

  /**
    Whatever the outcome of a deploy that started from a safe host, the next one is safe again
    exactly when nginx does not forward to the slot that the record calls inactive.
   */
  lemma SafeAfterDeploy(a: Host, release: Path, outcome: Outcome, b: Host)
    requires Safe(a) && DeployTraffic(a, release, outcome, b)
    ensures Safe(b) <==> b.nginxLoaded != Some(PortOf(Other(b.record.activeSlot.value)))
    ensures !Safe(b) ==> outcome == SwitchFailed(false)
  {
  }

  /**
    A successful rollback_release makes every live host safe; a failed one keeps a safe host safe
    unless nginx has moved.
   */
  lemma SafeAfterRestore(a: Host, ok: bool, b: Host)
    requires RecordOk(a.record) && RestoreTraffic(a, ok, b)
    ensures ok ==> Safe(b)
    ensures Safe(a) ==> (Safe(b) <==> b.nginxLoaded != Some(PortOf(Other(b.record.activeSlot.value))))
  {
  }

  datatype Step = Deployed(release: Path, outcome: Outcome) | RolledBack(ok: bool)

  /** One finished script run with any outcome. Nothing is said of a deploy that starts from an unsafe host. */
  ghost predicate Next(a: Host, step: Step, b: Host) {
    match step
    case Deployed(release, outcome) =>
      Safe(a) ==> DeployTraffic(a, release, outcome, b) && (Settled(a) ==> DeployRel(a, release, outcome, b))
    case RolledBack(ok) =>
      RecordOk(a.record) ==> RestoreTraffic(a, ok, b) && (Settled(a) ==> RestoreRel(a, ok, b))
  }

  /** nginx forwards to the slot that the record calls inactive. */
  ghost predicate Astray(h: Host) {
    h.record.activeSlot.Some? && h.nginxLoaded == Some(PortOf(Other(h.record.activeSlot.value)))
  }

  /** The script ended before it had put things right: the only steps that may leave the gateway astray. */
  ghost predicate Lost(step: Step) {
    match step
    case Deployed(_, outcome) => outcome == SwitchFailed(false)
    case RolledBack(ok) => !ok
  }

  lemma {:induction false} SafeSoFar(hosts: seq<Host>, steps: seq<Step>, k: nat)
    requires |hosts| == |steps| + 1 && Safe(hosts[0]) && RecordOk(hosts[0].record)
    requires forall i :: 0 <= i < |steps| ==> Next(hosts[i], steps[i], hosts[i + 1])
    requires forall i :: 0 <= i < |steps| && Lost(steps[i]) ==> !Astray(hosts[i + 1])
    requires k < |hosts|
    ensures Safe(hosts[k]) && RecordOk(hosts[k].record)
  {
    if k > 0 {
      SafeSoFar(hosts, steps, k - 1);
      var a, step, b := hosts[k - 1], steps[k - 1], hosts[k];
      assert Next(a, step, hosts[k - 1 + 1]) && (Lost(step) ==> !Astray(hosts[k - 1 + 1]));
      match step {
        case Deployed(release, outcome) => SafeAfterDeploy(a, release, outcome, b);
        case RolledBack(ok) => SafeAfterRestore(a, ok, b);
      }
    }
  }

  /**
    What a deploy needs of its host is discharged by a look at the host after the two failures:
    over a run from a safe host, every host is safe exactly when no lost handover and no failed
    rollback_release left nginx forwarding to the slot that the record calls inactive.
   */
  lemma RunsStaySafe(hosts: seq<Host>, steps: seq<Step>)
    requires |hosts| == |steps| + 1 && Safe(hosts[0]) && RecordOk(hosts[0].record)
    requires forall i :: 0 <= i < |steps| ==> Next(hosts[i], steps[i], hosts[i + 1])
    ensures (forall i :: 0 <= i < |hosts| ==> Safe(hosts[i]))
            <==> (forall i :: 0 <= i < |steps| && Lost(steps[i]) ==> !Astray(hosts[i + 1]))
  {
    if forall i :: 0 <= i < |steps| && Lost(steps[i]) ==> !Astray(hosts[i + 1]) {
      forall k | 0 <= k < |hosts|
        ensures Safe(hosts[k])
      {
        SafeSoFar(hosts, steps, k);
      }
    }
  }

  /**
    Over every run, whatever fails, traffic is on a live slot and the record stays well formed
    between scripts. rollback_release may start from any host of the run, a deploy from a safe one.
   */
  lemma {:induction false} RunsStayLive(hosts: seq<Host>, steps: seq<Step>, k: nat)
    requires |hosts| == |steps| + 1 && Live(hosts[0]) && RecordOk(hosts[0].record)
    requires forall i :: 0 <= i < |steps| ==>
               Next(hosts[i], steps[i], hosts[i + 1]) && (steps[i].Deployed? ==> Safe(hosts[i]))
    requires k < |hosts|
    ensures Live(hosts[k]) && RecordOk(hosts[k].record)
  {
    if k > 0 {
      RunsStayLive(hosts, steps, k - 1);
      assert Next(hosts[k - 1], steps[k - 1], hosts[k - 1 + 1]);
    }
  }

  /** A run that keeps the records in agreement as well. */
  ghost predicate Orderly(a: Host, step: Step) {
    match step
    case Deployed(release, outcome) => Fresh(a.record, release) && outcome != SwitchFailed(false)
    case RolledBack(ok) => ok && RollbackReady(a)
  }

  /**
    Agreement over runs from a settled host whose deploys use fresh directories and do not lose
    their own rollback, and whose rollbacks succeed from a host that is ready for them.
   */
  lemma {:induction false} RunsStaySettled(hosts: seq<Host>, steps: seq<Step>, k: nat)
    requires |hosts| == |steps| + 1 && Settled(hosts[0])
    requires forall i :: 0 <= i < |steps| ==> Next(hosts[i], steps[i], hosts[i + 1]) && Orderly(hosts[i], steps[i])
    requires k < |hosts|
    ensures Settled(hosts[k]) && Safe(hosts[k])
  {
    if k == 0 {
      SettledIsSafe(hosts[0]);
    } else {
      RunsStaySettled(hosts, steps, k - 1);
      var a, b := hosts[k - 1], hosts[k];
      assert Next(hosts[k - 1], steps[k - 1], hosts[k - 1 + 1]) && Orderly(a, steps[k - 1]);
      match steps[k - 1] {
        case Deployed(release, outcome) => DeployKeepsSettled(a, release, outcome, b);
        case RolledBack(_) => RollbackSettles(a, b);
      }
      SettledIsSafe(b);
    }
  }

  // ---- Where traffic can be lost -----------------------------------------------

  /** The candidate is started and answers: what every deploy begins with. */
  function StartRun(h: Host, slot: Slot, release: Path): seq<Host> {
    var unit := UnitWritten(h, Some(release));
    var environment := EnvironmentWritten(unit, slot, release);
    var started := Restarted(environment, slot, true);
    [h, unit, environment, started, Answered(started, slot)]
  }

  /** The broker is restarted, the gateway moves to the candidate, and nothing works any more. */
  function HandoverRun(h: Host, slot: Slot, release: Path): seq<Host> {
    var start := StartRun(h, slot, release);
    var broker := BrokerRestarted(start[4]);
    var written := GatewayWritten(broker, Some(PortOf(slot)));
    start + [broker, written, GatewayLoaded(written)]
  }

  /**
    A live run that ends a deploy unsafely: after the reload the link cannot be replaced, and
    the rollback fails at its first command. The record is the old one, the traffic is not.
   */
  lemma LostRollbackIsUnsafe(a: Host, release: Path)
    requires Settled(a) && release in a.dirs
    ensures var run := HandoverRun(a, Other(a.record.activeSlot.value), release);
            && AllLive(run)
            && Safe(a) && DeployTraffic(a, release, SwitchFailed(false), run[7])
            && DeployRel(a, release, SwitchFailed(false), run[7])
            && run[7].record == a.record && !Safe(run[7])
  {
    SettledIsSafe(a);
    var now := Other(a.record.activeSlot.value);
    var run := HandoverRun(a, now, release);
    forall i | 0 <= i < |run|
      ensures Live(run[i])
    {
      assert PortOf(if i < 7 then a.record.activeSlot.value else now) == run[i].nginxLoaded.value;
    }
  }

  /** The undo of a handover whose broker restart failed, up to the reload of nginx. */
  function UndoRun(h: Host, slot: Slot, broker: Option<Path>): seq<Host> {
    var first := if broker.Some? then UnitWritten(h, broker) else h.(brokerLoaded := None);
    var second := if broker.Some? then BrokerRestarted(first) else UnitWritten(first, broker);
    var written := GatewayWritten(second, Some(PortOf(slot)));
    [first, second, written, GatewayLoaded(written)]
  }

  /**
    The guard is exact: from a live host that is not safe, a deploy can take the traffic down.
    Either it restarts the slot that nginx forwards to, or, with nginx down, it rolls a failed
    handover back to an old slot that does not serve.
   */
  lemma UnsafeDeployBreaksTraffic(h: Host, release: Path)
    requires Live(h) && ActiveKnown(h.record) && !Safe(h)
    ensures var was := h.record.activeSlot.value;
            var start := StartRun(h, Other(was), release);
            if h.nginxLoaded == Some(PortOf(Other(was))) then !Live(start[3])
            else !Live(UndoRun(start[4], was, h.brokerUnit)[3])
  {
    var was := h.record.activeSlot.value;
    if h.nginxLoaded != Some(PortOf(Other(was))) {
      assert !Up(h, was) && h.nginxLoaded == None;
    }
  }
}
