/**
  Appliance restore: `ApplianceBackupService.restore` of backend/app/appliance_backup.py
  with its undo log, and the path rules that choose the targets.

  The file system is a map from paths to files. A copy is atomic; every step may fail.
 */
module Restore {
  import opened Wrappers
  import opened Text

  /** A path as its components. */
  type Path = seq<string>

  type Content = string

  datatype File = File(content: Content, mode: nat)

  type Files = map<Path, File>

  datatype Kind = Plain | Sqlite

  /** A resource whose bytes are staged and whose target is known. */
  datatype Staged = Staged(content: Content, target: Path, kind: Kind, mode: Option<int>)

  const PRIVATE := 384  // 0o600

  function EndsWith(s: string, suffix: string): bool {
    |suffix| <= |s| && s[|s| - |suffix|..] == suffix
  }

  /** The permission bits a restored file gets: those recorded, but private for keys and secrets. */
  function TargetMode(r: Staged): nat {
    if (r.target != [] && EndsWith(r.target[|r.target| - 1], ".key")) || "secrets" in r.target then PRIVATE
    else if r.mode.None? then PRIVATE
    else r.mode.value % 512
  }

  function NewFile(r: Staged): File {
    File(r.content, TargetMode(r))
  }

  /** One entry of the undo log: the target and what to put back, if it existed. */
  datatype Change = Change(target: Path, previous: Option<File>)

  function Before(fs: Files, target: Path): Option<File> {
    if target in fs then Some(fs[target]) else None
  }

  /** The permission bits of a file, without its set-id and sticky bits. */
  function Plainly(f: File): File {
    f.(mode := f.mode % 512)
  }

  /** The preimage: the whole content, but of the mode the permission bits only. */
  function Logged(fs: Files, target: Path): Option<File> {
    if target in fs then Some(Plainly(fs[target])) else None
  }

  function UndoOne(fs: Files, c: Change): Files {
    match c.previous
    case None => fs - {c.target}
    case Some(f) => fs[c.target := f]
  }

  /** The log undone from its end. */
  function Undo(fs: Files, log: seq<Change>): Files
    decreases |log|
  {
    if log == [] then fs
    else Undo(UndoOne(fs, log[|log| - 1]), log[..|log| - 1])
  }

  /** The same log undone from its start, for comparison. */
  function UndoForward(fs: Files, log: seq<Change>): Files
    decreases |log|
  {
    if log == [] then fs else UndoForward(UndoOne(fs, log[0]), log[1..])
  }

  /** All records written in order. */
  function WriteAll(fs: Files, records: seq<Staged>): Files
    decreases |records|
  {
    if records == [] then fs
    else
      var last := records[|records| - 1];
      WriteAll(fs, records[..|records| - 1])[last.target := NewFile(last)]
  }

  /** The log restore keeps while writing `records`. */
  function Log(fs: Files, records: seq<Staged>): (log: seq<Change>)
    ensures |log| == |records|
    decreases |records|
  {
    if records == [] then []
    else
      var init, last := records[..|records| - 1], records[|records| - 1];
      Log(fs, init) + [Change(last.target, Logged(WriteAll(fs, init), last.target))]
  }

  function Targets(records: seq<Staged>): set<Path> {
    set r | r in records :: r.target
  }

  /** The files with the modes of some targets reduced to their permission bits. */
  function Masked(fs: Files, targets: set<Path>): Files {
    map p | p in fs :: if p in targets then Plainly(fs[p]) else fs[p]
  }

  function Reduced(fs: Files, target: Path): Files {
    if target in fs then fs[target := Plainly(fs[target])] else fs
  }

  predicate PlainModes(fs: Files, targets: set<Path>) {
    forall p :: p in targets && p in fs ==> fs[p].mode < 512
  }

  lemma MaskedIsOriginal(fs: Files, targets: set<Path>)
    ensures Masked(fs, targets) == fs <==> PlainModes(fs, targets)
  {
    if Masked(fs, targets) == fs {
      forall p | p in targets && p in fs
        ensures fs[p].mode < 512
      {
        assert Masked(fs, targets)[p] == fs[p];
      }
    }
  }

  lemma {:induction false} WrittenModesArePlain(fs: Files, records: seq<Staged>)
    ensures forall t :: t in Targets(records) ==> t in WriteAll(fs, records) && WriteAll(fs, records)[t].mode < 512
    decreases |records|
  {
    if records != [] {
      var init, last := records[..|records| - 1], records[|records| - 1];
      assert records == init + [last];
      WrittenModesArePlain(fs, init);
    }
  }

  /** Reverse-order undo gives back every file with its permission bits, however often a target repeats. */
  lemma {:induction false} UndoGivesBackOriginals(fs: Files, records: seq<Staged>)
    ensures Undo(WriteAll(fs, records), Log(fs, records)) == Masked(fs, Targets(records))
    decreases |records|
  {
    if records == [] {
      MaskedIsOriginal(fs, {});
    } else {
      var init, last := records[..|records| - 1], records[|records| - 1];
      var log, written := Log(fs, records), WriteAll(fs, init);
      assert log[..|log| - 1] == Log(fs, init);
      assert records == init + [last];
      assert Targets(records) == Targets(init) + {last.target};
      UndoGivesBackOriginals(fs, init);
      UndoneWrite(written, last.target, NewFile(last));
      assert Undo(WriteAll(fs, records), log) == Undo(Reduced(written, last.target), Log(fs, init));
      if last.target in Targets(init) {
        WrittenIsReduced(fs, init, last.target);
        assert Targets(init) + {last.target} == Targets(init);
      } else {
        LogCoversTargets(fs, init, last.target);
        ReduceThenUndo(written, Log(fs, init), last.target);
        MaskedOneMore(fs, Targets(init), last.target);
      }
    }
  }

  lemma MaskedOneMore(fs: Files, targets: set<Path>, target: Path)
    ensures Reduced(Masked(fs, targets), target) == Masked(fs, targets + {target})
  {
  }

  /** Undoing a write reduces its target's mode. */
  lemma UndoneWrite(fs: Files, target: Path, f: File)
    ensures UndoOne(fs[target := f], Change(target, Logged(fs, target))) == Reduced(fs, target)
  {
  }

  lemma ReduceThenUndo(fs: Files, log: seq<Change>, target: Path)
    requires forall c :: c in log ==> c.target != target
    ensures Undo(Reduced(fs, target), log) == Reduced(Undo(fs, log), target)
  {
    UndoTouchesTargets(fs, log, target);
    assert Before(Undo(fs, log), target) == Before(fs, target);
    if target in fs {
      UndoAndLaterWrite(fs, log, target, Plainly(fs[target]));
    }
  }

  lemma WrittenIsReduced(fs: Files, records: seq<Staged>, target: Path)
    requires target in Targets(records)
    ensures Reduced(WriteAll(fs, records), target) == WriteAll(fs, records)
  {
    WrittenModesArePlain(fs, records);
  }

  /** Set-id bits of a target do not survive: a set-group-id file comes back without the bit. */
  lemma SetIdBitsAreLost(r: Staged, content: Content)
    ensures var fs := map[r.target := File(content, 1440)];  // 0o2640
            Undo(WriteAll(fs, [r]), Log(fs, [r])) == map[r.target := File(content, 416)] != fs  // 0o640
  {
    var fs := map[r.target := File(content, 1440)];
    UndoGivesBackOriginals(fs, [r]);
    assert r in [r];
    assert Masked(fs, Targets([r])) == map[r.target := File(content, 416)];
    assert fs[r.target] != File(content, 416);
  }

  /** Undoing from the start instead loses the original when two records share a target. */
  lemma ForwardUndoLosesOriginals(target: Path, original: File, a: Staged, b: Staged)
    requires a.target == b.target == target && NewFile(a) != original
    ensures var fs := map[target := original];
            UndoForward(WriteAll(fs, [a, b]), Log(fs, [a, b])) != fs
  {
    var fs := map[target := original];
    assert [a, b][..1] == [a] && [a][..0] == [];
    assert WriteAll(fs, [a]) == fs[target := NewFile(a)];
    assert Plainly(NewFile(a)) == NewFile(a);
    assert Log(fs, [a]) == [Change(target, Some(Plainly(original)))];
    var log := [Change(target, Some(Plainly(original))), Change(target, Some(NewFile(a)))];
    assert Log(fs, [a, b]) == log;
    assert log[1..][1..] == [];
    var written := WriteAll(fs, [a, b]);
    assert UndoForward(written, log) == UndoForward(written[target := Plainly(original)], log[1..]);
    var first := written[target := Plainly(original)];
    assert UndoForward(first, log[1..]) == UndoForward(first[target := NewFile(a)], []);
  }

  /** After a complete restore a target holds its last record and nothing else has changed. */
  lemma {:induction false} WriteAllContents(fs: Files, records: seq<Staged>, path: Path)
    ensures path in WriteAll(fs, records) <==> path in fs || path in Targets(records)
    ensures path !in Targets(records) && path in fs ==> WriteAll(fs, records)[path] == fs[path]
    ensures forall i :: 0 <= i < |records| && records[i].target == path && path !in Targets(records[i + 1..]) ==>
              path in WriteAll(fs, records) && WriteAll(fs, records)[path] == NewFile(records[i])
    decreases |records|
  {
    if records != [] {
      var n := |records| - 1;
      WriteAllContents(fs, records[..n], path);
      assert records == records[..n] + [records[n]];
      forall i | 0 <= i < |records| && records[i].target == path && path !in Targets(records[i + 1..])
        ensures path in WriteAll(fs, records) && WriteAll(fs, records)[path] == NewFile(records[i])
      {
        if i < n {
          assert records[i + 1..][n - i - 1] == records[n];
          assert records[n].target in Targets(records[i + 1..]);
          assert records[..n][i + 1..] + [records[n]] == records[i + 1..];
        }
      }
    }
  }

  /**
    What is in a restored file: the staged bytes of the last record for that target, readable
    by the owner alone when it is a key or lies below a directory of secrets, else with the
    recorded permission bits.
   */
  lemma RestoredContents(fs: Files, records: seq<Staged>, i: nat)
    requires i < |records| && records[i].target !in Targets(records[i + 1..])
    ensures var r := records[i];
            && r.target in WriteAll(fs, records)
            && var f := WriteAll(fs, records)[r.target];
               && f.content == r.content
               && ("secrets" in r.target ==> f.mode == 0x180)  // 0o600
               && (forall name, parent :: r.target == parent + [name + ".key"] ==> f.mode == 0x180)
               && ("secrets" !in r.target && (forall name, parent :: r.target != parent + [name + ".key"]) ==>
                     f.mode == match r.mode case None => 0x180 case Some(mode) => mode % 0x200)
  {
    var r := records[i];
    WriteAllContents(fs, records, r.target);
    forall name, parent
      ensures r.target == parent + [name + ".key"] ==> EndsWith(r.target[|r.target| - 1], ".key")
    {
      assert (name + ".key")[|name|..] == ".key";
    }
    if r.target != [] {
      var n := |r.target| - 1;
      var last := r.target[n];
      if EndsWith(last, ".key") {
        assert last == last[..|last| - 4] + ".key";
        assert r.target == r.target[..n] + [last[..|last| - 4] + ".key"];
      }
    }
  }

  /**
    How applying the staged records ends. `Undone(k, late)`: record `k` failed and the log was
    undone; `late` says that it was the integrity check of the file just written.
    `Broken`: the undo itself failed with `left` entries of the log still to undo.
   */
  datatype Outcome = Restored | Undone(k: nat, late: bool) | Broken(k: nat, late: bool, left: nat)

  class RestoreService {
    var files: Files
    ghost var failures: nat         // how many copies and checks have failed
    ghost var verified: set<Path>   // the databases that were checked since they were last written

    constructor (files: Files)
      ensures this.files == files && failures == 0
    {
      this.files := files;
      this.failures := 0;
      this.verified := {};
    }

    /** PRAGMA quick_check on the file in place. */
    method QuickCheck(target: Path) returns (ok: bool)
      modifies this`failures, this`verified
      ensures failures == old(failures) + if ok then 0 else 1
      ensures verified == if ok then old(verified) + {target} else old(verified)
    {
      ok := Attempt();
      if ok {
        verified := verified + {target};
      }
    }

    /** A copy or a check that may fail. */
    method Attempt() returns (ok: bool)
      modifies this`failures
      ensures failures == old(failures) + if ok then 0 else 1
    {
      ok := *;
      if !ok {
        failures := failures + 1;
      }
    }

    /** One record up to its undo-log entry: preimage, atomic copy, integrity check of the copy. */
    method WriteRecord(r: Staged) returns (written: bool, checked: bool, change: Change)
      modifies this
      ensures change == Change(r.target, Logged(old(files), r.target))
      ensures files == if written then old(files)[r.target := NewFile(r)] else old(files)
      ensures checked ==> written
      ensures r.kind == Plain && written ==> checked
      ensures failures == old(failures) + if checked then 0 else 1
      ensures old(verified) - {r.target} <= verified
      ensures r.kind == Sqlite && checked ==> r.target in verified
    {
      change := Change(r.target, Logged(files, r.target));
      written, checked := false, false;
      var preimage := Attempt();
      if !preimage {
        return;
      }
      written := Attempt();
      if !written {
        return;
      }
      files := files[r.target := NewFile(r)];
      verified := verified - {r.target};
      if r.kind == Sqlite {
        checked := QuickCheck(r.target);
      } else {
        checked := true;
      }
    }

    /** The except block: the log from its end; any copy may fail and leave the earlier entries. */
    method UndoChanges(log: seq<Change>) returns (left: nat)
      modifies this`files, this`failures
      ensures left <= |log| && files == Undo(old(files), log[left..])
      ensures failures == old(failures) + if left == 0 then 0 else 1
    {
      left := |log|;
      while left > 0
        invariant left <= |log| && files == Undo(old(files), log[left..])
        invariant failures == old(failures)
      {
        var copied := Attempt();
        if !copied {
          return;
        }
        UndoFirst(old(files), log[left - 1], log[left..]);
        assert [log[left - 1]] + log[left..] == log[left - 1..];
        files := UndoOne(files, log[left - 1]);
        left := left - 1;
      }
    }

    method Apply(records: seq<Staged>) returns (outcome: Outcome)
      modifies this
      ensures outcome.Restored? ==> files == WriteAll(old(files), records)
      ensures outcome.Undone? ==>
                outcome.k < |records| && files == AfterUndo(old(files), records, outcome.k, outcome.late)
      ensures outcome.Broken? ==> outcome.k < |records| && 0 < outcome.left <= outcome.k
                                  && files == PartlyUndone(old(files), records, outcome.k, outcome.late, outcome.left)
      ensures !outcome.Restored? && outcome.late ==> records[outcome.k].kind == Sqlite
      ensures forall p :: p !in Targets(records) ==> Before(files, p) == Before(old(files), p)
      ensures failures == old(failures)
                          + match outcome case Restored => 0 case Undone(_, _) => 1 case Broken(_, _, _) => 2
      ensures outcome.Restored? ==>
                forall i :: 0 <= i < |records| && records[i].kind == Sqlite
                            && (forall j :: i < j < |records| ==> records[j].target != records[i].target) ==>
                              records[i].target in verified
    {
      var changed: seq<Change> := [];
      var index := 0;
      while index < |records|
        invariant 0 <= index <= |records|
        invariant files == WriteAll(old(files), records[..index])
        invariant changed == Log(old(files), records[..index])
        invariant failures == old(failures)
        invariant forall i :: 0 <= i < index && records[i].kind == Sqlite
                              && (forall j :: i < j < index ==> records[j].target != records[i].target) ==>
                                records[i].target in verified
      {
        var r := records[index];
        var written, checked, change := WriteRecord(r);
        assert records[..index + 1][..index] == records[..index];
        if !checked {
          var left := UndoChanges(changed);
          PartlyUndoneTouchesTargets(old(files), records, index, written, left);
          assert changed[0..] == changed;
          return if left == 0 then Undone(index, written) else Broken(index, written, left);
        }
        changed := changed + [change];
        index := index + 1;
      }
      assert records[..index] == records;
      WriteAllTouchesTargets(old(files), records);
      outcome := Restored;
    }
  }

  lemma {:induction false} UndoFirst(fs: Files, c: Change, log: seq<Change>)
    ensures Undo(fs, [c] + log) == UndoOne(Undo(fs, log), c)
    decreases |log|
  {
    var whole := [c] + log;
    if log == [] {
      assert whole[..0] == [] && whole[0] == c;
    } else {
      var n := |log| - 1;
      assert whole[..|whole| - 1] == [c] + log[..n];
      UndoFirst(UndoOne(fs, log[n]), c, log[..n]);
    }
  }

  lemma {:induction false} UndoTouchesTargets(fs: Files, log: seq<Change>, p: Path)
    requires forall c :: c in log ==> c.target != p
    ensures Before(Undo(fs, log), p) == Before(fs, p)
    decreases |log|
  {
    if log != [] {
      UndoTouchesTargets(UndoOne(fs, log[|log| - 1]), log[..|log| - 1], p);
    }
  }

  lemma PartlyUndoneTouchesTargets(fs: Files, records: seq<Staged>, k: nat, late: bool, left: nat)
    requires k < |records| && left <= k
    ensures forall p :: p !in Targets(records) ==> Before(PartlyUndone(fs, records, k, late, left), p) == Before(fs, p)
  {
    LogTargets(fs, records[..k]);
    WriteAllTouchesTargets(fs, records[..k]);
    forall p | p !in Targets(records)
      ensures Before(PartlyUndone(fs, records, k, late, left), p) == Before(fs, p)
    {
      assert records[k] in records;
      forall r | r in records[..k]
        ensures r.target != p
      {
        assert r in records;
      }
      UndoTouchesTargets(Reached(fs, records, k, late), Log(fs, records[..k])[left..], p);
    }
  }

  lemma {:induction false} LogTargets(fs: Files, records: seq<Staged>)
    ensures forall c :: c in Log(fs, records) ==> c.target in Targets(records)
    decreases |records|
  {
    if records != [] {
      LogTargets(fs, records[..|records| - 1]);
    }
  }

  lemma WriteAllTouchesTargets(fs: Files, records: seq<Staged>)
    ensures forall p :: p !in Targets(records) ==> Before(WriteAll(fs, records), p) == Before(fs, p)
  {
    forall p | p !in Targets(records)
      ensures Before(WriteAll(fs, records), p) == Before(fs, p)
    {
      WriteAllContents(fs, records, p);
    }
  }

  /** The files when record `k` fails: its own target is not in the log yet when the check of the copy fails. */
  function Reached(fs: Files, records: seq<Staged>, k: nat, late: bool): Files
    requires k < |records|
  {
    var written := WriteAll(fs, records[..k]);
    if late then written[records[k].target := NewFile(records[k])] else written
  }

  /** Those files with the log undone from its end, down to the entry `left`. */
  function PartlyUndone(fs: Files, records: seq<Staged>, k: nat, late: bool, left: nat): Files
    requires k < |records| && left <= k
  {
    Undo(Reached(fs, records, k, late), Log(fs, records[..k])[left..])
  }

  function AfterUndo(fs: Files, records: seq<Staged>, k: nat, late: bool): Files
    requires k < |records|
  {
    Undo(Reached(fs, records, k, late), Log(fs, records[..k]))
  }

  /** A write outside the undo log survives the undo; a write to a logged target does not. */
  lemma {:induction false} UndoAndLaterWrite(fs: Files, log: seq<Change>, target: Path, f: File)
    ensures Undo(fs[target := f], log) ==
            if exists c :: c in log && c.target == target then Undo(fs, log) else Undo(fs, log)[target := f]
    decreases |log|
  {
    if log != [] {
      var n := |log| - 1;
      var last := log[n];
      assert log == log[..n] + [last];
      if last.target == target {
        assert UndoOne(fs[target := f], last) == UndoOne(fs, last);
      } else {
        assert UndoOne(fs[target := f], last) == UndoOne(fs, last)[target := f];
        UndoAndLaterWrite(UndoOne(fs, last), log[..n], target, f);
        assert (exists c :: c in log && c.target == target) <==> (exists c :: c in log[..n] && c.target == target);
      }
    }
  }

  lemma {:induction false} LogCoversTargets(fs: Files, records: seq<Staged>, target: Path)
    ensures target in Targets(records) <==> exists c :: c in Log(fs, records) && c.target == target
    decreases |records|
  {
    if records != [] {
      var init, last := records[..|records| - 1], records[|records| - 1];
      assert records == init + [last];
      LogCoversTargets(fs, init, target);
      var c := Change(last.target, Logged(WriteAll(fs, init), last.target));
      assert Log(fs, records) == Log(fs, init) + [c];
      assert c in Log(fs, records);
      forall r | r in init
        ensures r.target in Targets(records)
      {
        assert r in records;
      }
    }
  }

  /**
    All or nothing: a failed restore leaves the original files exactly when every target
    written before had no more than permission bits in its mode, and the failure was not the
    integrity check of a copy already in place, or that target was in the log already, or the
    copy equals the file it replaced.
   */
  lemma RestoreIsAllOrNothing(fs: Files, records: seq<Staged>, k: nat, late: bool)
    requires k < |records|
    ensures AfterUndo(fs, records, k, late) == fs <==>
            && PlainModes(fs, Targets(records[..k]))
            && (|| !late
                || records[k].target in Targets(records[..k])
                || Before(fs, records[k].target) == Some(NewFile(records[k])))
    ensures var undone := Masked(fs, Targets(records[..k]));
            AfterUndo(fs, records, k, late) == undone
            || AfterUndo(fs, records, k, late) == undone[records[k].target := NewFile(records[k])]
  {
    var r, before := records[k], Targets(records[..k]);
    UndoGivesBackOriginals(fs, records[..k]);
    MaskedIsOriginal(fs, before);
    if late {
      UndoAndLaterWrite(WriteAll(fs, records[..k]), Log(fs, records[..k]), r.target, NewFile(r));
      LogCoversTargets(fs, records[..k], r.target);
      if r.target !in before {
        var kept := Masked(fs, before);
        assert AfterUndo(fs, records, k, late) == kept[r.target := NewFile(r)];
        LastTarget(fs, kept, r.target, NewFile(r));
      }
    }
  }

  lemma LastTarget(fs: Files, kept: Files, target: Path, f: File)
    requires kept.Keys == fs.Keys && (target in fs ==> kept[target] == fs[target])
    ensures kept[target := f] == fs <==> kept == fs && Before(fs, target) == Some(f)
  {
    if kept[target := f] == fs {
      assert target in fs && kept[target := f][target] == f;
      forall p | p in fs
        ensures kept[p] == fs[p]
      {
        assert p != target ==> kept[target := f][p] == kept[p];
      }
    }
  }

  lemma {:induction false} WriteAllInParts(fs: Files, a: seq<Staged>, b: seq<Staged>)
    ensures WriteAll(fs, a + b) == WriteAll(WriteAll(fs, a), b)
    ensures Log(fs, a + b) == Log(fs, a) + Log(WriteAll(fs, a), b)
    decreases |b|
  {
    if b == [] {
      assert a + b == a;
    } else {
      var init, last := b[..|b| - 1], b[|b| - 1];
      WriteAllInParts(fs, a, init);
      assert (a + b)[..|a + b| - 1] == a + init && (a + b)[|a + b| - 1] == last;
      var w := WriteAll(fs, a);
      var change := [Change(last.target, Logged(WriteAll(w, init), last.target))];
      assert Log(fs, a + b) == Log(fs, a + init) + change && Log(w, b) == Log(w, init) + change;
      assert Log(fs, a) + Log(w, init) + change == Log(fs, a) + (Log(w, init) + change);
    }
  }

  /**
    An undo that fails with `left` entries to go has undone exactly the later ones: the files are
    those after the first `left` records, but for permission bits and, when the failure was the
    late check, for the target that is not in the log.
   */
  lemma BrokenUndoStopsBetween(fs: Files, records: seq<Staged>, k: nat, late: bool, left: nat)
    requires k < |records| && left <= k
    ensures var kept := Masked(WriteAll(fs, records[..left]), Targets(records[left..k]));
            PartlyUndone(fs, records, k, late, left) ==
              if late && records[k].target !in Targets(records[left..k])
              then kept[records[k].target := NewFile(records[k])] else kept
  {
    var before, undone, r := records[..left], records[left..k], records[k];
    assert records[..k] == before + undone;
    WriteAllInParts(fs, before, undone);
    var log := Log(WriteAll(fs, before), undone);
    assert Log(fs, records[..k])[left..] == log;
    UndoGivesBackOriginals(WriteAll(fs, before), undone);
    if late {
      UndoAndLaterWrite(WriteAll(fs, records[..k]), log, r.target, NewFile(r));
      LogCoversTargets(WriteAll(fs, before), undone, r.target);
    }
  }

  // ---- Targets -----------------------------------------------------------------

  datatype Error = Unsafe | UnsupportedTarget | UnsupportedScope | SessionState

  /** The parts of a relative POSIX path: empty and `.` components vanish. */
  function Parts(pieces: seq<string>): (parts: seq<string>)
    ensures forall p :: p in parts <==> p in pieces && p != "" && p != "."
    ensures |parts| <= |pieces|
  {
    if pieces == [] then []
    else (if pieces[0] == "" || pieces[0] == "." then [] else [pieces[0]]) + Parts(pieces[1..])
  }

  /** _safe_relative: the components of an acceptable member path. */
  function SafeRelative(value: string): Result<seq<string>, Error> {
    var parts := Parts(Split(value, '/'));
    if (|value| > 0 && value[0] == '/') || parts == [] || ".." in parts || '\\' in value || '\0' in value
    then Err(Unsafe)
    else Ok(parts)
  }

  /** _target_for, below the data directory `root` or at the configuration file. */
  function TargetFor(root: Path, config: Path, scope: string, relative: string): Result<Path, Error> {
    match SafeRelative(relative)
    case Err(e) => Err(e)
    case Ok(parts) =>
      if scope == "config" then
        if Join(parts, '/') != "config.yaml" then Err(UnsupportedTarget) else Ok(config)
      else if scope != "data" then Err(UnsupportedScope)
      else if parts[|parts| - 1] == "sessions.sqlite3" then Err(SessionState)
      else Ok(root + parts)
  }

  lemma {:induction false} PartsOfParts(pieces: seq<string>)
    requires forall p :: p in pieces ==> p != "" && p != "."
    ensures Parts(pieces) == pieces
  {
    if pieces != [] {
      assert pieces[0] in pieces;
      forall p | p in pieces[1..]
        ensures p in pieces
      {
      }
      PartsOfParts(pieces[1..]);
    }
  }

  /** What SafeRelative returns is in normal form: writing it out and reading it again gives it back. */
  lemma SafeRelativeIsNormal(value: string)
    requires SafeRelative(value).Ok?
    ensures SafeRelative(Join(SafeRelative(value).value, '/')) == SafeRelative(value)
  {
    var parts := SafeRelative(value).value;
    forall p | p in parts
      ensures '/' !in p && '\\' !in p && '\0' !in p
    {
      SplitCharacters(value, '/', p);
    }
    SplitJoin(parts, '/');
    PartsOfParts(parts);
    JoinCharacters(parts, '/', '\\');
    JoinCharacters(parts, '/', '\0');
    assert parts[0] in parts && parts[0][0] in parts[0];
    assert Join(parts, '/')[0] == parts[0][0];
  }

  lemma {:induction false} SplitCharacters(s: string, sep: char, piece: string)
    requires piece in Split(s, sep)
    ensures forall c :: c in piece ==> c in s
  {
    if s != "" {
      var rest := Split(s[1..], sep);
      if piece in rest {
        SplitCharacters(s[1..], sep, piece);
      } else if s[0] != sep && piece == [s[0]] + rest[0] {
        SplitCharacters(s[1..], sep, rest[0]);
      }
    }
  }

  lemma {:induction false} JoinCharacters(pieces: seq<string>, sep: char, c: char)
    requires c != sep && forall p :: p in pieces ==> c !in p
    ensures c !in Join(pieces, sep)
  {
    if |pieces| > 1 {
      JoinCharacters(pieces[1..], sep, c);
    }
  }

  /** Every data target lies strictly below the data directory and never is the session database. */
  lemma DataTargetsStayInside(root: Path, config: Path, relative: string)
    requires TargetFor(root, config, "data", relative).Ok?
    ensures var target := TargetFor(root, config, "data", relative).value;
            && root < target && target[|target| - 1] != "sessions.sqlite3"
            && forall i :: |root| <= i < |target| ==> target[i] !in {"", ".", ".."} && '/' !in target[i]
  {
    var target := TargetFor(root, config, "data", relative).value;
    var parts := SafeRelative(relative).value;
    forall i | |root| <= i < |target|
      ensures target[i] !in {"", ".", ".."} && '/' !in target[i]
    {
      assert target[i] == parts[i - |root|] && parts[i - |root|] in parts;
    }
  }

  /** A component that a member path may have. */
  predicate PlainPart(part: string) {
    part != "" && part != "." && part != ".." && '/' !in part && '\\' !in part && '\0' !in part
  }

  /** Every path of plain components is accepted as it is. */
  lemma PlainPathsAreSafe(parts: seq<string>)
    requires parts != [] && forall part :: part in parts ==> PlainPart(part)
    ensures SafeRelative(Join(parts, '/')) == Ok(parts)
  {
    SplitJoin(parts, '/');
    PartsOfParts(parts);
    JoinCharacters(parts, '/', '\\');
    JoinCharacters(parts, '/', '\0');
    assert PlainPart(parts[0]);
    assert parts[0][0] in parts[0] && Join(parts, '/')[0] == parts[0][0];
  }

  /** Only an absolute path, one with a step up, a backslash or a NUL, or one without a plain component is refused. */
  lemma RefusedPathsAreUnsafe(value: string)
    requires SafeRelative(value).Err?
    ensures SafeRelative(value) == Err(Unsafe)
    ensures || "/" <= value || '\\' in value || '\0' in value || ".." in Split(value, '/')
            || forall piece :: piece in Split(value, '/') ==> piece in {"", "."}
  {
    if Parts(Split(value, '/')) != [] {
      assert Parts(Split(value, '/'))[0] in Parts(Split(value, '/'));
    }
  }

  /** And what is accepted is a path of plain components, not absolute and without a step up. */
  lemma SafePathsArePlain(value: string)
    requires SafeRelative(value).Ok?
    ensures SafeRelative(value).value != [] && !("/" <= value)
    ensures forall part :: part in SafeRelative(value).value ==> PlainPart(part) && part in Split(value, '/')
    ensures forall piece :: piece in Split(value, '/') ==> piece in SafeRelative(value).value || piece in {"", "."}
  {
    forall part | part in SafeRelative(value).value
      ensures PlainPart(part)
    {
      SplitCharacters(value, '/', part);
    }
  }

  /** Where a resource is restored to: data below the data directory, the configuration at its own path. */
  lemma TargetsAreAsRecorded(root: Path, config: Path, relative: string, parts: seq<string>)
    requires SafeRelative(relative) == Ok(parts)
    ensures parts != []
    ensures TargetFor(root, config, "data", relative) ==
              if parts[|parts| - 1] == "sessions.sqlite3" then Err(SessionState) else Ok(root + parts)
    ensures TargetFor(root, config, "config", relative) ==
              if Join(parts, '/') == "config.yaml" then Ok(config) else Err(UnsupportedTarget)
    ensures forall scope :: scope != "data" && scope != "config" ==>
              TargetFor(root, config, scope, relative) == Err(UnsupportedScope)
  {
  }
}
