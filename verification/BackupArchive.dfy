/**
  Backup archives: `ApplianceBackupService.validate` of backend/app/appliance_backup.py.
  The digest and the SQLite integrity check are given functions of the bytes.
 */
module BackupArchive {
  import opened Wrappers
  import opened Text
  import Restore

  const MANIFEST := "manifest.json"
  const MAX_MEMBER_BYTES := 512 * 1024 * 1024
  const MAX_ARCHIVE_BYTES := 2 * 1024 * 1024 * 1024

  datatype Member = Member(name: string, size: nat, isDir: bool, content: string)

  /** A resource record as the manifest spells it; `size` is None when it is not an integer. */
  datatype Record = Record(
    member: string, relativePath: string, scope: string, kind: string, size: Option<int>, sha256: string)

  datatype Archive = Archive(members: seq<Member>, manifest: Option<seq<Record>>)

  datatype Report = Report(memberCount: nat, uncompressedSize: nat)

  datatype Checks = Checks(digest: string -> string, intact: string -> bool)

  datatype Error = Invalid

  function Names(members: seq<Member>): set<string> {
    set m | m in members :: m.name
  }

  predicate DistinctNames(members: seq<Member>) {
    forall i, j :: 0 <= i < j < |members| ==> members[i].name != members[j].name
  }

  /** The member of that name; with distinct names it is the only one. */
  function Lookup(members: seq<Member>, name: string): (r: Option<Member>)
    ensures r.Some? ==> r.value in members && r.value.name == name
    ensures r.None? ==> name !in Names(members)
  {
    if members == [] then None
    else if members[|members| - 1].name == name then Some(members[|members| - 1])
    else Lookup(members[..|members| - 1], name)
  }

  /** The normalised member name of a record, if it is safe. */
  function MemberOf(r: Record): Option<string> {
    match Restore.SafeRelative(r.member)
    case Ok(parts) => Some(Join(parts, '/'))
    case Err(_) => None
  }

  /** A record that stands on its own: safe paths, a known scope and kind, and matching bytes. */
  predicate RecordFits(members: seq<Member>, r: Record, checks: Checks) {
    && MemberOf(r).Some?
    && Restore.SafeRelative(r.relativePath).Ok?
    && r.scope in {"config", "data"} && r.kind in {"file", "sqlite"}
    && var found := Lookup(members, MemberOf(r).value);
    && found.Some? && !found.value.isDir
    && found.value.size <= MAX_MEMBER_BYTES && r.size == Some(found.value.size)
    && checks.digest(found.value.content) == r.sha256
    && (r.kind == "sqlite" ==> checks.intact(found.value.content))
    && (r.scope == "config" ==> Join(Restore.SafeRelative(r.relativePath).value, '/') == "config.yaml")
  }

  /** The members the records declare, with the manifest itself. */
  function Declared(records: seq<Record>): set<string> {
    {MANIFEST} + set r | r in records && MemberOf(r).Some? :: MemberOf(r).value
  }

  function TotalSize(records: seq<Record>): nat {
    if records == [] then 0
    else
      var last := records[|records| - 1];
      TotalSize(records[..|records| - 1]) + if last.size.Some? && last.size.value > 0 then last.size.value else 0
  }

  predicate DistinctRecords(records: seq<Record>) {
    && (forall i :: 0 <= i < |records| ==> MemberOf(records[i]) != Some(MANIFEST))
    && (forall i, j :: 0 <= i < j < |records| ==> MemberOf(records[i]) != MemberOf(records[j]))
  }

  /** What a valid archive is: every member declared once, every declaration true, the total within its limit. */
  predicate ValidArchive(a: Archive, checks: Checks) {
    && DistinctNames(a.members)
    && a.manifest.Some?
    && var records := a.manifest.value;
    && (forall i :: 0 <= i < |records| ==> RecordFits(a.members, records[i], checks))
    && DistinctRecords(records)
    && TotalSize(records) <= MAX_ARCHIVE_BYTES
    && Names(a.members) == Declared(records)
  }

  /** The per-record part of the loop: the size to add, or an error. */
  method CheckRecord(members: seq<Member>, r: Record, expected: set<string>, total: nat, checks: Checks)
    returns (size: Result<nat, Error>)
    ensures size.Ok? <==>
              && RecordFits(members, r, checks) && MemberOf(r).value !in expected
              && total + r.size.value <= MAX_ARCHIVE_BYTES
    ensures size.Ok? ==> Some(size.value) == r.size
  {
    var member := Restore.SafeRelative(r.member);
    var relative := Restore.SafeRelative(r.relativePath);
    if member.Err? || relative.Err? {
      return Err(Invalid);
    }
    if r.scope !in {"config", "data"} || r.kind !in {"file", "sqlite"} {
      return Err(Invalid);
    }
    var name := Join(member.value, '/');
    if name in expected {
      return Err(Invalid);
    }
    var info := Lookup(members, name);
    if info.None? || info.value.isDir {
      return Err(Invalid);
    }
    if info.value.size > MAX_MEMBER_BYTES || r.size != Some(info.value.size) {
      return Err(Invalid);
    }
    if total + info.value.size > MAX_ARCHIVE_BYTES {
      return Err(Invalid);
    }
    if checks.digest(info.value.content) != r.sha256 {
      return Err(Invalid);
    }
    if r.kind == "sqlite" && !checks.intact(info.value.content) {
      return Err(Invalid);
    }
    if r.scope == "config" && Join(relative.value, '/') != "config.yaml" {
      return Err(Invalid);
    }
    size := Ok(info.value.size);
  }

  lemma {:induction false} TotalSizeGrows(records: seq<Record>, i: nat)
    requires i <= |records|
    ensures TotalSize(records[..i]) <= TotalSize(records)
    decreases |records|
  {
    if i < |records| {
      var init := records[..|records| - 1];
      assert init[..i] == records[..i];
      TotalSizeGrows(init, i);
    } else {
      assert records[..i] == records;
    }
  }

  /** The first records of the manifest have been accepted; `fits` judges a record on its own. */
  ghost predicate Accepted(fits: Record -> bool, records: seq<Record>, expected: set<string>, total: nat) {
    && (forall k :: 0 <= k < |records| ==> fits(records[k]))
    && DistinctRecords(records)
    && expected == Declared(records)
    && total == TotalSize(records) <= MAX_ARCHIVE_BYTES
  }

  lemma AcceptNext(fits: Record -> bool, records: seq<Record>, r: Record, name: string, size: nat,
                   expected: set<string>, total: nat)
    requires Accepted(fits, records, expected, total)
    requires fits(r) && MemberOf(r) == Some(name) && name !in expected
    requires r.size == Some(size) && total + size <= MAX_ARCHIVE_BYTES
    ensures Accepted(fits, records + [r], expected + {name}, total + size)
  {
    DeclaredGrows(records, r);
    DistinctGrows(records, r);
    assert (records + [r])[..|records|] == records;
  }

  lemma DistinctGrows(records: seq<Record>, r: Record)
    requires DistinctRecords(records) && MemberOf(r).Some? && MemberOf(r).value !in Declared(records)
    ensures DistinctRecords(records + [r])
  {
    var name := MemberOf(r);
    forall i | 0 <= i < |records|
      ensures MemberOf(records[i]) != name
    {
      assert records[i] in records;
    }
  }

  /** In a valid archive no record repeats a name declared before it. */
  lemma NotDeclaredBefore(records: seq<Record>, i: nat)
    requires i < |records| && DistinctRecords(records) && MemberOf(records[i]).Some?
    ensures MemberOf(records[i]).value !in Declared(records[..i])
  {
    forall q | q in records[..i]
      ensures MemberOf(q) != MemberOf(records[i])
    {
      var k :| 0 <= k < i && records[k] == q;
    }
  }

  /** The sizes up to a record stay within the total. */
  lemma TotalAt(records: seq<Record>, i: nat, size: nat)
    requires i < |records| && records[i].size == Some(size)
    ensures TotalSize(records[..i]) + size <= TotalSize(records)
  {
    TotalSizeGrows(records, i + 1);
    assert records[..i + 1][..i] == records[..i];
  }

  /** A record of a valid archive passes every check of its turn in the loop. */
  lemma ValidRecordPasses(a: Archive, checks: Checks, i: nat)
    requires ValidArchive(a, checks) && i < |a.manifest.value|
    ensures var r := a.manifest.value[i];
            && RecordFits(a.members, r, checks)
            && MemberOf(r).value !in Declared(a.manifest.value[..i])
            && TotalSize(a.manifest.value[..i]) + r.size.value <= MAX_ARCHIVE_BYTES
  {
    NotDeclaredBefore(a.manifest.value, i);
    TotalAt(a.manifest.value, i, a.manifest.value[i].size.value);
  }

  function Fits(members: seq<Member>, checks: Checks): Record -> bool {
    r => RecordFits(members, r, checks)
  }

  /** Once all records are accepted, only undeclared members can still make the archive invalid. */
  lemma WhenAllAccepted(a: Archive, checks: Checks, fits: Record -> bool, expected: set<string>, total: nat)
    requires DistinctNames(a.members) && a.manifest.Some? && fits == Fits(a.members, checks)
    requires Accepted(fits, a.manifest.value, expected, total)
    ensures ValidArchive(a, checks) <==> Names(a.members) == expected
  {
  }

  /** An archive is accepted exactly when it is valid, and the report counts its members and bytes. */
  method Validate(a: Archive, checks: Checks) returns (r: Result<Report, Error>)
    ensures r.Ok? <==> ValidArchive(a, checks)
    ensures r.Ok? ==> r.value == Report(|a.manifest.value|, TotalSize(a.manifest.value))
  {
    if !DistinctNames(a.members) || a.manifest.None? {
      return Err(Invalid);
    }
    var complete, expected, total := CheckRecords(a, checks);
    if !complete {
      return Err(Invalid);
    }
    WhenAllAccepted(a, checks, Fits(a.members, checks), expected, total);
    if Names(a.members) != expected {
      return Err(Invalid);
    }
    r := Ok(Report(|a.manifest.value|, total));
  }

  /** The loop over the records of the manifest; it stops at the first that cannot be part of a valid archive. */
  method CheckRecords(a: Archive, checks: Checks) returns (complete: bool, expected: set<string>, total: nat)
    requires a.manifest.Some?
    ensures complete ==> Accepted(Fits(a.members, checks), a.manifest.value, expected, total)
    ensures !complete ==> !ValidArchive(a, checks)
  {
    var records := a.manifest.value;
    complete, expected, total := false, {MANIFEST}, 0;
    ghost var fits := Fits(a.members, checks);
    for i := 0 to |records|
      invariant Accepted(fits, records[..i], expected, total)
    {
      var size := CheckRecord(a.members, records[i], expected, total, checks);
      if size.Err? {
        if ValidArchive(a, checks) {
          ValidRecordPasses(a, checks, i);
        }
        return;
      }
      var name := MemberOf(records[i]).value;
      AcceptNext(fits, records[..i], records[i], name, size.value, expected, total);
      assert records[..i + 1] == records[..i] + [records[i]];
      total := total + size.value;
      expected := expected + {name};
    }
    assert records[..|records|] == records;
    complete := true;
  }

  lemma DeclaredGrows(records: seq<Record>, r: Record)
    requires MemberOf(r).Some?
    ensures Declared(records + [r]) == Declared(records) + {MemberOf(r).value}
  {
    assert r in records + [r];
    forall q | q in records
      ensures q in records + [r]
    {
    }
  }

  // ---- Validity seen from the members ------------------------------------------

  /** The record tells the truth about the member: its name, its bytes, and what they may be used for. */
  predicate Describes(r: Record, m: Member, checks: Checks) {
    && Restore.SafeRelative(r.member).Ok? && Join(Restore.SafeRelative(r.member).value, '/') == m.name
    && Restore.SafeRelative(r.relativePath).Ok?
    && !m.isDir && m.size <= 0x2000_0000 && r.size == Some(m.size) && checks.digest(m.content) == r.sha256
    && (|| r.scope == "data"
        || (r.scope == "config" && Join(Restore.SafeRelative(r.relativePath).value, '/') == "config.yaml"))
    && (r.kind == "file" || (r.kind == "sqlite" && checks.intact(m.content)))
  }

  lemma {:induction false} OnlyMember(members: seq<Member>, m: Member)
    requires DistinctNames(members) && m in members
    ensures Lookup(members, m.name) == Some(m)
    decreases |members|
  {
    var n := |members| - 1;
    var k :| 0 <= k <= n && members[k] == m;
    if k < n {
      assert members[k].name != members[n].name;
      assert members[..n][k] == m;
      OnlyMember(members[..n], m);
    }
  }

  /** A record fits exactly when it describes a member, the only one of its name. */
  lemma FitsIsDescription(members: seq<Member>, r: Record, checks: Checks)
    requires DistinctNames(members)
    ensures RecordFits(members, r, checks) <==> exists m :: m in members && Describes(r, m, checks)
    ensures forall m :: m in members && Describes(r, m, checks) ==>
              MemberOf(r) == Some(m.name) && Lookup(members, m.name) == Some(m)
  {
    forall m | m in members
      ensures Lookup(members, m.name) == Some(m)
    {
      OnlyMember(members, m);
    }
    if RecordFits(members, r, checks) {
      var m := Lookup(members, MemberOf(r).value).value;
      assert m in members && Describes(r, m, checks);
    }
  }

  /** In a valid archive every member but the manifest is described by a record, and by one only. */
  lemma MemberIsDescribed(a: Archive, checks: Checks, m: Member) returns (i: nat)
    requires ValidArchive(a, checks) && m in a.members && m.name != "manifest.json"
    ensures i < |a.manifest.value| && Describes(a.manifest.value[i], m, checks)
    ensures forall j :: 0 <= j < |a.manifest.value| && j != i ==> !Describes(a.manifest.value[j], m, checks)
  {
    var records := a.manifest.value;
    assert m.name in Declared(records);
    var r :| r in records && MemberOf(r) == Some(m.name);
    i :| 0 <= i < |records| && records[i] == r;
    FitsIsDescription(a.members, r, checks);
    OnlyMember(a.members, m);
    forall j | 0 <= j < |records| && j != i
      ensures MemberOf(records[j]) != Some(m.name)
    {
      if i < j {
        assert MemberOf(records[i]) != MemberOf(records[j]);
      } else {
        assert MemberOf(records[j]) != MemberOf(records[i]);
      }
    }
  }

  /** Its names are distinct, one is that of the manifest, and every record describes another member. */
  lemma RecordDescribes(a: Archive, checks: Checks, i: nat) returns (m: Member)
    requires ValidArchive(a, checks) && i < |a.manifest.value|
    ensures m in a.members && m.name != "manifest.json" && Describes(a.manifest.value[i], m, checks)
    ensures "manifest.json" in Names(a.members)
    ensures forall j, k :: 0 <= j < k < |a.members| ==> a.members[j].name != a.members[k].name
  {
    FitsIsDescription(a.members, a.manifest.value[i], checks);
    assert RecordFits(a.members, a.manifest.value[i], checks);
    m := Lookup(a.members, MemberOf(a.manifest.value[i]).value).value;
    OnlyMember(a.members, m);
    assert MANIFEST in Declared(a.manifest.value);
  }

  /** And an archive that is like that, within the limit, is accepted: nothing else is asked of it. */
  lemma DescribedIsValid(a: Archive, checks: Checks)
    requires a.manifest.Some? && TotalSize(a.manifest.value) <= 0x8000_0000
    requires forall j, k :: 0 <= j < k < |a.members| ==> a.members[j].name != a.members[k].name
    requires exists m :: m in a.members && m.name == "manifest.json"
    requires forall m :: m in a.members && m.name != "manifest.json" ==>
               exists r :: r in a.manifest.value && Describes(r, m, checks)
    requires forall r :: r in a.manifest.value ==>
               exists m :: m in a.members && m.name != "manifest.json" && Describes(r, m, checks)
    requires forall i, j :: 0 <= i < j < |a.manifest.value| ==>
               MemberOf(a.manifest.value[i]) != MemberOf(a.manifest.value[j])
    ensures ValidArchive(a, checks)
  {
    var records := a.manifest.value;
    forall i | 0 <= i < |records|
      ensures RecordFits(a.members, records[i], checks) && MemberOf(records[i]) != Some(MANIFEST)
    {
      assert records[i] in records;
      DescribingRecordFits(a.members, records[i], checks);
    }
    DescribedAreDeclared(a.members, records, (r, m) => Describes(r, m, checks));
  }

  lemma DescribingRecordFits(members: seq<Member>, r: Record, checks: Checks)
    requires DistinctNames(members)
    requires exists m :: m in members && m.name != "manifest.json" && Describes(r, m, checks)
    ensures RecordFits(members, r, checks) && MemberOf(r) != Some(MANIFEST)
  {
    FitsIsDescription(members, r, checks);
  }

  lemma DescribedAreDeclared(members: seq<Member>, records: seq<Record>, describes: (Record, Member) -> bool)
    requires forall r, m :: describes(r, m) ==> MemberOf(r) == Some(m.name)
    requires exists m :: m in members && m.name == "manifest.json"
    requires forall m :: m in members && m.name != "manifest.json" ==> exists r :: r in records && describes(r, m)
    requires forall r :: r in records ==> exists m :: m in members && describes(r, m)
    ensures Names(members) == Declared(records)
  {
    forall m | m in members
      ensures m.name in Declared(records)
    {
      if m.name != MANIFEST {
        var r :| r in records && describes(r, m);
      }
    }
    forall r | r in records && MemberOf(r).Some?
      ensures MemberOf(r).value in Names(members)
    {
      var m :| m in members && describes(r, m);
    }
  }

  /** The bytes of the members with these names. */
  function Bytes(members: seq<Member>, names: set<string>): nat {
    if members == [] then 0
    else (if members[0].name in names then members[0].size else 0) + Bytes(members[1..], names)
  }

  lemma {:induction false} OneMoreName(members: seq<Member>, names: set<string>, m: Member)
    requires DistinctNames(members) && m in members && m.name !in names
    ensures Bytes(members, names + {m.name}) == Bytes(members, names) + m.size
  {
    var rest := members[1..];
    if members[0] == m {
      forall x | x in rest
        ensures x.name != m.name
      {
        var k :| 0 <= k < |rest| && rest[k] == x;
        assert members[0].name != members[k + 1].name;
      }
      SameBytes(rest, names, names + {m.name});
    } else {
      var k :| 0 <= k < |members| && members[k] == m;
      assert members[0].name != members[k].name;
      assert rest[k - 1] == m;
      OneMoreName(rest, names, m);
    }
  }

  lemma {:induction false} SameBytes(members: seq<Member>, names: set<string>, more: set<string>)
    requires forall m :: m in members ==> (m.name in names <==> m.name in more)
    ensures Bytes(members, names) == Bytes(members, more)
  {
    if members != [] {
      assert members[0] in members;
      SameBytes(members[1..], names, more);
    }
  }

  lemma {:induction false} NoBytes(members: seq<Member>)
    ensures Bytes(members, {}) == 0
  {
    if members != [] {
      NoBytes(members[1..]);
    }
  }

  /** Records that declare the sizes of distinct members, whatever `name` calls them. */
  ghost predicate Sized(members: seq<Member>, records: seq<Record>, name: Record -> string) {
    && (forall i, j :: 0 <= i < j < |records| ==> name(records[i]) != name(records[j]))
    && forall i :: 0 <= i < |records| ==> DeclaresSize(members, records[i], name(records[i]))
  }

  ghost predicate DeclaresSize(members: seq<Member>, r: Record, name: string) {
    exists m :: m in members && m.name == name && r.size == Some(m.size)
  }

  function NamesOf(records: seq<Record>, name: Record -> string): set<string> {
    set r | r in records :: name(r)
  }

  lemma {:induction false} RecordsCountBytes(members: seq<Member>, records: seq<Record>, name: Record -> string)
    requires DistinctNames(members) && Sized(members, records, name)
    ensures TotalSize(records) == Bytes(members, NamesOf(records, name))
    decreases |records|
  {
    if records == [] {
      NoBytes(members);
      assert NamesOf(records, name) == {};
    } else {
      var n := |records| - 1;
      RecordsCountBytes(members, records[..n], name);
      assert DeclaresSize(members, records[n], name(records[n]));
      var m :| m in members && m.name == name(records[n]) && records[n].size == Some(m.size);
      assert records == records[..n] + [records[n]];
      RecordCountsBytes(members, records[..n], records[n], name, m);
    }
  }

  lemma RecordCountsBytes(members: seq<Member>, before: seq<Record>, r: Record, name: Record -> string, m: Member)
    requires DistinctNames(members) && m in members && name(r) == m.name && r.size == Some(m.size)
    requires forall i :: 0 <= i < |before| ==> name(before[i]) != m.name
    requires TotalSize(before) == Bytes(members, NamesOf(before, name))
    ensures TotalSize(before + [r]) == Bytes(members, NamesOf(before + [r], name))
  {
    OneMoreName(members, NamesOf(before, name), m);
    assert NamesOf(before + [r], name) == NamesOf(before, name) + {m.name};
    assert (before + [r])[..|before|] == before;
  }

  function NameOf(r: Record): string {
    match MemberOf(r)
    case Some(name) => name
    case None => ""
  }

  /** The reported size is the number of bytes of all members but the manifest, and within the limit. */
  lemma ReportCountsBytes(a: Archive, checks: Checks)
    requires ValidArchive(a, checks)
    ensures TotalSize(a.manifest.value) == Bytes(a.members, Names(a.members) - {"manifest.json"}) <= 0x8000_0000
  {
    var records := a.manifest.value;
    forall i | 0 <= i < |records|
      ensures DeclaresSize(a.members, records[i], NameOf(records[i]))
      ensures MemberOf(records[i]) == Some(NameOf(records[i])) && NameOf(records[i]) != MANIFEST
    {
      var m := RecordDescribes(a, checks, i);
      FitsIsDescription(a.members, records[i], checks);
    }
    RecordsCountBytes(a.members, records, NameOf);
    assert NamesOf(records, NameOf) == Declared(records) - {MANIFEST};
  }

  /** The directory an accepted archive writes to: each of its records has a safe target or is refused by name. */
  lemma ValidRecordsHaveTargets(a: Archive, checks: Checks, i: nat, root: Restore.Path, config: Restore.Path)
    requires ValidArchive(a, checks) && i < |a.manifest.value|
    ensures var r := a.manifest.value[i];
            var target := Restore.TargetFor(root, config, r.scope, r.relativePath);
            target.Ok? || target == Err(Restore.SessionState)
  {
    assert RecordFits(a.members, a.manifest.value[i], checks);
  }
}
