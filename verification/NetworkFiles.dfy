/**
  The files a network change touches: which ones are captured before the change, which ones
  are written, and what reading and writing them back does to their content.
 */
module NetworkFiles {
  import opened Wrappers
  import opened ManagedNetwork

  datatype Provider = NetworkManager | Networkd | Netplan | ReadOnly

  /** The text written for an interface under a file name, for a DNS change, and for the restore unit. */
  datatype Renderer = Renderer(interface: (Interface, string) -> string, dns: string -> string, unit: string)

  type Files = map<string, string>

  const RESOLVED := "/etc/systemd/resolved.conf.d/80-webnas.conf"
  const RESTORE_UNIT := "/etc/systemd/system/webnas-network-managed.service"
  const NETWORKD_DIR := "/etc/systemd/network/"
  const NETPLAN_DIR := "/etc/netplan/"

  // ---- Names -------------------------------------------------------------------

  function OwnName(name: string, extension: string): string {
    "80-webnas-" + name + extension
  }

  function LinkName(name: string, other: string): string {
    "79-webnas-" + name + "-" + other + ".network"
  }

  /** The keys of render_networkd. */
  function RenderedNames(item: Interface): set<string> {
    var own := {OwnName(item.name, ".network"), OwnName(item.name, ".link")};
    match item.kind
    case Physical => own
    case Vlan => own + {OwnName(item.name, ".netdev"), LinkName(item.name, item.parent)}
    case Bond =>
      own + {OwnName(item.name, ".netdev")} + (set member | member in item.members :: LinkName(item.name, member))
    case Bridge =>
      own + {OwnName(item.name, ".netdev")} + (set member | member in item.members :: LinkName(item.name, member))
  }

  function InDirectory(directory: string, names: set<string>): set<string> {
    set name | name in names :: directory + name
  }

  function NetplanPath(name: string): string {
    NETPLAN_DIR + "90-webnas-" + name + ".yaml"
  }

  function InterfaceName(change: Change): string {
    if change.interface.Some? then change.interface.value.name else change.interfaceName
  }

  predicate EditsInterface(change: Change) {
    change.operation.SaveInterface? || change.operation.DeleteInterface?
  }

  predicate Generic(change: Change) {
    || change.operation.SaveRoute? || change.operation.DeleteRoute?
    || change.operation.SaveTraffic? || change.operation.DeleteTraffic?
  }

  // ---- What is captured --------------------------------------------------------

  function CapturedPaths(provider: Provider, change: Change, state: Managed): set<string> {
    var name := InterfaceName(change);
    (if change.operation.SaveDns? && (provider.Networkd? || provider.Netplan?) then {RESOLVED} else {})
    + (if name != "" && EditsInterface(change) then
         if provider.Networkd? then
           var rendered := if change.interface.Some? then RenderedNames(change.interface.value) else {};
           var previous := if name in state.interfaces then RenderedNames(state.interfaces[name]) else {};
           InDirectory(NETWORKD_DIR, rendered + previous
             + {OwnName(name, ".network"), OwnName(name, ".netdev"), OwnName(name, ".link")})
         else if provider.Netplan? then {NetplanPath(name)}
         else {}
       else {})
    + (if Generic(change) then {RESTORE_UNIT} else {})
  }

  // ---- What is written ---------------------------------------------------------

  /** New content for every file name; a name without content is removed. */
  function NetworkdFiles(change: Change, state: Managed, renderer: Renderer): map<string, Option<string>> {
    var name := InterfaceName(change);
    var rendered := if change.interface.Some? then RenderedNames(change.interface.value) else {};
    var previous := if name in state.interfaces then RenderedNames(state.interfaces[name]) else {};
    var own := {OwnName(name, ".network"), OwnName(name, ".netdev"), OwnName(name, ".link")};
    map file | file in rendered + previous + own ::
      if file in rendered && change.interface.Some?
      then Some(renderer.interface(change.interface.value, file))
      else None
  }

  function Placed(directory: string, files: map<string, Option<string>>): map<string, Option<string>> {
    map path | path in InDirectory(directory, files.Keys) && |directory| <= |path| && path[|directory|..] in files ::
      files[path[|directory|..]]
  }

  /** The writes of _write_provider_files. */
  function ProviderWrites(provider: Provider, change: Change, state: Managed, renderer: Renderer)
    : map<string, Option<string>>
  {
    if change.operation.SaveDns? && change.dns.Some? && (provider.Networkd? || provider.Netplan?) then
      map[RESOLVED := Some(renderer.dns(change.dns.value))]
    else if InterfaceName(change) == "" || !EditsInterface(change) then map[]
    else if provider.Networkd? then Placed(NETWORKD_DIR, NetworkdFiles(change, state, renderer))
    else if provider.Netplan? then
      var path := NetplanPath(InterfaceName(change));
      map[path := if change.interface.Some? then Some(renderer.interface(change.interface.value, path)) else None]
    else map[]
  }

  /** The write of _write_restore_service. */
  function RestoreServiceWrites(change: Change, renderer: Renderer): map<string, Option<string>> {
    if Generic(change) then map[RESTORE_UNIT := Some(renderer.unit)] else map[]
  }

  function Writes(provider: Provider, change: Change, state: Managed, renderer: Renderer): map<string, Option<string>> {
    ProviderWrites(provider, change, state, renderer) + RestoreServiceWrites(change, renderer)
  }

  /** A request must carry the payload of its operation. */
  predicate HasPayload(change: Change) {
    match change.operation
    case SaveInterface => change.interface.Some?
    case SaveDns => change.dns.Some?
    case SaveRoute => change.route.Some?
    case SaveTraffic => change.traffic.Some?
    case _ => true
  }

  lemma PlacedKeys(directory: string, files: map<string, Option<string>>)
    ensures Placed(directory, files).Keys == InDirectory(directory, files.Keys)
    ensures forall name :: name in files ==> directory + name in Placed(directory, files)
                                             && Placed(directory, files)[directory + name] == files[name]
  {
    forall name | name in files
      ensures directory + name in Placed(directory, files) && Placed(directory, files)[directory + name] == files[name]
    {
      assert (directory + name)[|directory|..] == name;
    }
  }

  /** Every file that a change writes was captured, and nothing else was: for all changes and providers. */
  lemma WritesAreCaptured(provider: Provider, change: Change, state: Managed, renderer: Renderer)
    ensures Writes(provider, change, state, renderer).Keys <= CapturedPaths(provider, change, state)
    ensures HasPayload(change) ==>
              Writes(provider, change, state, renderer).Keys == CapturedPaths(provider, change, state)
  {
    if provider.Networkd? && EditsInterface(change) {
      PlacedKeys(NETWORKD_DIR, NetworkdFiles(change, state, renderer));
    }
  }

  // ---- What is in the files afterwards -----------------------------------------

  lemma OwnNamesDiffer(name: string)
    ensures OwnName(name, ".network") != OwnName(name, ".link")
    ensures OwnName(name, ".network") != OwnName(name, ".netdev")
    ensures OwnName(name, ".link") != OwnName(name, ".netdev")
    ensures forall other, extension :: OwnName(name, extension) != LinkName(name, other)
  {
    var n := |"80-webnas-" + name|;
    assert OwnName(name, ".network")[n..] == ".network";
    assert OwnName(name, ".link")[n..] == ".link";
    assert OwnName(name, ".netdev")[n..] == ".netdev";
    forall other, extension
      ensures OwnName(name, extension) != LinkName(name, other)
    {
      assert OwnName(name, extension)[0] == '8' && LinkName(name, other)[0] == '7';
    }
  }

  lemma LinkNamesDiffer(name: string, a: string, b: string)
    ensures LinkName(name, a) == LinkName(name, b) <==> a == b
  {
    var n := |"79-webnas-" + name + "-"|;
    assert LinkName(name, a)[n..] == a + ".network" && LinkName(name, b)[n..] == b + ".network";
    if a + ".network" == b + ".network" {
      assert |a| == |b|;
      assert (a + ".network")[..|a|] == a && (b + ".network")[..|b|] == b;
    }
  }

  /** The interfaces that follow this one as their master: the parent of a VLAN, the members of a bond or bridge. */
  function Followers(item: Interface): set<string> {
    match item.kind
    case Physical => {}
    case Vlan => {item.parent}
    case _ => set member | member in item.members
  }

  lemma RenderedFiles(item: Interface, other: string)
    ensures OwnName(item.name, ".network") in RenderedNames(item) && OwnName(item.name, ".link") in RenderedNames(item)
    ensures OwnName(item.name, ".netdev") in RenderedNames(item) <==> !item.kind.Physical?
    ensures LinkName(item.name, other) in RenderedNames(item) <==> other in Followers(item)
  {
    OwnNamesDiffer(item.name);
    forall x
      ensures LinkName(item.name, other) == LinkName(item.name, x) <==> other == x
    {
      LinkNamesDiffer(item.name, other, x);
    }
  }

  lemma NetworkdLookup(change: Change, state: Managed, renderer: Renderer, files: Files, file: string)
    requires EditsInterface(change) && InterfaceName(change) != ""
    ensures var after := Overlaid(files, Writes(Networkd, change, state, renderer));
            var written := NetworkdFiles(change, state, renderer);
            Lookup(after, NETWORKD_DIR + file)
            == if file in written then written[file] else Lookup(files, NETWORKD_DIR + file)
  {
    var written := NetworkdFiles(change, state, renderer);
    PlacedKeys(NETWORKD_DIR, written);
    OverlaidLookup(files, Writes(Networkd, change, state, renderer), NETWORKD_DIR + file);
    if NETWORKD_DIR + file in Placed(NETWORKD_DIR, written) {
      assert (NETWORKD_DIR + file)[|NETWORKD_DIR|..] == file;
    }
  }

  /**
    After an interface is saved under networkd its own files hold the rendered text; the device
    file exists exactly for a virtual interface, and a link file exactly for each follower, or
    is left alone when the interface never had that follower.
   */
  lemma SavedUnderNetworkd(change: Change, state: Managed, renderer: Renderer, files: Files, item: Interface,
                           other: string)
    requires change.operation.SaveInterface? && change.interface == Some(item) && item.name != ""
    requires item.name in state.interfaces ==> state.interfaces[item.name].name == item.name
    ensures var after := Overlaid(files, Writes(Networkd, change, state, renderer));
            var own, link := "80-webnas-" + item.name, "79-webnas-" + item.name + "-" + other + ".network";
            && Lookup(after, NETWORKD_DIR + (own + ".network")) == Some(renderer.interface(item, own + ".network"))
            && Lookup(after, NETWORKD_DIR + (own + ".link")) == Some(renderer.interface(item, own + ".link"))
            && Lookup(after, NETWORKD_DIR + (own + ".netdev"))
               == (if item.kind.Physical? then None else Some(renderer.interface(item, own + ".netdev")))
            && Lookup(after, NETWORKD_DIR + link)
               == if other in Followers(item) then Some(renderer.interface(item, link))
                  else if item.name in state.interfaces && other in Followers(state.interfaces[item.name]) then None
                  else Lookup(files, NETWORKD_DIR + link)
  {
    var name := item.name;
    OwnNamesDiffer(name);
    RenderedFiles(item, other);
    if name in state.interfaces {
      RenderedFiles(state.interfaces[name], other);
    }
    NetworkdLookup(change, state, renderer, files, OwnName(name, ".network"));
    NetworkdLookup(change, state, renderer, files, OwnName(name, ".link"));
    NetworkdLookup(change, state, renderer, files, OwnName(name, ".netdev"));
    NetworkdLookup(change, state, renderer, files, LinkName(name, other));
  }

  /** After an interface is deleted under networkd none of its files is left. */
  lemma DeletedUnderNetworkd(change: Change, state: Managed, renderer: Renderer, files: Files, other: string)
    requires change.operation.DeleteInterface? && change.interface == None && change.interfaceName != ""
    requires change.interfaceName in state.interfaces ==>
               state.interfaces[change.interfaceName].name == change.interfaceName
    ensures var after := Overlaid(files, Writes(Networkd, change, state, renderer));
            var name := change.interfaceName;
            var own, link := "80-webnas-" + name, "79-webnas-" + name + "-" + other + ".network";
            && Lookup(after, NETWORKD_DIR + (own + ".network")) == None
            && Lookup(after, NETWORKD_DIR + (own + ".link")) == None
            && Lookup(after, NETWORKD_DIR + (own + ".netdev")) == None
            && Lookup(after, NETWORKD_DIR + link)
               == if name in state.interfaces && other in Followers(state.interfaces[name]) then None
                  else Lookup(files, NETWORKD_DIR + link)
  {
    var name := change.interfaceName;
    var link := LinkName(name, other);
    NetworkdLookup(change, state, renderer, files, OwnName(name, ".network"));
    NetworkdLookup(change, state, renderer, files, OwnName(name, ".link"));
    NetworkdLookup(change, state, renderer, files, OwnName(name, ".netdev"));
    NetworkdLookup(change, state, renderer, files, link);
    DeletedNames(change, state, renderer, other);
  }

  lemma DeletedNames(change: Change, state: Managed, renderer: Renderer, other: string)
    requires change.interface == None
    requires change.interfaceName in state.interfaces ==>
               state.interfaces[change.interfaceName].name == change.interfaceName
    ensures var name, written := change.interfaceName, NetworkdFiles(change, state, renderer);
            && (forall file :: file in written ==> written[file] == None)
            && {OwnName(name, ".network"), OwnName(name, ".link"), OwnName(name, ".netdev")} <= written.Keys
            && (LinkName(name, other) in written <==>
                  name in state.interfaces && other in Followers(state.interfaces[name]))
  {
    var name := change.interfaceName;
    OwnNamesDiffer(name);
    if name in state.interfaces {
      RenderedFiles(state.interfaces[name], other);
    }
  }

  /** What every other change leaves: one file of its own with its text, and no file for other changes. */
  lemma OtherFilesAfter(provider: Provider, change: Change, state: Managed, renderer: Renderer, files: Files)
    requires HasPayload(change)
    ensures var after := Overlaid(files, Writes(provider, change, state, renderer));
            match change.operation
            case SaveDns =>
              after == if provider.Networkd? || provider.Netplan?
                       then files["/etc/systemd/resolved.conf.d/80-webnas.conf" := renderer.dns(change.dns.value)]
                       else files
            case SaveInterface =>
              var name := change.interface.value.name;
              var path := "/etc/netplan/" + "90-webnas-" + name + ".yaml";
              && (provider.Netplan? && name != "" ==>
                    after == files[path := renderer.interface(change.interface.value, path)])
              && (!provider.Netplan? && !provider.Networkd? ==> after == files)
            case DeleteInterface =>
              && (provider.Netplan? && change.interface == None && change.interfaceName != "" ==>
                    after == files - {"/etc/netplan/" + "90-webnas-" + change.interfaceName + ".yaml"})
              && (!provider.Netplan? && !provider.Networkd? ==> after == files)
            case SetLink => after == files
            case _ => after == files["/etc/systemd/system/webnas-network-managed.service" := renderer.unit]
  {
  }

  // ---- Names stay in their directories -----------------------------------------

  predicate SafeName(name: string) {
    name != "" && '/' !in name
  }

  predicate SafeInterface(item: Interface) {
    && SafeName(item.name) && '/' !in item.parent && forall member :: member in item.members ==> SafeName(member)
  }

  /** The validated interface names of a request and of the managed configuration. */
  predicate SafeNames(change: Change, state: Managed) {
    && (change.interface.Some? ==> SafeInterface(change.interface.value))
    && '/' !in change.interfaceName
    && forall name :: name in state.interfaces ==> SafeInterface(state.interfaces[name])
  }

  /** A file directly in a directory, under a name that starts with a digit. */
  predicate DirectlyIn(path: string, directory: string) {
    && |directory| < |path| && path[..|directory|] == directory && '/' !in path[|directory|..]
    && '0' <= path[|directory|] <= '9'
  }

  lemma RenderedNamesAreSafe(item: Interface, name: string)
    requires SafeInterface(item) && name in RenderedNames(item)
    ensures name != "" && name[0] in {'7', '8'} && '/' !in name
  {
  }

  lemma FileInDirectory(directory: string, file: string)
    requires file != "" && '/' !in file && '0' <= file[0] <= '9'
    ensures DirectlyIn(directory + file, directory)
  {
    assert (directory + file)[|directory|..] == file;
  }

  lemma NetworkdPathIsInside(change: Change, state: Managed, path: string)
    requires SafeNames(change, state)
    requires path in InDirectory(NETWORKD_DIR, NetworkdFiles(change, state, Renderer((i, n) => "", d => "", "")).Keys)
    ensures DirectlyIn(path, NETWORKD_DIR)
  {
    var files := NetworkdFiles(change, state, Renderer((i, n) => "", d => "", ""));
    var file :| file in files && path == NETWORKD_DIR + file;
    var name := InterfaceName(change);
    if change.interface.Some? && file in RenderedNames(change.interface.value) {
      RenderedNamesAreSafe(change.interface.value, file);
    } else if name in state.interfaces && file in RenderedNames(state.interfaces[name]) {
      RenderedNamesAreSafe(state.interfaces[name], file);
    } else {
      assert file in {OwnName(name, ".network"), OwnName(name, ".netdev"), OwnName(name, ".link")};
      assert '/' !in name && "80-webnas-"[0] == '8';
    }
    FileInDirectory(NETWORKD_DIR, file);
  }

  lemma FileOf(path: string, directory: string)
    ensures DirectlyIn(path, directory) ==>
              exists file: string :: file != "" && '/' !in file && path == directory + file
  {
    if DirectlyIn(path, directory) {
      assert path == directory + path[|directory|..];
    }
  }

  /** For valid names, touched files lie directly in the four configuration directories. */
  lemma CapturedPathsStayInside(provider: Provider, change: Change, state: Managed, path: string)
    requires SafeNames(change, state) && path in CapturedPaths(provider, change, state)
    ensures path == RESOLVED || path == RESTORE_UNIT || DirectlyIn(path, NETWORKD_DIR) || DirectlyIn(path, NETPLAN_DIR)
    ensures || path == "/etc/systemd/resolved.conf.d/80-webnas.conf"
            || path == "/etc/systemd/system/webnas-network-managed.service"
            || (exists file: string :: file != "" && '/' !in file && path == "/etc/systemd/network/" + file)
            || (exists file: string :: file != "" && '/' !in file && path == "/etc/netplan/" + file)
  {
    FileOf(path, NETWORKD_DIR);
    FileOf(path, NETPLAN_DIR);
    if path != RESOLVED && path != RESTORE_UNIT {
      if provider.Networkd? {
        NetworkdPathIsInside(change, state, path);
      } else {
        var file := "90-webnas-" + InterfaceName(change) + ".yaml";
        assert path == NETPLAN_DIR + file;
        FileInDirectory(NETPLAN_DIR, file);
      }
    }
  }

  // ---- Capture and restore -----------------------------------------------------

  function Lookup(files: Files, path: string): Option<string> {
    if path in files then Some(files[path]) else None
  }

  /** Python's text mode: on reading, CR LF and CR become LF. */
  function ReadText(content: string): (r: string)
    ensures '\r' !in r
  {
    if content == "" then ""
    else if content[0] != '\r' then [content[0]] + ReadText(content[1..])
    else "\n" + ReadText(if |content| > 1 && content[1] == '\n' then content[2..] else content[1..])
  }

  /** Reading changes exactly the texts that hold a carriage return. */
  lemma {:induction false} ReadTextExact(content: string)
    ensures ReadText(content) == content <==> '\r' !in content
  {
    if '\r' !in content && content != "" {
      assert content[0] in content;
      assert forall c :: c in content[1..] ==> c in content;
      ReadTextExact(content[1..]);
      assert content == [content[0]] + content[1..];
    }
  }

  lemma {:induction false} ReadTextOfPlain(a: string, b: string)
    requires '\r' !in a
    ensures ReadText(a + b) == a + ReadText(b)
  {
    if a == "" {
      assert a + b == b;
    } else {
      assert a[0] in a && forall c :: c in a[1..] ==> c in a;
      assert (a + b)[1..] == a[1..] + b;
      ReadTextOfPlain(a[1..], b);
      assert a == [a[0]] + a[1..];
    }
  }

  /** Line ends of all three kinds are read as LF, and everything else as it is. */
  lemma LineEndsAreRead(a: string, b: string)
    requires '\r' !in a
    ensures ReadText(a) == a
    ensures ReadText(a + ("\r\n" + b)) == a + ("\n" + ReadText(b))
    ensures !("\n" <= b) ==> ReadText(a + ("\r" + b)) == a + ("\n" + ReadText(b))
  {
    ReadTextExact(a);
    ReadTextOfPlain(a, "\r\n" + b);
    ReadTextOfPlain(a, "\r" + b);
    assert ("\r\n" + b)[2..] == b && ("\r" + b)[1..] == b;
  }

  /** The content of a snapshot: absent files are kept as such. */
  function Captured(files: Files, paths: set<string>): map<string, Option<string>> {
    map path | path in paths :: if path in files then Some(ReadText(files[path])) else None
  }

  /** Files after some of them were written or removed. */
  function Overlaid(files: Files, changes: map<string, Option<string>>): Files {
    map path | path in files.Keys + changes.Keys && (path in changes ==> changes[path].Some?) ::
      if path in changes then changes[path].value else files[path]
  }

  /** Differs from `was` at most on `paths`. */
  ghost predicate SameOutside(files: Files, was: Files, paths: set<string>) {
    forall path {:trigger Lookup(files, path)} :: path !in paths ==> Lookup(files, path) == Lookup(was, path)
  }

  /** The files as a rollback leaves them: captured ones as they were read. */
  function AsRead(files: Files, paths: set<string>): Files {
    map path | path in files :: if path in paths then ReadText(files[path]) else files[path]
  }

  lemma OverlaidLookup(files: Files, changes: map<string, Option<string>>, path: string)
    ensures Lookup(Overlaid(files, changes), path) == if path in changes then changes[path] else Lookup(files, path)
  {
  }

  lemma OverlaidTwice(files: Files, a: map<string, Option<string>>, b: map<string, Option<string>>)
    ensures Overlaid(Overlaid(files, a), b) == Overlaid(files, a + b)
  {
    forall path
      ensures Lookup(Overlaid(Overlaid(files, a), b), path) == Lookup(Overlaid(files, a + b), path)
    {
      OverlaidLookup(files, a, path);
      OverlaidLookup(Overlaid(files, a), b, path);
      OverlaidLookup(files, a + b, path);
    }
    SameLookups(Overlaid(Overlaid(files, a), b), Overlaid(files, a + b));
  }

  lemma OverlaidSameOutside(files: Files, changes: map<string, Option<string>>, paths: set<string>)
    requires changes.Keys <= paths
    ensures SameOutside(Overlaid(files, changes), files, paths)
  {
    forall path | path !in paths
      ensures Lookup(Overlaid(files, changes), path) == Lookup(files, path)
    {
      OverlaidLookup(files, changes, path);
    }
  }

  /** Whatever was done to captured files, restoring them gives back every file as it was read. */
  lemma RestoreGivesBack(files: Files, was: Files, paths: set<string>)
    requires SameOutside(files, was, paths)
    ensures Overlaid(files, Captured(was, paths)) == AsRead(was, paths)
  {
    var restored := Overlaid(files, Captured(was, paths));
    var expected := AsRead(was, paths);
    forall path
      ensures Lookup(restored, path) == Lookup(expected, path)
    {
      OverlaidLookup(files, Captured(was, paths), path);
      assert path !in paths ==> Lookup(files, path) == Lookup(was, path);
    }
    SameLookups(restored, expected);
  }

  lemma SameLookups(a: Files, b: Files)
    requires forall path :: Lookup(a, path) == Lookup(b, path)
    ensures a == b
  {
    assert forall path :: path in a <==> Lookup(a, path).Some?;
    assert forall path :: path in b <==> Lookup(b, path).Some?;
  }

  /** And that is the original configuration exactly when no captured file holds a carriage return. */
  lemma AsReadIsOriginal(was: Files, paths: set<string>)
    ensures AsRead(was, paths) == was <==> forall path :: path in paths && path in was ==> '\r' !in was[path]
  {
    var read := AsRead(was, paths);
    forall path | path in paths && path in was
      ensures read[path] == was[path] <==> '\r' !in was[path]
    {
      ReadTextExact(was[path]);
    }
    if forall path :: path in paths && path in was ==> '\r' !in was[path] {
      assert read.Keys == was.Keys;
    }
  }
}
