/**
  The managed network configuration of backend/app/network_management.py: interfaces, routes
  and traffic rules, what a change makes of them, and the conflicts a plan is refused for.
  Fields that neither conflicts nor file names depend on are kept as one text.
 */
module ManagedNetwork {
  import opened Wrappers

  datatype Kind = Physical | Bond | Vlan | Bridge

  /** `parent` is empty when there is none. */
  datatype Interface = Interface(
    name: string, kind: Kind, parent: string, vlanId: Option<int>, members: seq<string>, settings: string)

  datatype Route = Route(
    id: string, family: string, destination: string, table: int, routeType: string, settings: string)

  datatype Rule = Rule(id: string, settings: string)

  datatype Managed = Managed(
    interfaces: map<string, Interface>, dns: Option<string>, routes: map<string, Route>, traffic: map<string, Rule>)

  datatype Operation =
    | SaveInterface | DeleteInterface | SetLink | SaveDns | SaveRoute | DeleteRoute | SaveTraffic | DeleteTraffic

  /** A request may carry more payloads than its operation uses; names are empty when absent. */
  datatype Change = Change(
    operation: Operation, interface: Option<Interface>, interfaceName: string, dns: Option<string>,
    route: Option<Route>, traffic: Option<Rule>, objectId: string)

  const MAX_OBJECTS := 256

  const NOTHING_MANAGED := Managed(map[], None, map[], map[])

  function Count(state: Managed): nat {
    |state.interfaces| + |state.routes| + |state.traffic|
  }

  // ---- Conflicts ---------------------------------------------------------------

  predicate InterfacesClash(a: Interface, b: Interface) {
    || (exists member :: member in a.members && member in b.members)
    || (a.kind.Vlan? && b.kind.Vlan? && a.parent == b.parent && a.vlanId == b.vlanId)
  }

  predicate RoutesClash(a: Route, b: Route) {
    && a.family == b.family && a.destination == b.destination && a.table == b.table && a.routeType == b.routeType
  }

  /** The refusals of _conflicts that depend on the managed state. */
  predicate Conflicts(change: Change, state: Managed) {
    || (change.interface.Some? && exists name :: name in state.interfaces && name != change.interface.value.name
                                                 && InterfacesClash(change.interface.value, state.interfaces[name]))
    || (change.route.Some? && exists id :: id in state.routes && id != change.route.value.id
                                           && RoutesClash(state.routes[id], change.route.value))
  }

  predicate AddsObject(change: Change, state: Managed) {
    || (change.operation.SaveInterface? && change.interface.Some? && change.interface.value.name !in state.interfaces)
    || (change.operation.SaveRoute? && change.route.Some? && change.route.value.id !in state.routes)
    || (change.operation.SaveTraffic? && change.traffic.Some? && change.traffic.value.id !in state.traffic)
  }

  predicate Admitted(change: Change, state: Managed) {
    !(Count(state) >= MAX_OBJECTS && AddsObject(change, state)) && !Conflicts(change, state)
  }

  /** The `after` of a plan. */
  function Applied(state: Managed, change: Change): Managed {
    match change.operation
    case SaveInterface =>
      if change.interface.None? then state
      else state.(interfaces := state.interfaces[change.interface.value.name := change.interface.value])
    case DeleteInterface => state.(interfaces := state.interfaces - {change.interfaceName})
    case SetLink => state
    case SaveDns => if change.dns.None? then state else state.(dns := change.dns)
    case SaveRoute =>
      if change.route.None? then state
      else state.(routes := state.routes[change.route.value.id := change.route.value])
    case DeleteRoute => state.(routes := state.routes - {change.objectId})
    case SaveTraffic =>
      if change.traffic.None? then state
      else state.(traffic := state.traffic[change.traffic.value.id := change.traffic.value])
    case DeleteTraffic => state.(traffic := state.traffic - {change.objectId})
  }

  /** What a change overwrites or removes in each section. */
  function InterfaceKey(change: Change): Option<string> {
    if change.operation.SaveInterface? && change.interface.Some? then Some(change.interface.value.name)
    else if change.operation.DeleteInterface? then Some(change.interfaceName)
    else None
  }

  function RouteKey(change: Change): Option<string> {
    if change.operation.SaveRoute? && change.route.Some? then Some(change.route.value.id)
    else if change.operation.DeleteRoute? then Some(change.objectId)
    else None
  }

  function TrafficKey(change: Change): Option<string> {
    if change.operation.SaveTraffic? && change.traffic.Some? then Some(change.traffic.value.id)
    else if change.operation.DeleteTraffic? then Some(change.objectId)
    else None
  }

  /** A section with `key` overwritten, or removed when there is no value. */
  function Put<V>(m: map<string, V>, key: Option<string>, value: Option<V>): map<string, V> {
    if key.None? then m else if value.Some? then m[key.value := value.value] else m - {key.value}
  }

  lemma AppliedSections(state: Managed, change: Change)
    ensures Applied(state, change) == Managed(
        Put(state.interfaces, InterfaceKey(change), if change.operation.SaveInterface? then change.interface else None),
        if change.operation.SaveDns? && change.dns.Some? then change.dns else state.dns,
        Put(state.routes, RouteKey(change), if change.operation.SaveRoute? then change.route else None),
        Put(state.traffic, TrafficKey(change), if change.operation.SaveTraffic? then change.traffic else None))
  {
  }

  /** Interfaces are filed under their names; no two share a member or are the same VLAN. */
  predicate CleanInterfaces(interfaces: map<string, Interface>) {
    && (forall name :: name in interfaces ==> interfaces[name].name == name)
    && (forall a, b :: a in interfaces && b in interfaces && a != b ==> !InterfacesClash(interfaces[a], interfaces[b]))
  }

  /** Routes are filed under their identifiers; no two lead the same way. */
  predicate CleanRoutes(routes: map<string, Route>) {
    && (forall id :: id in routes ==> routes[id].id == id)
    && (forall a, b :: a in routes && b in routes && a != b ==> !RoutesClash(routes[a], routes[b]))
  }

  /** The configuration is free of conflicts and has at most the allowed number of objects. */
  predicate Clean(state: Managed) {
    CleanInterfaces(state.interfaces) && CleanRoutes(state.routes) && Count(state) <= MAX_OBJECTS
  }

  lemma PutCounts<V>(m: map<string, V>, key: Option<string>, value: Option<V>)
    ensures |Put(m, key, value)| <= |m| + if key.Some? && value.Some? && key.value !in m then 1 else 0
  {
    var r := Put(m, key, value);
    if key.Some? {
      assert r.Keys == if value.Some? then m.Keys + {key.value} else m.Keys - {key.value};
      assert key.value in m ==> m.Keys + {key.value} == m.Keys;
    }
    assert |r| == |r.Keys| && |m| == |m.Keys|;
  }

  lemma SavedInterfaceKeepsClean(state: Managed, change: Change, item: Interface)
    requires CleanInterfaces(state.interfaces) && change.interface == Some(item) && !Conflicts(change, state)
    ensures CleanInterfaces(state.interfaces[item.name := item])
  {
    var interfaces := state.interfaces[item.name := item];
    forall a, b | a in interfaces && b in interfaces && a != b
      ensures !InterfacesClash(interfaces[a], interfaces[b])
    {
      ClashIsSymmetric(interfaces[a], interfaces[b]);
    }
  }

  lemma SavedRouteKeepsClean(state: Managed, change: Change, item: Route)
    requires CleanRoutes(state.routes) && change.route == Some(item) && !Conflicts(change, state)
    ensures CleanRoutes(state.routes[item.id := item])
  {
  }

  lemma RemovedKeepsClean(state: Managed, key: string)
    requires Clean(state)
    ensures CleanInterfaces(state.interfaces - {key}) && CleanRoutes(state.routes - {key})
  {
  }

  lemma CountsApplied(state: Managed, change: Change)
    ensures Count(Applied(state, change)) <= Count(state) + if AddsObject(change, state) then 1 else 0
  {
    AppliedSections(state, change);
    var put := if change.operation.SaveInterface? then change.interface else None;
    PutCounts(state.interfaces, InterfaceKey(change), put);
    PutCounts(state.routes, RouteKey(change), if change.operation.SaveRoute? then change.route else None);
    PutCounts(state.traffic, TrafficKey(change), if change.operation.SaveTraffic? then change.traffic else None);
  }

  /** A plan that is not refused leads from a conflict-free configuration to one. */
  lemma AppliedKeepsClean(state: Managed, change: Change)
    requires Clean(state) && Admitted(change, state)
    ensures Clean(Applied(state, change))
  {
    CountsApplied(state, change);
    if change.operation.SaveInterface? && change.interface.Some? {
      SavedInterfaceKeepsClean(state, change, change.interface.value);
    } else if change.operation.DeleteInterface? {
      RemovedKeepsClean(state, change.interfaceName);
    } else if change.operation.SaveRoute? && change.route.Some? {
      SavedRouteKeepsClean(state, change, change.route.value);
    } else if change.operation.DeleteRoute? {
      RemovedKeepsClean(state, change.objectId);
    }
  }

  lemma ClashIsSymmetric(a: Interface, b: Interface)
    ensures InterfacesClash(a, b) == InterfacesClash(b, a)
  {
  }

  /** What the invariant says, in the fields of the objects. */
  lemma CleanInFields(state: Managed)
    ensures Clean(state) <==>
              && (forall name :: name in state.interfaces ==> state.interfaces[name].name == name)
              && (forall a, b :: a in state.interfaces && b in state.interfaces && a != b ==>
                    forall member :: member in state.interfaces[a].members ==> member !in state.interfaces[b].members)
              && (forall a, b :: a in state.interfaces && b in state.interfaces && a != b ==>
                    var x, y := state.interfaces[a], state.interfaces[b];
                    x.kind == y.kind == Vlan && x.parent == y.parent ==> x.vlanId != y.vlanId)
              && (forall id :: id in state.routes ==> state.routes[id].id == id)
              && (forall a, b :: a in state.routes && b in state.routes && a != b ==>
                    var x, y := state.routes[a], state.routes[b];
                    (x.family, x.destination, x.table, x.routeType) != (y.family, y.destination, y.table, y.routeType))
              && |state.interfaces| + |state.routes| + |state.traffic| <= 256
  {
  }

  /** A request that carries at most the payload of its operation. */
  predicate OwnPayload(change: Change) {
    && (change.interface.Some? ==> change.operation.SaveInterface?)
    && (change.route.Some? ==> change.operation.SaveRoute?)
  }

  lemma PutAdds<V>(m: map<string, V>, key: string, value: V)
    ensures |m[key := value]| == |m| + if key in m then 0 else 1
  {
    assert m[key := value].Keys == m.Keys + {key};
    assert key in m ==> m.Keys + {key} == m.Keys;
    assert |m| == |m.Keys| && |m[key := value]| == |m[key := value].Keys|;
  }

  lemma AddedCounts(state: Managed, change: Change)
    requires AddsObject(change, state)
    ensures Count(Applied(state, change)) == Count(state) + 1
  {
    match change.operation
    case SaveInterface => PutAdds(state.interfaces, change.interface.value.name, change.interface.value);
    case SaveRoute => PutAdds(state.routes, change.route.value.id, change.route.value);
    case SaveTraffic => PutAdds(state.traffic, change.traffic.value.id, change.traffic.value);
  }

  lemma ConflictIsSeen(state: Managed, change: Change)
    requires OwnPayload(change) && Conflicts(change, state)
    ensures !Clean(Applied(state, change))
  {
    var after := Applied(state, change);
    if change.operation.SaveInterface? {
      var item := change.interface.value;
      var name :| name in state.interfaces && name != item.name && InterfacesClash(item, state.interfaces[name]);
      assert InterfacesClash(after.interfaces[item.name], after.interfaces[name]);
    } else {
      var item := change.route.value;
      var id :| id in state.routes && id != item.id && RoutesClash(state.routes[id], item);
      assert RoutesClash(after.routes[id], after.routes[item.id]);
    }
  }

  /**
    A change is refused for the managed state exactly when it would make it unclean, so nothing
    is refused without need.
   */
  lemma RefusedExactlyWhenUnclean(state: Managed, change: Change)
    requires Clean(state) && OwnPayload(change)
    ensures Admitted(change, state) <==> Clean(Applied(state, change))
  {
    if Admitted(change, state) {
      AppliedKeepsClean(state, change);
    } else if Conflicts(change, state) {
      ConflictIsSeen(state, change);
    } else {
      AddedCounts(state, change);
    }
  }

  // ---- Stale plans -------------------------------------------------------------

  function Rest<V>(m: map<string, V>, key: Option<string>): map<string, V> {
    if key.Some? then m - {key.value} else m
  }

  /** Two configurations that differ at most in what `change` overwrites. */
  predicate SameElsewhere(a: Managed, b: Managed, change: Change) {
    && Rest(a.interfaces, InterfaceKey(change)) == Rest(b.interfaces, InterfaceKey(change))
    && Rest(a.routes, RouteKey(change)) == Rest(b.routes, RouteKey(change))
    && Rest(a.traffic, TrafficKey(change)) == Rest(b.traffic, TrafficKey(change))
    && ((change.operation.SaveDns? && change.dns.Some?) || a.dns == b.dns)
  }

  lemma Overwritten<V>(a: map<string, V>, b: map<string, V>, key: string, value: V)
    ensures a[key := value] == b[key := value] <==> a - {key} == b - {key}
  {
    assert a[key := value] == (a - {key})[key := value];
    assert b[key := value] == (b - {key})[key := value];
    if a[key := value] == b[key := value] {
      assert a - {key} == a[key := value] - {key};
      assert b - {key} == b[key := value] - {key};
    }
  }

  lemma PutAgrees<V>(a: map<string, V>, b: map<string, V>, key: Option<string>, value: Option<V>)
    ensures Put(a, key, value) == Put(b, key, value) <==> Rest(a, key) == Rest(b, key)
  {
    if key.Some? && value.Some? {
      Overwritten(a, b, key.value, value.value);
    }
  }

  /**
    Applying a plan writes the `after` it was built with. That equals what the change makes of
    the configuration found when it is applied exactly when nothing else was changed meanwhile.
   */
  lemma StalePlan(before: Managed, now: Managed, change: Change)
    ensures Applied(before, change) == Applied(now, change) <==> SameElsewhere(before, now, change)
  {
    AppliedSections(before, change);
    AppliedSections(now, change);
    PutAgrees(before.interfaces, now.interfaces, InterfaceKey(change),
              if change.operation.SaveInterface? then change.interface else None);
    PutAgrees(before.routes, now.routes, RouteKey(change), if change.operation.SaveRoute? then change.route else None);
    PutAgrees(before.traffic, now.traffic, TrafficKey(change),
              if change.operation.SaveTraffic? then change.traffic else None);
  }
}
