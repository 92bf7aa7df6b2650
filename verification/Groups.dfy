/**
  Nested LDAP groups: `expand_nested_groups` of backend/app/ldap_rbac.py and the parent
  map `sync_directory` builds for it. Names are already case-folded.

  Sets are iterated in any order: the methods pick elements arbitrarily, and what they
  return does not depend on the picks.
 */
module Groups {
  import opened Wrappers

  type Dn = string

  datatype LimitError = NestedGroupLimit(maxNodes: int)

  function ParentsOf(parents: map<Dn, set<Dn>>, dn: Dn): set<Dn> {
    if dn in parents then parents[dn] else {}
  }

  function AllParents(parents: map<Dn, set<Dn>>, of: set<Dn>): set<Dn> {
    set child, p {:trigger child in of, p in ParentsOf(parents, child)} |
      child in of && p in ParentsOf(parents, child) :: p
  }

  /** The groups at most `depth` parent steps above `direct`. */
  function Within(direct: set<Dn>, parents: map<Dn, set<Dn>>, depth: nat): set<Dn> {
    if depth == 0 then direct
    else Within(direct, parents, depth - 1) + AllParents(parents, Within(direct, parents, depth - 1))
  }

  /** `path` climbs from a direct group to `dn`, one parent step at a time. */
  predicate Climbs(direct: set<Dn>, parents: map<Dn, set<Dn>>, path: seq<Dn>, dn: Dn) {
    && |path| > 0 && path[0] in direct && path[|path| - 1] == dn
    && forall i :: 0 <= i < |path| - 1 ==> path[i + 1] in ParentsOf(parents, path[i])
  }

  lemma {:induction false} WithinHasPath(direct: set<Dn>, parents: map<Dn, set<Dn>>, depth: nat, dn: Dn)
    returns (path: seq<Dn>)
    requires dn in Within(direct, parents, depth)
    ensures Climbs(direct, parents, path, dn) && |path| <= depth + 1
  {
    if dn in direct {
      path := [dn];
    } else if dn in Within(direct, parents, depth - 1) {
      path := WithinHasPath(direct, parents, depth - 1, dn);
    } else {
      var child :| child in Within(direct, parents, depth - 1) && dn in ParentsOf(parents, child);
      var below := WithinHasPath(direct, parents, depth - 1, child);
      path := below + [dn];
    }
  }

  lemma {:induction false} PathIsWithin(direct: set<Dn>, parents: map<Dn, set<Dn>>, path: seq<Dn>, dn: Dn, depth: nat)
    requires Climbs(direct, parents, path, dn) && |path| <= depth + 1
    ensures dn in Within(direct, parents, depth)
    decreases |path|
  {
    if |path| == 1 {
      WithinGrows(direct, parents, 0, depth);
    } else {
      var below := path[..|path| - 1];
      PathIsWithin(direct, parents, below, path[|path| - 2], depth - 1);
      assert path[|path| - 2 + 1] in ParentsOf(parents, path[|path| - 2]);
    }
  }

  /** Membership by levels is membership by a path of at most `depth` parent steps. */
  lemma WithinIsReachability(direct: set<Dn>, parents: map<Dn, set<Dn>>, depth: nat, dn: Dn)
    ensures dn in Within(direct, parents, depth) <==>
            exists path :: Climbs(direct, parents, path, dn) && |path| <= depth + 1
  {
    if dn in Within(direct, parents, depth) {
      var path := WithinHasPath(direct, parents, depth, dn);
    }
    if path :| Climbs(direct, parents, path, dn) && |path| <= depth + 1 {
      PathIsWithin(direct, parents, path, dn, depth);
    }
  }

  lemma {:induction false} WithinGrows(direct: set<Dn>, parents: map<Dn, set<Dn>>, a: nat, b: nat)
    requires a <= b
    ensures Within(direct, parents, a) <= Within(direct, parents, b)
    decreases b
  {
    if a < b {
      WithinGrows(direct, parents, a, b - 1);
    }
  }

  /** Once a level adds nothing, no later level does. */
  lemma {:induction false} WithinStops(direct: set<Dn>, parents: map<Dn, set<Dn>>, a: nat, b: nat)
    requires a <= b && AllParents(parents, Within(direct, parents, a)) <= Within(direct, parents, a)
    ensures Within(direct, parents, b) == Within(direct, parents, a)
    decreases b
  {
    if a < b {
      WithinStops(direct, parents, a, b - 1);
    }
  }

  function Members(queue: seq<(Dn, int)>): set<Dn> {
    set i | 0 <= i < |queue| :: queue[i].0
  }

  function Depth(maxDepth: int): nat {
    if maxDepth < 0 then 0 else maxDepth
  }

  /**
    The breadth-first invariant. The front of the queue lies on level `d`, the first `m`
    entries lie on it too, the rest on level d + 1 and are exactly what has been found
    beyond level `d`; the parents of every expanded group have been found, groups in `open`
    are still being expanded.
   */
  ghost predicate Frontier(direct: set<Dn>, parents: map<Dn, set<Dn>>, result: set<Dn>,
                           queue: seq<(Dn, int)>, d: nat, m: nat, open: set<Dn>) {
    && m <= |queue|
    && (forall i :: 0 <= i < m ==> queue[i].1 == d)
    && (forall i :: m <= i < |queue| ==> queue[i].1 == d + 1)
    && Within(direct, parents, d) <= result <= Within(direct, parents, d + 1)
    && Members(queue[..m]) <= Within(direct, parents, d)
    && Members(queue[m..]) == result - Within(direct, parents, d)
    && (forall x {:trigger ParentsOf(parents, x)} ::
          x in Within(direct, parents, d) && x !in Members(queue[..m]) && x !in open ==>
            ParentsOf(parents, x) <= result)
  }

  lemma MembersOfPop(queue: seq<(Dn, int)>)
    requires |queue| > 0
    ensures Members(queue) == {queue[0].0} + Members(queue[1..])
  {
    forall x | x in Members(queue)
      ensures x in {queue[0].0} + Members(queue[1..])
    {
      var i :| 0 <= i < |queue| && queue[i].0 == x;
      if i > 0 {
        assert queue[1..][i - 1] == queue[i];
      }
    }
  }

  lemma MembersOfPush(queue: seq<(Dn, int)>, e: (Dn, int))
    ensures Members(queue + [e]) == Members(queue) + {e.0}
  {
    var longer := queue + [e];
    assert longer[|queue|] == e;
    forall x | x in Members(queue)
      ensures x in Members(longer)
    {
      var i :| 0 <= i < |queue| && queue[i].0 == x;
      assert longer[i] == queue[i];
    }
  }

  /** What the caller of expand_nested_groups gets, stated without an algorithm. */
  ghost function Expanded(direct: set<Dn>, parents: map<Dn, set<Dn>>, maxDepth: int, maxNodes: int)
    : Result<set<Dn>, LimitError>
  {
    var all := Within(direct, parents, Depth(maxDepth));
    if all != direct && |all| > maxNodes then Err(NestedGroupLimit(maxNodes)) else Ok(all)
  }

  /** A found group beyond the limit: the full set is strictly larger than `direct` and than `maxNodes`. */
  lemma LimitIsReached(direct: set<Dn>, all: set<Dn>, result: set<Dn>, parent: Dn, maxNodes: int)
    requires direct <= result <= all && parent in all && parent !in result && |result| >= maxNodes
    ensures all != direct && |all| > maxNodes
  {
    SubsetSize(result + {parent}, all);
  }

  lemma Fewer(all: set<Dn>, a: set<Dn>, b: set<Dn>)
    requires a <= b <= all && a != b
    ensures |all - b| < |all - a|
  {
    assert b - a != {};
    var x :| x in b - a;
    SubsetSize(all - b, all - a - {x});
  }

  /** The first `m` queue entries have been expanded: the next level begins. */
  lemma NextLevel(direct: set<Dn>, parents: map<Dn, set<Dn>>, result: set<Dn>, queue: seq<(Dn, int)>, d: nat)
    requires Frontier(direct, parents, result, queue, d, 0, {}) && |queue| > 0
    ensures Frontier(direct, parents, result, queue, d + 1, |queue|, {})
  {
    var level := Within(direct, parents, d);
    assert queue[..0] == [] && queue[0..] == queue && queue[..|queue|] == queue && queue[|queue|..] == [];
    assert AllParents(parents, level) <= result;
    assert Within(direct, parents, d + 1) == level + AllParents(parents, level);
    assert result == Within(direct, parents, d + 1);
    forall x | x in Within(direct, parents, d + 1) && x !in Members(queue[..|queue|])
      ensures ParentsOf(parents, x) <= result
    {
      assert x in level;
    }
    WithinGrows(direct, parents, d + 1, d + 2);
  }

  /** The queue is empty, or holds only entries at the depth limit: the result is complete. */
  lemma Complete(direct: set<Dn>, parents: map<Dn, set<Dn>>, result: set<Dn>, d: nat, maxDepth: nat)
    requires Frontier(direct, parents, result, [], d, 0, {}) && d <= maxDepth
    ensures result == Within(direct, parents, maxDepth)
  {
    var level := Within(direct, parents, d);
    assert Members([]) == {};
    assert result == level;
    assert AllParents(parents, level) <= level;
    WithinStops(direct, parents, d, maxDepth);
  }

  lemma FrontierPop(direct: set<Dn>, parents: map<Dn, set<Dn>>, result: set<Dn>, queue: seq<(Dn, int)>, d: nat, m: nat)
    requires Frontier(direct, parents, result, queue, d, m, {}) && m > 0
    ensures Frontier(direct, parents, result, queue[1..], d, m - 1, {queue[0].0})
    ensures queue[0].0 in Within(direct, parents, d) && queue[0].1 == d
  {
    MembersOfPop(queue[..m]);
    assert queue[..m][1..] == queue[1..][..m - 1];
    assert queue[1..][m - 1..] == queue[m..];
    assert queue[..m][0] == queue[0];
  }

  lemma FrontierPush(direct: set<Dn>, parents: map<Dn, set<Dn>>, result: set<Dn>, queue: seq<(Dn, int)>, d: nat, m: nat,
                     open: set<Dn>, child: Dn, parent: Dn)
    requires Frontier(direct, parents, result, queue, d, m, open)
    requires child in Within(direct, parents, d) && parent in ParentsOf(parents, child) && parent !in result
    ensures Frontier(direct, parents, result + {parent}, queue + [(parent, d + 1)], d, m, open)
  {
    var longer := queue + [(parent, d + 1)];
    assert longer[..m] == queue[..m];
    assert longer[m..] == queue[m..] + [(parent, d + 1)];
    MembersOfPush(queue[m..], (parent, d + 1));
    assert parent in AllParents(parents, Within(direct, parents, d));
  }

  /** The inner loop: every parent of `current` not seen yet is added and queued, unless the limit is hit. */
  method Expand(current: Dn, depth: nat, parents: map<Dn, set<Dn>>, found: set<Dn>, pending: seq<(Dn, int)>,
                maxNodes: int, ghost direct: set<Dn>, ghost m: nat)
    returns (over: bool, result: set<Dn>, queue: seq<(Dn, int)>)
    requires Frontier(direct, parents, found, pending, depth, m, {current})
    requires current in Within(direct, parents, depth) && direct <= found && (found == direct || |found| <= maxNodes)
    ensures found <= result && (result == found ==> queue == pending)
    ensures over ==> |result| >= maxNodes && !(ParentsOf(parents, current) <= result)
    ensures result <= found + ParentsOf(parents, current)
    ensures !over ==> Frontier(direct, parents, result, queue, depth, m, {})
    ensures result == direct || |result| <= maxNodes
  {
    over, result, queue := false, found, pending;
    var todo := ParentsOf(parents, current);
    while todo != {}
      invariant todo <= ParentsOf(parents, current) <= result + todo
      invariant found <= result <= found + ParentsOf(parents, current)
      invariant result == found ==> queue == pending
      invariant Frontier(direct, parents, result, queue, depth, m, {current})
      invariant result == direct || |result| <= maxNodes
    {
      var parent :| parent in todo;
      todo := todo - {parent};
      if parent in result {
        continue;
      }
      if |result| >= maxNodes {
        over := true;
        return;
      }
      FrontierPush(direct, parents, result, queue, depth, m, {current}, current, parent);
      result := result + {parent};
      queue := queue + [(parent, depth + 1)];
    }
  }

  /** The loop invariant: breadth-first below the depth limit, a complete result at it. */
  ghost predicate Searching(direct: set<Dn>, parents: map<Dn, set<Dn>>, result: set<Dn>, queue: seq<(Dn, int)>,
                            d: nat, m: nat, limit: nat, maxNodes: int) {
    && d <= limit && direct <= result <= Within(direct, parents, limit)
    && (result == direct || |result| <= maxNodes)
    && (d < limit ==> Frontier(direct, parents, result, queue, d, m, {}))
    && (d == limit ==> result == Within(direct, parents, limit) && forall i :: 0 <= i < |queue| ==> queue[i].1 == limit)
  }

  lemma SearchStarts(direct: set<Dn>, parents: map<Dn, set<Dn>>, queue: seq<(Dn, int)>, limit: nat, maxNodes: int)
    requires Members(queue) == direct && forall i :: 0 <= i < |queue| ==> queue[i].1 == 0
    ensures Searching(direct, parents, direct, queue, 0, |queue|, limit, maxNodes)
  {
    WithinGrows(direct, parents, 0, limit);
    WithinGrows(direct, parents, 0, 1);
    assert queue[..|queue|] == queue && queue[|queue|..] == [];
  }

  /** When the current level is used up, the rest of the queue is the next level. */
  lemma SearchDescends(direct: set<Dn>, parents: map<Dn, set<Dn>>, result: set<Dn>, queue: seq<(Dn, int)>,
                       d: nat, m: nat, limit: nat, maxNodes: int) returns (d': nat, m': nat)
    requires Searching(direct, parents, result, queue, d, m, limit, maxNodes) && |queue| > 0
    ensures Searching(direct, parents, result, queue, d', m', limit, maxNodes) && (d' < limit ==> m' > 0)
  {
    d', m' := d, m;
    if d < limit && m == 0 {
      NextLevel(direct, parents, result, queue, d);
      WithinGrows(direct, parents, d + 1, limit);
      assert queue[|queue|..] == [] && Members([]) == {};
      d', m' := d + 1, |queue|;
    }
  }

  lemma SearchEnds(direct: set<Dn>, parents: map<Dn, set<Dn>>, result: set<Dn>, d: nat, m: nat, limit: nat,
                   maxNodes: int)
    requires Searching(direct, parents, result, [], d, m, limit, maxNodes)
    ensures result == Within(direct, parents, limit)
  {
    if d < limit {
      Complete(direct, parents, result, d, limit);
    }
  }

  /** At the depth limit entries are only discarded. */
  lemma SearchSkips(direct: set<Dn>, parents: map<Dn, set<Dn>>, result: set<Dn>, queue: seq<(Dn, int)>,
                    d: nat, m: nat, limit: nat, maxNodes: int)
    requires Searching(direct, parents, result, queue, d, m, limit, maxNodes) && |queue| > 0 && queue[0].1 >= limit
    requires d < limit ==> m > 0
    ensures Searching(direct, parents, result, queue[1..], d, m, limit, maxNodes)
  {
    if d < limit {
      FrontierPop(direct, parents, result, queue, d, m);
    }
  }

  /** Expanding one group of level `d` stays within the answer. */
  lemma SearchContinues(direct: set<Dn>, parents: map<Dn, set<Dn>>, current: Dn, found: set<Dn>, result: set<Dn>,
                        d: nat, limit: nat)
    requires current in Within(direct, parents, d) && d < limit
    requires found <= Within(direct, parents, limit) && found <= result <= found + ParentsOf(parents, current)
    ensures result + ParentsOf(parents, current) <= Within(direct, parents, limit)
    ensures result != found ==> |Within(direct, parents, limit) - result| < |Within(direct, parents, limit) - found|
  {
    WithinGrows(direct, parents, d + 1, limit);
    assert ParentsOf(parents, current) <= AllParents(parents, Within(direct, parents, d));
    if result != found {
      Fewer(Within(direct, parents, limit), found, result);
    }
  }

  /** Found nothing new beyond the limit: the error is due. */
  lemma LimitIsDue(direct: set<Dn>, parents: map<Dn, set<Dn>>, current: Dn, result: set<Dn>, limit: nat, maxNodes: int)
    requires direct <= result && |result| >= maxNodes && !(ParentsOf(parents, current) <= result)
    requires result + ParentsOf(parents, current) <= Within(direct, parents, limit)
    ensures Within(direct, parents, limit) != direct && |Within(direct, parents, limit)| > maxNodes
  {
    var parent :| parent in ParentsOf(parents, current) && parent !in result;
    LimitIsReached(direct, Within(direct, parents, limit), result, parent, maxNodes);
  }

  /** One turn of the loop below the depth limit: take the front of the queue and expand it. */
  method Visit(direct: set<Dn>, parents: map<Dn, set<Dn>>, maxNodes: int, found: set<Dn>, pending: seq<(Dn, int)>,
               ghost d: nat, ghost m: nat, ghost limit: nat, ghost all: set<Dn>)
    returns (over: bool, result: set<Dn>, queue: seq<(Dn, int)>)
    requires Searching(direct, parents, found, pending, d, m, limit, maxNodes) && d < limit && m > 0
    requires all == Within(direct, parents, limit)
    ensures over ==> all != direct && |all| > maxNodes
    ensures !over ==> Searching(direct, parents, result, queue, d, m - 1, limit, maxNodes)
    ensures !over ==> (result == found && |queue| < |pending|) || |all - result| < |all - found|
  {
    var (current, depth) := pending[0];
    FrontierPop(direct, parents, found, pending, d, m);
    over, result, queue := Expand(current, depth, parents, found, pending[1..], maxNodes, direct, m - 1);
    SearchContinues(direct, parents, current, found, result, d, limit);
    if over {
      LimitIsDue(direct, parents, current, result, limit, maxNodes);
    }
  }

  lemma ExpandedAll(direct: set<Dn>, parents: map<Dn, set<Dn>>, result: set<Dn>, d: nat, m: nat, maxDepth: int,
                    maxNodes: int)
    requires Searching(direct, parents, result, [], d, m, Depth(maxDepth), maxNodes)
    ensures Expanded(direct, parents, maxDepth, maxNodes) == Ok(result)
  {
    SearchEnds(direct, parents, result, d, m, Depth(maxDepth), maxNodes);
  }

  /** One turn of the loop: at the depth limit the front of the queue is only discarded. */
  method Turn(direct: set<Dn>, parents: map<Dn, set<Dn>>, maxDepth: int, maxNodes: int, found: set<Dn>,
              pending: seq<(Dn, int)>, ghost d: nat, ghost m: nat, ghost limit: nat, ghost all: set<Dn>)
    returns (over: bool, result: set<Dn>, queue: seq<(Dn, int)>, ghost m': nat)
    requires Searching(direct, parents, found, pending, d, m, limit, maxNodes) && |pending| > 0 && (d < limit ==> m > 0)
    requires limit == Depth(maxDepth) && all == Within(direct, parents, limit)
    ensures over ==> all != direct && |all| > maxNodes
    ensures !over ==> Searching(direct, parents, result, queue, d, m', limit, maxNodes)
    ensures !over ==> (result == found && |queue| < |pending|) || |all - result| < |all - found|
  {
    if pending[0].1 >= maxDepth {
      SearchSkips(direct, parents, found, pending, d, m, limit, maxNodes);
      over, result, queue, m' := false, found, pending[1..], m;
    } else {
      over, result, queue := Visit(direct, parents, maxNodes, found, pending, d, m, limit, all);
      m' := m - 1;
    }
  }

  /** A turn of the loop with its bookkeeping: the next level begins when the current one is used up. */
  method Advance(direct: set<Dn>, parents: map<Dn, set<Dn>>, maxDepth: int, maxNodes: int, found: set<Dn>,
                 pending: seq<(Dn, int)>, ghost d: nat, ghost m: nat, ghost limit: nat, ghost all: set<Dn>)
    returns (over: bool, result: set<Dn>, queue: seq<(Dn, int)>, ghost d': nat, ghost m': nat)
    requires Searching(direct, parents, found, pending, d, m, limit, maxNodes) && |pending| > 0
    requires limit == Depth(maxDepth) && all == Within(direct, parents, limit)
    ensures over ==> Expanded(direct, parents, maxDepth, maxNodes) == Err(NestedGroupLimit(maxNodes))
    ensures !over ==> Searching(direct, parents, result, queue, d', m', limit, maxNodes)
    ensures !over ==> (result == found && |queue| < |pending|) || |all - result| < |all - found|
  {
    d', m' := SearchDescends(direct, parents, found, pending, d, m, limit, maxNodes);
    over, result, queue, m' := Turn(direct, parents, maxDepth, maxNodes, found, pending, d', m', limit, all);
  }

  method ExpandNestedGroups(directDns: set<Dn>, parents: map<Dn, set<Dn>>, maxDepth: int, maxNodes: int)
    returns (r: Result<set<Dn>, LimitError>)
    ensures r == Expanded(directDns - {""}, parents, maxDepth, maxNodes)
  {
    var direct := directDns - {""};
    var queue := InitialQueue(direct);
    SearchStarts(direct, parents, queue, Depth(maxDepth), maxNodes);
    var depth := Depth(maxDepth);
    r := RunQueue(direct, parents, maxDepth, maxNodes, queue, depth, Within(direct, parents, depth));
  }

  /** The loop: until the queue is empty or the node limit is hit. */
  method RunQueue(direct: set<Dn>, parents: map<Dn, set<Dn>>, maxDepth: int, maxNodes: int, start: seq<(Dn, int)>,
                  ghost limit: nat, ghost all: set<Dn>)
    returns (r: Result<set<Dn>, LimitError>)
    requires Searching(direct, parents, direct, start, 0, |start|, limit, maxNodes)
    requires limit == Depth(maxDepth) && all == Within(direct, parents, limit)
    ensures r == Expanded(direct, parents, maxDepth, maxNodes)
  {
    var result, queue := direct, start;
    ghost var d, m: nat := 0, |queue|;
    while queue != []
      invariant Searching(direct, parents, result, queue, d, m, limit, maxNodes)
      decreases |all - result|, |queue|
    {
      var over;
      over, result, queue, d, m := Advance(direct, parents, maxDepth, maxNodes, result, queue, d, m, limit, all);
      if over {
        return Err(NestedGroupLimit(maxNodes));
      }
    }
    ExpandedAll(direct, parents, result, d, m, maxDepth, maxNodes);
    r := Ok(result);
  }

  method InitialQueue(direct: set<Dn>) returns (queue: seq<(Dn, int)>)
    ensures Members(queue) == direct && forall i :: 0 <= i < |queue| ==> queue[i].1 == 0
  {
    queue := [];
    var rest := direct;
    while rest != {}
      invariant rest <= direct && Members(queue) == direct - rest
      invariant forall i :: 0 <= i < |queue| ==> queue[i].1 == 0
    {
      var dn :| dn in rest;
      MembersOfPush(queue, (dn, 0));
      queue := queue + [(dn, 0)];
      rest := rest - {dn};
    }
  }

  /**
    The result in terms of the map alone: the groups that are direct, or reached by climbing from
    a direct one through at most `maxDepth` entries of the map; or an error when more groups are
    reached than `maxNodes` and than there are direct ones.
   */
  lemma ExpansionClimbsTheMap(direct: set<Dn>, parents: map<Dn, set<Dn>>, maxDepth: int, maxNodes: int, dn: Dn)
    ensures var r := Expanded(direct, parents, maxDepth, maxNodes);
            r.Ok? ==>
              && (dn in r.value <==>
                    exists path: seq<Dn> ::
                      && |path| > 0 && path[0] in direct && path[|path| - 1] == dn
                      && (|path| == 1 || |path| - 1 <= maxDepth)
                      && forall i :: 0 <= i < |path| - 1 ==> path[i] in parents && path[i + 1] in parents[path[i]])
              && (r.value == direct || |r.value| <= maxNodes)
    ensures var r := Expanded(direct, parents, maxDepth, maxNodes);
            r.Err? ==> r.error == NestedGroupLimit(maxNodes) && exists depth: nat ::
                         depth <= maxDepth && Within(direct, parents, depth) != direct
                         && |Within(direct, parents, depth)| > maxNodes
  {
    WithinIsReachability(direct, parents, Depth(maxDepth), dn);
    forall path: seq<Dn>
      ensures Climbs(direct, parents, path, dn) <==>
                && |path| > 0 && path[0] in direct && path[|path| - 1] == dn
                && forall i :: 0 <= i < |path| - 1 ==> path[i] in parents && path[i + 1] in parents[path[i]]
    {
      StepsInMap(parents, path);
    }
  }

  lemma StepsInMap(parents: map<Dn, set<Dn>>, path: seq<Dn>)
    ensures (forall i :: 0 <= i < |path| - 1 ==> path[i + 1] in ParentsOf(parents, path[i]))
       <==> (forall i :: 0 <= i < |path| - 1 ==> path[i] in parents && path[i + 1] in parents[path[i]])
  {
    if forall i :: 0 <= i < |path| - 1 ==> path[i] in parents && path[i + 1] in parents[path[i]] {
      forall i | 0 <= i < |path| - 1
        ensures path[i + 1] in ParentsOf(parents, path[i])
      {
        assert path[i] in parents && path[i + 1] in parents[path[i]];
      }
    }
    if forall i :: 0 <= i < |path| - 1 ==> path[i + 1] in ParentsOf(parents, path[i]) {
      forall i | 0 <= i < |path| - 1
        ensures path[i] in parents && path[i + 1] in parents[path[i]]
      {
        assert path[i + 1] in ParentsOf(parents, path[i]);
      }
    }
  }

  // ---- The parent map of sync_directory ----------------------------------------

  /** A directory entry: its name and the names it lists as members. */
  datatype Entry = Entry(dn: Dn, members: set<Dn>)

  /** The known groups: unnamed entries are skipped, of several entries with one name the last counts. */
  function Known(entries: seq<Entry>): map<Dn, set<Dn>> {
    if entries == [] then map[]
    else
      var last := entries[|entries| - 1];
      var before := Known(entries[..|entries| - 1]);
      if last.dn == "" then before else before[last.dn := last.members]
  }

  /** `parent` lists `child`, and both are known groups. */
  predicate Nests(known: map<Dn, set<Dn>>, child: Dn, parent: Dn) {
    parent in known && child in known && child in known[parent]
  }

  ghost predicate IsParentMap(known: map<Dn, set<Dn>>, parents: map<Dn, set<Dn>>) {
    forall child, parent :: parent in ParentsOf(parents, child) <==> Nests(known, child, parent)
  }

  method BuildParentMap(entries: seq<Entry>) returns (known: map<Dn, set<Dn>>, parents: map<Dn, set<Dn>>)
    ensures known == Known(entries) && IsParentMap(known, parents)
  {
    known, parents := map[], map[];
    for i := 0 to |entries|
      invariant known == Known(entries[..i])
    {
      assert entries[..i + 1][..i] == entries[..i];
      if entries[i].dn != "" {
        known := known[entries[i].dn := entries[i].members];
      }
    }
    assert entries[..|entries|] == entries;
    var todo := known.Keys;
    while todo != {}
      invariant todo <= known.Keys
      invariant forall c, p :: p in ParentsOf(parents, c) <==> Nests(known, c, p) && p !in todo
    {
      var parent :| parent in todo;
      parents := AddParent(known, parents, parent);
      todo := todo - {parent};
    }
  }

  /** Records `parent` for every known group it lists. */
  method AddParent(known: map<Dn, set<Dn>>, before: map<Dn, set<Dn>>, parent: Dn) returns (parents: map<Dn, set<Dn>>)
    requires parent in known
    ensures forall c :: ParentsOf(parents, c) == ParentsOf(before, c) + if Nests(known, c, parent) then {parent} else {}
  {
    parents := before;
    var rest := known[parent];
    while rest != {}
      invariant rest <= known[parent]
      invariant forall c ::
                  ParentsOf(parents, c)
                  == ParentsOf(before, c) + if Nests(known, c, parent) && c !in rest then {parent} else {}
    {
      var child :| child in rest;
      rest := rest - {child};
      if child in known {
        parents := parents[child := ParentsOf(parents, child) + {parent}];
      }
    }
  }

  /** The i-th entry is the one that counts for its name: it has one, and no later entry has the same. */
  predicate Valid(entries: seq<Entry>, i: nat)
    requires i < |entries|
  {
    entries[i].dn != "" && forall j :: i < j < |entries| ==> entries[j].dn != entries[i].dn
  }

  lemma {:induction false} KnownAreEntries(entries: seq<Entry>, dn: Dn)
    ensures dn in Known(entries) <==> exists i :: 0 <= i < |entries| && entries[i].dn == dn && Valid(entries, i)
    ensures forall i :: 0 <= i < |entries| && entries[i].dn == dn && Valid(entries, i) ==>
              dn in Known(entries) && Known(entries)[dn] == entries[i].members
    decreases |entries|
  {
    if entries != [] {
      var n := |entries| - 1;
      var before := entries[..n];
      KnownAreEntries(before, dn);
      forall i | 0 <= i < n && entries[n].dn != dn && entries[i].dn == dn
        ensures Valid(entries, i) <==> Valid(before, i)
      {
      }
      assert entries[n].dn != "" ==> Valid(entries, n);
      if dn in Known(before) && entries[n].dn != dn {
        var i :| 0 <= i < n && before[i].dn == dn && Valid(before, i);
        assert entries[i].dn == dn && Valid(entries, i);
      }
    }
  }

  /** Where the parents come from: a known group is listed by the entry that counts for its parent. */
  lemma ParentsAreListings(entries: seq<Entry>, parents: map<Dn, set<Dn>>, child: Dn, parent: Dn)
    requires IsParentMap(Known(entries), parents)
    ensures child in parents && parent in parents[child] <==>
              && (exists i :: 0 <= i < |entries| && entries[i].dn == child && Valid(entries, i))
              && (exists i :: 0 <= i < |entries| && entries[i].dn == parent && Valid(entries, i)
                              && child in entries[i].members)
  {
    KnownAreEntries(entries, child);
    KnownAreEntries(entries, parent);
    assert parent in ParentsOf(parents, child) <==> Nests(Known(entries), child, parent);
  }

  /** Each group on the path is listed as a member by the next one. */
  predicate MembershipChain(known: map<Dn, set<Dn>>, direct: set<Dn>, path: seq<Dn>, dn: Dn) {
    && |path| > 0 && path[0] in direct && path[|path| - 1] == dn
    && forall i :: 0 <= i < |path| - 1 ==> Nests(known, path[i], path[i + 1])
  }

  /** Over the parent map of a directory, expansion follows chains of group memberships. */
  lemma ExpansionFollowsMembership(known: map<Dn, set<Dn>>, parents: map<Dn, set<Dn>>, direct: set<Dn>, depth: nat,
                                   dn: Dn)
    requires IsParentMap(known, parents)
    ensures dn in Within(direct, parents, depth) <==>
            exists path :: MembershipChain(known, direct, path, dn) && |path| <= depth + 1
  {
    WithinIsReachability(direct, parents, depth, dn);
    forall path
      ensures Climbs(direct, parents, path, dn) <==> MembershipChain(known, direct, path, dn)
    {
      assert forall i :: 0 <= i < |path| - 1 ==>
                          (path[i + 1] in ParentsOf(parents, path[i]) <==> Nests(known, path[i], path[i + 1]));
    }
  }
}
