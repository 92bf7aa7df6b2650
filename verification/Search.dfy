/**
  The budgeted directory search. A directory tree is what scandir, is_dir and lstat answer,
  failures included; symbolic links are never descended into, so it is finite. Of the clock
  only matters which of its readings are past the deadline.
 */
module Search {
  import opened Wrappers
  import opened StableSort

  datatype Found = Found(name: string, path: string, isDir: bool)

  /** `entries` is what the scan yields; an incomplete directory then fails with an OS error. */
  datatype Directory = Directory(entries: seq<Node>, complete: bool)

  /** Whether an entry is a directory: the question can fail. */
  datatype Kind = Unknown | Leaf | Branch(below: Directory)

  datatype Node = Node(name: string, kind: Kind, info: Option<Found>)

  datatype Wanted = All | Files | Folders

  datatype Query = Query(matches: string -> bool, wanted: Wanted, showHidden: bool, fold: string -> string)

  datatype Reason = Timeout | Entries | Limit

  datatype Summary = Summary(items: seq<Found>, scanned: nat, skipped: nat, reason: Option<Reason>)

  const MAX_LIMIT := 250
  const MAX_ENTRIES := 1_000_000

  /** Whether the k-th reading of the clock is past the deadline. */
  type Clock = nat -> bool

  // ---- What a tree holds -------------------------------------------------------

  /** Matching items, failures a full walk meets, and entries it looks at. */
  datatype Tally = Tally(found: multiset<Found>, troubles: nat, entries: nat) {
    function Plus(other: Tally): Tally {
      Tally(found + other.found, troubles + other.troubles, entries + other.entries)
    }
  }

  const NOTHING := Tally(multiset{}, 0, 0)

  predicate Visible(node: Node, query: Query) {
    query.showHidden || node.name == "" || node.name[0] != '.'
  }

  predicate RightType(item: Found, wanted: Wanted) {
    !(wanted.Files? && item.isDir) && !(wanted.Folders? && !item.isDir)
  }

  /** What the loop body makes of an entry, apart from descending into it. */
  datatype Verdict = Ignored | Trouble | Hit(item: Found)

  function Judge(node: Node, query: Query): Verdict {
    if !Visible(node, query) then Ignored
    else if node.kind.Unknown? then Trouble
    else if !query.matches(node.name) then Ignored
    else if node.info.None? then Trouble
    else if !RightType(node.info.value, query.wanted) then Ignored
    else Hit(node.info.value)
  }

  /** What one entry contributes by itself. */
  function Own(verdict: Verdict): Tally {
    match verdict
    case Ignored => Tally(multiset{}, 0, 1)
    case Trouble => Tally(multiset{}, 1, 1)
    case Hit(item) => Tally(multiset{item}, 0, 1)
  }

  /** The directory that an entry puts on the stack. */
  function Pushed(node: Node, query: Query): (r: seq<Directory>)
    ensures |r| <= 1
  {
    if Visible(node, query) && node.kind.Branch? then [node.kind.below] else []
  }

  function OfNodes(nodes: seq<Node>, query: Query): Tally {
    if nodes == [] then NOTHING
    else OfNode(nodes[0], query).Plus(OfNodes(nodes[1..], query))
  }

  function OfNode(node: Node, query: Query): Tally {
    if Visible(node, query) && node.kind.Branch?
    then Own(Judge(node, query)).Plus(OfDirectory(node.kind.below, query))
    else Own(Judge(node, query))
  }

  function OfDirectory(directory: Directory, query: Query): Tally {
    OfNodes(directory.entries, query).Plus(Flaw(directory))
  }

  /** The failure that ends an incomplete scan. */
  function Flaw(directory: Directory): Tally {
    Tally(multiset{}, if directory.complete then 0 else 1, 0)
  }

  function OfStack(stack: seq<Directory>, query: Query): Tally {
    if stack == [] then NOTHING
    else OfStack(stack[..|stack| - 1], query).Plus(OfDirectory(stack[|stack| - 1], query))
  }

  // ---- One entry ---------------------------------------------------------------

  datatype State = State(results: seq<Found>, stack: seq<Directory>, scanned: nat, skipped: nat, reason: Option<Reason>)

  /** What has been done together with what is still to do. */
  function Account(s: State, rest: seq<Node>, query: Query): Tally {
    Done(s).Plus(OfNodes(rest, query)).Plus(OfStack(s.stack, query))
  }

  /** The body of the inner loop after its time check. */
  function Examine(s: State, node: Node, query: Query, limit: nat, maxEntries: nat): State {
    if s.scanned >= maxEntries then s.(reason := Some(Entries))
    else
      Decide(s.(scanned := s.scanned + 1, stack := s.stack + Pushed(node, query)), Judge(node, query), limit)
  }

  /** One more match than the limit is looked for, so that a full result is not called truncated. */
  function Decide(s: State, verdict: Verdict, limit: nat): State {
    match verdict
    case Ignored => s
    case Trouble => s.(skipped := s.skipped + 1)
    case Hit(item) =>
      if |s.results| == limit then s.(reason := Some(Limit)) else s.(results := s.results + [item])
  }

  /** Why the walk stopped is what the counters say. */
  predicate Explained(s: State, total: Tally, limit: nat, maxEntries: nat) {
    && |s.results| <= limit && s.scanned <= maxEntries
    && multiset(s.results) <= total.found && s.scanned <= total.entries && s.skipped <= total.troubles
    && (s.reason == Some(Limit) ==> |s.results| == limit < |total.found|)
    && (s.reason == Some(Entries) ==> s.scanned == maxEntries)
  }

  lemma Pushing(stack: seq<Directory>, directory: Directory, query: Query)
    ensures OfStack(stack + [directory], query) == OfStack(stack, query).Plus(OfDirectory(directory, query))
  {
    assert (stack + [directory])[..|stack|] == stack;
  }

  function Done(s: State): Tally {
    Tally(multiset(s.results), s.skipped, s.scanned)
  }

  lemma DecideCounts(s: State, verdict: Verdict, limit: nat)
    requires s.reason == None && s.scanned > 0
    ensures var t := Decide(s, verdict, limit);
            && t.stack == s.stack
            && (t.reason == None ==> Done(t) == Done(s.(scanned := s.scanned - 1)).Plus(Own(verdict)))
  {
  }

  lemma PushedCounts(stack: seq<Directory>, node: Node, query: Query)
    ensures Own(Judge(node, query)).Plus(OfStack(stack + Pushed(node, query), query))
         == OfNode(node, query).Plus(OfStack(stack, query))
  {
    if Visible(node, query) && node.kind.Branch? {
      Pushing(stack, node.kind.below, query);
      Swapped(Own(Judge(node, query)), OfStack(stack, query), OfDirectory(node.kind.below, query));
    } else {
      assert stack + Pushed(node, query) == stack;
    }
  }

  lemma Swapped(a: Tally, b: Tally, c: Tally)
    ensures a.Plus(b.Plus(c)) == a.Plus(c).Plus(b)
  {
  }

  lemma Rearranged(done: Tally, own: Tally, pushed: Tally, node: Tally, stack: Tally, rest: Tally)
    requires own.Plus(pushed) == node.Plus(stack)
    ensures done.Plus(own).Plus(rest).Plus(pushed) == done.Plus(node.Plus(rest)).Plus(stack)
  {
    var both := own.Plus(pushed);
    assert both.found == own.found + pushed.found == node.found + stack.found;
    assert done.found + own.found + rest.found + pushed.found == done.found + both.found + rest.found;
    assert done.found + (node.found + rest.found) + stack.found == done.found + both.found + rest.found;
    assert both.troubles == node.troubles + stack.troubles && both.entries == node.entries + stack.entries;
  }

  /** Looking at an entry loses nothing and counts nothing twice. */
  lemma ExamineKeepsAccount(s: State, node: Node, rest: seq<Node>, query: Query, limit: nat, maxEntries: nat)
    requires s.reason == None
    ensures var t := Examine(s, node, query, limit, maxEntries);
            t.reason == None ==> Account(t, rest, query) == Account(s, [node] + rest, query)
  {
    assert ([node] + rest)[1..] == rest;
    if s.scanned < maxEntries {
      var verdict := Judge(node, query);
      var u := s.(scanned := s.scanned + 1, stack := s.stack + Pushed(node, query));
      DecideCounts(u, verdict, limit);
      PushedCounts(s.stack, node, query);
      Rearranged(Done(s), Own(verdict), OfStack(u.stack, query), OfNode(node, query),
                 OfStack(s.stack, query), OfNodes(rest, query));
    }
  }

  lemma DecideExplains(s: State, verdict: Verdict, total: Tally, limit: nat, maxEntries: nat)
    requires s.reason == None && |s.results| <= limit && s.scanned <= maxEntries
    requires multiset(s.results) + Own(verdict).found <= total.found
    requires s.scanned <= total.entries && s.skipped <= total.troubles
    ensures var t := Decide(s, verdict, limit);
            && |t.results| <= limit && t.scanned == s.scanned && t.stack == s.stack
            && (t.reason.Some? ==> Explained(t, total, limit, maxEntries))
  {
    if verdict.Hit? && |s.results| == limit {
      Larger(multiset(s.results) + multiset{verdict.item}, total.found);
    }
  }

  /** An entry after which the walk stops is not lost either: it is still in the tree's tally. */
  lemma ExamineExplains(s: State, node: Node, rest: seq<Node>, query: Query, limit: nat, maxEntries: nat)
    requires s.reason == None && |s.results| <= limit && s.scanned <= maxEntries
    ensures Examined(s, Examine(s, node, query, limit, maxEntries), Account(s, [node] + rest, query), limit, maxEntries)
  {
    RoomForOne(s, node, rest, query);
    ExaminedWithin(s, node, Account(s, [node] + rest, query), query, limit, maxEntries);
  }

  /** What one turn of the inner loop leaves, within a tally that still holds its entry. */
  predicate Examined(s: State, t: State, total: Tally, limit: nat, maxEntries: nat) {
    && |t.results| <= limit && t.scanned <= maxEntries
    && |t.stack| - t.scanned <= |s.stack| - s.scanned
    && (t.reason.Some? ==> Explained(t, total, limit, maxEntries))
  }

  lemma ExaminedWithin(s: State, node: Node, total: Tally, query: Query, limit: nat, maxEntries: nat)
    requires s.reason == None && |s.results| <= limit && s.scanned <= maxEntries
    requires multiset(s.results) + Own(Judge(node, query)).found <= total.found && multiset(s.results) <= total.found
    requires s.scanned + 1 <= total.entries && s.skipped <= total.troubles
    ensures Examined(s, Examine(s, node, query, limit, maxEntries), total, limit, maxEntries)
  {
    if s.scanned < maxEntries {
      DecideExplains(s.(scanned := s.scanned + 1, stack := s.stack + Pushed(node, query)), Judge(node, query),
                     total, limit, maxEntries);
    }
  }

  lemma RoomForOne(s: State, node: Node, rest: seq<Node>, query: Query)
    ensures var total := Account(s, [node] + rest, query);
            && multiset(s.results) + Own(Judge(node, query)).found <= total.found
            && s.scanned + 1 <= total.entries && s.skipped <= total.troubles
            && multiset(s.results) <= total.found
  {
    assert ([node] + rest)[1..] == rest;
    OwnWithin(node, query);
    Within(Done(s), Own(Judge(node, query)), OfNode(node, query), OfNodes(rest, query), OfStack(s.stack, query));
  }

  lemma OwnWithin(node: Node, query: Query)
    ensures var own := Own(Judge(node, query));
            var all := OfNode(node, query);
            && own.found <= all.found && own.entries <= all.entries && own.troubles <= all.troubles
            && own.entries == 1
  {
  }

  lemma Within(done: Tally, own: Tally, node: Tally, rest: Tally, stack: Tally)
    requires own.found <= node.found && own.entries <= node.entries && own.troubles <= node.troubles
    ensures var total := done.Plus(node.Plus(rest)).Plus(stack);
            && done.found + own.found <= total.found && done.found <= total.found
            && done.entries + own.entries <= total.entries && done.troubles + own.troubles <= total.troubles
  {
  }

  lemma Larger<T>(a: multiset<T>, b: multiset<T>)
    requires a <= b
    ensures |a| <= |b|
  {
    assert b == a + (b - a);
  }

  lemma ExplainedByMore(s: State, part: Tally, directory: Directory, limit: nat, maxEntries: nat)
    requires Explained(s, part, limit, maxEntries)
    ensures Explained(s, part.Plus(Flaw(directory)), limit, maxEntries)
  {
  }

  /** No reading so far was late, and every entry looked at had a reading of its own. */
  ghost predicate InTime(scanned: nat, late: Clock, tick: nat) {
    scanned <= tick && forall k :: 0 <= k < tick ==> !late(k)
  }

  /** The walk is in time, or it ended with the reading that was late. */
  ghost predicate OnTime(scanned: nat, reason: Option<Reason>, late: Clock, tick: nat) {
    if reason == Some(Timeout) then tick > 0 && late(tick - 1) && InTime(scanned, late, tick - 1)
    else InTime(scanned, late, tick)
  }

  lemma NextReading(scanned: nat, more: nat, late: Clock, tick: nat)
    requires InTime(scanned, late, tick) && !late(tick) && more <= scanned + 1
    ensures InTime(more, late, tick + 1)
  {
  }

  lemma OnlyLateReadingsEnd(scanned: nat, reason: Option<Reason>, late: Clock, tick: nat)
    requires OnTime(scanned, reason, late, tick)
    ensures reason == Some(Timeout) ==> exists k :: late(k)
    ensures forall k :: late(k) ==> scanned <= k
  {
  }

  lemma ExaminedInTime(s: State, node: Node, query: Query, limit: nat, maxEntries: nat)
    requires s.reason == None
    ensures var t := Examine(s, node, query, limit, maxEntries);
            t.reason != Some(Timeout) && t.scanned <= s.scanned + 1
  {
  }

  // ---- The walk ----------------------------------------------------------------

  /** The entries of one directory; the time is read before each of them. */
  method ScanDirectory(s0: State, entries: seq<Node>, query: Query, limit: nat, maxEntries: nat, late: Clock,
                       tick0: nat)
    returns (s: State, tick: nat)
    requires s0.reason == None && |s0.results| <= limit && s0.scanned <= maxEntries
    requires InTime(s0.scanned, late, tick0)
    ensures |s.results| <= limit && s.scanned <= maxEntries
    ensures |s.stack| - s.scanned <= |s0.stack| - s0.scanned
    ensures s.reason == None ==> Account(s, [], query) == Account(s0, entries, query)
    ensures s.reason.Some? ==> Explained(s, Account(s0, entries, query), limit, maxEntries)
    ensures OnTime(s.scanned, s.reason, late, tick)
  {
    s, tick := s0, tick0;
    for k := 0 to |entries|
      invariant s.reason == None && |s.results| <= limit && s.scanned <= maxEntries
      invariant |s.stack| - s.scanned <= |s0.stack| - s0.scanned && InTime(s.scanned, late, tick)
      invariant Account(s, entries[k..], query) == Account(s0, entries, query)
    {
      assert entries[k..] == [entries[k]] + entries[k + 1..];
      s, tick := LookAt(s, entries[k], entries[k + 1..], query, limit, maxEntries, late, tick);
      if s.reason.Some? {
        return;
      }
    }
  }

  /** One entry: the clock, then the loop body. */
  method LookAt(s: State, node: Node, ghost rest: seq<Node>, query: Query, limit: nat, maxEntries: nat, late: Clock,
                tick0: nat)
    returns (t: State, tick: nat)
    requires s.reason == None && |s.results| <= limit && s.scanned <= maxEntries && InTime(s.scanned, late, tick0)
    ensures |t.results| <= limit && t.scanned <= maxEntries && |t.stack| - t.scanned <= |s.stack| - s.scanned
    ensures t.reason == None ==> Account(t, rest, query) == Account(s, [node] + rest, query)
    ensures t.reason.Some? ==> Explained(t, Account(s, [node] + rest, query), limit, maxEntries)
    ensures OnTime(t.scanned, t.reason, late, tick)
  {
    tick := tick0 + 1;
    ExamineKeepsAccount(s, node, rest, query, limit, maxEntries);
    ExamineExplains(s, node, rest, query, limit, maxEntries);
    if late(tick0) {
      t := s.(reason := Some(Timeout));
      return;
    }
    ExaminedInTime(s, node, query, limit, maxEntries);
    t := Examine(s, node, query, limit, maxEntries);
    NextReading(s.scanned, t.scanned, late, tick0);
  }

  function FoldedName(fold: string -> string): Found -> string {
    (item: Found) => fold(item.name)
  }

  function Folder(): Order<Found> {
    (x: Found, y: Found) => x.isDir || !y.isDir
  }

  function Path(): Found -> string {
    (item: Found) => item.path
  }

  /** Folders first, then folded names, then paths. */
  function ByFolderNamePath(fold: string -> string): Order<Found> {
    Lex(Folder(), Lex(Along(TextLe, FoldedName(fold)), Along(TextLe, Path())))
  }

  lemma ByFolderNamePathOrder(fold: string -> string)
    ensures TotalPreorder(ByFolderNamePath(fold))
  {
    TextOrder();
    AlongIsTotalPreorder(TextLe, FoldedName(fold));
    AlongIsTotalPreorder(TextLe, Path());
    LexIsTotalPreorder(Along(TextLe, FoldedName(fold)), Along(TextLe, Path()));
    LexIsTotalPreorder(Folder(), Lex(Along(TextLe, FoldedName(fold)), Along(TextLe, Path())));
  }

  /**
    What a summary says of the tree. A walk that was not cut short returns every readable match
    exactly once and counts every failure; one that stopped at its limit was right to say that
    there is more.
   */
  ghost predicate Answers(r: Summary, root: Directory, query: Query, limit: nat, maxEntries: nat) {
    var total := OfDirectory(root, query);
    && Sorted(r.items, ByFolderNamePath(query.fold))
    && multiset(r.items) <= total.found && |r.items| <= limit
    && r.scanned <= maxEntries && r.scanned <= total.entries && r.skipped <= total.troubles
    && (r.reason == None ==>
          && multiset(r.items) == total.found && r.skipped == total.troubles
          && r.scanned == total.entries && root.complete)
    && (r.reason == Some(Limit) ==> |r.items| == limit < |total.found|)
    && (r.reason == Some(Entries) ==> r.scanned == maxEntries)
  }

  /**
    The search. Only an unreadable root is an error, only the clock can end it for lack of time,
    and a late reading is not followed by another entry.
   */
  method SearchDirectory(root: Directory, query: Query, requestedLimit: int, requestedEntries: int, late: Clock)
    returns (r: Result<Summary, ()>)
    ensures r.Err? ==> !root.complete
    ensures r.Ok? ==> Answers(r.value, root, query, Clamp(requestedLimit, 1, MAX_LIMIT),
                              Clamp(requestedEntries, 1, MAX_ENTRIES))
    ensures r.Ok? && r.value.reason == Some(Timeout) ==> exists k :: late(k)
    ensures late(0) ==> r == Ok(Summary([], 0, 0, Some(Timeout)))
    ensures r.Ok? ==> forall k :: late(k) ==> r.value.scanned <= k
  {
    var limit := Clamp(requestedLimit, 1, MAX_LIMIT);
    var maxEntries := Clamp(requestedEntries, 1, MAX_ENTRIES);
    var start := State([], [root], 0, 0, None);
    Started(root, query);
    var failed, s, tick := Walk(start, query, limit, maxEntries, OfDirectory(root, query), late);
    if failed {
      return Err(());
    }
    Reported(s, root, query, limit, maxEntries);
    OnlyLateReadingsEnd(s.scanned, s.reason, late, tick);
    r := Ok(Report(s, query));
    NothingToReport(query, Timeout);
  }

  /** The whole tree has no more matches than are returned, and fewer entries than are looked at. */
  predicate Fits(root: Directory, query: Query, limit: nat, maxEntries: nat) {
    |OfDirectory(root, query).found| <= limit && OfDirectory(root, query).entries < maxEntries
  }

  /** So with time and budget enough the search is complete. */
  lemma FittingIsComplete(r: Summary, root: Directory, query: Query, limit: nat, maxEntries: nat)
    requires Answers(r, root, query, limit, maxEntries) && Fits(root, query, limit, maxEntries)
    requires r.reason != Some(Timeout)
    ensures r.reason == None && root.complete
  {
    match r.reason
    case None =>
    case Some(reason) =>
      match reason
      case Limit =>
      case Entries =>
      case Timeout =>
  }

  lemma NothingToReport(query: Query, reason: Reason)
    ensures Report(State([], [], 0, 0, Some(reason)), query) == Summary([], 0, 0, Some(reason))
  {
  }

  /** The outer loop. It fails only on the directory it starts from. */
  method Walk(start: State, query: Query, limit: nat, maxEntries: nat, ghost total: Tally, late: Clock)
    returns (failed: bool, s: State, tick: nat)
    requires |start.stack| == 1 && start.reason == None && Walking(start, total, query, limit, maxEntries)
    requires start.scanned == 0
    ensures failed ==> !start.stack[0].complete
    ensures !failed ==> Walking(s, total, query, limit, maxEntries)
    ensures !failed && s.reason == None ==> s.stack == [] && start.stack[0].complete
    ensures !failed ==> OnTime(s.scanned, s.reason, late, tick)
    ensures late(0) ==> !failed && s == start.(reason := Some(Timeout))
  {
    failed, s, tick := false, start, 0;
    var atRoot := true;
    while s.stack != [] && s.reason == None
      invariant Walking(s, total, query, limit, maxEntries)
      invariant atRoot ==> s == start
      invariant !atRoot && s.reason == None ==> start.stack[0].complete
      invariant if atRoot then tick == 0 else late(0) ==> s == start.(reason := Some(Timeout))
      invariant OnTime(s.scanned, s.reason, late, tick)
      decreases s.reason == None, total.entries - s.scanned + |s.stack|
    {
      failed, s, tick := Turn(s, query, limit, maxEntries, atRoot, total, late, tick);
      if failed {
        return;
      }
      atRoot := false;
    }
  }

  /** One turn of the outer loop: the clock, the budget, the next directory. */
  method Turn(s: State, query: Query, limit: nat, maxEntries: nat, atRoot: bool, ghost total: Tally, late: Clock,
              tick0: nat)
    returns (failed: bool, t: State, tick: nat)
    requires s.stack != [] && s.reason == None && Walking(s, total, query, limit, maxEntries)
    requires InTime(s.scanned, late, tick0)
    ensures failed ==> atRoot && !s.stack[|s.stack| - 1].complete && !late(tick0)
    ensures !failed ==> Walking(t, total, query, limit, maxEntries) && OnTime(t.scanned, t.reason, late, tick)
    ensures late(tick0) ==> t == s.(reason := Some(Timeout))
    ensures t.reason == None ==> |t.stack| - t.scanned < |s.stack| - s.scanned && t.scanned <= total.entries
    ensures !failed && atRoot && t.reason == None ==> s.stack[|s.stack| - 1].complete
  {
    failed, t, tick := false, s, tick0 + 1;
    if late(tick0) {
      CutShort(s, Timeout, total, query, limit, maxEntries);
      t := t.(reason := Some(Timeout));
      return;
    }
    NextReading(s.scanned, s.scanned, late, tick0);
    if s.scanned >= maxEntries {
      CutShort(s, Entries, total, query, limit, maxEntries);
      t := t.(reason := Some(Entries));
      return;
    }
    failed, t, tick := VisitTop(s, query, limit, maxEntries, atRoot, total, late, tick);
  }

  lemma CutShort(s: State, reason: Reason, total: Tally, query: Query, limit: nat, maxEntries: nat)
    requires s.reason == None && Walking(s, total, query, limit, maxEntries)
    requires reason == Timeout || (reason == Entries && s.scanned >= maxEntries)
    ensures Walking(s.(reason := Some(reason)), total, query, limit, maxEntries)
  {
  }

  function Report(s: State, query: Query): Summary {
    Summary(Sort(s.results, ByFolderNamePath(query.fold)), s.scanned, s.skipped, s.reason)
  }

  lemma Reported(s: State, root: Directory, query: Query, limit: nat, maxEntries: nat)
    requires Walking(s, OfDirectory(root, query), query, limit, maxEntries)
    requires s.reason == None ==> s.stack == [] && root.complete
    ensures Answers(Report(s, query), root, query, limit, maxEntries)
  {
    var le := ByFolderNamePath(query.fold);
    ByFolderNamePathOrder(query.fold);
    SortSorted(s.results, le);
    SortPermutes(s.results, le);
    if s.reason == None {
      Finished(s, query);
    }
  }

  /** Between two directories: everything is accounted for until the walk is cut short. */
  predicate Walking(s: State, total: Tally, query: Query, limit: nat, maxEntries: nat) {
    && Explained(s, total, limit, maxEntries)
    && (s.reason == None ==> Account(s, [], query) == total)
  }

  /** One turn of the outer loop after its budget checks. */
  method VisitTop(s: State, query: Query, limit: nat, maxEntries: nat, atRoot: bool, ghost total: Tally, late: Clock,
                  tick0: nat)
    returns (failed: bool, t: State, tick: nat)
    requires s.stack != [] && s.reason == None && Walking(s, total, query, limit, maxEntries)
    requires InTime(s.scanned, late, tick0)
    ensures failed ==> atRoot && !s.stack[|s.stack| - 1].complete
    ensures !failed ==> Walking(t, total, query, limit, maxEntries)
    ensures |t.stack| - t.scanned < |s.stack| - s.scanned
    ensures t.reason == None ==> t.scanned <= total.entries
    ensures !failed && atRoot && t.reason == None ==> s.stack[|s.stack| - 1].complete
    ensures OnTime(t.scanned, t.reason, late, tick)
  {
    var top := |s.stack| - 1;
    var directory := s.stack[top];
    var popped := s.(stack := s.stack[..top]);
    Opened(s, query);
    ghost var opened_ := Account(popped, directory.entries, query);
    failed := false;
    t, tick := ScanDirectory(popped, directory.entries, query, limit, maxEntries, late, tick0);
    if t.reason.Some? {
      ExplainedByMore(t, opened_, directory, limit, maxEntries);
    } else {
      if !directory.complete {
        failed := atRoot;
        t := t.(skipped := t.skipped + 1);
      }
      Closed(t, opened_, directory, query, limit, maxEntries);
    }
  }

  lemma Closed(t: State, part: Tally, directory: Directory, query: Query, limit: nat, maxEntries: nat)
    requires t.reason == None && |t.results| <= limit && t.scanned <= maxEntries
    requires directory.complete || t.skipped > 0
    requires Account(if directory.complete then t else t.(skipped := t.skipped - 1), [], query) == part
    ensures Walking(t, part.Plus(Flaw(directory)), query, limit, maxEntries)
  {
  }

  lemma Finished(s: State, query: Query)
    requires s.stack == []
    ensures Account(s, [], query) == Done(s)
  {
  }

  /** Taking a directory off the stack puts its entries, and its failure if any, in front. */
  lemma Opened(s: State, query: Query)
    requires s.stack != []
    ensures var directory := s.stack[|s.stack| - 1];
            Account(s, [], query)
            == Account(s.(stack := s.stack[..|s.stack| - 1]), directory.entries, query).Plus(Flaw(directory))
  {
    var directory := s.stack[|s.stack| - 1];
    Moved(Done(s), OfNodes(directory.entries, query), OfStack(s.stack[..|s.stack| - 1], query), Flaw(directory));
  }

  lemma Moved(done: Tally, nodes: Tally, stack: Tally, flaw: Tally)
    ensures done.Plus(NOTHING).Plus(stack.Plus(nodes.Plus(flaw))) == done.Plus(nodes).Plus(stack).Plus(flaw)
  {
  }

  lemma Zero(t: Tally)
    ensures NOTHING.Plus(t) == t
  {
  }

  lemma Started(root: Directory, query: Query)
    ensures Account(State([], [root], 0, 0, None), [], query) == OfDirectory(root, query)
  {
    OneOnStack(root, query);
    NothingDone(State([], [root], 0, 0, None), query, OfDirectory(root, query));
  }

  lemma NothingDone(s: State, query: Query, waiting: Tally)
    requires s.results == [] && s.skipped == s.scanned == 0 && OfStack(s.stack, query) == waiting
    ensures Account(s, [], query) == waiting
  {
    Zero(NOTHING);
    Zero(waiting);
    assert Done(s) == NOTHING;
  }

  lemma OneOnStack(root: Directory, query: Query)
    ensures OfStack([root], query) == OfDirectory(root, query)
  {
    assert [root][..0] == [];
    Zero(OfDirectory(root, query));
  }

  // ---- What the tally counts ---------------------------------------------------

  /** A way down from some entries through visible directories to a visible entry. */
  predicate Leads(entries: seq<Node>, chain: seq<Node>, query: Query) {
    && chain != [] && chain[0] in entries && Visible(chain[0], query)
    && (|chain| == 1 || (chain[0].kind.Branch? && Leads(chain[0].kind.below.entries, chain[1..], query)))
  }

  function Last(chain: seq<Node>): Node
    requires chain != []
  {
    chain[|chain| - 1]
  }

  lemma {:induction false} PartOf(nodes: seq<Node>, node: Node, query: Query)
    requires node in nodes
    ensures OfNode(node, query).found <= OfNodes(nodes, query).found
    ensures OfNode(node, query).troubles <= OfNodes(nodes, query).troubles
  {
    if node != nodes[0] {
      PartOf(nodes[1..], node, query);
    }
  }

  lemma {:induction false} ChainIsCounted(entries: seq<Node>, chain: seq<Node>, query: Query)
    requires Leads(entries, chain, query)
    ensures Own(Judge(Last(chain), query)).found <= OfNodes(entries, query).found
    ensures Own(Judge(Last(chain), query)).troubles <= OfNodes(entries, query).troubles
    ensures Last(chain).kind.Branch? && !Last(chain).kind.below.complete ==> OfNodes(entries, query).troubles > 0
    decreases |chain|
  {
    PartOf(entries, chain[0], query);
    OwnWithin(chain[0], query);
    if |chain| > 1 {
      ChainIsCounted(chain[0].kind.below.entries, chain[1..], query);
    }
  }

  /**
    What is found: a visible entry whose name matches, whose metadata could be read and say that
    it is of the wanted kind. What fails: not knowing whether a visible entry is a directory, or
    not reading the metadata of a matching one.
   */
  lemma FoundExactly(node: Node, item: Found, query: Query)
    ensures Judge(node, query) == Hit(item) <==>
              && (query.showHidden || !("." <= node.name)) && !node.kind.Unknown? && query.matches(node.name)
              && node.info == Some(item)
              && match query.wanted case All => true case Files => !item.isDir case Folders => item.isDir
    ensures Judge(node, query).Trouble? <==>
              && (query.showHidden || !("." <= node.name))
              && (node.kind.Unknown? || (query.matches(node.name) && node.info == None))
  {
  }

  /** The order of the items: folders, then folded names, then paths. */
  lemma ItemsInOrder(r: Summary, root: Directory, query: Query, limit: nat, maxEntries: nat, i: nat, j: nat)
    requires Answers(r, root, query, limit, maxEntries) && i < j < |r.items|
    ensures var x, y := r.items[i], r.items[j];
            && (y.isDir ==> x.isDir)
            && (x.isDir == y.isDir ==> TextLe(query.fold(x.name), query.fold(y.name)))
            && (x.isDir == y.isDir && query.fold(x.name) == query.fold(y.name) ==> TextLe(x.path, y.path))
  {
    TextOrder();
    assert ByFolderNamePath(query.fold)(r.items[i], r.items[j]);
  }

  /** Where a full walk fails. */
  predicate Fails(node: Node, query: Query) {
    Judge(node, query).Trouble? || (node.kind.Branch? && !node.kind.below.complete)
  }

  lemma HitIsVisible(node: Node, query: Query)
    requires !Judge(node, query).Ignored?
    ensures Visible(node, query)
  {
  }

  lemma BelowHolds(node: Node, item: Found, query: Query)
    requires item in OfNode(node, query).found && Judge(node, query) != Hit(item)
    ensures Visible(node, query) && node.kind.Branch? && item in OfNodes(node.kind.below.entries, query).found
  {
    assert item !in Own(Judge(node, query)).found;
  }

  lemma BelowFails(node: Node, query: Query)
    requires OfNode(node, query).troubles > 0
    ensures Visible(node, query)
    ensures !Fails(node, query) ==> node.kind.Branch? && OfNodes(node.kind.below.entries, query).troubles > 0
  {
  }

  lemma {:induction false} ChainTo(entries: seq<Node>, item: Found, query: Query) returns (chain: seq<Node>)
    requires item in OfNodes(entries, query).found
    ensures Leads(entries, chain, query) && Judge(Last(chain), query) == Hit(item)
  {
    var node := entries[0];
    assert OfNodes(entries, query).found == OfNode(node, query).found + OfNodes(entries[1..], query).found;
    if Judge(node, query) == Hit(item) {
      HitIsVisible(node, query);
      chain := [node];
    } else if item in OfNode(node, query).found {
      BelowHolds(node, item, query);
      var rest := ChainTo(node.kind.below.entries, item, query);
      chain := [node] + rest;
    } else {
      chain := ChainTo(entries[1..], item, query);
    }
  }

  lemma {:induction false} ChainToTrouble(entries: seq<Node>, query: Query) returns (chain: seq<Node>)
    requires OfNodes(entries, query).troubles > 0
    ensures Leads(entries, chain, query) && Fails(Last(chain), query)
  {
    var node := entries[0];
    assert OfNodes(entries, query).troubles == OfNode(node, query).troubles + OfNodes(entries[1..], query).troubles;
    if OfNode(node, query).troubles > 0 {
      BelowFails(node, query);
    }
    if OfNode(node, query).troubles == 0 {
      chain := ChainToTrouble(entries[1..], query);
    } else if Fails(node, query) {
      chain := [node];
    } else {
      var rest := ChainToTrouble(node.kind.below.entries, query);
      chain := [node] + rest;
    }
  }

  /**
    A search that says it is complete and skipped nothing is: the whole visible tree was
    readable, and an item is in the result exactly when some way down leads to it.
   */
  lemma CompleteSearch(r: Summary, root: Directory, query: Query, limit: nat, maxEntries: nat)
    requires Answers(r, root, query, limit, maxEntries) && r.reason == None && r.skipped == 0
    ensures root.complete
    ensures forall chain | Leads(root.entries, chain, query) :: !Fails(Last(chain), query)
    ensures forall item :: item in r.items <==>
              exists chain :: Leads(root.entries, chain, query) && Judge(Last(chain), query) == Hit(item)
  {
    var nodes := OfNodes(root.entries, query);
    assert nodes.troubles == 0 && nodes.found == multiset(r.items);
    forall chain | Leads(root.entries, chain, query)
      ensures !Fails(Last(chain), query)
    {
      ChainIsCounted(root.entries, chain, query);
    }
    forall item
      ensures item in r.items <==>
              exists chain :: Leads(root.entries, chain, query) && Judge(Last(chain), query) == Hit(item)
    {
      assert item in r.items <==> item in multiset(r.items);
      if item in nodes.found {
        var chain := ChainTo(root.entries, item, query);
      }
      forall chain | Leads(root.entries, chain, query) && Judge(Last(chain), query) == Hit(item)
        ensures item in nodes.found
      {
        ChainIsCounted(root.entries, chain, query);
        assert item in Own(Judge(Last(chain), query)).found;
      }
    }
  }

  /** And a search that was not cut short yet skipped something did meet a failure. */
  lemma SkippedMeansFailure(r: Summary, root: Directory, query: Query, limit: nat, maxEntries: nat)
    requires Answers(r, root, query, limit, maxEntries) && r.skipped > 0
    ensures !root.complete || exists chain :: Leads(root.entries, chain, query) && Fails(Last(chain), query)
  {
    if root.complete {
      var chain := ChainToTrouble(root.entries, query);
    }
  }
}
