/**
  Retention of the activity table: `ActivityRepository.add` of backend/app/activity.py.
  Rows are trimmed only when an id is a multiple of 100, and creation times may arrive in
  any order; the ghost `all` keeps every event ever added.
 */
module Activity {
  import opened Wrappers

  const TRIM_INTERVAL := 100

  datatype Event = Event(id: nat, createdAt: real, payload: string)

  datatype Error = NotReadable

  /** `a` comes before `b` in ORDER BY created_at DESC, id DESC. */
  predicate Newer(a: Event, b: Event) {
    a.createdAt > b.createdAt || (a.createdAt == b.createdAt && a.id > b.id)
  }

  predicate DistinctIds(events: set<Event>) {
    forall a, b :: a in events && b in events && a.id == b.id ==> a == b
  }

  function NewerThan(events: set<Event>, e: Event): set<Event> {
    set x | x in events && Newer(x, e)
  }

  /** The `n` newest events: those with fewer than `n` newer ones. */
  function Newest(events: set<Event>, n: nat): set<Event> {
    set e | e in events && |NewerThan(events, e)| < n
  }

  lemma {:induction false} OldestExists(events: set<Event>) returns (oldest: Event)
    requires events != {} && DistinctIds(events)
    ensures oldest in events && forall e :: e in events && e != oldest ==> Newer(e, oldest)
    decreases |events|
  {
    var e :| e in events;
    if events == {e} {
      oldest := e;
    } else {
      var rest := events - {e};
      assert events == rest + {e};
      assert rest != {};
      oldest := OldestExists(rest);
      if Newer(oldest, e) {
        oldest := e;
      }
    }
  }

  /** Without the oldest event, the newest stay the newest. */
  lemma NewestWithoutOldest(events: set<Event>, m: Event, n: nat)
    requires DistinctIds(events) && m in events && forall e :: e in events && e != m ==> Newer(e, m)
    ensures Newest(events, n) == if |events| - 1 < n then Newest(events - {m}, n) + {m} else Newest(events - {m}, n)
  {
    var rest := events - {m};
    assert NewerThan(events, m) == rest;
    forall e | e in rest
      ensures e in Newest(events, n) <==> e in Newest(rest, n)
    {
      assert Newer(e, m);
      assert NewerThan(events, e) == NewerThan(rest, e);
    }
    assert m in Newest(events, n) <==> |rest| < n;
  }

  /** There are exactly `n` newest events, or all of them when there are fewer. */
  lemma {:induction false} NewestCount(events: set<Event>, n: nat)
    requires DistinctIds(events)
    ensures |Newest(events, n)| == if |events| < n then |events| else n
    decreases |events|
  {
    if events == {} {
      assert Newest(events, n) == {};
    } else {
      var m := OldestExists(events);
      var rest := events - {m};
      NewestCount(rest, n);
      NewestWithoutOldest(events, m, n);
    }
  }

  /** Whoever is among the newest is newer than whoever is not. */
  lemma NewestAreNewer(events: set<Event>, n: nat, inside: Event, outside: Event)
    requires DistinctIds(events) && inside in Newest(events, n) && outside in events - Newest(events, n)
    ensures Newer(inside, outside)
  {
    if !Newer(inside, outside) {
      SubsetSize(NewerThan(events, outside), NewerThan(events, inside));
    }
  }

  /** A table that still holds the newest events has the same newest events as the full history. */
  lemma NewestOfTable(all: set<Event>, table: set<Event>, n: nat)
    requires DistinctIds(all) && Newest(all, n) <= table <= all
    ensures Newest(table, n) == Newest(all, n)
  {
    forall e | e in table
      ensures e in Newest(table, n) <==> e in Newest(all, n)
    {
      if e in Newest(all, n) {
        SubsetSize(NewerThan(table, e), NewerThan(all, e));
      } else {
        forall x | x in Newest(all, n)
          ensures x in NewerThan(table, e)
        {
          NewestAreNewer(all, n, x, e);
        }
        NewestCount(all, n);
        SubsetSize(NewerThan(all, e), all);
        SubsetSize(Newest(all, n), NewerThan(table, e));
      }
    }
  }

  /** A further event only pushes events out of the newest. */
  lemma NewestAfterAdd(all: set<Event>, e: Event, n: nat)
    ensures Newest(all + {e}, n) <= Newest(all, n) + {e}
  {
    forall x | x in Newest(all + {e}, n) && x != e
      ensures x in Newest(all, n)
    {
      SubsetSize(NewerThan(all, x), NewerThan(all + {e}, x));
    }
  }

  /** The table after an insert and, when due, a trim. */
  function Inserted(rows: set<Event>, e: Event, maxEvents: nat): set<Event> {
    if e.id % TRIM_INTERVAL == 0 then Newest(rows + {e}, maxEvents) else rows + {e}
  }

  /** The table is part of the history, holds its newest events and is bounded. */
  ghost predicate Retains(all: set<Event>, rows: set<Event>, maxEvents: nat, lastId: nat) {
    && DistinctIds(all) && (forall e :: e in all ==> e.id <= lastId)
    && Newest(all, maxEvents) <= rows <= all
    && |rows| <= maxEvents + lastId % TRIM_INTERVAL
  }

  lemma InsertRetains(all: set<Event>, rows: set<Event>, maxEvents: nat, e: Event)
    requires e.id > 0 && Retains(all, rows, maxEvents, e.id - 1)
    ensures Retains(all + {e}, Inserted(rows, e, maxEvents), maxEvents, e.id)
    ensures e.id % TRIM_INTERVAL == 0 ==> Inserted(rows, e, maxEvents) == Newest(all + {e}, maxEvents)
  {
    DistinctAfterAdd(all, e);
    StillNewest(all, rows, maxEvents, e);
    InsertedHoldsNewest(all + {e}, rows, maxEvents, e);
    InsertedSize(rows, maxEvents, e);
  }

  lemma InsertedHoldsNewest(all: set<Event>, rows: set<Event>, maxEvents: nat, e: Event)
    requires DistinctIds(all) && Newest(all, maxEvents) <= rows + {e} <= all
    ensures Newest(all, maxEvents) <= Inserted(rows, e, maxEvents) <= all
    ensures e.id % TRIM_INTERVAL == 0 ==> Inserted(rows, e, maxEvents) == Newest(all, maxEvents)
    ensures DistinctIds(rows + {e})
  {
    if e.id % TRIM_INTERVAL == 0 {
      NewestOfTable(all, rows + {e}, maxEvents);
    }
  }

  lemma InsertedSize(rows: set<Event>, maxEvents: nat, e: Event)
    requires e.id > 0 && DistinctIds(rows + {e}) && |rows| <= maxEvents + (e.id - 1) % TRIM_INTERVAL
    ensures |Inserted(rows, e, maxEvents)| <= maxEvents + e.id % TRIM_INTERVAL
  {
    if e.id % TRIM_INTERVAL == 0 {
      NewestCount(rows + {e}, maxEvents);
    } else {
      RemainderGrows(e.id);
      assert |rows + {e}| <= |rows| + 1;
    }
  }

  lemma StillNewest(all: set<Event>, rows: set<Event>, maxEvents: nat, e: Event)
    requires Newest(all, maxEvents) <= rows <= all
    ensures Newest(all + {e}, maxEvents) <= rows + {e} <= all + {e}
  {
    NewestAfterAdd(all, e, maxEvents);
  }

  lemma DistinctAfterAdd(all: set<Event>, e: Event)
    requires DistinctIds(all) && forall x :: x in all ==> x.id < e.id
    ensures DistinctIds(all + {e})
  {
  }

  lemma RemainderGrows(id: nat)
    requires id > 0 && id % TRIM_INTERVAL != 0
    ensures id % TRIM_INTERVAL == (id - 1) % TRIM_INTERVAL + 1
  {
  }

  class ActivityRepository {
    const maxEvents: nat
    var rows: set<Event>
    var lastId: nat
    ghost var all: set<Event>

    ghost predicate Valid()
      reads this
    {
      Retains(all, rows, maxEvents, lastId)
    }

    constructor (maxEvents: nat)
      ensures Valid() && all == rows == {} && lastId == 0
      ensures this.maxEvents == if maxEvents < 100 then 100 else maxEvents
    {
      this.maxEvents := if maxEvents < 100 then 100 else maxEvents;
      rows := {};
      lastId := 0;
      all := {};
    }

    /** The retention bound that follows from the invariant. */
    lemma Bounded()
      requires Valid()
      ensures |rows| <= maxEvents + 99
      ensures |all| <= maxEvents ==> rows == all
    {
      if |all| <= maxEvents {
        forall e | e in all
          ensures e in Newest(all, maxEvents)
        {
          SubsetSize(NewerThan(all, e), all - {e});
        }
      }
    }

    /** An insert; every hundredth id trims, and the new event itself is lost when it is not among the newest. */
    method Add(createdAt: real, payload: string) returns (r: Result<Event, Error>)
      requires Valid()
      modifies this
      ensures Valid() && lastId == old(lastId) + 1
      ensures var e := Event(lastId, createdAt, payload);
              && all == old(all) + {e}
              && rows == (if lastId % TRIM_INTERVAL == 0 then Newest(all, maxEvents) else old(rows) + {e})
              && r == (if e in rows then Ok(e) else Err(NotReadable))
              && (r.Err? <==> lastId % TRIM_INTERVAL == 0 && |NewerThan(old(all), e)| >= maxEvents)
    {
      lastId := lastId + 1;
      var e := Event(lastId, createdAt, payload);
      InsertRetains(all, rows, maxEvents, e);
      rows := rows + {e};
      all := all + {e};
      if lastId % TRIM_INTERVAL == 0 {
        rows := Newest(rows, maxEvents);
      }
      AddFailsForOldEvents(old(all), e, maxEvents);
      r := if e in rows then Ok(e) else Err(NotReadable);
    }
  }

  /** add reports an error exactly when it trims and at least `maxEvents` known events are newer than the new one. */
  lemma AddFailsForOldEvents(before: set<Event>, e: Event, maxEvents: nat)
    requires forall x :: x in before ==> x.id < e.id
    ensures e in Newest(before + {e}, maxEvents) <==> |NewerThan(before, e)| < maxEvents
  {
    assert NewerThan(before + {e}, e) == NewerThan(before, e);
  }

  /** The table after adding the events in order, from an empty database. */
  function TableAfter(events: seq<Event>, maxEvents: nat): set<Event>
    decreases |events|
  {
    if events == [] then {}
    else Inserted(TableAfter(events[..|events| - 1], maxEvents), events[|events| - 1], maxEvents)
  }

  function Added(events: seq<Event>): set<Event> {
    set e | e in events
  }

  lemma AddedAppend(events: seq<Event>, e: Event)
    ensures Added(events + [e]) == Added(events) + {e}
  {
  }

  lemma {:induction false} RunRetains(events: seq<Event>, maxEvents: nat)
    requires forall i :: 0 <= i < |events| ==> events[i].id == i + 1
    ensures Retains(Added(events), TableAfter(events, maxEvents), maxEvents, |events|)
    decreases |events|
  {
    if events == [] {
      EmptyRetains(maxEvents);
      assert Added(events) == {};
    } else {
      var init, last := events[..|events| - 1], events[|events| - 1];
      RunRetains(init, maxEvents);
      assert last.id == |init| + 1;
      InsertRetains(Added(init), TableAfter(init, maxEvents), maxEvents, last);
      AddedAppend(init, last);
      assert events == init + [last];
    }
  }

  lemma EmptyRetains(maxEvents: nat)
    ensures Retains({}, {}, maxEvents, 0)
  {
  }

  /**
    Whole runs: whatever the creation times, the table always holds the `maxEvents` newest events
    ever added (all of them while they are fewer) and never more than `maxEvents` + 99 rows.
   */
  lemma RetentionOverRuns(events: seq<Event>, maxEvents: nat)
    requires forall i :: 0 <= i < |events| ==> events[i].id == i + 1
    ensures Newest(Added(events), maxEvents) <= TableAfter(events, maxEvents) <= Added(events)
    ensures |TableAfter(events, maxEvents)| <= maxEvents + 99
  {
    RunRetains(events, maxEvents);
  }

  /** The rows of a table that stand before an event: created later, or at the same time with a higher id. */
  function Before(rows: set<Event>, e: Event): set<Event> {
    set x | x in rows && (x.createdAt > e.createdAt || (x.createdAt == e.createdAt && x.id > e.id))
  }

  /** An event is missing only if as many events as the table must keep stand before it there. */
  lemma MissingIsOld(events: seq<Event>, maxEvents: nat, gone: Event)
    requires forall i :: 0 <= i < |events| ==> events[i].id == i + 1
    requires gone in events && gone !in TableAfter(events, maxEvents)
    ensures |Before(TableAfter(events, maxEvents), gone)| >= maxEvents
  {
    var all, rows := Added(events), TableAfter(events, maxEvents);
    RunRetains(events, maxEvents);
    SubsetSize(NewerThan(all, gone), all);
    NewestCount(all, maxEvents);
    forall x | x in Newest(all, maxEvents)
      ensures x in Before(rows, gone)
    {
      NewestAreNewer(all, maxEvents, x, gone);
    }
    SubsetSize(Newest(all, maxEvents), Before(rows, gone));
  }

  /** When times do not run backwards, the last `maxEvents` events added are in the table. */
  lemma RecentEventsStay(events: seq<Event>, maxEvents: nat, i: nat)
    requires forall j :: 0 <= j < |events| ==> events[j].id == j + 1
    requires forall j, k :: 0 <= j <= k < |events| ==> events[j].createdAt <= events[k].createdAt
    requires i < |events| <= i + maxEvents
    ensures events[i] in TableAfter(events, maxEvents)
  {
    var rows := TableAfter(events, maxEvents);
    if events[i] !in rows {
      MissingIsOld(events, maxEvents, events[i]);
      RunRetains(events, maxEvents);
      LaterEvents(events, i);
      SubsetSize(Before(rows, events[i]), Added(events[i + 1..]));
    }
  }

  lemma LaterEvents(events: seq<Event>, i: nat)
    requires forall j :: 0 <= j < |events| ==> events[j].id == j + 1
    requires forall j, k :: 0 <= j <= k < |events| ==> events[j].createdAt <= events[k].createdAt
    requires i < |events|
    ensures Before(Added(events), events[i]) <= Added(events[i + 1..]) && |Added(events[i + 1..])| < |events| - i
  {
    forall e | e in Before(Added(events), events[i])
      ensures e in events[i + 1..]
    {
      var j :| 0 <= j < |events| && events[j] == e;
      assert events[i + 1..][j - i - 1] == e;
    }
    AddedSize(events[i + 1..]);
  }

  lemma {:induction false} AddedSize(events: seq<Event>)
    ensures |Added(events)| <= |events|
    decreases |events|
  {
    if events != [] {
      var n := |events| - 1;
      assert events == events[..n] + [events[n]];
      AddedSize(events[..n]);
      AddedAppend(events[..n], events[n]);
    }
  }
}
