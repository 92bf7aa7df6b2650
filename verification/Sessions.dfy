/**
  Login sessions: the session table of backend/app/security.py behind its bounded,
  short-lived read cache. The reference is a store without a cache (`Plain...`); the
  refinement holds although expired rows leave the table and stay in the cache.

  Tokens are known by their hash. Each call receives the wall clock `now` and the
  monotonic clock `mono` it reads.
 */
module Sessions {
  import opened Wrappers

  type Hash = string

  datatype Provider = Local | Pam | Ldap

  datatype Session = Session(
    username: string, csrfToken: string, persistent: bool, expiresAt: real,
    provider: Provider, identityId: string)

  /** One slot of the ordered cache; the least recently used slot comes first. */
  datatype Entry = Entry(hash: Hash, session: Session, deadline: real)

  datatype Store = Store(table: map<Hash, Session>, cache: seq<Entry>)

  datatype Limits = Limits(ttl: real, maxEntries: nat)

  /** Which sessions a bulk revocation removes. */
  datatype Scope =
    | OfUser(username: string, only: Option<Provider>)
    | OfIdentity(provider: Provider, identityId: string)
    | OfProvider(provider: Provider)
    | Everyone

  predicate Matches(scope: Scope, s: Session) {
    match scope
    case OfUser(username, only) => s.username == username && (only.None? || s.provider == only.value)
    case OfIdentity(provider, id) => s.provider == provider && s.identityId == id
    case OfProvider(provider) => s.provider == provider
    case Everyone => true
  }

  datatype Answer = Done | Duplicate | Resolved(session: Option<Session>) | Revoked(rows: nat)

  // ---- The store without a cache -----------------------------------------------

  function Unexpired(table: map<Hash, Session>, now: real): map<Hash, Session> {
    map h | h in table && table[h].expiresAt > now :: table[h]
  }

  /** A clash with a live row violates the primary key: the transaction, purge included, is undone. */
  function PlainCreate(table: map<Hash, Session>, h: Hash, s: Session, now: real): (map<Hash, Session>, Answer) {
    if h in Unexpired(table, now) then (table, Duplicate) else (Unexpired(table, now)[h := s], Done)
  }

  function PlainResolve(table: map<Hash, Session>, h: Hash, now: real): (map<Hash, Session>, Answer) {
    if h !in table then (table, Resolved(None))
    else if table[h].expiresAt <= now then (table - {h}, Resolved(None))
    else (table, Resolved(Some(table[h])))
  }

  function Revocable(table: map<Hash, Session>, scope: Scope): set<Hash> {
    set h | h in table && Matches(scope, table[h])
  }

  function PlainRevokeAll(table: map<Hash, Session>, scope: Scope): (map<Hash, Session>, Answer) {
    if scope.OfIdentity? && scope.identityId == "" then (table, Revoked(0))
    else (table - Revocable(table, scope), Revoked(|Revocable(table, scope)|))
  }

  // ---- The cache ---------------------------------------------------------------

  /** The cache without the given hashes, order kept. */
  function Drop(cache: seq<Entry>, gone: set<Hash>): (r: seq<Entry>)
    ensures |r| <= |cache|
    ensures forall e :: e in r <==> e in cache && e.hash !in gone
  {
    if cache == [] then []
    else (if cache[0].hash in gone then [] else [cache[0]]) + Drop(cache[1..], gone)
  }

  function Find(cache: seq<Entry>, h: Hash): (r: Option<Entry>)
    ensures r.Some? ==> r.value in cache && r.value.hash == h
    ensures r.None? ==> forall e :: e in cache ==> e.hash != h
  {
    if cache == [] then None
    else if cache[0].hash == h then Some(cache[0])
    else Find(cache[1..], h)
  }

  /** The newest `n` slots. */
  function Newest(cache: seq<Entry>, n: nat): seq<Entry> {
    if |cache| <= n then cache else cache[|cache| - n..]
  }

  lemma NewestDropsFirst(cache: seq<Entry>, n: nat)
    requires |cache| > n
    ensures Newest(cache[1..], n) == Newest(cache, n)
  {
    assert cache[1..][|cache| - 1 - n..] == cache[|cache| - n..];
  }

  function Remember(cache: seq<Entry>, h: Hash, s: Session, mono: real, limits: Limits): seq<Entry> {
    if limits.ttl <= 0.0 || limits.maxEntries == 0 then cache
    else Newest(Drop(cache, {h}) + [Entry(h, s, mono + limits.ttl)], limits.maxEntries)
  }

  function Stale(cache: seq<Entry>, scope: Scope): set<Hash> {
    set e | e in cache && Matches(scope, e.session) :: e.hash
  }

  // ---- The cached store --------------------------------------------------------

  function Create(st: Store, h: Hash, s: Session, now: real, mono: real, limits: Limits): (Store, Answer) {
    var (table, answer) := PlainCreate(st.table, h, s, now);
    (Store(table, if answer == Done then Remember(st.cache, h, s, mono, limits) else st.cache), answer)
  }

  function Resolve(st: Store, h: Hash, now: real, mono: real, limits: Limits): (Store, Answer) {
    match Find(st.cache, h)
    case Some(e) =>
      if e.session.expiresAt <= now then
        (Store(st.table - {h}, Drop(st.cache, {h})), Resolved(None))
      else if e.deadline > mono then
        (Store(st.table, Drop(st.cache, {h}) + [e]), Resolved(Some(e.session)))
      else
        ResolveFromTable(st.(cache := Drop(st.cache, {h})), h, now, mono, limits)
    case None =>
      ResolveFromTable(st, h, now, mono, limits)
  }

  function ResolveFromTable(st: Store, h: Hash, now: real, mono: real, limits: Limits): (Store, Answer) {
    var (table, answer) := PlainResolve(st.table, h, now);
    var cache :=
      if answer.Resolved? && answer.session.Some?
      then Remember(st.cache, h, answer.session.value, mono, limits)
      else st.cache;
    (Store(table, cache), answer)
  }

  function RevokeAll(st: Store, scope: Scope): (Store, Answer) {
    var (table, answer) := PlainRevokeAll(st.table, scope);
    var cache :=
      if scope.OfIdentity? && scope.identityId == "" then st.cache else Drop(st.cache, Stale(st.cache, scope));
    (Store(table, cache), answer)
  }

  // ---- The class ---------------------------------------------------------------

  class SessionStore {
    const limits: Limits
    var table: map<Hash, Session>
    var cache: seq<Entry>

    constructor (ttl: real, maxEntries: int)
      ensures limits == Limits(if ttl > 0.0 then ttl else 0.0, if maxEntries > 0 then maxEntries else 0)
      ensures State() == Store(map[], [])
    {
      limits := Limits(if ttl > 0.0 then ttl else 0.0, if maxEntries > 0 then maxEntries else 0);
      table := map[];
      cache := [];
    }

    function State(): Store
      reads this
    {
      Store(table, cache)
    }

    method CacheSession(h: Hash, s: Session, mono: real)
      modifies this`cache
      ensures cache == Remember(old(cache), h, s, mono, limits)
    {
      if limits.ttl <= 0.0 || limits.maxEntries <= 0 {
        return;
      }
      cache := Drop(cache, {h});
      cache := cache + [Entry(h, s, mono + limits.ttl)];
      ghost var grown := cache;
      while |cache| > limits.maxEntries
        invariant Newest(cache, limits.maxEntries) == Newest(grown, limits.maxEntries)
      {
        NewestDropsFirst(cache, limits.maxEntries);
        cache := cache[1..];
      }
    }

    method Invalidate(h: Hash)
      modifies this`cache
      ensures State() == Store(old(table), Drop(old(cache), {h}))
    {
      cache := Drop(cache, {h});
    }

    method CreateSession(h: Hash, s: Session, now: real, mono: real) returns (answer: Answer)
      modifies this
      ensures (State(), answer) == Create(old(State()), h, s, now, mono, limits)
    {
      var purged := map k | k in table && table[k].expiresAt > now :: table[k];
      if h in purged {
        return Duplicate;
      }
      table := purged[h := s];
      CacheSession(h, s, mono);
      answer := Done;
    }

    method ResolveToken(h: Hash, now: real, mono: real) returns (answer: Answer)
      modifies this
      ensures (State(), answer) == Resolve(old(State()), h, now, mono, limits)
    {
      var cached := Find(cache, h);
      if cached.Some? {
        var e := cached.value;
        if e.session.expiresAt <= now {
          cache := Drop(cache, {h});
          table := table - {h};
          return Resolved(None);
        }
        if e.deadline > mono {
          cache := Drop(cache, {h}) + [e];
          return Resolved(Some(e.session));
        }
        cache := Drop(cache, {h});
      }
      if h in table && table[h].expiresAt <= now {
        table := table - {h};
        return Resolved(None);
      }
      if h !in table {
        return Resolved(None);
      }
      CacheSession(h, table[h], mono);
      answer := Resolved(Some(table[h]));
    }

    method Revoke(h: Hash)
      modifies this
      ensures State() == Store(old(table) - {h}, Drop(old(cache), {h}))
    {
      cache := Drop(cache, {h});
      table := table - {h};
    }

    /** revoke_user, revoke_identity, revoke_provider and revoke_all: delete the rows, then pop each stale slot. */
    method RevokeScope(scope: Scope) returns (answer: Answer)
      modifies this
      ensures (State(), answer) == RevokeAll(old(State()), scope)
    {
      if scope.OfIdentity? && scope.identityId == "" {
        return Revoked(0);
      }
      var doomed := Revocable(table, scope);
      table := table - doomed;
      ghost var before := cache;
      var stale := Stale(cache, scope);
      var popped: set<Hash> := {};
      DropNothing(cache);
      while popped != stale
        invariant popped <= stale && table == old(table) - doomed
        invariant cache == Drop(before, popped)
        decreases stale - popped
      {
        assert stale - popped != {};
        var h :| h in stale - popped;
        DropTwice(before, popped, {h});
        cache := Drop(cache, {h});
        popped := popped + {h};
      }
      answer := Revoked(|doomed|);
    }
  }

  lemma {:induction false} DropTwice(cache: seq<Entry>, a: set<Hash>, b: set<Hash>)
    ensures Drop(Drop(cache, a), b) == Drop(cache, a + b)
  {
    if cache != [] {
      DropTwice(cache[1..], a, b);
      if cache[0].hash !in a {
        assert Drop(cache, a)[0] == cache[0] && Drop(cache, a)[1..] == Drop(cache[1..], a);
      } else {
        assert Drop(cache, a) == Drop(cache[1..], a);
        assert Drop(cache, a + b) == Drop(cache[1..], a + b);
      }
    }
  }

  lemma {:induction false} DropNothing(cache: seq<Entry>)
    ensures Drop(cache, {}) == cache
  {
    if cache != [] {
      DropNothing(cache[1..]);
    }
  }

  // ---- Refinement --------------------------------------------------------------

  predicate Distinct(cache: seq<Entry>) {
    forall i, j :: 0 <= i < j < |cache| ==> cache[i].hash != cache[j].hash
  }

  /** A cached slot shows its table row, or it has no row any more and has expired. */
  ghost predicate Shown(table: map<Hash, Session>, e: Entry, now: real) {
    if e.hash in table then table[e.hash] == e.session else e.session.expiresAt <= now
  }

  ghost predicate Coherent(st: Store, now: real, limits: Limits) {
    && Distinct(st.cache)
    && |st.cache| <= limits.maxEntries
    && (limits.ttl <= 0.0 ==> st.cache == [])
    && forall e :: e in st.cache ==> Shown(st.table, e, now)
  }

  lemma {:induction false} DropKeepsDistinct(cache: seq<Entry>, gone: set<Hash>)
    requires Distinct(cache)
    ensures Distinct(Drop(cache, gone))
  {
    if cache != [] {
      DropKeepsDistinct(cache[1..], gone);
      var rest := Drop(cache[1..], gone);
      forall j | 0 <= j < |rest|
        ensures rest[j].hash != cache[0].hash
      {
        assert rest[j] in rest;
        var k :| 0 <= k < |cache[1..]| && cache[1..][k] == rest[j];
        assert cache[k + 1] == rest[j];
      }
    }
  }

  /** Caching the row just written or read keeps the cache coherent and within its limit. */
  lemma RememberKeepsCoherent(st: Store, cache: seq<Entry>, h: Hash, s: Session, now: real, mono: real, limits: Limits)
    requires Distinct(cache) && |cache| <= limits.maxEntries && (limits.ttl <= 0.0 ==> cache == [])
    requires forall e :: e in cache && e.hash != h ==> Shown(st.table, e, now)
    requires h in st.table && st.table[h] == s
    ensures Coherent(Store(st.table, Remember(cache, h, s, mono, limits)), now, limits)
  {
    if limits.ttl > 0.0 && limits.maxEntries > 0 {
      DropKeepsDistinct(cache, {h});
      AppendedIsCoherent(st.table, Drop(cache, {h}), Entry(h, s, mono + limits.ttl), now, limits);
    } else {
      assert cache == [];
    }
  }

  lemma AppendedIsCoherent(table: map<Hash, Session>, dropped: seq<Entry>, e: Entry, now: real, limits: Limits)
    requires limits.ttl > 0.0 && Distinct(dropped) && Shown(table, e, now)
    requires forall x :: x in dropped ==> x.hash != e.hash && Shown(table, x, now)
    ensures Coherent(Store(table, Newest(dropped + [e], limits.maxEntries)), now, limits)
  {
    DistinctAppend(dropped, e);
    NewestKeeps(dropped + [e], limits.maxEntries);
    forall x | x in Newest(dropped + [e], limits.maxEntries)
      ensures Shown(table, x, now)
    {
      assert x in dropped + [e];
    }
  }

  lemma DistinctAppend(cache: seq<Entry>, e: Entry)
    requires Distinct(cache) && forall x :: x in cache ==> x.hash != e.hash
    ensures Distinct(cache + [e])
  {
    var grown := cache + [e];
    forall i, j | 0 <= i < j < |grown|
      ensures grown[i].hash != grown[j].hash
    {
      assert grown[i] in cache;
    }
  }

  lemma NewestKeeps(cache: seq<Entry>, n: nat)
    requires Distinct(cache)
    ensures Distinct(Newest(cache, n)) && |Newest(cache, n)| <= n
    ensures forall x :: x in Newest(cache, n) ==> x in cache
  {
  }

  lemma ResolveFromTableRefines(st: Store, h: Hash, now: real, mono: real, limits: Limits)
    requires Coherent(st, now, limits) && Find(st.cache, h).None?
    ensures var (st', answer) := ResolveFromTable(st, h, now, mono, limits);
            Coherent(st', now, limits) && (st'.table, answer) == PlainResolve(st.table, h, now)
  {
    if h in st.table && st.table[h].expiresAt > now {
      RememberKeepsCoherent(st, st.cache, h, st.table[h], now, mono, limits);
    }
  }

  /** resolve answers as if there were no cache. */
  lemma ResolveRefines(st: Store, h: Hash, now: real, mono: real, limits: Limits)
    requires Coherent(st, now, limits)
    ensures var (st', answer) := Resolve(st, h, now, mono, limits);
            Coherent(st', now, limits) && (st'.table, answer) == PlainResolve(st.table, h, now)
  {
    var dropped := st.(cache := Drop(st.cache, {h}));
    DropKeepsDistinct(st.cache, {h});
    match Find(st.cache, h)
    case Some(e) =>
      assert Shown(st.table, e, now);
      if e.session.expiresAt <= now {
        assert h !in st.table ==> st.table - {h} == st.table;
      } else if e.deadline > mono {
        var moved := dropped.cache + [e];
        assert Distinct(moved) by {
          forall i | 0 <= i < |moved| - 1
            ensures moved[i].hash != h
          {
            assert moved[i] in dropped.cache;
          }
        }
        DropShrinks(st.cache, h);
      } else {
        assert Coherent(dropped, now, limits);
        ResolveFromTableRefines(dropped, h, now, mono, limits);
      }
    case None =>
      ResolveFromTableRefines(st, h, now, mono, limits);
  }

  lemma {:induction false} DropShrinks(cache: seq<Entry>, h: Hash)
    requires exists e :: e in cache && e.hash == h
    ensures |Drop(cache, {h})| < |cache|
  {
    if cache[0].hash != h {
      DropShrinks(cache[1..], h);
    }
  }

  lemma CreateRefines(st: Store, h: Hash, s: Session, now: real, mono: real, limits: Limits)
    requires Coherent(st, now, limits)
    ensures var (st', answer) := Create(st, h, s, now, mono, limits);
            Coherent(st', now, limits) && (st'.table, answer) == PlainCreate(st.table, h, s, now)
  {
    var (table, answer) := PlainCreate(st.table, h, s, now);
    if answer == Done {
      forall e | e in st.cache && e.hash != h
        ensures Shown(table, e, now)
      {
        assert Shown(st.table, e, now);
      }
      RememberKeepsCoherent(Store(table, st.cache), st.cache, h, s, now, mono, limits);
    }
  }

  lemma RevokeAllRefines(st: Store, scope: Scope, now: real, limits: Limits)
    requires Coherent(st, now, limits)
    ensures var (st', answer) := RevokeAll(st, scope);
            Coherent(st', now, limits) && (st'.table, answer) == PlainRevokeAll(st.table, scope)
  {
    var st' := RevokeAll(st, scope).0;
    DropKeepsDistinct(st.cache, Stale(st.cache, scope));
    forall e | e in st'.cache
      ensures Shown(st'.table, e, now)
    {
      assert Shown(st.table, e, now);
    }
  }

  datatype Call =
    | CallCreate(hash: Hash, session: Session)
    | CallResolve(hash: Hash)
    | CallInvalidate(hash: Hash)
    | CallRevoke(hash: Hash)
    | CallRevokeAll(scope: Scope)

  datatype Timed = Timed(call: Call, now: real, mono: real)

  function CachedStep(st: Store, c: Timed, limits: Limits): (Store, Answer) {
    match c.call
    case CallCreate(h, s) => Create(st, h, s, c.now, c.mono, limits)
    case CallResolve(h) => Resolve(st, h, c.now, c.mono, limits)
    case CallInvalidate(h) => (st.(cache := Drop(st.cache, {h})), Done)
    case CallRevoke(h) => (Store(st.table - {h}, Drop(st.cache, {h})), Done)
    case CallRevokeAll(scope) => RevokeAll(st, scope)
  }

  function PlainStep(table: map<Hash, Session>, c: Timed): (map<Hash, Session>, Answer) {
    match c.call
    case CallCreate(h, s) => PlainCreate(table, h, s, c.now)
    case CallResolve(h) => PlainResolve(table, h, c.now)
    case CallInvalidate(h) => (table, Done)
    case CallRevoke(h) => (table - {h}, Done)
    case CallRevokeAll(scope) => PlainRevokeAll(table, scope)
  }

  function RunCached(st: Store, calls: seq<Timed>, limits: Limits): (Store, seq<Answer>)
    decreases |calls|
  {
    if calls == [] then (st, [])
    else
      var (st1, answer) := CachedStep(st, calls[0], limits);
      var (st2, answers) := RunCached(st1, calls[1..], limits);
      (st2, [answer] + answers)
  }

  function RunPlain(table: map<Hash, Session>, calls: seq<Timed>): (map<Hash, Session>, seq<Answer>)
    decreases |calls|
  {
    if calls == [] then (table, [])
    else
      var (table1, answer) := PlainStep(table, calls[0]);
      var (table2, answers) := RunPlain(table1, calls[1..]);
      (table2, [answer] + answers)
  }

  predicate ClockRuns(from: real, calls: seq<Timed>) {
    forall i, j :: 0 <= i <= j < |calls| ==> from <= calls[i].now <= calls[j].now
  }

  lemma StepRefines(st: Store, c: Timed, limits: Limits)
    requires Coherent(st, c.now, limits)
    ensures Coherent(CachedStep(st, c, limits).0, c.now, limits)
    ensures (CachedStep(st, c, limits).0.table, CachedStep(st, c, limits).1) == PlainStep(st.table, c)
  {
    match c.call
    case CallCreate(h, s) => CreateRefines(st, h, s, c.now, c.mono, limits);
    case CallResolve(h) => ResolveRefines(st, h, c.now, c.mono, limits);
    case CallInvalidate(h) => DropKeepsDistinct(st.cache, {h});
    case CallRevoke(h) => DropKeepsDistinct(st.cache, {h});
    case CallRevokeAll(scope) => RevokeAllRefines(st, scope, c.now, limits);
  }

  /** Every run of calls answers, and leaves the table, as if there were no cache; the cache keeps its limit. */
  lemma {:induction false} CacheRefinement(st: Store, calls: seq<Timed>, from: real, limits: Limits)
    requires Coherent(st, from, limits) && ClockRuns(from, calls)
    ensures RunCached(st, calls, limits).1 == RunPlain(st.table, calls).1
    ensures RunCached(st, calls, limits).0.table == RunPlain(st.table, calls).0
    ensures |RunCached(st, calls, limits).0.cache| <= limits.maxEntries
    decreases |calls|
  {
    if calls != [] {
      var c := calls[0];
      forall e | e in st.cache
        ensures Shown(st.table, e, c.now)
      {
        assert Shown(st.table, e, from);
      }
      StepRefines(st, c, limits);
      CacheRefinement(CachedStep(st, c, limits).0, calls[1..], c.now, limits);
    }
  }

  // ---- What the calls mean -----------------------------------------------------

  /** The session that a lookup shows. */
  function Shows(st: Store, h: Hash, now: real, mono: real, limits: Limits): Option<Session> {
    match Resolve(st, h, now, mono, limits).1
    case Resolved(session) => session
    case _ => None
  }

  lemma CoherentLater(st: Store, now: real, later: real, limits: Limits)
    requires Coherent(st, now, limits) && now <= later
    ensures Coherent(st, later, limits)
  {
    forall e | e in st.cache
      ensures Shown(st.table, e, later)
    {
      assert Shown(st.table, e, now);
    }
  }

  /** A lookup shows the row of its hash until the row expires, and only the expired row is deleted. */
  lemma LookupShowsRow(st: Store, h: Hash, now: real, mono: real, limits: Limits)
    requires Coherent(st, now, limits)
    ensures Resolve(st, h, now, mono, limits).1 == Resolved(Shows(st, h, now, mono, limits))
    ensures Shows(st, h, now, mono, limits)
         == if h in st.table && now < st.table[h].expiresAt then Some(st.table[h]) else None
    ensures forall k :: k in Resolve(st, h, now, mono, limits).0.table <==>
              k in st.table && (k == h ==> now < st.table[k].expiresAt)
    ensures forall k :: k in Resolve(st, h, now, mono, limits).0.table ==>
              Resolve(st, h, now, mono, limits).0.table[k] == st.table[k]
  {
    ResolveRefines(st, h, now, mono, limits);
  }

  /**
    A bulk revocation, in the fields of the sessions: what it covers is shown to nobody from
    then on, whether it came from the table or from a slot, and nothing else changes.
   */
  lemma RevocationTakesEffect(st: Store, scope: Scope, h: Hash, now: real, mono: real, limits: Limits)
    requires Coherent(st, now, limits)
    ensures var before := Shows(st, h, now, mono, limits);
            var after := Shows(RevokeAll(st, scope).0, h, now, mono, limits);
            match scope
            case OfUser(username, only) =>
              after == if before.Some? && before.value.username == username
                          && (only == None || only == Some(before.value.provider))
                       then None else before
            case OfIdentity(provider, id) =>
              after == if before.Some? && id != "" && before.value.provider == provider && before.value.identityId == id
                       then None else before
            case OfProvider(provider) =>
              after == if before.Some? && before.value.provider == provider then None else before
            case Everyone => after == None
  {
    RevokeAllRefines(st, scope, now, limits);
    LookupShowsRow(st, h, now, mono, limits);
    LookupShowsRow(RevokeAll(st, scope).0, h, now, mono, limits);
  }

  lemma FirstIsIn(cache: seq<Entry>)
    ensures cache != [] ==> cache[0] in cache
  {
  }

  /** It answers the number of rows that left the table; the others stay as they are. */
  lemma RevokedRowsAreCounted(st: Store, scope: Scope)
    ensures var (st', answer) := RevokeAll(st, scope);
            && st'.table.Keys <= st.table.Keys && (forall h :: h in st'.table ==> st'.table[h] == st.table[h])
            && answer == Revoked(|st.table.Keys - st'.table.Keys|)
            && (scope.Everyone? ==> st' == Store(map[], []))
  {
    var (st', answer) := RevokeAll(st, scope);
    if scope.OfIdentity? && scope.identityId == "" {
      assert st.table.Keys - st'.table.Keys == {};
    } else {
      assert st.table.Keys - st'.table.Keys == Revocable(st.table, scope);
      if scope.Everyone? {
        FirstIsIn(st'.cache);
      }
    }
  }

  /**
    A login is refused exactly when its hash is logged in; otherwise its session is shown until
    it expires, every other hash is shown what it was shown before, and only live rows remain.
   */
  lemma LoginTakesEffect(st: Store, h: Hash, s: Session, k: Hash, now: real, mono: real, later: real, limits: Limits)
    requires Coherent(st, now, limits) && now <= later
    ensures var (st', answer) := Create(st, h, s, now, mono, limits);
            && answer == (if Shows(st, h, now, mono, limits).Some? then Duplicate else Done)
            && (answer == Duplicate ==> st' == st)
            && (answer == Done ==> forall x :: x in st'.table && x != h ==> now < st'.table[x].expiresAt)
            && Shows(st', k, later, mono, limits)
               == if k == h && answer == Done then (if later < s.expiresAt then Some(s) else None)
                  else Shows(st, k, later, mono, limits)
  {
    var st' := Create(st, h, s, now, mono, limits).0;
    CreateRefines(st, h, s, now, mono, limits);
    CoherentLater(st, now, later, limits);
    CoherentLater(st', now, later, limits);
    LookupShowsRow(st, h, now, mono, limits);
    LookupShowsRow(st, k, later, mono, limits);
    LookupShowsRow(st', k, later, mono, limits);
  }

  /** `cache` ends in `newest`; before it stand the newest of the other slots, in their order. */
  ghost predicate EndsWith(cache: seq<Entry>, others: seq<Entry>, newest: Entry, maxEntries: nat) {
    && |cache| == (if |others| < maxEntries then |others| + 1 else maxEntries) > 0
    && cache[|cache| - 1] == newest
    && cache[..|cache| - 1] == others[|others| + 1 - |cache|..]
  }

  lemma NewestEndsWith(others: seq<Entry>, newest: Entry, maxEntries: nat)
    requires maxEntries > 0
    ensures EndsWith(Newest(others + [newest], maxEntries), others, newest, maxEntries)
  {
    var all := others + [newest];
    if |all| <= maxEntries {
      assert all[..|others|] == others == others[0..];
    } else {
      var first := |all| - maxEntries;
      assert all[first..][..maxEntries - 1] == others[first..];
    }
  }

  /**
    How long a slot lives: a lookup that shows a session makes its slot the newest one, with the
    old deadline as long as that lies ahead, else with a new one. The other slots keep their
    order, and only the oldest go when there is no room.
   */
  lemma ShownIsNewestSlot(st: Store, h: Hash, now: real, mono: real, limits: Limits)
    requires Coherent(st, now, limits) && limits.ttl > 0.0 && limits.maxEntries > 0
    requires Shows(st, h, now, mono, limits).Some?
    ensures var slot := Find(st.cache, h);
            var deadline := if slot.Some? && mono < slot.value.deadline then slot.value.deadline else mono + limits.ttl;
            EndsWith(Resolve(st, h, now, mono, limits).0.cache, Drop(st.cache, {h}),
                     Entry(h, st.table[h], deadline), limits.maxEntries)
  {
    LookupShowsRow(st, h, now, mono, limits);
    match Find(st.cache, h)
    case Some(e) =>
      assert Shown(st.table, e, now);
      DropShrinks(st.cache, h);
      if mono < e.deadline {
        var others := Drop(st.cache, {h});
        assert (others + [e])[..|others|] == others[0..];
      } else {
        DropTwice(st.cache, {h}, {h});
        assert {h} + {h} == {h};
        RowIsCached(st.(cache := Drop(st.cache, {h})), h, now, mono, limits);
        NewestEndsWith(Drop(st.cache, {h}), Entry(h, st.table[h], mono + limits.ttl), limits.maxEntries);
      }
    case None =>
      RowIsCached(st, h, now, mono, limits);
      NewestEndsWith(Drop(st.cache, {h}), Entry(h, st.table[h], mono + limits.ttl), limits.maxEntries);
  }

  lemma RowIsCached(st: Store, h: Hash, now: real, mono: real, limits: Limits)
    requires limits.ttl > 0.0 && limits.maxEntries > 0 && h in st.table && now < st.table[h].expiresAt
    ensures ResolveFromTable(st, h, now, mono, limits).0.cache
         == Newest(Drop(st.cache, {h}) + [Entry(h, st.table[h], mono + limits.ttl)], limits.maxEntries)
  {
  }

  // ---- Who is logged in --------------------------------------------------------

  /** A call that ends the session `s` of hash `h`. */
  predicate Ends(call: Call, h: Hash, s: Session) {
    match call
    case CallRevoke(k) => k == h
    case CallRevokeAll(scope) => Matches(scope, s) && !(scope.OfIdentity? && scope.identityId == "")
    case _ => false
  }

  /** Some login of the run put `s` behind `h`, and nothing after it ended that. */
  ghost predicate LoggedIn(calls: seq<Timed>, answers: seq<Answer>, h: Hash, s: Session)
    requires |answers| == |calls|
  {
    exists i :: 0 <= i < |calls| && calls[i].call == CallCreate(h, s) && answers[i] == Done
             && forall j :: i < j < |calls| ==> !Ends(calls[j].call, h, s)
  }

  predicate LiveRow(table: map<Hash, Session>, h: Hash, s: Session, now: real) {
    h in table && table[h] == s && now < s.expiresAt
  }

  lemma LiveAfterStep(table: map<Hash, Session>, c: Timed, h: Hash, s: Session, now: real)
    requires c.now <= now
    ensures LiveRow(PlainStep(table, c).0, h, s, now) <==>
              || (c.call == CallCreate(h, s) && PlainStep(table, c).1 == Done && now < s.expiresAt)
              || (LiveRow(table, h, s, now) && !Ends(c.call, h, s))
  {
  }

  lemma {:induction false} RunPlainSnoc(table: map<Hash, Session>, calls: seq<Timed>, c: Timed)
    ensures |RunPlain(table, calls).1| == |calls|
    ensures var (t, answers) := RunPlain(table, calls);
            RunPlain(table, calls + [c]) == (PlainStep(t, c).0, answers + [PlainStep(t, c).1])
    decreases |calls|
  {
    if calls == [] {
      assert (calls + [c])[1..] == [];
      var answer := PlainStep(table, c).1;
      assert [answer] + [] == [] + [answer];
    } else {
      assert (calls + [c])[1..] == calls[1..] + [c];
      var (table1, answer) := PlainStep(table, calls[0]);
      RunPlainSnoc(table1, calls[1..], c);
      var (t, answers) := RunPlain(table1, calls[1..]);
      assert [answer] + (answers + [PlainStep(t, c).1]) == [answer] + answers + [PlainStep(t, c).1];
    }
  }

  lemma LoggedInSnoc(calls: seq<Timed>, answers: seq<Answer>, c: Timed, answer: Answer, h: Hash, s: Session)
    requires |answers| == |calls|
    ensures LoggedIn(calls + [c], answers + [answer], h, s) <==>
              (c.call == CallCreate(h, s) && answer == Done) || (LoggedIn(calls, answers, h, s) && !Ends(c.call, h, s))
  {
    var all, answers' := calls + [c], answers + [answer];
    var n := |calls|;
    assert all[n] == c && answers'[n] == answer;
    if c.call == CallCreate(h, s) && answer == Done {
      assert LoggedIn(all, answers', h, s);
    }
    if LoggedIn(calls, answers, h, s) && !Ends(c.call, h, s) {
      var i :| 0 <= i < n && calls[i].call == CallCreate(h, s) && answers[i] == Done
               && forall j :: i < j < n ==> !Ends(calls[j].call, h, s);
      assert all[i].call == CallCreate(h, s) && answers'[i] == Done;
    }
    if LoggedIn(all, answers', h, s) && !(c.call == CallCreate(h, s) && answer == Done) {
      var i :| 0 <= i < n + 1 && all[i].call == CallCreate(h, s) && answers'[i] == Done
               && forall j :: i < j < n + 1 ==> !Ends(all[j].call, h, s);
      assert calls[i].call == CallCreate(h, s) && answers[i] == Done;
      assert forall j :: i < j < n ==> all[j] == calls[j];
      assert !Ends(all[n].call, h, s);
    }
  }

  lemma {:induction false} RowsAreLogins(calls: seq<Timed>, h: Hash, s: Session, now: real)
    requires forall c :: c in calls ==> c.now <= now
    ensures |RunPlain(map[], calls).1| == |calls|
    ensures var (table, answers) := RunPlain(map[], calls);
            LiveRow(table, h, s, now) <==> now < s.expiresAt && LoggedIn(calls, answers, h, s)
    decreases |calls|
  {
    if calls != [] {
      var n := |calls| - 1;
      var (table, answers) := RunPlain(map[], calls[..n]);
      assert calls == calls[..n] + [calls[n]];
      RowsAreLogins(calls[..n], h, s, now);
      RunPlainSnoc(map[], calls[..n], calls[n]);
      assert calls[n] in calls;
      LiveAfterStep(table, calls[n], h, s, now);
      LoggedInSnoc(calls[..n], answers, calls[n], PlainStep(table, calls[n]).1, h, s);
    }
  }

  /**
    After any run from an empty store a lookup shows a session if and only if it was put there by
    a login that succeeded, has not expired, and no later logout or bulk revocation covers it.
   */
  lemma ShownIsLoggedIn(calls: seq<Timed>, h: Hash, s: Session, from: real, now: real, mono: real, limits: Limits)
    requires ClockRuns(from, calls) && from <= now && forall c :: c in calls ==> c.now <= now
    ensures var (st, answers) := RunCached(Store(map[], []), calls, limits);
            && |answers| == |calls|
            && (Shows(st, h, now, mono, limits) == Some(s) <==>
                  now < s.expiresAt && LoggedIn(calls, answers, h, s))
  {
    CacheRefinement(Store(map[], []), calls, from, limits);
    RunStaysCoherent(Store(map[], []), calls, from, now, limits);
    RowsAreLogins(calls, h, s, now);
    LookupShowsRow(RunCached(Store(map[], []), calls, limits).0, h, now, mono, limits);
  }

  lemma {:induction false} RunStaysCoherent(st: Store, calls: seq<Timed>, from: real, now: real, limits: Limits)
    requires Coherent(st, from, limits) && ClockRuns(from, calls)
    requires from <= now && forall c :: c in calls ==> c.now <= now
    ensures Coherent(RunCached(st, calls, limits).0, now, limits)
    decreases |calls|
  {
    if calls == [] {
      CoherentLater(st, from, now, limits);
    } else {
      var c := calls[0];
      assert c in calls && from <= c.now;
      CoherentLater(st, from, c.now, limits);
      StepRefines(st, c, limits);
      RunStaysCoherent(CachedStep(st, c, limits).0, calls[1..], c.now, now, limits);
    }
  }

  /** The simpler invariant is false: after an expired row is purged, its slot is cached without a row. */
  lemma CacheIsNotASubsetOfTheTable(a: Session, b: Session, limits: Limits)
    requires a.expiresAt == 10.0 && b.expiresAt == 100.0
    requires limits.ttl > 0.0 && limits.maxEntries >= 2
    ensures var calls := [Timed(CallCreate("a", a), 0.0, 0.0), Timed(CallCreate("b", b), 20.0, 20.0)];
            var st := RunCached(Store(map[], []), calls, limits).0;
            exists e :: e in st.cache && e.hash !in st.table
  {
    var first := Create(Store(map[], []), "a", a, 0.0, 0.0, limits).0;
    var second := Create(first, "b", b, 20.0, 20.0, limits).0;
    assert Drop([], {"a"}) == [];
    assert first.cache == [Entry("a", a, limits.ttl)];
    assert Entry("a", a, limits.ttl) in first.cache;
    assert Entry("a", a, limits.ttl) in Drop(first.cache, {"b"});
    assert Entry("a", a, limits.ttl) in second.cache;
    var calls := [Timed(CallCreate("a", a), 0.0, 0.0), Timed(CallCreate("b", b), 20.0, 20.0)];
    assert calls[1..][1..] == [];
    assert RunCached(Store(map[], []), calls, limits).0 == RunCached(first, calls[1..], limits).0 == second;
  }

  // ---- Without the clock order -------------------------------------------------

  /**
    A lookup that is answered from a slot without a row: the row was purged at a later time
    than the lookup has read.
   */
  predicate AnsweredPurged(st: Store, h: Hash, now: real, mono: real) {
    && h !in st.table && Find(st.cache, h).Some?
    && Find(st.cache, h).value.session.expiresAt > now && Find(st.cache, h).value.deadline > mono
  }

  ghost predicate Below(table: map<Hash, Session>, end: real) {
    forall h :: h in table ==> table[h].expiresAt <= end
  }

  predicate CallBelow(c: Timed, end: real) {
    c.call.CallCreate? ==> c.call.session.expiresAt <= end
  }

  lemma AnyClockLookup(st: Store, h: Hash, now: real, mono: real, limits: Limits, end: real)
    requires Coherent(st, end, limits)
    ensures var (st', answer) := Resolve(st, h, now, mono, limits);
            && Coherent(st', end, limits) && st'.table == PlainResolve(st.table, h, now).0
            && (answer == PlainResolve(st.table, h, now).1 <==> !AnsweredPurged(st, h, now, mono))
  {
    var dropped := st.(cache := Drop(st.cache, {h}));
    DropKeepsDistinct(st.cache, {h});
    match Find(st.cache, h)
    case Some(e) =>
      assert Shown(st.table, e, end);
      if e.session.expiresAt <= now {
        assert h !in st.table ==> st.table - {h} == st.table;
      } else if e.deadline > mono {
        DistinctAppend(dropped.cache, e);
        DropShrinks(st.cache, h);
      } else {
        assert Coherent(dropped, end, limits);
        AnyClockTable(dropped, h, now, mono, limits, end);
      }
    case None =>
      AnyClockTable(st, h, now, mono, limits, end);
  }

  lemma AnyClockTable(st: Store, h: Hash, now: real, mono: real, limits: Limits, end: real)
    requires Coherent(st, end, limits) && Find(st.cache, h).None?
    ensures var (st', answer) := ResolveFromTable(st, h, now, mono, limits);
            Coherent(st', end, limits) && (st'.table, answer) == PlainResolve(st.table, h, now)
  {
    if h in st.table && st.table[h].expiresAt > now {
      RememberKeepsCoherent(st, st.cache, h, st.table[h], end, mono, limits);
    }
  }

  lemma AnyClockCreation(st: Store, h: Hash, s: Session, now: real, mono: real, limits: Limits, end: real)
    requires Coherent(st, end, limits) && Below(st.table, end) && s.expiresAt <= end
    ensures var (st', answer) := Create(st, h, s, now, mono, limits);
            && Coherent(st', end, limits) && Below(st'.table, end)
            && (st'.table, answer) == PlainCreate(st.table, h, s, now)
  {
    var (table, answer) := PlainCreate(st.table, h, s, now);
    if answer == Done {
      forall e | e in st.cache && e.hash != h
        ensures Shown(table, e, end)
      {
        assert Shown(st.table, e, end);
      }
      RememberKeepsCoherent(Store(table, st.cache), st.cache, h, s, end, mono, limits);
    }
  }

  /** With any clock readings a call leaves the same table; only a lookup can answer differently. */
  lemma AnyClockStep(st: Store, c: Timed, limits: Limits, end: real)
    requires Coherent(st, end, limits) && Below(st.table, end) && CallBelow(c, end)
    ensures var (st', answer) := CachedStep(st, c, limits);
            && Coherent(st', end, limits) && Below(st'.table, end) && st'.table == PlainStep(st.table, c).0
            && (answer == PlainStep(st.table, c).1 <==>
                  !(c.call.CallResolve? && AnsweredPurged(st, c.call.hash, c.now, c.mono)))
  {
    match c.call
    case CallCreate(h, s) => AnyClockCreation(st, h, s, c.now, c.mono, limits, end);
    case CallResolve(h) => AnyClockLookup(st, h, c.now, c.mono, limits, end);
    case CallInvalidate(h) => DropKeepsDistinct(st.cache, {h});
    case CallRevoke(h) => DropKeepsDistinct(st.cache, {h});
    case CallRevokeAll(scope) => RevokeAllRefines(st, scope, end, limits);
  }

  predicate NeverAnswersPurged(st: Store, calls: seq<Timed>, limits: Limits)
    decreases |calls|
  {
    calls == [] ||
    (&& !(calls[0].call.CallResolve? && AnsweredPurged(st, calls[0].call.hash, calls[0].now, calls[0].mono))
     && NeverAnswersPurged(CachedStep(st, calls[0], limits).0, calls[1..], limits))
  }

  /**
    Whatever times the calls have read, in whatever order they take the lock: the table is that
    of a store without a cache, and so are all answers if and only if no lookup is answered from
    a slot whose row was purged. `end` is any time after which no session lives.
   */
  lemma {:induction false} AnyClockRefinement(st: Store, calls: seq<Timed>, limits: Limits, end: real)
    requires Coherent(st, end, limits) && Below(st.table, end) && forall c :: c in calls ==> CallBelow(c, end)
    ensures RunCached(st, calls, limits).0.table == RunPlain(st.table, calls).0
    ensures RunCached(st, calls, limits).1 == RunPlain(st.table, calls).1 <==> NeverAnswersPurged(st, calls, limits)
    ensures |RunCached(st, calls, limits).0.cache| <= limits.maxEntries
    decreases |calls|
  {
    if calls != [] {
      assert calls[0] in calls;
      AnyClockStep(st, calls[0], limits, end);
      var next := CachedStep(st, calls[0], limits);
      AnyClockRefinement(next.0, calls[1..], limits, end);
      SameAnswers(next.1, PlainStep(st.table, calls[0]).1, RunCached(next.0, calls[1..], limits).1,
                  RunPlain(next.0.table, calls[1..]).1);
    }
  }

  lemma SameAnswers(a: Answer, b: Answer, more: seq<Answer>, others: seq<Answer>)
    ensures [a] + more == [b] + others <==> a == b && more == others
  {
    if [a] + more == [b] + others {
      assert ([a] + more)[0] == ([b] + others)[0];
      assert ([a] + more)[1..] == more && ([b] + others)[1..] == others;
    }
  }

  /** Such a call: a read the time before b's creation purged its expired row, and takes its turn after it. */
  lemma EarlierReadingIsCached(a: Session, b: Session, limits: Limits)
    requires a.expiresAt == 10.0 && b.expiresAt == 100.0 && limits.ttl > 30.0 && limits.maxEntries >= 2
    ensures var st := Create(Create(Store(map[], []), "a", a, 0.0, 0.0, limits).0, "b", b, 20.0, 20.0, limits).0;
            && Resolve(st, "a", 5.0, 20.0, limits).1 == Resolved(Some(a))
            && PlainResolve(st.table, "a", 5.0).1 == Resolved(None)
  {
    var first := Create(Store(map[], []), "a", a, 0.0, 0.0, limits).0;
    var st := Create(first, "b", b, 20.0, 20.0, limits).0;
    assert Drop([], {"a"}) == [];
    var slot := Entry("a", a, limits.ttl);
    assert first.cache == [slot];
    assert first.cache[1..] == [] && Drop(first.cache, {"b"}) == [slot];
    assert st.cache[0] == slot;
    assert Find(st.cache, "a") == Some(slot);
    assert "a" !in st.table;
  }
}
