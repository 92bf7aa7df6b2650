/**
  The sliding-window login limiter of backend/app/security.py. Each key keeps a queue
  from which old failures are dropped lazily; the ghost `failures` keeps every failure
  since the key was last cleared.
 */
module RateLimiter {

  const WINDOW := 60.0

  /** The failures that still count at `now`. */
  function Recent(failures: seq<real>, now: real): seq<real> {
    if failures == [] then []
    else (if failures[0] < now - WINDOW then [] else [failures[0]]) + Recent(failures[1..], now)
  }

  ghost predicate Ordered(failures: seq<real>) {
    forall i, j :: 0 <= i <= j < |failures| ==> failures[i] <= failures[j]
  }

  /** In time order, the counting failures are a suffix: dropping from the front until one counts is enough. */
  lemma {:induction false} RecentIsSuffix(failures: seq<real>, now: real, k: nat)
    requires Ordered(failures) && k <= |failures|
    requires forall i :: 0 <= i < k ==> failures[i] < now - WINDOW
    requires k < |failures| ==> failures[k] >= now - WINDOW
    ensures Recent(failures, now) == failures[k..]
  {
    if failures != [] {
      if k == 0 {
        RecentIsSuffix(failures[1..], now, 0);
        assert Recent(failures, now) == [failures[0]] + failures[1..];
      } else {
        RecentIsSuffix(failures[1..], now, k - 1);
        assert failures[1..][k - 1..] == failures[k..];
      }
    }
  }

  /** The queue `w` is the history `h` without a prefix of failures too old to count at `clock`. */
  ghost predicate Queued(h: seq<real>, w: seq<real>, clock: real) {
    && Ordered(h) && |w| <= |h| && w == h[|h| - |w|..]
    && (forall i :: 0 <= i < |h| ==> h[i] <= clock)
    && (forall i :: 0 <= i < |h| - |w| ==> h[i] < clock - WINDOW)
  }

  /** A failure recorded now counts and keeps the queue a suffix of the history. */
  lemma QueuedAppend(h: seq<real>, w: seq<real>, clock: real)
    requires Queued(h, w, clock)
    ensures Queued(h + [clock], w + [clock], clock)
  {
    var g, v := h + [clock], w + [clock];
    assert v == g[|g| - |v|..];
  }

  function At(m: map<string, seq<real>>, key: string): seq<real> {
    if key in m then m[key] else []
  }

  ghost predicate AllQueued(failures: map<string, seq<real>>, attempts: map<string, seq<real>>, clock: real) {
    forall key {:trigger Queued(At(failures, key), At(attempts, key), clock)} ::
      Queued(At(failures, key), At(attempts, key), clock)
  }

  /** What is too old to count stays too old. */
  lemma QueuedLater(h: seq<real>, w: seq<real>, clock: real, now: real)
    requires Queued(h, w, clock) && clock <= now
    ensures Queued(h, w, now)
  {
  }

  /** Replacing one key's history and queue, at a later time, keeps every queue right. */
  lemma AllQueuedUpdate(failures: map<string, seq<real>>, attempts: map<string, seq<real>>, clock: real,
                        key: string, h: seq<real>, w: seq<real>, now: real)
    requires AllQueued(failures, attempts, clock) && clock <= now && Queued(h, w, now)
    ensures AllQueued(failures[key := h], attempts[key := w], now)
  {
    var failures', attempts' := failures[key := h], attempts[key := w];
    forall k
      ensures Queued(At(failures', k), At(attempts', k), now)
    {
      if k == key {
        assert At(failures', k) == h && At(attempts', k) == w;
      } else {
        QueuedLater(At(failures, k), At(attempts, k), clock, now);
        assert At(failures', k) == At(failures, k) && At(attempts', k) == At(attempts, k);
      }
    }
  }

  lemma Overwrite(m: map<string, seq<real>>, key: string, a: seq<real>, b: seq<real>)
    ensures m[key := a][key := b] == m[key := b]
  {
  }

  lemma RecordKeepsQueued(failures: map<string, seq<real>>, attempts: map<string, seq<real>>, key: string,
                          h: seq<real>, w: seq<real>, now: real)
    requires AllQueued(failures, attempts, now) && h == At(failures, key) && w == At(attempts, key)
    ensures AllQueued(failures[key := h + [now]], attempts[key := w + [now]], now)
  {
    assert Queued(At(failures, key), At(attempts, key), now);
    QueuedAppend(h, w, now);
    AllQueuedUpdate(failures, attempts, now, key, h + [now], w + [now], now);
  }

  class LoginRateLimiter {
    var attempts: map<string, seq<real>>
    ghost var failures: map<string, seq<real>>
    ghost var clock: real

    ghost predicate Valid()
      reads this
    {
      AllQueued(failures, attempts, clock)
    }

    constructor (now: real)
      ensures Valid() && clock == now && failures == map[]
    {
      attempts, failures := map[], map[];
      clock := now;
    }

    /** Drops the failures that no longer count; the queue that stays is the list of those that do. */
    method Window(key: string, now: real) returns (window: seq<real>)
      requires Valid() && clock <= now
      modifies this
      ensures Valid() && clock == now && At(failures, key) == old(At(failures, key))
      ensures failures == old(failures)[key := old(At(failures, key))]
      ensures window == At(attempts, key) == Recent(At(failures, key), now)
    {
      window := At(attempts, key);
      ghost var h := At(failures, key);
      assert Queued(h, window, clock);
      while window != [] && window[0] < now - WINDOW
        invariant |window| <= |h| && window == h[|h| - |window|..]
        invariant forall i :: 0 <= i < |h| - |window| ==> h[i] < now - WINDOW
      {
        window := window[1..];
      }
      RecentIsSuffix(h, now, |h| - |window|);
      AllQueuedUpdate(failures, attempts, clock, key, h, window, now);
      attempts := attempts[key := window];
      failures := failures[key := h];
      clock := now;
    }

    /** A login attempt is refused exactly when the failures of the last minute reach the limit. */
    method Check(key: string, now: real, limit: nat) returns (refused: bool)
      requires Valid() && clock <= now
      modifies this
      ensures Valid() && clock == now
      ensures failures == old(failures)[key := old(At(failures, key))]
      ensures refused <==> |Recent(At(failures, key), now)| >= limit
    {
      var window := Window(key, now);
      refused := |window| >= limit;
    }

    method RecordFailure(key: string, now: real)
      requires Valid() && clock <= now
      modifies this
      ensures Valid() && clock == now
      ensures failures == old(failures)[key := old(At(failures, key)) + [now]]
    {
      var window := Window(key, now);
      ghost var h := At(failures, key);
      RecordKeepsQueued(failures, attempts, key, h, window, now);
      Overwrite(old(failures), key, h, h + [now]);
      attempts := attempts[key := window + [now]];
      failures := failures[key := h + [now]];
    }

    method Clear(key: string)
      requires Valid()
      modifies this
      ensures Valid() && clock == old(clock)
      ensures failures == old(failures) - {key}
    {
      forall k
        ensures Queued(At(failures - {key}, k), At(attempts - {key}, k), clock)
      {
        assert Queued(At(failures, k), At(attempts, k), clock);
      }
      attempts := attempts - {key};
      failures := failures - {key};
    }
  }
}
