/**
  Chunked uploads: backend/app/uploads.py. Each operation runs under the module lock and
  is one step; sessions of many users interleave freely.

  The ghost maps record, for every upload ever started, the chunks that were accepted, the
  bytes that failed writes left behind in its temporary file, and the bytes it lost to the
  cleanup of orphans. That cleanup notes the files of the present sessions under the lock and
  unlinks all other files without it, one at a time, while the sessions go on.
 */
module Uploads {
  import opened Wrappers

  type Bytes = seq<nat>

  const MAX_CHUNK_SIZE := 4 * 1024 * 1024
  const MAX_AGE := 86400.0

  datatype Session = Session(
    username: string, destination: string, temporary: string, size: nat, received: nat, createdAt: real)

  /** A finished upload as it reaches import_upload. */
  datatype Handover = Handover(id: string, destination: string, content: Bytes, declared: nat)

  datatype Reply = Reply(id: string, offset: nat, size: nat, completed: bool)

  datatype Error =
    | TooLarge | UpdateInProgress | NotFound | Forbidden | OffsetMismatch(expected: nat) | ExceedsSize
    | WriteFailed(left: nat)

  function Flatten(chunks: seq<Bytes>): Bytes {
    if chunks == [] then [] else Flatten(chunks[..|chunks| - 1]) + chunks[|chunks| - 1]
  }

  lemma FlattenAppend(chunks: seq<Bytes>, chunk: Bytes)
    ensures Flatten(chunks + [chunk]) == Flatten(chunks) + chunk
  {
    assert (chunks + [chunk])[..|chunks|] == chunks;
  }

  /** What is known of one upload: its start, the accepted chunks, and the bytes its file gained and lost besides. */
  datatype History = History(start: Session, accepted: seq<Bytes>, stray: nat, lost: nat)

  /** The bytes of an upload: the accepted chunks in order, unless a failed write or the cleanup interfered. */
  ghost predicate Holds(content: Bytes, h: History) {
    && |content| + h.lost == |Flatten(h.accepted)| + h.stray
    && (h.stray == 0 && h.lost == 0 ==> content == Flatten(h.accepted))
  }

  /** The module state, with the files the orphan cleanup spares once it has begun, and the ghost history. */
  datatype State = State(
    sessions: map<string, Session>, files: map<string, Bytes>, handed: seq<Handover>,
    spared: Option<set<string>>, history: map<string, History>)

  /** What opening a file for appending finds: a missing file is created empty. */
  function Content(files: map<string, Bytes>, path: string): Bytes {
    if path in files then files[path] else []
  }

  function Temporaries(sessions: map<string, Session>): set<string> {
    set id | id in sessions :: sessions[id].temporary
  }

  // ---- The steps ---------------------------------------------------------------

  function Live(sessions: map<string, Session>, now: real): map<string, Session> {
    map id | id in sessions && sessions[id].createdAt >= now - MAX_AGE :: sessions[id]
  }

  /** The temporary files of the sessions that have expired. */
  function ExpiredFiles(sessions: map<string, Session>, now: real): set<string> {
    set id | id in sessions && sessions[id].createdAt < now - MAX_AGE :: sessions[id].temporary
  }

  function Expired(st: State, now: real): State {
    st.(sessions := Live(st.sessions, now), files := st.files - ExpiredFiles(st.sessions, now))
  }

  function Opened(st: State, id: string, s: Session): State {
    st.(sessions := st.sessions[id := s],
        files := st.files[s.temporary := []],
        history := st.history[id := History(s, [], 0, 0)])
  }

  function Written(st: State, id: string, chunk: Bytes): State
    requires Known(st, id)
  {
    var s, h := st.sessions[id], st.history[id];
    st.(sessions := st.sessions[id := s.(received := s.received + |chunk|)],
        files := st.files[s.temporary := Content(st.files, s.temporary) + chunk],
        history := st.history[id := h.(accepted := h.accepted + [chunk])])
  }

  /** A write that failed after leaving some bytes in the file. */
  function Torn(st: State, id: string, left: Bytes): State
    requires Known(st, id)
  {
    var s, h := st.sessions[id], st.history[id];
    st.(files := st.files[s.temporary := Content(st.files, s.temporary) + left],
        history := st.history[id := h.(stray := h.stray + |left|)])
  }

  /** The session leaves the list and its file is handed over and removed. */
  function HandedOver(st: State, id: string): State
    requires Known(st, id)
  {
    var s := st.sessions[id];
    st.(sessions := st.sessions - {id}, files := st.files - {s.temporary},
        handed := st.handed + [Handover(id, s.destination, Content(st.files, s.temporary), s.size)])
  }

  function Dropped(st: State, id: string): State
    requires id in st.sessions
  {
    st.(sessions := st.sessions - {id}, files := st.files - {st.sessions[id].temporary})
  }

  /** The cleanup begins: the files of the sessions of this moment are spared. */
  function Sparing(st: State): State {
    st.(spared := Some(Temporaries(st.sessions)))
  }

  /** The cleanup unlinks one file, which may belong to a session that started later. */
  function Swept(st: State, path: string): State {
    st.(files := st.files - {path},
        history := map id | id in st.history ::
          if id in st.sessions && st.sessions[id].temporary == path
          then st.history[id].(lost := st.history[id].lost + |Content(st.files, path)|) else st.history[id])
  }

  // ---- The invariant -----------------------------------------------------------

  predicate Known(st: State, id: string) {
    id in st.sessions && id in st.history
  }

  ghost predicate SessionOk(st: State, id: string) {
    && Known(st, id)
    && st.sessions[id] == st.history[id].start.(received := st.sessions[id].received)
    && st.sessions[id].received == |Flatten(st.history[id].accepted)| <= st.sessions[id].size
    && Holds(Content(st.files, st.sessions[id].temporary), st.history[id])
    && (st.history[id].lost > 0 ==> st.spared.Some? && st.sessions[id].temporary !in st.spared.value)
  }

  ghost predicate HandoverOk(st: State, h: Handover) {
    && h.id in st.history && h.id !in st.sessions
    && Holds(h.content, st.history[h.id])
    && h.destination == st.history[h.id].start.destination
    && |Flatten(st.history[h.id].accepted)| == h.declared == st.history[h.id].start.size
  }

  ghost predicate Sound(st: State) {
    && (forall id {:trigger SessionOk(st, id)} :: id in st.sessions ==> SessionOk(st, id))
    && (forall a, b :: a in st.sessions && b in st.sessions && a != b ==>
          st.sessions[a].temporary != st.sessions[b].temporary)
    && (forall i {:trigger HandoverOk(st, st.handed[i])} :: 0 <= i < |st.handed| ==> HandoverOk(st, st.handed[i]))
    && (forall i, j :: 0 <= i < j < |st.handed| ==> st.handed[i].id != st.handed[j].id)
  }

  ghost predicate Unfinished(st: State) {
    forall id :: id in st.sessions ==> st.sessions[id].received < st.sessions[id].size
  }

  lemma ExpiredKeepsSound(st: State, now: real)
    requires Sound(st) && Unfinished(st)
    ensures Sound(Expired(st, now)) && Unfinished(Expired(st, now))
  {
    var st' := Expired(st, now);
    forall id | id in st'.sessions
      ensures SessionOk(st', id)
    {
      assert SessionOk(st, id);
    }
    forall i | 0 <= i < |st'.handed|
      ensures HandoverOk(st', st'.handed[i])
    {
      assert HandoverOk(st, st.handed[i]);
    }
  }

  lemma OpenedKeepsSound(st: State, id: string, s: Session)
    requires Sound(st) && Unfinished(st) && id !in st.history && s.received == 0
    requires s.temporary !in st.files && s.temporary !in Temporaries(st.sessions)
    ensures Sound(Opened(st, id, s)) && (s.size > 0 ==> Unfinished(Opened(st, id, s)))
    ensures forall i :: 0 <= i < |st.handed| ==> st.handed[i].id != id
  {
    var st' := Opened(st, id, s);
    forall k | k in st'.sessions
      ensures SessionOk(st', k)
    {
      assert k != id ==> SessionOk(st, k);
    }
    forall a, b | a in st'.sessions && b in st'.sessions && a != b
      ensures st'.sessions[a].temporary != st'.sessions[b].temporary
    {
      assert a != id ==> SessionOk(st, a);
      assert b != id ==> SessionOk(st, b);
    }
    forall i | 0 <= i < |st'.handed|
      ensures HandoverOk(st', st'.handed[i])
    {
      assert HandoverOk(st, st.handed[i]);
    }
  }

  lemma WrittenKeepsSound(st: State, id: string, chunk: Bytes)
    requires Sound(st) && id in st.sessions && SessionOk(st, id)
    requires st.sessions[id].received + |chunk| <= st.sessions[id].size
    ensures Sound(Written(st, id, chunk))
  {
    var st' := Written(st, id, chunk);
    FlattenAppend(st.history[id].accepted, chunk);
    SoundAfterOneSession(st, st', id);
  }

  lemma TornKeepsSound(st: State, id: string, left: Bytes)
    requires Sound(st) && id in st.sessions && SessionOk(st, id)
    ensures Sound(Torn(st, id, left))
  {
    SoundAfterOneSession(st, Torn(st, id, left), id);
  }

  lemma SameContent(a: map<string, Bytes>, b: map<string, Bytes>, changed: string, path: string)
    requires a - {changed} == b - {changed} && path != changed
    ensures Content(a, path) == Content(b, path)
  {
    assert path in a <==> path in a - {changed};
    assert path in b <==> path in b - {changed};
    assert path in a ==> (a - {changed})[path] == a[path];
    assert path in b ==> (b - {changed})[path] == b[path];
  }

  /** Sparing files and sweeping others keeps count of what is lost. */
  lemma SparingKeepsSound(st: State)
    requires Sound(st) && Unfinished(st) && st.spared == None
    ensures Sound(Sparing(st)) && Unfinished(Sparing(st))
  {
    var st' := Sparing(st);
    forall id | id in st'.sessions
      ensures SessionOk(st', id)
    {
      assert SessionOk(st, id);
    }
    forall i | 0 <= i < |st'.handed|
      ensures HandoverOk(st', st'.handed[i])
    {
      assert HandoverOk(st, st.handed[i]);
    }
  }

  lemma SweptKeepsSound(st: State, path: string)
    requires Sound(st) && Unfinished(st) && st.spared.Some? && path !in st.spared.value
    ensures Sound(Swept(st, path)) && Unfinished(Swept(st, path))
  {
    var st' := Swept(st, path);
    forall id | id in st'.sessions
      ensures SessionOk(st', id)
    {
      assert SessionOk(st, id);
    }
    forall i | 0 <= i < |st'.handed|
      ensures HandoverOk(st', st'.handed[i])
    {
      assert HandoverOk(st, st.handed[i]);
      assert st'.history[st.handed[i].id] == st.history[st.handed[i].id];
    }
  }

  /** A step that rewrites one session's file and history touches nothing else. */
  lemma SoundAfterOneSession(st: State, st': State, id: string)
    requires Sound(st) && id in st.sessions && SessionOk(st', id)
    requires st'.sessions.Keys == st.sessions.Keys && st'.sessions - {id} == st.sessions - {id}
    requires st'.sessions[id].temporary == st.sessions[id].temporary
    requires st'.files - {st.sessions[id].temporary} == st.files - {st.sessions[id].temporary}
    requires st'.history - {id} == st.history - {id} && st'.handed == st.handed && st'.spared == st.spared
    ensures Sound(st')
  {
    forall k | k in st'.sessions && k != id
      ensures SessionOk(st', k) && st'.sessions[k] == st.sessions[k]
    {
      assert SessionOk(st, k);
      assert (st'.sessions - {id})[k] == (st.sessions - {id})[k];
      SameContent(st'.files, st.files, st.sessions[id].temporary, st.sessions[k].temporary);
      assert k in st.history - {id};
      assert (st'.history - {id})[k] == st.history[k];
    }
    forall i | 0 <= i < |st'.handed|
      ensures HandoverOk(st', st'.handed[i])
    {
      var h := st.handed[i];
      assert HandoverOk(st, h);
      assert h.id in st.history - {id};
      assert (st'.history - {id})[h.id] == st.history[h.id];
    }
  }

  lemma HandedOverKeepsSound(st: State, id: string)
    requires Sound(st) && id in st.sessions && SessionOk(st, id) && st.sessions[id].received == st.sessions[id].size
    requires forall k :: k in st.sessions && k != id ==> st.sessions[k].received < st.sessions[k].size
    ensures Sound(HandedOver(st, id)) && Unfinished(HandedOver(st, id))
  {
    var st' := HandedOver(st, id);
    forall k | k in st'.sessions
      ensures SessionOk(st', k)
    {
      assert SessionOk(st, k);
    }
    forall i | 0 <= i < |st.handed|
      ensures HandoverOk(st', st.handed[i]) && st.handed[i].id != id
    {
      assert HandoverOk(st, st.handed[i]);
    }
  }

  lemma DroppedKeepsSound(st: State, id: string)
    requires Sound(st) && Unfinished(st) && id in st.sessions
    ensures Sound(Dropped(st, id)) && Unfinished(Dropped(st, id))
  {
    var st' := Dropped(st, id);
    forall k | k in st'.sessions
      ensures SessionOk(st', k)
    {
      assert SessionOk(st, k);
    }
    forall i | 0 <= i < |st'.handed|
      ensures HandoverOk(st', st'.handed[i])
    {
      assert HandoverOk(st, st.handed[i]);
    }
  }

  // ---- The operations ----------------------------------------------------------

  function Owned(sessions: map<string, Session>, username: string, id: string): Result<Session, Error> {
    if id !in sessions then Err(NotFound)
    else if sessions[id].username != username then Err(Forbidden)
    else Ok(sessions[id])
  }

  /** The error append_upload reports before it writes, if any. */
  function Refusal(sessions: map<string, Session>, username: string, id: string, offset: int, chunk: Bytes)
    : Option<Error>
  {
    if |chunk| > MAX_CHUNK_SIZE then Some(TooLarge)
    else match Owned(sessions, username, id)
         case Err(e) => Some(e)
         case Ok(s) =>
           if offset != s.received then Some(OffsetMismatch(s.received))
           else if s.received + |chunk| > s.size then Some(ExceedsSize)
           else None
  }

  /** The reply and the new state once a chunk is written, or partly written before an I/O error. */
  ghost predicate Appended(a: State, id: string, chunk: Bytes, r: Result<Reply, Error>, b: State)
    requires Known(a, id)
  {
    var s := a.sessions[id];
    match r
    case Ok(reply) =>
      && reply == Reply(id, s.received + |chunk|, s.size, s.received + |chunk| == s.size)
      && Known(Written(a, id, chunk), id)
      && b == (if reply.completed then HandedOver(Written(a, id, chunk), id) else Written(a, id, chunk))
    case Err(e) =>
      e.WriteFailed? && e.left <= |chunk| && b == Torn(a, id, chunk[..e.left])
  }

  class UploadStore {
    var sessions: map<string, Session>
    var files: map<string, Bytes>
    var handed: seq<Handover>
    var spared: Option<set<string>>
    ghost var history: map<string, History>
    ghost var failures: nat         // how many writes have failed

    ghost function Now(): State
      reads this`sessions, this`files, this`handed, this`spared, this`history
    {
      State(sessions, files, handed, spared, history)
    }

    ghost predicate Valid()
      reads this`sessions, this`files, this`handed, this`spared, this`history
    {
      Sound(Now()) && Unfinished(Now())
    }

    constructor ()
      ensures Valid() && Now() == State(map[], map[], [], None, map[])
    {
      sessions, files, handed, spared, history := map[], map[], [], None, map[];
    }

    /** _cleanup_expired: drop old sessions, then their files. */
    method CleanupExpired(now: real)
      requires Valid()
      modifies this
      ensures Valid() && Now() == Expired(old(Now()), now)
    {
      ExpiredKeepsSound(Now(), now);
      var doomed := ExpiredFiles(sessions, now);
      sessions := Live(sessions, now);
      files := files - doomed;
    }

    /** _cleanup_orphans_once, under the lock: at most once, and sparing the present sessions. */
    method BeginCleanup()
      requires Valid()
      modifies this`spared
      ensures Valid() && Now() == if old(spared) == None then Sparing(old(Now())) else old(Now())
    {
      if spared == None {
        SparingKeepsSound(Now());
        spared := Some(Temporaries(sessions));
      }
    }

    /** Its loop, without the lock: one file that is not spared is unlinked. */
    method Sweep(path: string)
      requires Valid() && spared.Some? && path !in spared.value
      modifies this`files, this`history
      ensures Valid() && Now() == Swept(old(Now()), path)
    {
      SweptKeepsSound(Now(), path);
      history := Swept(Now(), path).history;
      files := files - {path};
    }

    /** start_upload: `temporary` and `id` are the two fresh random names. */
    method Start(username: string, destination: string, size: int, limit: int, now: real,
                 blocked: bool, temporary: string, id: string) returns (r: Result<Reply, Error>)
      requires Valid() && temporary !in files && temporary !in Temporaries(sessions) && id !in history
      modifies this
      ensures Valid()
      ensures var st := Expired(old(Now()), now);
              if size < 0 || size > limit then r == Err(TooLarge) && Now() == st
              else if blocked then r == Err(UpdateInProgress) && Now() == st
              else
                && r == Ok(Reply(id, 0, size, size == 0))
                && var started := Opened(st, id, Session(username, destination, temporary, size, 0, now));
                   Known(started, id) && Now() == if size == 0 then HandedOver(started, id) else started
    {
      CleanupExpired(now);
      if size < 0 || size > limit {
        return Err(TooLarge);
      }
      if blocked {
        return Err(UpdateInProgress);
      }
      var session := Session(username, destination, temporary, size, 0, now);
      OpenedKeepsSound(Now(), id, session);
      files := files[temporary := []];
      history := history[id := History(session, [], 0, 0)];
      sessions := sessions[id := session];
      if size == 0 {
        Complete(id);
      }
      r := Ok(Reply(id, 0, size, size == 0));
    }

    /** _complete: the file is handed over and removed, whether or not the import succeeds. */
    method Complete(id: string)
      requires Sound(Now()) && id in sessions && SessionOk(Now(), id) && sessions[id].received == sessions[id].size
      requires forall k :: k in sessions && k != id ==> sessions[k].received < sessions[k].size
      modifies this`sessions, this`files, this`handed
      ensures Valid() && Now() == HandedOver(old(Now()), id)
    {
      HandedOverKeepsSound(Now(), id);
      var s := sessions[id];
      sessions := sessions - {id};
      handed := handed + [Handover(id, s.destination, Content(files, s.temporary), s.size)];
      files := files - {s.temporary};
    }

    method Append(username: string, id: string, offset: int, chunk: Bytes) returns (r: Result<Reply, Error>)
      requires Valid()
      modifies this
      ensures Valid()
      ensures match old(Refusal(sessions, username, id, offset, chunk))
              case Some(e) => r == Err(e) && Now() == old(Now())
              case None =>
                && Known(old(Now()), id) && Appended(old(Now()), id, chunk, r, Now())
                && failures == old(failures) + if r.Ok? then 0 else 1
    {
      var refusal := Refusal(sessions, username, id, offset, chunk);
      if refusal.Some? {
        return Err(refusal.value);
      }
      assert SessionOk(Now(), id);
      var failed := WriteFails();
      if failed {
        r := FailWrite(id, chunk);
      } else {
        r := Write(id, chunk);
      }
    }

    method WriteFails() returns (failed: bool)
      modifies this`failures
      ensures failures == old(failures) + if failed then 1 else 0
    {
      failed := *;
      if failed {
        failures := failures + 1;
      }
    }

    method FailWrite(id: string, chunk: Bytes) returns (r: Result<Reply, Error>)
      requires Valid() && id in sessions && SessionOk(Now(), id)
      modifies this`files, this`history
      ensures Valid() && r.Err? && r.error.WriteFailed? && r.error.left <= |chunk|
      ensures Now() == Torn(old(Now()), id, chunk[..r.error.left])
    {
      var left: nat :| left <= |chunk|;
      TornKeepsSound(Now(), id, chunk[..left]);
      var s := sessions[id];
      files := files[s.temporary := Content(files, s.temporary) + chunk[..left]];
      history := history[id := history[id].(stray := history[id].stray + left)];
      r := Err(WriteFailed(left));
    }

    method Write(id: string, chunk: Bytes) returns (r: Result<Reply, Error>)
      requires Valid() && id in sessions && SessionOk(Now(), id)
      requires sessions[id].received + |chunk| <= sessions[id].size
      modifies this`sessions, this`files, this`handed, this`history
      ensures Valid() && r.Ok? && Known(old(Now()), id) && Appended(old(Now()), id, chunk, r, Now())
    {
      ghost var st := Now();
      WrittenKeepsSound(st, id, chunk);
      var s := sessions[id];
      files := files[s.temporary := Content(files, s.temporary) + chunk];
      history := history[id := history[id].(accepted := history[id].accepted + [chunk])];
      var received := s.received + |chunk|;
      sessions := sessions[id := s.(received := received)];
      assert Now() == Written(st, id, chunk);
      if received == s.size {
        assert SessionOk(Now(), id);
        Complete(id);
      }
      r := Ok(Reply(id, received, s.size, received == s.size));
    }

    method Cancel(username: string, id: string) returns (r: Result<(), Error>)
      requires Valid()
      modifies this
      ensures Valid()
      ensures match old(Owned(sessions, username, id))
              case Err(e) => r == Err(e) && Now() == old(Now())
              case Ok(s) => r == Ok(()) && id in old(sessions) && Now() == Dropped(old(Now()), id)
    {
      match Owned(sessions, username, id) {
        case Err(e) => r := Err(e);
        case Ok(s) =>
          DroppedKeepsSound(Now(), id);
          sessions := sessions - {id};
          files := files - {s.temporary};
          r := Ok(());
      }
    }
  }

  // ---- What the answers mean ---------------------------------------------------

  /**
    A chunk is written exactly when its sender owns the upload, it is small enough, starts where
    the last one ended and fits. Somebody else learns nothing of the upload, and whoever
    is told another offset may resume there.
   */
  lemma ChunkIsAcceptedAtOffset(sessions: map<string, Session>, username: string, id: string, offset: int,
                                chunk: Bytes)
    ensures var refusal := Refusal(sessions, username, id, offset, chunk);
            && (refusal == None <==>
                  && id in sessions && sessions[id].username == username
                  && |chunk| <= 0x400000 && offset == sessions[id].received
                  && sessions[id].received + |chunk| <= sessions[id].size)
            && (id in sessions && sessions[id].username != username ==> refusal in {Some(Forbidden), Some(TooLarge)})
            && (id !in sessions ==> refusal in {Some(NotFound), Some(TooLarge)})
            && (forall expected: nat :: refusal == Some(OffsetMismatch(expected)) ==>
                  && offset != expected == sessions[id].received
                  && (expected + |chunk| <= sessions[id].size ==>
                        Refusal(sessions, username, id, expected, chunk) == None))
            && (refusal == Some(TooLarge) <==> |chunk| > 0x400000)
            && (refusal == Some(ExceedsSize) ==> sessions[id].received + |chunk| > sessions[id].size)
  {
  }

  /** A cancelled upload is gone with its file, nobody can add to it, and the other uploads stay as they are. */
  lemma CancelEndsUpload(st: State, id: string, username: string, offset: int, chunk: Bytes)
    requires Sound(st) && id in st.sessions && |chunk| <= 0x400000
    ensures var st' := Dropped(st, id);
            && id !in st'.sessions && st.sessions[id].temporary !in st'.files
            && Refusal(st'.sessions, username, id, offset, chunk) == Some(NotFound)
            && forall other :: other in st.sessions && other != id ==>
                 && other in st'.sessions && st'.sessions[other] == st.sessions[other]
                 && Content(st'.files, st.sessions[other].temporary) == Content(st.files, st.sessions[other].temporary)
  {
  }

  /** Expiry: sessions of more than a day go with their files; all others stay as they are. */
  lemma ExpiryByAge(st: State, now: real, id: string)
    requires Sound(st) && id in st.sessions
    ensures var st' := Expired(st, now);
            && (id in st'.sessions <==> now - st.sessions[id].createdAt <= 86400.0)
            && (id in st'.sessions ==>
                  && st'.sessions[id] == st.sessions[id]
                  && Content(st'.files, st.sessions[id].temporary) == Content(st.files, st.sessions[id].temporary))
            && (id !in st'.sessions ==> st.sessions[id].temporary !in st'.files)
  {
  }

  // ---- No file is left behind --------------------------------------------------

  /** Every temporary file belongs to a session. */
  ghost predicate Tidy(st: State) {
    forall path :: path in st.files ==> exists id :: id in st.sessions && st.sessions[id].temporary == path
  }

  lemma FewerFilesAreTidy(st: State, st': State)
    requires Tidy(st) && st'.files.Keys <= st.files.Keys
    requires forall id :: id in st.sessions && st.sessions[id].temporary in st'.files ==>
               id in st'.sessions && st'.sessions[id].temporary == st.sessions[id].temporary
    ensures Tidy(st')
  {
    forall path | path in st'.files
      ensures exists k :: k in st'.sessions && st'.sessions[k].temporary == path
    {
      var k :| k in st.sessions && st.sessions[k].temporary == path;
      assert st'.sessions[k].temporary == path;
    }
  }

  lemma WrittenKeepsTidy(st: State, id: string, chunk: Bytes)
    requires Tidy(st) && Known(st, id)
    ensures Tidy(Written(st, id, chunk))
  {
    var st' := Written(st, id, chunk);
    forall path | path in st'.files
      ensures exists k :: k in st'.sessions && st'.sessions[k].temporary == path
    {
      assert path == st.sessions[id].temporary || path in st.files;
      var k :| k in st.sessions && st.sessions[k].temporary == path;
      assert st'.sessions[k].temporary == path;
    }
  }

  lemma StepKeepsTidy(a: State, step: Step, b: State)
    requires Sound(a) && Tidy(a) && Next(a, step, b)
    ensures Tidy(b)
  {
    match step
    case Open(id, s) =>
      assert id in a.sessions ==> SessionOk(a, id);
      OpenedKeepsTidy(a, id, s);
      if s.size == 0 {
        HandedOverKeepsTidy(Opened(a, id, s), id);
      }
    case Chunk(id, bytes) => ChunkKeepsTidy(a, id, bytes, b);
    case Tear(id, left) => TornKeepsTidy(a, id, left);
    case Cancel(id) => DroppedKeepsTidy(a, id);
    case Expire(now) => ExpiredKeepsTidy(a, now);
    case Spare =>
    case Sweep(path) => SweptKeepsTidy(a, path);
  }

  lemma ChunkKeepsTidy(a: State, id: string, bytes: Bytes, b: State)
    requires Tidy(a) && Next(a, Chunk(id, bytes), b)
    ensures Tidy(b)
  {
    WrittenKeepsTidy(a, id, bytes);
    if a.sessions[id].received + |bytes| == a.sessions[id].size {
      HandedOverKeepsTidy(Written(a, id, bytes), id);
    }
  }

  lemma DroppedKeepsTidy(st: State, id: string)
    requires Tidy(st) && id in st.sessions
    ensures Tidy(Dropped(st, id))
  {
    FewerFilesAreTidy(st, Dropped(st, id));
  }

  lemma ExpiredKeepsTidy(st: State, now: real)
    requires Tidy(st)
    ensures Tidy(Expired(st, now))
  {
    FewerFilesAreTidy(st, Expired(st, now));
  }

  lemma SweptKeepsTidy(st: State, path: string)
    requires Tidy(st)
    ensures Tidy(Swept(st, path))
  {
    FewerFilesAreTidy(st, Swept(st, path));
  }

  lemma HandedOverKeepsTidy(st: State, id: string)
    requires Tidy(st) && Known(st, id)
    ensures Tidy(HandedOver(st, id))
  {
    FewerFilesAreTidy(st, HandedOver(st, id));
  }

  lemma TornKeepsTidy(st: State, id: string, left: Bytes)
    requires Tidy(st) && Known(st, id)
    ensures Tidy(Torn(st, id, left))
  {
    var st' := Torn(st, id, left);
    assert st'.sessions[id].temporary == st.sessions[id].temporary;
  }

  lemma OpenedKeepsTidy(st: State, id: string, s: Session)
    requires Tidy(st) && id !in st.sessions
    ensures Tidy(Opened(st, id, s))
  {
    var st' := Opened(st, id, s);
    assert st'.sessions[id].temporary == s.temporary;
    forall path | path in st'.files
      ensures exists k :: k in st'.sessions && st'.sessions[k].temporary == path
    {
      if path != s.temporary {
        var k :| k in st.sessions && st.sessions[k].temporary == path;
        assert st'.sessions[k].temporary == path;
      }
    }
  }

  /** Over every run, whether uploads complete, are cancelled or expire, only files of present sessions remain. */
  lemma {:induction false} NothingIsLeftBehind(states: seq<State>, steps: seq<Step>, k: nat)
    requires |states| == |steps| + 1 && states[0] == State(map[], map[], [], None, map[])
    requires forall i :: 0 <= i < |steps| ==> Next(states[i], steps[i], states[i + 1])
    requires k < |states|
    ensures Tidy(states[k])
  {
    if k > 0 {
      NothingIsLeftBehind(states, steps, k - 1);
      ConservationOverRuns(states, steps, k - 1);
      assert Next(states[k - 1], steps[k - 1], states[k - 1 + 1]);
      StepKeepsTidy(states[k - 1], steps[k - 1], states[k]);
    }
  }

  // ---- Conservation ------------------------------------------------------------

  /**
    A completed upload hands over as many bytes as declared exactly when failed writes left as
    many bytes in its file as the orphan cleanup took; when neither happened, it hands over the
    accepted chunks in order. It goes where its start said, and only once.
   */
  lemma HandedOverAsDeclared(st: State, i: nat)
    requires Sound(st) && i < |st.handed|
    ensures st.handed[i].id in st.history && st.handed[i].id !in st.sessions
    ensures var start := st.history[st.handed[i].id].start;
            st.handed[i].destination == start.destination && st.handed[i].declared == start.size
    ensures var h := st.history[st.handed[i].id];
            && (|st.handed[i].content| == st.handed[i].declared <==> h.stray == h.lost)
            && (h.stray == 0 && h.lost == 0 ==> st.handed[i].content == Flatten(h.accepted))
    ensures forall j :: 0 <= j < |st.handed| && st.handed[j].id == st.handed[i].id ==> j == i
  {
    assert HandoverOk(st, st.handed[i]);
  }

  /**
    The cleanup can take the bytes of an upload although no write failed: a session that starts
    after the cleanup has begun, its first chunk, the unlink, and its last chunk.
   */
  lemma CleanupLosesBytes(st: State, id: string, s: Session, a: Bytes, b: Bytes)
    requires Sound(st) && Unfinished(st) && st.spared == None && id !in st.history && s.temporary !in st.files
    requires s.temporary !in Temporaries(st.sessions) && s.received == 0 && s.size == |a| + |b| && a != [] && b != []
    ensures var opened_ := Opened(Sparing(st), id, s);
            && Known(opened_, id)
            && var first := Written(opened_, id, a);
               && s.temporary !in first.spared.value
               && var swept := Swept(first, s.temporary);
                  && Known(swept, id)
                  && var done := Written(swept, id, b);
                     && Known(done, id) && done.sessions[id].received == s.size
                     && HandedOver(done, id).handed == st.handed + [Handover(id, s.destination, b, s.size)]
                     && done.history[id].stray == 0
  {
    var swept := Swept(Written(Opened(Sparing(st), id, s), id, a), s.temporary);
    assert Content(swept.files, s.temporary) + b == b;
  }

  /** A failed write can leave bytes that are handed over with the rest: one such write before the only chunk. */
  lemma FailedWriteAddsBytes(st: State, id: string, s: Session, left: Bytes, a: Bytes)
    requires Sound(st) && id !in st.history && s.received == 0 && s.size == |a| && a != [] && left != []
    ensures var opened_ := Opened(st, id, s);
            && Known(opened_, id)
            && var torn := Torn(opened_, id, left);
               && torn.sessions == opened_.sessions && Known(torn, id)
               && var done := Written(torn, id, a);
                  && Known(done, id) && done.sessions[id].received == s.size
                  && HandedOver(done, id).handed == st.handed + [Handover(id, s.destination, left + a, s.size)]
                  && left + a != a
  {
    assert [] + left + a == left + a;
  }

  datatype Step =
    | Open(id: string, session: Session)
    | Chunk(id: string, bytes: Bytes)
    | Tear(id: string, left: Bytes)
    | Cancel(id: string)
    | Expire(now: real)
    | Spare
    | Sweep(path: string)

  /** One step of one client, or of the expiry; a chunk that fills the upload hands it over. */
  ghost predicate Next(a: State, step: Step, b: State) {
    match step
    case Open(id, s) =>
      && id !in a.history && s.temporary !in a.files && s.temporary !in Temporaries(a.sessions) && s.received == 0
      && Known(Opened(a, id, s), id)
      && b == if s.size == 0 then HandedOver(Opened(a, id, s), id) else Opened(a, id, s)
    case Chunk(id, bytes) =>
      && Known(a, id) && a.sessions[id].received + |bytes| <= a.sessions[id].size
      && Known(Written(a, id, bytes), id)
      && b == if a.sessions[id].received + |bytes| == a.sessions[id].size
              then HandedOver(Written(a, id, bytes), id) else Written(a, id, bytes)
    case Tear(id, left) => Known(a, id) && b == Torn(a, id, left)
    case Cancel(id) => id in a.sessions && b == Dropped(a, id)
    case Expire(now) => b == Expired(a, now)
    case Spare => a.spared == None && b == Sparing(a)
    case Sweep(path) => a.spared.Some? && path !in a.spared.value && b == Swept(a, path)
  }

  lemma StepKeepsSound(a: State, step: Step, b: State)
    requires Sound(a) && Unfinished(a) && Next(a, step, b)
    ensures Sound(b) && Unfinished(b)
  {
    match step
    case Open(id, s) =>
      OpenedKeepsSound(a, id, s);
      assert SessionOk(Opened(a, id, s), id);
      if s.size == 0 {
        HandedOverKeepsSound(Opened(a, id, s), id);
      }
    case Chunk(id, bytes) =>
      assert SessionOk(a, id);
      WrittenKeepsSound(a, id, bytes);
      assert SessionOk(Written(a, id, bytes), id);
      if a.sessions[id].received + |bytes| == a.sessions[id].size {
        HandedOverKeepsSound(Written(a, id, bytes), id);
      }
    case Tear(id, left) =>
      assert SessionOk(a, id);
      TornKeepsSound(a, id, left);
    case Cancel(id) => DroppedKeepsSound(a, id);
    case Expire(now) => ExpiredKeepsSound(a, now);
    case Spare => SparingKeepsSound(a);
    case Sweep(path) => SweptKeepsSound(a, path);
  }

  /** Over every interleaving of starts, chunks, failed writes, cancels, expiries and orphan cleanups. */
  lemma {:induction false} ConservationOverRuns(states: seq<State>, steps: seq<Step>, k: nat)
    requires |states| == |steps| + 1 && states[0] == State(map[], map[], [], None, map[])
    requires forall i :: 0 <= i < |steps| ==> Next(states[i], steps[i], states[i + 1])
    requires k < |states|
    ensures Sound(states[k]) && Unfinished(states[k])
    ensures forall id :: id in states[k].sessions ==>
              && SessionOk(states[k], id)
              && (states[k].history[id].stray == 0 && states[k].history[id].lost == 0 ==>
                    Content(states[k].files, states[k].sessions[id].temporary)
                    == Flatten(states[k].history[id].accepted))
  {
    if k > 0 {
      ConservationOverRuns(states, steps, k - 1);
      assert Next(states[k - 1], steps[k - 1], states[k - 1 + 1]);
      StepKeepsSound(states[k - 1], steps[k - 1], states[k]);
    }
    forall id | id in states[k].sessions
      ensures SessionOk(states[k], id)
    {
    }
  }
}
