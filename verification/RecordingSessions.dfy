/**
 The sessions of the recording writer: which are live and whose they are, and the bounded
 memory of aborted ones. Between two awaits every call runs whole, so a call is one event,
 except that a finalize leaves its session in place until its files are published.
 */
module RecordingSessions {
  import opened Identifiers
  import opened RecordingQueue

  const MAX_REMEMBERED_ABORTS: nat := 32

  type SessionId = string

  datatype Session = Session(ownerId: int, partialPath: string)

  datatype Remembered = Remembered(sessionId: SessionId, ownerId: int, partialPath: string)

  /** `aborted` is a map kept in insertion order, oldest first. */
  datatype Registry = Registry(live: map<SessionId, Session>, aborted: seq<Remembered>)

  datatype Call =
    | Create(sessionId: SessionId, ownerId: int, partialPath: string)
    | Append(sessionId: SessionId, ownerId: int)
    | Finalize(sessionId: SessionId, ownerId: int, published: bool)
    | Abort(sessionId: SessionId, ownerId: int)

  function Find(aborted: seq<Remembered>, id: SessionId): (r: Option<Remembered>)
    ensures r.Some? ==> r.value in aborted && r.value.sessionId == id
    ensures r.None? ==> forall a :: a in aborted ==> a.sessionId != id
  {
    if aborted == [] then None
    else if aborted[0].sessionId == id then Some(aborted[0])
    else Find(aborted[1..], id)
  }

  function Remember(aborted: seq<Remembered>, a: Remembered): seq<Remembered> {
    (if |aborted| >= MAX_REMEMBERED_ABORTS then aborted[1..] else aborted) + [a]
  }

  predicate Owns(r: Registry, ownerId: int, id: SessionId) {
    id in r.live && r.live[id].ownerId == ownerId
  }

  function After(r: Registry, c: Call): Registry {
    match c
    case Create(id, ownerId, path) => r.(live := r.live[id := Session(ownerId, path)])
    case Append(_, _) => r
    case Finalize(id, ownerId, published) =>
      if Owns(r, ownerId, id) && published then r.(live := r.live - {id}) else r
    case Abort(id, ownerId) =>
      if Owns(r, ownerId, id) then
        Registry(r.live - {id}, Remember(r.aborted, Remembered(id, ownerId, r.live[id].partialPath)))
      else r
  }

  /** What an abort answers: the partial path, or the unknown-session error. */
  function AbortReply(r: Registry, ownerId: int, id: SessionId): Option<string> {
    if id in r.live then
      if r.live[id].ownerId == ownerId then Some(r.live[id].partialPath) else None
    else match Find(r.aborted, id)
      case Some(a) => if a.ownerId == ownerId then Some(a.partialPath) else None
      case None => None
  }

  // ---------------------------------------------------------------- runs

  /** Session ids are random, so a new one was never used before. */
  ghost predicate Run(rs: seq<Registry>, cs: seq<Call>) {
    && |rs| == |cs| + 1
    && rs[0] == Registry(map[], [])
    && (forall i :: 0 <= i < |cs| ==> rs[i + 1] == After(rs[i], cs[i]))
    && (forall i, j :: 0 <= i < j < |cs| && cs[i].Create? && cs[j].Create? ==> cs[i].sessionId != cs[j].sessionId)
  }

  /** The aborts that took a live session, in order: the reference for the memory. */
  ghost function History(rs: seq<Registry>, cs: seq<Call>, k: nat): seq<Remembered>
    requires k <= |cs| && |rs| == |cs| + 1
  {
    if k == 0 then []
    else
      var before := History(rs, cs, k - 1);
      var r, c := rs[k - 1], cs[k - 1];
      if c.Abort? && Owns(r, c.ownerId, c.sessionId)
      then before + [Remembered(c.sessionId, c.ownerId, r.live[c.sessionId].partialPath)]
      else before
  }

  function Last(s: seq<Remembered>, n: nat): seq<Remembered> {
    if |s| <= n then s else s[|s| - n..]
  }

  ghost predicate Distinct(s: seq<Remembered>) {
    forall i, j :: 0 <= i < j < |s| ==> s[i].sessionId != s[j].sessionId
  }

  ghost predicate WasCreated(cs: seq<Call>, k: nat, id: SessionId)
    requires k <= |cs|
  {
    exists i :: 0 <= i < k && cs[i].Create? && cs[i].sessionId == id
  }

  /** The memory is the last 32 aborts, and no session is both live and ever aborted. */
  ghost predicate Orderly(r: Registry, history: seq<Remembered>) {
    && r.aborted == Last(history, MAX_REMEMBERED_ABORTS)
    && Distinct(history)
    && forall a :: a in history ==> a.sessionId !in r.live
  }

  lemma RememberIsLast(history: seq<Remembered>, a: Remembered)
    ensures Remember(Last(history, MAX_REMEMBERED_ABORTS), a) == Last(history + [a], MAX_REMEMBERED_ABORTS)
  {
    var n := MAX_REMEMBERED_ABORTS;
    if |history| >= n {
      assert Last(history, n)[1..] == history[|history| - n + 1..];
      assert (history + [a])[|history| + 1 - n..] == history[|history| + 1 - n..] + [a];
    }
  }

  lemma StepKeepsOrderly(r: Registry, c: Call, history: seq<Remembered>)
    requires Orderly(r, history)
    requires c.Create? ==> c.sessionId !in r.live && forall a :: a in history ==> a.sessionId != c.sessionId
    ensures Orderly(After(r, c), if c.Abort? && Owns(r, c.ownerId, c.sessionId)
                                then history + [Remembered(c.sessionId, c.ownerId, r.live[c.sessionId].partialPath)]
                                else history)
  {
    if c.Abort? && Owns(r, c.ownerId, c.sessionId) {
      hide Last, Remember;
      RememberIsLast(history, Remembered(c.sessionId, c.ownerId, r.live[c.sessionId].partialPath));
    }
  }

  lemma {:induction false} KnownWereCreated(rs: seq<Registry>, cs: seq<Call>, k: nat)
    requires Run(rs, cs) && k <= |cs|
    ensures forall id :: id in rs[k].live ==> WasCreated(cs, k, id)
    ensures forall a :: a in History(rs, cs, k) ==> WasCreated(cs, k, a.sessionId)
  {
    if k == 0 {
    } else {
      KnownWereCreated(rs, cs, k - 1);
      assert forall id :: WasCreated(cs, k - 1, id) ==> WasCreated(cs, k, id);
      assert rs[k] == After(rs[k - 1], cs[k - 1]);
    }
  }

  /** Over every run the abort memory is exactly the last min(n, 32) aborts, oldest first. */
  lemma {:induction false} MemoryIsLastAborts(rs: seq<Registry>, cs: seq<Call>, k: nat)
    requires Run(rs, cs) && k <= |cs|
    ensures Orderly(rs[k], History(rs, cs, k))
    ensures rs[k].aborted == Last(History(rs, cs, k), 32) && |rs[k].aborted| <= 32
  {
    if k == 0 {
    } else {
      MemoryIsLastAborts(rs, cs, k - 1);
      KnownWereCreated(rs, cs, k - 1);
      StepKeepsOrderly(rs[k - 1], cs[k - 1], History(rs, cs, k - 1));
    }
  }

  lemma {:induction false} HistoryGrows(rs: seq<Registry>, cs: seq<Call>, i: nat, k: nat)
    requires Run(rs, cs) && i <= k <= |cs|
    ensures History(rs, cs, i) <= History(rs, cs, k)
    decreases k
  {
    if i == k {
    } else {
      HistoryGrows(rs, cs, i, k - 1);
    }
  }

  lemma FindsRemembered(history: seq<Remembered>, i: nat)
    requires i < |history| && Distinct(history)
    ensures Find(Last(history, MAX_REMEMBERED_ABORTS), history[i].sessionId)
            == if |history| - i <= MAX_REMEMBERED_ABORTS then Some(history[i]) else None
  {
    var kept := Last(history, MAX_REMEMBERED_ABORTS);
    var dropped := |history| - |kept|;
    assert forall j :: 0 <= j < |kept| ==> kept[j] == history[dropped + j];
    if i >= dropped {
      assert kept[i - dropped] == history[i];
    }
    var found := Find(kept, history[i].sessionId);
    if found.Some? {
      var j :| 0 <= j < |kept| && kept[j] == found.value;
      assert history[dropped + j].sessionId == history[i].sessionId;
    }
  }

  /**
   A repeated abort by the owner gets the same partial path again exactly while fewer than
   32 later aborts have taken a session; and nobody else ever gets it.
   */
  lemma RepeatedAbort(rs: seq<Registry>, cs: seq<Call>, i: nat, k: nat, ownerId: int)
    requires Run(rs, cs) && i < k <= |cs| && cs[i].Abort? && Owns(rs[i], cs[i].ownerId, cs[i].sessionId)
    ensures var later := |History(rs, cs, k)| - |History(rs, cs, i + 1)|;
            AbortReply(rs[k], ownerId, cs[i].sessionId)
            == if ownerId == cs[i].ownerId && later < 32
               then AbortReply(rs[i], ownerId, cs[i].sessionId) else None
  {
    MemoryIsLastAborts(rs, cs, k);
    HistoryGrows(rs, cs, i + 1, k);
    var history, n := History(rs, cs, k), |History(rs, cs, i)|;
    assert History(rs, cs, i + 1)[n] == history[n];
    FindsRemembered(history, n);
  }

  /**
   What an abort answers and does, for every caller: the owner of a live session gets its
   path, and the session is then gone and remembered; a stranger gets the unknown-session
   error and changes nothing, and so does anyone for a session that is neither live nor
   remembered as theirs.
   */
  lemma AbortMeans(r: Registry, ownerId: int, id: SessionId)
    ensures var after := After(r, Call.Abort(id, ownerId));
            if id in r.live then
              if r.live[id].ownerId == ownerId then
                && AbortReply(r, ownerId, id) == Some(r.live[id].partialPath)
                && after.live == r.live - {id}
                && after.aborted != [] && after.aborted[|after.aborted| - 1] == Remembered(id, ownerId, r.live[id].partialPath)
              else AbortReply(r, ownerId, id) == None && after == r
            else
              && after == r
              && (AbortReply(r, ownerId, id).Some? ==>
                    Remembered(id, ownerId, AbortReply(r, ownerId, id).value) in r.aborted)
              && ((forall a :: a in r.aborted ==> a.sessionId != id) ==> AbortReply(r, ownerId, id) == None)
  {
  }

  /** A finalize ends the session exactly if its files were published and it is the caller's. */
  lemma FinalizeMeans(r: Registry, ownerId: int, id: SessionId, published: bool)
    ensures After(r, Finalize(id, ownerId, published)).aborted == r.aborted
    ensures After(r, Finalize(id, ownerId, published)).live
            == if published && id in r.live && r.live[id].ownerId == ownerId then r.live - {id} else r.live
  {
  }

  /** No call by one owner changes, adds or removes a session of another. */
  lemma OthersUntouched(r: Registry, c: Call, id: SessionId)
    requires c.Create? ==> c.sessionId !in r.live
    requires id in r.live && r.live[id].ownerId != c.ownerId
    ensures id in After(r, c).live && After(r, c).live[id] == r.live[id]
    ensures After(r, c).live.Keys <= r.live.Keys + (if c.Create? then {c.sessionId} else {})
  {
  }

  /** A session stays what it was created as until its own owner publishes or aborts it. */
  lemma {:induction false} OnlyTheOwnerEnds(rs: seq<Registry>, cs: seq<Call>, i: nat, k: nat, id: SessionId)
    requires Run(rs, cs) && i <= k <= |cs| && id in rs[i].live
    requires forall j :: i <= j < k && cs[j].sessionId == id ==>
               cs[j].ownerId != rs[i].live[id].ownerId || cs[j].Append? || (cs[j].Finalize? && !cs[j].published)
    ensures id in rs[k].live && rs[k].live[id] == rs[i].live[id]
    decreases k
  {
    if i == k {
    } else {
      OnlyTheOwnerEnds(rs, cs, i, k - 1, id);
      KnownWereCreated(rs, cs, k - 1);
    }
  }

  // ---------------------------------------------------------------- the writer object

  class CallRecordingFileWriter {
    const maxQueuedBytes: nat
    var sessions: map<SessionId, RecordingSession>
    var abortedSessions: seq<Remembered>

    constructor (maxQueuedBytes: nat)
      ensures Valid() && GetRegistry() == Registry(map[], []) && this.maxQueuedBytes == maxQueuedBytes
    {
      this.maxQueuedBytes := maxQueuedBytes;
      sessions, abortedSessions := map[], [];
    }

    /** Every live session has an object of its own, still accepting appends. */
    ghost predicate Valid()
      reads this, sessions.Values
    {
      && (forall id :: id in sessions ==> sessions[id].phase.Live?)
      && (forall a, b :: a in sessions && b in sessions && sessions[a] == sessions[b] ==> a == b)
    }

    ghost function GetRegistry(): Registry
      reads this
    {
      Registry(map id | id in sessions :: Session(sessions[id].ownerId, sessions[id].partialPath), abortedSessions)
    }

    /** The session if it is there and the caller's. */
    method GetOwnedSession(ownerId: int, sessionId: SessionId) returns (session: RecordingSession?)
      ensures session != null <==> Owns(GetRegistry(), ownerId, sessionId)
      ensures session != null ==> sessionId in sessions && session == sessions[sessionId]
    {
      if sessionId !in sessions || sessions[sessionId].ownerId != ownerId {
        return null;
      }
      return sessions[sessionId];
    }

    method Add(ownerId: int, sessionId: SessionId, partialPath: string)
      requires Valid() && sessionId !in sessions
      modifies this`sessions
      ensures Valid() && GetRegistry() == After(old(GetRegistry()), Create(sessionId, ownerId, partialPath))
      ensures sessionId in sessions && sessions[sessionId].GetQueue() == Opened(maxQueuedBytes) && fresh(sessions[sessionId])
    {
      var session := new RecordingSession(ownerId, partialPath, maxQueuedBytes);
      sessions := sessions[sessionId := session];
    }

    /** None for an unknown session; otherwise whether the queue took the bytes. */
    method AppendTo(ownerId: int, sessionId: SessionId, track: Track, data: Bytes) returns (accepted: Option<bool>)
      requires Valid()
      modifies if Owns(GetRegistry(), ownerId, sessionId) then {sessions[sessionId]} else {}
      ensures Valid() && GetRegistry() == After(old(GetRegistry()), Call.Append(sessionId, ownerId))
      ensures accepted.Some? <==> Owns(GetRegistry(), ownerId, sessionId)
      ensures accepted.Some? ==>
                var before := old(sessions[sessionId].GetQueue());
                && accepted.value == Fits(before, Chunk(track, data))
                && sessions[sessionId].GetQueue() == RecordingQueue.Step(before, Event.Append(Chunk(track, data)))
    {
      var session := GetOwnedSession(ownerId, sessionId);
      if session == null {
        return None;
      }
      var fits := session.AppendBytes(track, data);
      return Some(fits);
    }

    /** Drops the oldest memory when full. */
    method RememberAbortedSession(sessionId: SessionId, ownerId: int, partialPath: string)
      modifies this`abortedSessions
      ensures abortedSessions == Remember(old(abortedSessions), Remembered(sessionId, ownerId, partialPath))
    {
      if |abortedSessions| >= MAX_REMEMBERED_ABORTS {
        abortedSessions := abortedSessions[1..];
      }
      abortedSessions := abortedSessions + [Remembered(sessionId, ownerId, partialPath)];
    }

    /** The abort up to its wait: `draining` is the session whose handles are to be closed after it. */
    method BeginAbort(ownerId: int, sessionId: SessionId) returns (reply: Option<string>, draining: RecordingSession?)
      requires Valid()
      modifies this, if Owns(GetRegistry(), ownerId, sessionId) then {sessions[sessionId]} else {}
      ensures Valid() && GetRegistry() == After(old(GetRegistry()), Call.Abort(sessionId, ownerId))
      ensures reply == AbortReply(old(GetRegistry()), ownerId, sessionId)
      ensures draining != null <==> Owns(old(GetRegistry()), ownerId, sessionId)
      ensures draining != null ==>
                && draining == old(sessions)[sessionId]
                && draining.GetQueue() == RecordingQueue.Step(old(sessions[sessionId].GetQueue()), Event.Abort)
      ensures forall id :: id in old(sessions) && id != sessionId ==> id in sessions && sessions[id] == old(sessions)[id]
    {
      draining := null;
      if sessionId !in sessions {
        var aborted := Find(abortedSessions, sessionId);
        if aborted.Some? && aborted.value.ownerId == ownerId {
          return Some(aborted.value.partialPath), null;
        }
        return None, null;
      }
      var session := sessions[sessionId];
      if session.ownerId != ownerId {
        return None, null;
      }
      sessions := sessions - {sessionId};
      RememberAbortedSession(sessionId, ownerId, session.partialPath);
      session.BeginDrain();
      return Some(session.partialPath), session;
    }

    /** The abort to its end: by the time it answers, everything accepted has settled and the handles are closed. */
    method Abort(ownerId: int, sessionId: SessionId, outcomes: nat -> Outcome) returns (reply: Option<string>)
      requires Valid()
      modifies this, if Owns(GetRegistry(), ownerId, sessionId) then {sessions[sessionId]} else {}
      ensures Valid() && GetRegistry() == After(old(GetRegistry()), Call.Abort(sessionId, ownerId))
      ensures reply == AbortReply(old(GetRegistry()), ownerId, sessionId)
      ensures old(Owns(GetRegistry(), ownerId, sessionId)) ==>
                var before := RecordingQueue.Step(old(sessions[sessionId].GetQueue()), Event.Abort);
                && old(sessions[sessionId]).GetQueue() == RecordingQueue.Step(Drained(before, outcomes), Event.CloseHandles)
                && old(sessions[sessionId]).writes == []
    {
      var draining: RecordingSession?;
      reply, draining := BeginAbort(ownerId, sessionId);
      if draining != null {
        draining.DrainAndClose(outcomes);
      }
    }

    /** The end of a finalize whose files were published; an abort may have come in between. */
    method Retire(ownerId: int, sessionId: SessionId)
      requires Valid() && (sessionId in sessions ==> Owns(GetRegistry(), ownerId, sessionId))
      modifies this`sessions
      ensures Valid() && GetRegistry() == After(old(GetRegistry()), Call.Finalize(sessionId, ownerId, true))
      ensures sessions == old(sessions) - {sessionId}
    {
      sessions := sessions - {sessionId};
    }
  }
}
