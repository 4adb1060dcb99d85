/**
 The protocol store itself: the zone lock, the pending collections, the caches and the
 database, updated in place. An awaited commit is one step here.
 */
module SignalProtocolStore {
  import opened Identifiers
  import opened KyberTriples
  import opened ZoneStore
  import opened ZoneLock

  function Unhydrated<K>(rows: map<K, Row>): map<K, Entry> {
    map k | k in rows :: Raw(rows[k])
  }

  lemma UnhydratedRows<K(!new)>(rows: map<K, Row>)
    ensures Rows(Unhydrated(rows)) == rows && SoundEntries(Unhydrated(rows))
  {
  }

  function RemovalsNoted(s: Store, ids: seq<PreKeyId>): Store
    decreases |ids|
  {
    if ids == [] then s else Noted(RemovalsNoted(s, ids[..|ids| - 1]), Write.RemovePreKey(ids[|ids| - 1]))
  }

  /** Every id of the list is then about to be removed, and nothing else changes. */
  lemma {:induction false} RemovalsAreAll(s: Store, ids: seq<PreKeyId>)
    ensures RemovalsNoted(s, ids) == s.(pending := s.pending.(preKeyRemovals := s.pending.preKeyRemovals + (set id | id in ids)))
    decreases |ids|
  {
    if ids == [] {
      assert s.pending.preKeyRemovals + (set id | id in ids) == s.pending.preKeyRemovals;
    } else {
      var before, last := ids[..|ids| - 1], ids[|ids| - 1];
      RemovalsAreAll(s, before);
      assert ids == before + [last];
      assert (set id | id in ids) == (set id | id in before) + {last};
    }
  }

  lemma FilledIsCoherent(db: Db)
    requires forall t :: t in db.triples ==> ValidTriple(t)
    ensures Coherent(Store(db, Caches(db.kyberPreKeys, Unhydrated(db.preKeys), Unhydrated(db.senderKeys),
                                      Unhydrated(db.sessions), KeysOf(db.triples)), NOTHING))
  {
    UnhydratedRows(db.preKeys);
    UnhydratedRows(db.senderKeys);
    UnhydratedRows(db.sessions);
    hide Unhydrated, Rows, SoundEntries;
  }

  class SignalProtocolStore {
    var currentZone: Option<Zone>
    var currentZoneDepth: nat
    var zoneQueue: seq<Waiter>

    var pendingKyberPreKeysToRemove: set<PreKeyId>
    var pendingPreKeysToRemove: set<PreKeyId>
    var pendingSenderKeys: map<RowId, Entry>
    var pendingSessions: map<RowId, Entry>
    var pendingUnprocessed: map<RowId, string>
    var pendingKyberTriples: map<string, Triple>

    var kyberPreKeys: map<PreKeyId, KyberRow>
    var preKeys: map<PreKeyId, Entry>
    var senderKeys: map<RowId, Entry>
    var sessions: map<RowId, Entry>
    var kyberTriples: set<string>

    var database: Db

    ghost function GetLock(): Lock
      reads this
    {
      Lock(currentZone, currentZoneDepth, zoneQueue)
    }

    ghost function GetPending(): Pending
      reads this
    {
      Pending(pendingKyberPreKeysToRemove, pendingPreKeysToRemove, pendingSenderKeys, pendingSessions,
              pendingUnprocessed, pendingKyberTriples)
    }

    ghost function GetCaches(): Caches
      reads this
    {
      Caches(kyberPreKeys, preKeys, senderKeys, sessions, kyberTriples)
    }

    ghost function GetStore(): Store
      reads this
    {
      Store(database, GetCaches(), GetPending())
    }

    /** Starts with the caches filled, unhydrated, from the database. */
    constructor (db: Db)
      ensures GetLock() == UNLOCKED && database == db && GetPending() == NOTHING
      ensures (forall t :: t in db.triples ==> ValidTriple(t)) ==> Coherent(GetStore())
    {
      currentZone, currentZoneDepth, zoneQueue := None, 0, [];
      pendingKyberPreKeysToRemove, pendingPreKeysToRemove := {}, {};
      pendingSenderKeys, pendingSessions, pendingUnprocessed, pendingKyberTriples := map[], map[], map[], map[];
      kyberPreKeys := db.kyberPreKeys;
      preKeys := Unhydrated(db.preKeys);
      senderKeys := Unhydrated(db.senderKeys);
      sessions := Unhydrated(db.sessions);
      kyberTriples := KeysOf(db.triples);
      database := db;
      new;
      hide Coherent, KeysOf;
      if forall t :: t in db.triples ==> ValidTriple(t) {
        FilledIsCoherent(db);
      }
    }

    // -------------------------------------------------------------- the lock

    method EnterZone(zone: Zone)
      requires currentZoneDepth == 0 ==> currentZone.None?
      modifies this`currentZone, this`currentZoneDepth
      ensures GetLock() == Entered(old(GetLock()), zone)
    {
      currentZoneDepth := currentZoneDepth + 1;
      if currentZoneDepth == 1 {
        currentZone := Some(zone);
      }
    }

    /** Arrival of a call: enters, or queues behind a different zone. */
    method WithZone(zone: Zone, call: CallId) returns (entered: bool)
      requires currentZone.Some? <==> currentZoneDepth > 0
      modifies this`currentZone, this`currentZoneDepth, this`zoneQueue
      ensures entered == !MustWait(old(GetLock()), zone)
      ensures entered <==> old(currentZone) == None || old(currentZone) == Some(zone)
      ensures GetLock() == if entered then Entered(old(GetLock()), zone)
                           else old(GetLock()).(queue := old(zoneQueue) + [Waiter(zone, call)])
    {
      if currentZone.Some? && currentZone.value != zone {
        zoneQueue := zoneQueue + [Waiter(zone, call)];
        return false;
      }
      EnterZone(zone);
      return true;
    }

    /** Leaves and, as the last one, runs the blocked calls at the front of the queue. */
    method LeaveZone(zone: Zone) returns (toEnter: seq<Waiter>)
      requires currentZone == Some(zone) && currentZoneDepth > 0
      modifies this`currentZone, this`currentZoneDepth, this`zoneQueue
      ensures (GetLock(), toEnter) == Left(old(GetLock()))
    {
      currentZoneDepth := currentZoneDepth - 1;
      if currentZoneDepth != 0 {
        return [];
      }
      currentZone := None;
      if zoneQueue == [] {
        return [];
      }
      ghost var queue := zoneQueue;
      var next := zoneQueue[0];
      zoneQueue := zoneQueue[1..];
      toEnter := [next];
      while zoneQueue != [] && zoneQueue[0].zone == next.zone
        invariant 1 <= |toEnter| <= |queue| && toEnter == queue[..|toEnter|] && zoneQueue == queue[|toEnter|..]
        invariant forall i :: 0 <= i < |toEnter| ==> queue[i].zone == queue[0].zone
        invariant currentZoneDepth == 0 && currentZone.None?
        decreases |zoneQueue|
      {
        toEnter := toEnter + [zoneQueue[0]];
        zoneQueue := zoneQueue[1..];
      }
      BatchIs(queue, |toEnter|);
      var i := 0;
      while i < |toEnter|
        invariant 0 <= i <= |toEnter|
        invariant currentZoneDepth == i && currentZone == (if i == 0 then None else Some(next.zone))
        invariant zoneQueue == queue[|toEnter|..]
      {
        var entered := WithZone(toEnter[i].zone, toEnter[i].call);
        assert entered;
        i := i + 1;
      }
    }

    // -------------------------------------------------------------- commit and revert

    /** Forgets the cached triples of one prekey, by prefix. */
    method DeleteTriples(id: PreKeyId)
      modifies this`kyberTriples
      ensures kyberTriples == Forgotten(old(kyberTriples), {id})
    {
      var prefix := Prefix(id);
      var remaining := kyberTriples;
      while remaining != {}
        invariant remaining <= old(kyberTriples)
        invariant forall k :: k in kyberTriples <==> k in old(kyberTriples) && (k in remaining || !StartsWith(k, prefix))
        decreases |remaining|
      {
        var key :| key in remaining;
        if StartsWith(key, prefix) {
          kyberTriples := kyberTriples - {key};
        }
        remaining := remaining - {key};
      }
    }

    /** Applies a batch to the in-memory storage. */
    method ApplyBatch(pending: Pending)
      modifies this`kyberPreKeys, this`preKeys, this`senderKeys, this`sessions, this`kyberTriples
      ensures GetCaches() == Applied(old(GetCaches()), pending)
    {
      kyberTriples := kyberTriples + pending.triples.Keys;
      ghost var marked := kyberTriples;
      var toRemove := pending.kyberRemovals;
      ForgettingNothing(marked);
      assert kyberPreKeys - {} == kyberPreKeys;
      while toRemove != {}
        invariant toRemove <= pending.kyberRemovals
        invariant kyberPreKeys == old(kyberPreKeys) - (pending.kyberRemovals - toRemove)
        invariant kyberTriples == Forgotten(marked, pending.kyberRemovals - toRemove)
        invariant preKeys == old(preKeys) && senderKeys == old(senderKeys) && sessions == old(sessions)
        decreases |toRemove|
      {
        var id :| id in toRemove;
        ghost var done := pending.kyberRemovals - toRemove;
        kyberPreKeys := kyberPreKeys - {id};
        WithoutMore(old(kyberPreKeys), done, id);
        DeleteTriples(id);
        ForgettingMore(marked, done, id);
        assert pending.kyberRemovals - (toRemove - {id}) == done + {id};
        toRemove := toRemove - {id};
      }
      assert pending.kyberRemovals - {} == pending.kyberRemovals;
      preKeys := preKeys - pending.preKeyRemovals;
      senderKeys := senderKeys + pending.senderKeys;
      sessions := sessions + pending.sessions;
    }

    /** The commit up to its wait: hands the pending collections over, or nothing if all are empty. */
    method BeginCommit() returns (batch: Option<Pending>)
      modifies this`pendingKyberPreKeysToRemove, this`pendingPreKeysToRemove, this`pendingSenderKeys,
               this`pendingSessions, this`pendingUnprocessed, this`pendingKyberTriples
      ensures GetStore() == old(GetStore()).(pending := NOTHING)
      ensures batch == if old(GetPending()) == NOTHING then None else Some(old(GetPending()))
    {
      var pending := Pending(pendingKyberPreKeysToRemove, pendingPreKeysToRemove, pendingSenderKeys, pendingSessions,
                             pendingUnprocessed, pendingKyberTriples);
      if pending.kyberRemovals == {} && pending.preKeyRemovals == {} && pending.senderKeys == map[]
         && pending.sessions == map[] && pending.unprocessed == map[] && pending.triples == map[] {
        return None;
      }
      pendingKyberPreKeysToRemove, pendingPreKeysToRemove := {}, {};
      pendingSenderKeys, pendingSessions, pendingUnprocessed, pendingKyberTriples := map[], map[], map[], map[];
      return Some(pending);
    }

    /**
     The awaited write and what follows it, whatever has become pending in between. `ok` is
     whether the database is working; a rejected kyber triple fails the transaction too.
     */
    method FinishCommit(batch: Pending, ok: bool) returns (committed: bool)
      requires batch != NOTHING
      modifies this`kyberPreKeys, this`preKeys, this`senderKeys, this`sessions, this`kyberTriples, this`database
      ensures committed == Succeeds(old(database), batch, ok)
      ensures committed <==> ok && forall k :: k in batch.triples ==>
                && batch.triples[k].id in old(database).kyberPreKeys && batch.triples[k].id !in batch.kyberRemovals
                && batch.triples[k] !in old(database).triples
      ensures GetStore() == if committed then Landed(old(GetStore()), batch) else old(GetStore())
    {
      hide Written, Applied;
      if !ok || !Acceptable(database, batch) {
        return false;
      }
      database := Written(database, batch);
      ApplyBatch(batch);
      return true;
    }

    /** The whole commit, with nothing in between. */
    method CommitZoneChanges(ok: bool) returns (committed: bool)
      modifies this`pendingKyberPreKeysToRemove, this`pendingPreKeysToRemove, this`pendingSenderKeys,
               this`pendingSessions, this`pendingUnprocessed, this`pendingKyberTriples,
               this`kyberPreKeys, this`preKeys, this`senderKeys, this`sessions, this`kyberTriples, this`database
      ensures GetStore() == Commit(old(GetStore()), ok)
      ensures committed == Succeeds(old(database), old(GetPending()), ok)
      ensures committed <==> old(GetPending()) == NOTHING || (ok && forall k :: k in old(pendingKyberTriples) ==>
                && old(pendingKyberTriples)[k].id in old(database).kyberPreKeys
                && old(pendingKyberTriples)[k].id !in old(pendingKyberPreKeysToRemove)
                && old(pendingKyberTriples)[k] !in old(database).triples)
    {
      hide Written, Applied, Acceptable;
      ghost var was := GetStore();
      var batch := BeginCommit();
      if batch.None? {
        CommitOfNothing(was, ok);
        return true;
      }
      committed := FinishCommit(batch.value, ok);
    }

    method RevertZoneChanges()
      modifies this`pendingKyberPreKeysToRemove, this`pendingPreKeysToRemove, this`pendingSenderKeys,
               this`pendingSessions, this`pendingUnprocessed
      ensures GetStore() == Revert(old(GetStore()))
    {
      pendingKyberPreKeysToRemove, pendingPreKeysToRemove := {}, {};
      pendingSenderKeys, pendingSessions, pendingUnprocessed := map[], map[], map[];
    }

    /** The end of a body; the outermost one commits or reverts, and a commit that throws never leaves. */
    method BodySettled(zone: Zone, success: bool, ok: bool) returns (toEnter: seq<Waiter>, threw: bool)
      requires currentZone == Some(zone) && currentZoneDepth > 0
      modifies this
      ensures threw == (!success || (old(currentZoneDepth) == 1 && !Succeeds(old(database), old(GetPending()), ok)))
      ensures GetStore() == if old(currentZoneDepth) > 1 then old(GetStore())
                            else if success then Commit(old(GetStore()), ok) else Revert(old(GetStore()))
      ensures (GetLock(), toEnter)
           == if success && threw then (old(GetLock()), []) else Left(old(GetLock()))
    {
      if !success {
        if currentZoneDepth == 1 {
          RevertZoneChanges();
        }
        toEnter := LeaveZone(zone);
        return toEnter, true;
      }
      if currentZoneDepth == 1 {
        var committed := CommitZoneChanges(ok);
        if !committed {
          return [], true;
        }
      }
      toEnter := LeaveZone(zone);
      return toEnter, false;
    }

    // -------------------------------------------------------------- writers, inside the zone

    method StoreSession(zone: Zone, id: RowId, row: Row, ok: bool) returns (stored: bool)
      requires currentZone == Some(zone)
      modifies this
      ensures GetLock() == old(GetLock())
      ensures var noted := Noted(old(GetStore()), PutSession(id, row));
              if Supports(zone, PutSession(id, row)) then GetStore() == noted && stored
              else GetStore() == Commit(noted, ok) && stored == Succeeds(noted.db, noted.pending, ok)
    {
      hide Commit, Succeeds;
      pendingSessions := pendingSessions[id := Hydrated(row, Item(row.data))];
      stored := true;
      if !zone.supportsSessions {
        stored := CommitZoneChanges(ok);
      }
    }

    /** A failed immediate commit is logged and swallowed here. */
    method SaveSenderKey(zone: Zone, id: RowId, row: Row, ok: bool)
      requires currentZone == Some(zone)
      modifies this
      ensures GetLock() == old(GetLock())
      ensures var noted := Noted(old(GetStore()), PutSenderKey(id, row));
              GetStore() == if Supports(zone, PutSenderKey(id, row)) then noted else Commit(noted, ok)
    {
      hide Commit, Succeeds;
      pendingSenderKeys := pendingSenderKeys[id := Hydrated(row, Item(row.data))];
      if !zone.supportsSenderKeys {
        var _ := CommitZoneChanges(ok);
      }
    }

    method RemovePreKeys(zone: Zone, ids: seq<PreKeyId>, ok: bool) returns (removed: bool)
      requires currentZone == Some(zone)
      modifies this
      ensures GetLock() == old(GetLock())
      ensures forall id :: Supports(zone, Write.RemovePreKey(id)) <==> zone.supportsPreKeys
      ensures var noted := RemovalsNoted(old(GetStore()), ids);
              if zone.supportsPreKeys then GetStore() == noted && removed
              else GetStore() == Commit(noted, ok) && removed == Succeeds(noted.db, noted.pending, ok)
    {
      hide Commit, Succeeds;
      var i := 0;
      while i < |ids|
        invariant 0 <= i <= |ids| && GetLock() == old(GetLock())
        invariant GetStore() == RemovalsNoted(old(GetStore()), ids[..i])
      {
        assert ids[..i + 1][..i] == ids[..i];
        pendingPreKeysToRemove := pendingPreKeysToRemove + {ids[i]};
        i := i + 1;
      }
      assert ids[..|ids|] == ids;
      removed := true;
      if !zone.supportsPreKeys {
        removed := CommitZoneChanges(ok);
      }
    }

    method AddUnprocessed(zone: Zone, id: RowId, envelope: string, ok: bool) returns (added: bool)
      requires currentZone == Some(zone)
      modifies this
      ensures GetLock() == old(GetLock())
      ensures var noted := Noted(old(GetStore()), PutUnprocessed(id, envelope));
              if Supports(zone, PutUnprocessed(id, envelope)) then GetStore() == noted && added
              else GetStore() == Commit(noted, ok) && added == Succeeds(noted.db, noted.pending, ok)
    {
      hide Commit, Succeeds;
      pendingUnprocessed := pendingUnprocessed[id := envelope];
      added := true;
      if !zone.supportsUnprocessed {
        added := CommitZoneChanges(ok);
      }
    }

    /** Notes the use of a kyber prekey: removal of a one-time key, or one triple of a last-resort key. */
    method NoteKyberUse(t: Triple) returns (verdict: Verdict)
      modifies this`pendingKyberPreKeysToRemove, this`pendingKyberTriples
      ensures (GetStore(), verdict) == ZoneStore.MaybeRemoveKyberPreKey(old(GetStore()), t)
    {
      if t.id !in kyberPreKeys {
        return NoSuchKey;
      }
      if !kyberPreKeys[t.id].isLastResort {
        pendingKyberPreKeysToRemove := pendingKyberPreKeysToRemove + {t.id};
        return RemovalPending;
      }
      var cacheKey := TripleKey(t);
      if cacheKey in kyberTriples || cacheKey in pendingKyberTriples {
        return Duplicate;
      }
      pendingKyberTriples := pendingKyberTriples[cacheKey := t];
      return MarkPending;
    }

    method MaybeRemoveKyberPreKey(zone: Zone, t: Triple, ok: bool) returns (verdict: Verdict, thrown: bool)
      requires currentZone == Some(zone)
      modifies this
      ensures GetLock() == old(GetLock())
      ensures var (noted, v) := ZoneStore.MaybeRemoveKyberPreKey(old(GetStore()), t);
              && verdict == v
              && (v.NoSuchKey? || v.Duplicate? ==> GetStore() == old(GetStore()) && thrown == v.Duplicate?)
              && (v.MarkPending? || v.RemovalPending? ==>
                    if Supports(zone, if v.MarkPending? then MarkTriple(t) else RemoveKyberPreKey(t.id))
                    then GetStore() == noted && !thrown
                    else GetStore() == Commit(noted, ok) && thrown == !Succeeds(noted.db, noted.pending, ok))
    {
      hide Commit, Succeeds, Noted, TripleKey;
      verdict := NoteKyberUse(t);
      if verdict.NoSuchKey? || verdict.Duplicate? {
        return verdict, verdict.Duplicate?;
      }
      thrown := false;
      if !zone.supportsKyberPreKeys {
        var committed := CommitZoneChanges(ok);
        thrown := !committed;
      }
    }

    // -------------------------------------------------------------- readers, inside the zone

    method LoadSession(id: RowId) returns (r: Option<Item>)
      modifies this`pendingSessions, this`sessions
      ensures (GetStore(), r) == ZoneStore.LoadSession(old(GetStore()), id)
    {
      var pending := id in pendingSessions;
      if !pending && id !in sessions {
        return None;
      }
      var entry := if pending then pendingSessions[id] else sessions[id];
      if entry.Hydrated? {
        return Some(entry.item);
      }
      var newItem := Hydrated(entry.fromDB, Hydrate(entry.fromDB));
      if pending {
        pendingSessions := pendingSessions[id := newItem];
      } else {
        sessions := sessions[id := newItem];
      }
      return Some(newItem.item);
    }

    method GetSenderKey(id: RowId) returns (r: Option<Item>)
      modifies this`senderKeys
      ensures (GetStore(), r) == ZoneStore.GetSenderKey(old(GetStore()), id)
    {
      var pending := id in pendingSenderKeys;
      if !pending && id !in senderKeys {
        return None;
      }
      var entry := if pending then pendingSenderKeys[id] else senderKeys[id];
      if entry.Hydrated? {
        return Some(entry.item);
      }
      var item := Hydrate(entry.fromDB);
      senderKeys := senderKeys[id := Hydrated(entry.fromDB, item)];
      return Some(item);
    }

    method LoadPreKey(id: PreKeyId) returns (r: Option<Item>)
      modifies this`preKeys
      ensures (GetStore(), r) == ZoneStore.LoadPreKey(old(GetStore()), id)
    {
      if id in pendingPreKeysToRemove || id !in preKeys {
        return None;
      }
      var entry := preKeys[id];
      if entry.Hydrated? {
        return Some(entry.item);
      }
      var item := Hydrate(entry.fromDB);
      preKeys := preKeys[id := Hydrated(entry.fromDB, item)];
      return Some(item);
    }
  }

  lemma {:induction false} BatchIs(queue: seq<Waiter>, n: nat)
    requires 1 <= n <= |queue|
    requires forall i :: 0 <= i < n ==> queue[i].zone == queue[0].zone
    requires n < |queue| ==> queue[n].zone != queue[0].zone
    ensures BatchLength(queue) == n
  {
    var m := BatchLength(queue);
    assert !(m < n) && !(n < m);
  }

  lemma ForgettingNothing(keys: set<string>)
    ensures Forgotten(keys, {}) == keys
  {
  }

  lemma ForgettingMore(keys: set<string>, removals: set<PreKeyId>, id: PreKeyId)
    ensures Forgotten(Forgotten(keys, removals), {id}) == Forgotten(keys, removals + {id})
  {
  }

  lemma CommitOfNothing(s: Store, ok: bool)
    requires s.pending == NOTHING
    ensures Commit(s, ok) == s
  {
    hide Written, Applied;
    NothingWritten(s.db);
    NothingApplied(s.caches);
  }
}
