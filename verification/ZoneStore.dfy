/**
 The protocol store's tables: rows in the database, cached entries, and the pending
 collections that shadow the caches until the zone commits or reverts them.
 */
module ZoneStore {
  import opened Identifiers
  import opened KyberTriples

  type RowId = string

  /** A database row with the record in serialised form. */
  datatype Row = Row(owner: string, data: string)

  datatype Item = Item(data: string)

  /** Deserialisation: pure, and the inverse of serialising an item into a row. */
  function Hydrate(row: Row): Item {
    Item(row.data)
  }

  datatype Entry = Raw(fromDB: Row) | Hydrated(fromDB: Row, item: Item)
  {
    predicate Sound() {
      Hydrated? ==> item == Hydrate(fromDB)
    }
  }

  function Fresh(row: Row): Entry {
    Hydrated(row, Hydrate(row))
  }

  datatype KyberRow = KyberRow(isLastResort: bool, data: string)

  datatype Pending = Pending(
    kyberRemovals: set<PreKeyId>,
    preKeyRemovals: set<PreKeyId>,
    senderKeys: map<RowId, Entry>,
    sessions: map<RowId, Entry>,
    unprocessed: map<RowId, string>,
    triples: map<string, Triple>)

  const NOTHING := Pending({}, {}, map[], map[], map[], map[])

  datatype Caches = Caches(
    kyberPreKeys: map<PreKeyId, KyberRow>,
    preKeys: map<PreKeyId, Entry>,
    senderKeys: map<RowId, Entry>,
    sessions: map<RowId, Entry>,
    triples: set<string>)

  datatype Db = Db(
    kyberPreKeys: map<PreKeyId, KyberRow>,
    preKeys: map<PreKeyId, Row>,
    senderKeys: map<RowId, Row>,
    sessions: map<RowId, Row>,
    unprocessed: map<RowId, string>,
    triples: set<Triple>)

  datatype Store = Store(db: Db, caches: Caches, pending: Pending)

  function Rows<K>(m: map<K, Entry>): map<K, Row> {
    map k | k in m :: m[k].fromDB
  }

  // ---------------------------------------------------------------- writes

  datatype Write =
    | PutSession(id: RowId, row: Row)
    | PutSenderKey(id: RowId, row: Row)
    | PutUnprocessed(id: RowId, envelope: string)
    | RemovePreKey(preKey: PreKeyId)
    | RemoveKyberPreKey(preKey: PreKeyId)
    | MarkTriple(triple: Triple)

  function Note(p: Pending, w: Write): Pending {
    match w
    case PutSession(id, row) => p.(sessions := p.sessions[id := Fresh(row)])
    case PutSenderKey(id, row) => p.(senderKeys := p.senderKeys[id := Fresh(row)])
    case PutUnprocessed(id, envelope) => p.(unprocessed := p.unprocessed[id := envelope])
    case RemovePreKey(id) => p.(preKeyRemovals := p.preKeyRemovals + {id})
    case RemoveKyberPreKey(id) => p.(kyberRemovals := p.kyberRemovals + {id})
    case MarkTriple(t) => p.(triples := p.triples[TripleKey(t) := t])
  }

  function Noted(s: Store, w: Write): Store {
    s.(pending := Note(s.pending, w))
  }

  // ---------------------------------------------------------------- commit and revert

  /** The triples the database accepts: new ones whose prekey is there after the removals. */
  predicate Acceptable(db: Db, p: Pending) {
    forall k :: k in p.triples ==>
      && p.triples[k].id in db.kyberPreKeys && p.triples[k].id !in p.kyberRemovals
      && p.triples[k] !in db.triples
  }

  /** The single transaction; a rejected triple rolls all of it back. */
  function Written(db: Db, p: Pending): Db {
    Db(db.kyberPreKeys - p.kyberRemovals,
       db.preKeys - p.preKeyRemovals,
       db.senderKeys + Rows(p.senderKeys),
       db.sessions + Rows(p.sessions),
       db.unprocessed + p.unprocessed,
       (set t | t in db.triples && t.id !in p.kyberRemovals) + p.triples.Values)
  }

  /** Cached triple keys left after dropping, by prefix, those of the removed prekeys. */
  function Forgotten(keys: set<string>, removals: set<PreKeyId>): set<string> {
    set k | k in keys && forall id :: id in removals ==> !StartsWith(k, Prefix(id))
  }

  function Applied(c: Caches, p: Pending): Caches {
    Caches(c.kyberPreKeys - p.kyberRemovals,
           c.preKeys - p.preKeyRemovals,
           c.senderKeys + p.senderKeys,
           c.sessions + p.sessions,
           Forgotten(c.triples + p.triples.Keys, p.kyberRemovals))
  }

  /** Does the awaited write go through? `ok` is whether the database is working at all. */
  predicate Succeeds(db: Db, p: Pending, ok: bool) {
    p == NOTHING || (ok && Acceptable(db, p))
  }

  /** Commit as one step: pending is gone either way, and applied only if the write went through. */
  function Commit(s: Store, ok: bool): Store {
    if Succeeds(s.db, s.pending, ok)
    then Store(Written(s.db, s.pending), Applied(s.caches, s.pending), NOTHING)
    else s.(pending := NOTHING)
  }

  /** Drops five of the six pending collections; kyber triples stay. */
  function Revert(s: Store): Store {
    s.(pending := NOTHING.(triples := s.pending.triples))
  }

  // ---------------------------------------------------------------- reads

  function LoadSession(s: Store, id: RowId): (Store, Option<Item>) {
    var pending := id in s.pending.sessions;
    if !pending && id !in s.caches.sessions then (s, None) else
    var entry := if pending then s.pending.sessions[id] else s.caches.sessions[id];
    if entry.Hydrated? then (s, Some(entry.item)) else
    var hydrated := Fresh(entry.fromDB);
    var after := if pending
                 then s.(pending := s.pending.(sessions := s.pending.sessions[id := hydrated]))
                 else s.(caches := s.caches.(sessions := s.caches.sessions[id := hydrated]));
    (after, Some(hydrated.item))
  }

  /** Unlike sessions, a sender key hydrated on the way is always written back to the committed cache. */
  function GetSenderKey(s: Store, id: RowId): (Store, Option<Item>) {
    var pending := id in s.pending.senderKeys;
    if !pending && id !in s.caches.senderKeys then (s, None) else
    var entry := if pending then s.pending.senderKeys[id] else s.caches.senderKeys[id];
    if entry.Hydrated? then (s, Some(entry.item)) else
    var hydrated := Fresh(entry.fromDB);
    (s.(caches := s.caches.(senderKeys := s.caches.senderKeys[id := hydrated])), Some(hydrated.item))
  }

  function LoadPreKey(s: Store, id: PreKeyId): (Store, Option<Item>) {
    if id in s.pending.preKeyRemovals || id !in s.caches.preKeys then (s, None) else
    var entry := s.caches.preKeys[id];
    if entry.Hydrated? then (s, Some(entry.item)) else
    var hydrated := Fresh(entry.fromDB);
    (s.(caches := s.caches.(preKeys := s.caches.preKeys[id := hydrated])), Some(hydrated.item))
  }

  function AllSessions(s: Store): map<RowId, Entry> {
    s.caches.sessions + s.pending.sessions
  }

  // ---------------------------------------------------------------- kyber prekeys of last resort

  datatype Verdict = NoSuchKey | Duplicate | MarkPending | RemovalPending

  /** What using a kyber prekey once does: one-time keys are removed, a last-resort key's use is recorded. */
  function MaybeRemoveKyberPreKey(s: Store, t: Triple): (Store, Verdict) {
    if t.id !in s.caches.kyberPreKeys then (s, NoSuchKey)
    else if !s.caches.kyberPreKeys[t.id].isLastResort then (Noted(s, RemoveKyberPreKey(t.id)), RemovalPending)
    else if TripleKey(t) in s.caches.triples || TripleKey(t) in s.pending.triples then (s, Duplicate)
    else (Noted(s, MarkTriple(t)), MarkPending)
  }

  // ---------------------------------------------------------------- invariant

  ghost predicate SoundEntries<K(!new)>(m: map<K, Entry>) {
    forall k :: k in m ==> m[k].Sound()
  }

  ghost predicate SoundPending(p: Pending) {
    && (forall k :: k in p.sessions ==> p.sessions[k] == Fresh(p.sessions[k].fromDB))
    && (forall k :: k in p.senderKeys ==> p.senderKeys[k] == Fresh(p.senderKeys[k].fromDB))
    && (forall k :: k in p.triples ==> k == TripleKey(p.triples[k]) && ValidTriple(p.triples[k]))
    && (forall id :: id in p.kyberRemovals ==> ValidId(id))
  }

  ghost predicate ValidWrite(w: Write) {
    && (w.RemoveKyberPreKey? ==> ValidId(w.preKey))
    && (w.MarkTriple? ==> ValidTriple(w.triple))
  }

  function KeysOf(triples: set<Triple>): set<string> {
    set t | t in triples :: TripleKey(t)
  }

  /** The caches hold exactly the database's rows, and pending entries are hydrated from birth. */
  ghost predicate Coherent(s: Store) {
    && s.caches.kyberPreKeys == s.db.kyberPreKeys
    && Rows(s.caches.preKeys) == s.db.preKeys && SoundEntries(s.caches.preKeys)
    && Rows(s.caches.senderKeys) == s.db.senderKeys && SoundEntries(s.caches.senderKeys)
    && Rows(s.caches.sessions) == s.db.sessions && SoundEntries(s.caches.sessions)
    && s.caches.triples == KeysOf(s.db.triples)
    && (forall t :: t in s.db.triples ==> ValidTriple(t))
    && SoundPending(s.pending)
  }

  // ---------------------------------------------------------------- the reference: one map, two versions

  /** What a reader is meant to see. */
  datatype View = View(
    kyberPreKeys: map<PreKeyId, KyberRow>,
    preKeys: map<PreKeyId, Row>,
    senderKeys: map<RowId, Row>,
    sessions: map<RowId, Row>,
    unprocessed: map<RowId, string>)

  function Committed(s: Store): View {
    View(s.db.kyberPreKeys, s.db.preKeys, s.db.senderKeys, s.db.sessions, s.db.unprocessed)
  }

  /** The committed map overridden by pending, minus pending removals. */
  function Tentative(s: Store): View {
    View(s.db.kyberPreKeys - s.pending.kyberRemovals,
         s.db.preKeys - s.pending.preKeyRemovals,
         s.db.senderKeys + Rows(s.pending.senderKeys),
         s.db.sessions + Rows(s.pending.sessions),
         s.db.unprocessed + s.pending.unprocessed)
  }

  /** A write on plain maps. */
  function ViewWrite(v: View, w: Write): View {
    match w
    case PutSession(id, row) => v.(sessions := v.sessions[id := row])
    case PutSenderKey(id, row) => v.(senderKeys := v.senderKeys[id := row])
    case PutUnprocessed(id, envelope) => v.(unprocessed := v.unprocessed[id := envelope])
    case RemovePreKey(id) => v.(preKeys := v.preKeys - {id})
    case RemoveKyberPreKey(id) => v.(kyberPreKeys := v.kyberPreKeys - {id})
    case MarkTriple(_) => v
  }

  function Replay(v: View, ws: seq<Write>): View
    decreases |ws|
  {
    if ws == [] then v else ViewWrite(Replay(v, ws[..|ws| - 1]), ws[|ws| - 1])
  }

  // ---------------------------------------------------------------- refinement

  lemma RowsOfUpdate<K>(m: map<K, Entry>, k: K, e: Entry)
    ensures Rows(m[k := e]) == Rows(m)[k := e.fromDB]
  {
  }

  lemma RowsOfMerge<K>(m: map<K, Entry>, n: map<K, Entry>)
    ensures Rows(m + n) == Rows(m) + Rows(n)
  {
  }

  lemma RowsWithout<K>(m: map<K, Entry>, ks: set<K>)
    ensures Rows(m - ks) == Rows(m) - ks
  {
  }

  lemma NoteKeepsSound(p: Pending, w: Write)
    requires SoundPending(p) && ValidWrite(w)
    ensures SoundPending(Note(p, w))
  {
  }

  lemma MergeUpdated<K, V>(m: map<K, V>, n: map<K, V>, k: K, v: V)
    ensures m + n[k := v] == (m + n)[k := v]
  {
  }

  lemma WithoutMore<K, V>(m: map<K, V>, ks: set<K>, k: K)
    ensures m - (ks + {k}) == (m - ks) - {k}
  {
  }

  lemma NoteIsViewWrite(s: Store, w: Write)
    ensures Tentative(Noted(s, w)) == ViewWrite(Tentative(s), w)
  {
    match w
    case PutSession(id, row) =>
      RowsOfUpdate(s.pending.sessions, id, Fresh(row));
      hide Rows;
      MergeUpdated(s.db.sessions, Rows(s.pending.sessions), id, row);
    case PutSenderKey(id, row) =>
      RowsOfUpdate(s.pending.senderKeys, id, Fresh(row));
      hide Rows;
      MergeUpdated(s.db.senderKeys, Rows(s.pending.senderKeys), id, row);
    case PutUnprocessed(id, envelope) =>
      hide Rows;
      MergeUpdated(s.db.unprocessed, s.pending.unprocessed, id, envelope);
    case RemovePreKey(id) =>
      hide Rows;
      WithoutMore(s.db.preKeys, s.pending.preKeyRemovals, id);
    case RemoveKyberPreKey(id) =>
      hide Rows;
      WithoutMore(s.db.kyberPreKeys, s.pending.kyberRemovals, id);
    case MarkTriple(_) =>
  }

  /** A write changes what readers see as it would change plain maps, and nothing committed. */
  lemma WriteRefines(s: Store, w: Write)
    requires Coherent(s) && ValidWrite(w)
    ensures Coherent(Noted(s, w))
    ensures Committed(Noted(s, w)) == Committed(s)
    ensures Tentative(Noted(s, w)) == ViewWrite(Tentative(s), w)
  {
    hide SoundPending, Note;
    NoteKeepsSound(s.pending, w);
    NoteIsViewWrite(s, w);
  }

  /** Reading a session answers from the tentative map; whatever is hydrated on the way, no row moves. */
  lemma LoadSessionRefines(s: Store, id: RowId)
    requires Coherent(s)
    ensures var (after, r) := LoadSession(s, id);
            && r == (if id in Tentative(s).sessions then Some(Hydrate(Tentative(s).sessions[id])) else None)
            && Coherent(after) && after.db == s.db && Tentative(after) == Tentative(s)
            && Rows(after.caches.sessions) == Rows(s.caches.sessions)
  {
    var (after, r) := LoadSession(s, id);
    if id !in s.pending.sessions && id in s.caches.sessions {
      assert Rows(s.caches.sessions)[id] == s.caches.sessions[id].fromDB;
      RowsOfUpdate(s.caches.sessions, id, Fresh(s.caches.sessions[id].fromDB));
      assert Rows(after.caches.sessions) == Rows(s.caches.sessions);
    }
  }

  /**
   Reading a sender key answers from the tentative map. The write-back goes to the committed
   cache whichever collection the entry came from; a pending entry never needs hydrating, so
   no uncommitted row gets there.
   */
  lemma GetSenderKeyRefines(s: Store, id: RowId)
    requires Coherent(s)
    ensures var (after, r) := GetSenderKey(s, id);
            && r == (if id in Tentative(s).senderKeys then Some(Hydrate(Tentative(s).senderKeys[id])) else None)
            && Coherent(after) && after.db == s.db && Tentative(after) == Tentative(s)
            && Rows(after.caches.senderKeys) == Rows(s.caches.senderKeys)
  {
    var (after, r) := GetSenderKey(s, id);
    if id !in s.pending.senderKeys && id in s.caches.senderKeys {
      assert Rows(s.caches.senderKeys)[id] == s.caches.senderKeys[id].fromDB;
      RowsOfUpdate(s.caches.senderKeys, id, Fresh(s.caches.senderKeys[id].fromDB));
      assert Rows(after.caches.senderKeys) == Rows(s.caches.senderKeys);
    }
  }

  lemma LoadPreKeyRefines(s: Store, id: PreKeyId)
    requires Coherent(s)
    ensures var (after, r) := LoadPreKey(s, id);
            && r == (if id in Tentative(s).preKeys then Some(Hydrate(Tentative(s).preKeys[id])) else None)
            && Coherent(after) && after.db == s.db && Tentative(after) == Tentative(s)
            && Rows(after.caches.preKeys) == Rows(s.caches.preKeys)
  {
    var (after, r) := LoadPreKey(s, id);
    if id in s.caches.preKeys {
      assert Rows(s.caches.preKeys)[id] == s.caches.preKeys[id].fromDB;
      RowsOfUpdate(s.caches.preKeys, id, Fresh(s.caches.preKeys[id].fromDB));
      assert Rows(after.caches.preKeys) == Rows(s.caches.preKeys);
    }
  }

  /** The union all session scans run over is the tentative map. */
  lemma AllSessionsRefines(s: Store)
    requires Coherent(s)
    ensures Rows(AllSessions(s)) == Tentative(s).sessions
    ensures SoundEntries(AllSessions(s))
  {
    RowsOfMerge(s.caches.sessions, s.pending.sessions);
  }

  // ---------------------------------------------------------------- commit and revert refine

  lemma ForgottenIsCascade(triples: set<Triple>, removals: set<PreKeyId>)
    requires forall t :: t in triples ==> ValidTriple(t)
    requires forall id :: id in removals ==> ValidId(id)
    ensures Forgotten(KeysOf(triples), removals) == KeysOf(set t | t in triples && t.id !in removals)
  {
    var kept := set t | t in triples && t.id !in removals;
    forall k | k in Forgotten(KeysOf(triples), removals) ensures k in KeysOf(kept) {
      var t :| t in triples && TripleKey(t) == k;
      if t.id in removals {
        PrefixMatchesOwnTriples(t.id, t);
      }
      assert t in kept;
    }
    forall k | k in KeysOf(kept) ensures k in Forgotten(KeysOf(triples), removals) {
      var t :| t in kept && TripleKey(t) == k;
      forall id | id in removals ensures !StartsWith(k, Prefix(id)) {
        PrefixMatchesOwnTriples(id, t);
      }
      assert k in KeysOf(triples);
    }
  }

  lemma CommitKeepsTriplesCoherent(s: Store)
    requires Coherent(s) && Acceptable(s.db, s.pending)
    ensures Applied(s.caches, s.pending).triples == KeysOf(Written(s.db, s.pending).triples)
  {
    var p := s.pending;
    var all := s.db.triples + p.triples.Values;
    forall k | k in s.caches.triples + p.triples.Keys ensures k in KeysOf(all) {
      if k in p.triples {
        assert p.triples[k] in all;
      }
    }
    forall k | k in KeysOf(all) ensures k in s.caches.triples + p.triples.Keys {
      var t :| t in all && TripleKey(t) == k;
    }
    assert s.caches.triples + p.triples.Keys == KeysOf(all);
    ForgottenIsCascade(all, p.kyberRemovals);
    assert (set t | t in all && t.id !in p.kyberRemovals) == Written(s.db, p).triples;
  }

  /**
   A commit that goes through turns exactly what readers saw into the committed rows, leaves
   caches equal to the database, and nothing pending; a failed one drops what was pending.
   */
  lemma CommitRefines(s: Store, ok: bool)
    requires Coherent(s)
    ensures Coherent(Commit(s, ok)) && Commit(s, ok).pending == NOTHING
    ensures Succeeds(s.db, s.pending, ok) ==> Committed(Commit(s, ok)) == Tentative(s)
    ensures !Succeeds(s.db, s.pending, ok) ==> Commit(s, ok).db == s.db && Commit(s, ok).caches == s.caches
    ensures Tentative(Commit(s, ok)) == Committed(Commit(s, ok))
  {
    var r := Commit(s, ok);
    EmptyPendingView(r);
    if Succeeds(s.db, s.pending, ok) {
      assert Acceptable(s.db, s.pending);
      CommitKeepsTriplesCoherent(s);
      RowsOfMerge(s.caches.sessions, s.pending.sessions);
      RowsOfMerge(s.caches.senderKeys, s.pending.senderKeys);
      RowsWithout(s.caches.preKeys, s.pending.preKeyRemovals);
    }
  }

  lemma EmptyPendingView(s: Store)
    requires s.pending.(triples := map[]) == NOTHING
    ensures Tentative(s) == Committed(s)
  {
    var v, c := Tentative(s), Committed(s);
    assert v.kyberPreKeys == c.kyberPreKeys && v.preKeys == c.preKeys && v.senderKeys == c.senderKeys
        && v.sessions == c.sessions && v.unprocessed == c.unprocessed;
  }

  /** A revert takes readers back to the committed rows and touches neither database nor caches. */
  lemma RevertRefines(s: Store)
    requires Coherent(s)
    ensures Coherent(Revert(s)) && Revert(s).db == s.db && Revert(s).caches == s.caches
    ensures Tentative(Revert(s)) == Committed(s)
    ensures Revert(s).pending.triples == s.pending.triples
  {
    EmptyPendingView(Revert(s));
  }

  /**
   When a commit goes through: with the database working, exactly if every pending triple is
   new and its prekey is there and not about to be removed. In particular without pending
   triples it always does, whatever else is pending.
   */
  lemma CommitGoesThrough(s: Store)
    requires Coherent(s)
    requires forall t :: t in s.pending.triples.Values ==>
               t.id in s.db.kyberPreKeys && t.id !in s.pending.kyberRemovals && t !in s.db.triples
    ensures Committed(Commit(s, true)) == Tentative(s) && Commit(s, true).pending == NOTHING
    ensures Commit(s, true).db.triples == (set t | t in s.db.triples && t.id !in s.pending.kyberRemovals) + s.pending.triples.Values
  {
    hide Coherent;
    forall k | k in s.pending.triples ensures s.pending.triples[k] in s.pending.triples.Values { }
    assert Acceptable(s.db, s.pending);
    CommitRefines(s, true);
  }

  /** And otherwise nothing of it is written: the transaction is rolled back as a whole. */
  lemma CommitIsRejected(s: Store, ok: bool, t: Triple)
    requires Coherent(s) && s.pending != NOTHING
    requires ok ==> t in s.pending.triples.Values
                    && (t.id !in s.db.kyberPreKeys || t.id in s.pending.kyberRemovals || t in s.db.triples)
    ensures Commit(s, ok).db == s.db && Commit(s, ok).caches == s.caches && Commit(s, ok).pending == NOTHING
  {
    if ok {
      var k :| k in s.pending.triples && s.pending.triples[k] == t;
      assert !Acceptable(s.db, s.pending);
    }
  }

  /** An empty batch changes nothing. */
  lemma NothingWritten(db: Db)
    ensures Written(db, NOTHING) == db
  {
    var d := Written(db, NOTHING);
    assert Rows(NOTHING.senderKeys) == map[] && Rows(NOTHING.sessions) == map[];
    assert d.triples == db.triples;
    assert d.kyberPreKeys == db.kyberPreKeys && d.preKeys == db.preKeys;
    assert d.senderKeys == db.senderKeys && d.sessions == db.sessions && d.unprocessed == db.unprocessed;
  }

  lemma NothingApplied(c: Caches)
    ensures Applied(c, NOTHING) == c
  {
    var d := Applied(c, NOTHING);
    assert d.triples == c.triples;
    assert d.kyberPreKeys == c.kyberPreKeys && d.preKeys == c.preKeys;
    assert d.senderKeys == c.senderKeys && d.sessions == c.sessions;
  }

  // ---------------------------------------------------------------- duplicate detection

  /**
   A commit forgets a cached triple exactly when it removes that triple's own prekey; no
   other triple's key is ever dropped by the prefix test.
   */
  lemma CommitForgetsExactly(s: Store, ok: bool, t: Triple)
    requires Coherent(s) && ValidTriple(t) && TripleKey(t) in s.caches.triples
    ensures TripleKey(t) in Commit(s, ok).caches.triples
            <==> !(Succeeds(s.db, s.pending, ok) && t.id in s.pending.kyberRemovals)
  {
    if Succeeds(s.db, s.pending, ok) {
      forall id | id in s.pending.kyberRemovals ensures StartsWith(TripleKey(t), Prefix(id)) <==> t.id == id {
        PrefixMatchesOwnTriples(id, t);
      }
    }
  }

  /** The duplicate verdict is about the very triple: committed earlier, or pending. */
  lemma DuplicateMeansSeen(s: Store, t: Triple)
    requires Coherent(s) && ValidTriple(t)
    ensures MaybeRemoveKyberPreKey(s, t).1.Duplicate?
            <==> t.id in s.db.kyberPreKeys && s.db.kyberPreKeys[t.id].isLastResort
                 && (t in s.db.triples || t in s.pending.triples.Values)
  {
    var k := TripleKey(t);
    if k in s.caches.triples {
      var u :| u in s.db.triples && TripleKey(u) == k;
      KeysAreInjective(t, u);
    }
    if k in s.pending.triples {
      KeysAreInjective(t, s.pending.triples[k]);
    }
    if t in s.pending.triples.Values {
      var j :| j in s.pending.triples && s.pending.triples[j] == t;
      assert j == k;
    }
  }

  /** A store operation between two commits, or a commit or revert itself. */
  datatype StoreEvent =
    | Wrote(w: Write)
    | Commits(ok: bool)
    | Reverts
    | ReadSession(id: RowId)
    | ReadSenderKey(id: RowId)
    | ReadPreKey(preKey: PreKeyId)
    | Uses(triple: Triple)

  function After(s: Store, e: StoreEvent): Store {
    match e
    case Wrote(w) => Noted(s, w)
    case Commits(ok) => Commit(s, ok)
    case Reverts => Revert(s)
    case ReadSession(id) => LoadSession(s, id).0
    case ReadSenderKey(id) => GetSenderKey(s, id).0
    case ReadPreKey(id) => LoadPreKey(s, id).0
    case Uses(t) => MaybeRemoveKyberPreKey(s, t).0
  }

  function AfterAll(s: Store, es: seq<StoreEvent>): Store
    decreases |es|
  {
    if es == [] then s else After(AfterAll(s, es[..|es| - 1]), es[|es| - 1])
  }

  ghost predicate ValidEvent(e: StoreEvent) {
    (e.Wrote? ==> ValidWrite(e.w)) && (e.Uses? ==> ValidTriple(e.triple))
  }

  ghost predicate ValidEvents(es: seq<StoreEvent>) {
    forall e :: e in es ==> ValidEvent(e)
  }

  /** One of the commits went through and removed the prekey. */
  ghost predicate RemovedBy(s: Store, es: seq<StoreEvent>, id: PreKeyId)
    decreases |es|
  {
    es != [] &&
    var before, e := AfterAll(s, es[..|es| - 1]), es[|es| - 1];
    RemovedBy(s, es[..|es| - 1], id) || Removes(before, e, id)
  }

  predicate Removes(s: Store, e: StoreEvent, id: PreKeyId) {
    e.Commits? && Succeeds(s.db, s.pending, e.ok) && id in s.pending.kyberRemovals
  }

  lemma EventKeepsCoherent(s: Store, e: StoreEvent)
    requires Coherent(s) && ValidEvent(e)
    ensures Coherent(After(s, e))
  {
    hide Coherent;
    match e
    case Wrote(w) => WriteRefines(s, w);
    case Commits(ok) => CommitRefines(s, ok);
    case Reverts => RevertRefines(s);
    case ReadSession(id) => LoadSessionRefines(s, id);
    case ReadSenderKey(id) => GetSenderKeyRefines(s, id);
    case ReadPreKey(id) => LoadPreKeyRefines(s, id);
    case Uses(t) =>
      WriteRefines(s, MarkTriple(t));
      WriteRefines(s, RemoveKyberPreKey(t.id));
  }

  lemma {:induction false} CoherentForever(s: Store, es: seq<StoreEvent>)
    requires Coherent(s) && ValidEvents(es)
    ensures Coherent(AfterAll(s, es))
    decreases |es|
  {
    if es == [] {
    } else {
      hide Coherent, After;
      var before := es[..|es| - 1];
      assert forall e :: e in before ==> e in es;
      assert es[|es| - 1] in es;
      CoherentForever(s, before);
      EventKeepsCoherent(AfterAll(s, before), es[|es| - 1]);
    }
  }

  /** A triple the caches remember, of a last-resort prekey. */
  ghost predicate Remembered(s: Store, t: Triple) {
    && TripleKey(t) in s.caches.triples
    && t.id in s.caches.kyberPreKeys && s.caches.kyberPreKeys[t.id].isLastResort
  }

  lemma EventKeepsRemembered(s: Store, e: StoreEvent, t: Triple)
    requires Coherent(s) && ValidTriple(t)
    ensures Remembered(s, t) && !Removes(s, e, t.id) ==> Remembered(After(s, e), t)
    ensures t.id !in s.caches.kyberPreKeys || Removes(s, e, t.id) ==> t.id !in After(s, e).caches.kyberPreKeys
  {
    if e.Commits? && Remembered(s, t) {
      CommitForgetsExactly(s, e.ok, t);
    }
  }

  lemma {:induction false} RememberedUntilRemoved(s: Store, es: seq<StoreEvent>, t: Triple)
    requires Coherent(s) && ValidTriple(t) && Remembered(s, t) && ValidEvents(es)
    ensures if RemovedBy(s, es, t.id) then t.id !in AfterAll(s, es).caches.kyberPreKeys else Remembered(AfterAll(s, es), t)
    decreases |es|
  {
    if es == [] {
    } else {
      hide Coherent, After, Removes, Remembered;
      var before := es[..|es| - 1];
      assert forall e :: e in before ==> e in es;
      RememberedUntilRemoved(s, before, t);
      CoherentForever(s, before);
      EventKeepsRemembered(AfterAll(s, before), es[|es| - 1], t);
    }
  }

  /**
   Once a last-resort prekey's triple is committed it is rejected as a duplicate through any
   writes, reads, commits and reverts, exactly until a commit removes the prekey; a removal
   that is only pending, or was reverted, or whose commit failed does not count.
   */
  lemma DuplicateUntilRemoved(s: Store, es: seq<StoreEvent>, t: Triple)
    requires Coherent(s) && ValidTriple(t) && Remembered(s, t) && ValidEvents(es)
    ensures MaybeRemoveKyberPreKey(AfterAll(s, es), t)
         == (AfterAll(s, es), if RemovedBy(s, es, t.id) then NoSuchKey else Duplicate)
  {
    RememberedUntilRemoved(s, es, t);
  }

  /** A commit that goes through remembers every triple that was pending. */
  lemma CommitRemembers(s: Store, t: Triple)
    requires Coherent(s) && Acceptable(s.db, s.pending) && t in s.pending.triples.Values
    requires s.db.kyberPreKeys[t.id].isLastResort
    ensures Remembered(Commit(s, true), t)
  {
    var k :| k in s.pending.triples && s.pending.triples[k] == t;
    CommitKeepsTriplesCoherent(s);
    assert t in Written(s.db, s.pending).triples;
  }

  /**
   The verdict on a use, by what the database holds: unknown key; one-time key, whose removal
   is then pending; last-resort key, which is rejected if this very triple was seen, and
   otherwise remembers it from now on.
   */
  lemma UseMeans(s: Store, t: Triple)
    requires Coherent(s) && ValidTriple(t)
    ensures var (after, verdict) := MaybeRemoveKyberPreKey(s, t);
            && after.db == s.db && after.caches == s.caches
            && (verdict.NoSuchKey? <==> t.id !in s.db.kyberPreKeys)
            && (verdict.RemovalPending? <==> t.id in s.db.kyberPreKeys && !s.db.kyberPreKeys[t.id].isLastResort)
            && (verdict.Duplicate? || verdict.NoSuchKey? ==> after == s)
            && (verdict.RemovalPending? ==>
                  && after.pending.kyberRemovals == s.pending.kyberRemovals + {t.id}
                  && after.pending.triples == s.pending.triples)
            && (verdict.MarkPending? ==>
                  && after.pending.triples.Values == s.pending.triples.Values + {t}
                  && after.pending.kyberRemovals == s.pending.kyberRemovals)
  {
    hide TripleKey;
    var k := TripleKey(t);
    if k !in s.pending.triples {
      ValuesWithOneMore(s.pending.triples, k, t);
    }
  }

  lemma ValuesWithOneMore<K, V>(m: map<K, V>, k: K, v: V)
    requires k !in m
    ensures m[k := v].Values == m.Values + {v}
  {
    forall u ensures u in m[k := v].Values <==> u in m.Values || u == v {
      if u in m.Values {
        var j :| j in m && m[j] == u;
        assert m[k := v][j] == u;
      }
      assert m[k := v][k] == v;
    }
  }

  /** A triple that was used and is not forgotten: pending, or remembered. */
  ghost predicate Seen(s: Store, t: Triple) {
    && t.id in s.caches.kyberPreKeys && s.caches.kyberPreKeys[t.id].isLastResort
    && (t in s.pending.triples.Values || TripleKey(t) in s.caches.triples)
  }

  lemma UseIsSeen(s: Store, t: Triple)
    requires Coherent(s) && ValidTriple(t) && MaybeRemoveKyberPreKey(s, t).1.MarkPending?
    ensures Seen(MaybeRemoveKyberPreKey(s, t).0, t)
  {
    UseMeans(s, t);
  }

  lemma SeenIsDuplicate(s: Store, t: Triple)
    requires Coherent(s) && ValidTriple(t)
    ensures Seen(s, t) ==> MaybeRemoveKyberPreKey(s, t) == (s, Duplicate)
    ensures t.id !in s.caches.kyberPreKeys ==> MaybeRemoveKyberPreKey(s, t) == (s, NoSuchKey)
  {
    DuplicateMeansSeen(s, t);
  }

  /** A commit that fails, whatever for. */
  predicate Fails(s: Store, e: StoreEvent) {
    e.Commits? && !Succeeds(s.db, s.pending, e.ok)
  }

  lemma EventKeepsSeen(s: Store, e: StoreEvent, t: Triple)
    requires Coherent(s) && ValidTriple(t) && ValidEvent(e) && Seen(s, t) && !Fails(s, e)
    ensures if Removes(s, e, t.id) then t.id !in After(s, e).caches.kyberPreKeys else Seen(After(s, e), t)
  {
    match e
    case Commits(ok) => CommitKeepsSeen(s, ok, t);
    case Wrote(w) => NoteKeepsTriple(s, w, t);
    case Uses(u) =>
      NoteKeepsTriple(s, MarkTriple(u), t);
      NoteKeepsTriple(s, RemoveKyberPreKey(u.id), t);
    case _ =>
  }

  lemma NoteKeepsTriple(s: Store, w: Write, t: Triple)
    requires Coherent(s) && ValidWrite(w) && ValidTriple(t)
    ensures t in s.pending.triples.Values ==> t in Noted(s, w).pending.triples.Values
  {
    if t in s.pending.triples.Values {
      var k :| k in s.pending.triples && s.pending.triples[k] == t;
      if w.MarkTriple? && TripleKey(w.triple) == k {
        KeysAreInjective(w.triple, t);
      }
      assert Noted(s, w).pending.triples[k] == t;
    }
  }

  lemma CommitKeepsSeen(s: Store, ok: bool, t: Triple)
    requires Coherent(s) && ValidTriple(t) && Seen(s, t) && Succeeds(s.db, s.pending, ok)
    ensures if t.id in s.pending.kyberRemovals then t.id !in Commit(s, ok).caches.kyberPreKeys else Seen(Commit(s, ok), t)
  {
    if t in s.pending.triples.Values {
      var k :| k in s.pending.triples && s.pending.triples[k] == t;
      CommitRemembers(s, t);
    } else {
      CommitForgetsExactly(s, ok, t);
    }
  }

  lemma {:induction false} SeenUntilRemoved(s: Store, es: seq<StoreEvent>, t: Triple)
    requires Coherent(s) && ValidTriple(t) && Seen(s, t) && ValidEvents(es)
    requires forall i :: 0 <= i < |es| ==> !Fails(AfterAll(s, es[..i]), es[i])
    ensures if RemovedBy(s, es, t.id) then t.id !in AfterAll(s, es).caches.kyberPreKeys else Seen(AfterAll(s, es), t)
    decreases |es|
  {
    if es == [] {
    } else {
      var before, e := es[..|es| - 1], es[|es| - 1];
      assert forall x :: x in before ==> x in es;
      assert e in es;
      forall i | 0 <= i < |before| ensures !Fails(AfterAll(s, before[..i]), before[i]) {
        assert before[..i] == es[..i];
      }
      hide Coherent, After, Removes, Seen, Fails;
      SeenUntilRemoved(s, before, t);
      CoherentForever(s, before);
      UnknownStays(AfterAll(s, before), e, t.id);
      if !RemovedBy(s, before, t.id) {
        EventKeepsSeen(AfterAll(s, before), e, t);
      }
    }
  }

  /** Nothing here brings an unknown prekey back. */
  lemma UnknownStays(s: Store, e: StoreEvent, id: PreKeyId)
    ensures id !in s.caches.kyberPreKeys ==> id !in After(s, e).caches.kyberPreKeys
  {
  }

  /**
   From the use itself: once a use of a last-resort prekey was accepted, the same triple is
   rejected through any writes, reads, uses, reverts and commits that go through, before and
   after it is committed, until a commit removes the prekey.
   */
  lemma UsedOnce(s: Store, t: Triple, es: seq<StoreEvent>)
    requires Coherent(s) && ValidTriple(t) && MaybeRemoveKyberPreKey(s, t).1.MarkPending? && ValidEvents(es)
    requires var used := After(s, Uses(t)); forall i :: 0 <= i < |es| ==> !Fails(AfterAll(used, es[..i]), es[i])
    ensures var used := After(s, Uses(t));
            MaybeRemoveKyberPreKey(AfterAll(used, es), t).1 == if RemovedBy(used, es, t.id) then NoSuchKey else Duplicate
  {
    hide Coherent, MaybeRemoveKyberPreKey, Seen, Fails, AfterAll, RemovedBy, ValidEvents;
    UseIsSeen(s, t);
    EventKeepsCoherent(s, Uses(t));
    var used := After(s, Uses(t));
    SeenUntilRemoved(used, es, t);
    CoherentForever(used, es);
    SeenIsDuplicate(AfterAll(used, es), t);
  }

  /**
   What the commit right after the use means for a second one: rejected if the commit went
   through, and accepted once more if it failed, since the failure drops the triple. The
   condition is that no triple pending at the commit is known, orphaned or about to be.
   */
  lemma UseThenCommit(s: Store, t: Triple, ok: bool)
    requires Coherent(s) && ValidTriple(t) && MaybeRemoveKyberPreKey(s, t).1.MarkPending?
    ensures var used := After(s, Uses(t));
            MaybeRemoveKyberPreKey(Commit(used, ok), t).1 ==
              if ok && (forall u :: u in used.pending.triples.Values ==>
                          u.id in used.db.kyberPreKeys && u.id !in used.pending.kyberRemovals && u !in used.db.triples)
              then Duplicate else MarkPending
  {
    UseMeans(s, t);
    UseIsSeen(s, t);
    EventKeepsCoherent(s, Uses(t));
    var used := After(s, Uses(t));
    DuplicateMeansSeen(s, t);
    CommitRefines(used, ok);
    hide Coherent, MaybeRemoveKyberPreKey;
    UseMeans(Commit(used, ok), t);
    DuplicateMeansSeen(Commit(used, ok), t);
    if ok && forall u :: u in used.pending.triples.Values ==>
         u.id in used.db.kyberPreKeys && u.id !in used.pending.kyberRemovals && u !in used.db.triples
    {
      CommitGoesThrough(used);
      assert t in used.pending.triples.Values;
    } else if ok {
      var u :| u in used.pending.triples.Values
               && (u.id !in used.db.kyberPreKeys || u.id in used.pending.kyberRemovals || u in used.db.triples);
      CommitIsRejected(used, ok, u);
    } else {
      CommitIsRejected(used, ok, t);
    }
  }

  /** A one-time prekey is unknown after the first commit that goes through after its use. */
  lemma UsedUp(s: Store, t: Triple)
    requires Coherent(s) && ValidTriple(t) && MaybeRemoveKyberPreKey(s, t).1.RemovalPending?
    requires var used := After(s, Uses(t));
             forall u :: u in used.pending.triples.Values ==>
               u.id in used.db.kyberPreKeys && u.id !in used.pending.kyberRemovals && u !in used.db.triples
    ensures var after := Commit(After(s, Uses(t)), true);
            t.id !in after.db.kyberPreKeys && MaybeRemoveKyberPreKey(after, t).1.NoSuchKey?
  {
    UseMeans(s, t);
    EventKeepsCoherent(s, Uses(t));
    var used := After(s, Uses(t));
    hide Coherent, MaybeRemoveKyberPreKey;
    CommitGoesThrough(used);
    CommitRefines(used, true);
    UseMeans(Commit(used, true), t);
  }

  /**
   A prekey whose removal is only pending can still be used; with the use and the removal
   both pending, the commit is rejected and drops everything that was pending with them.
   */
  lemma RemovalAndUseCannotCommit(s: Store, t: Triple)
    requires Coherent(s) && ValidTriple(t) && MaybeRemoveKyberPreKey(s, t).1.MarkPending?
    requires t.id in s.pending.kyberRemovals
    ensures var after := Commit(After(s, Uses(t)), true); after.db == s.db && after.pending == NOTHING
  {
    UseMeans(s, t);
    EventKeepsCoherent(s, Uses(t));
    hide Coherent, MaybeRemoveKyberPreKey;
    CommitIsRejected(After(s, Uses(t)), true, t);
  }

  /**
   Reverting does not forget a kyber triple: it stays pending, is already rejected as a
   duplicate, and the next commit of any other body writes it.
   */
  lemma RevertedTripleIsCommitted(s: Store, t: Triple)
    requires Coherent(s) && t in s.pending.triples.Values
    requires Acceptable(s.db, Revert(s).pending)
    ensures t !in s.db.triples && t in Commit(Revert(s), true).db.triples
  {
    var k :| k in s.pending.triples && s.pending.triples[k] == t;
    assert Revert(s).pending.triples[k] == t;
  }
}
