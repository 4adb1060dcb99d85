/** What becomes of the writes made under the zone lock. */
module ZoneTransactions {
  import opened Identifiers
  import opened ZoneStore
  import opened ZoneLock

  // ---------------------------------------------------------------- every interleaving

  /** The five collections a revert clears. */
  function Five(p: Pending): Pending {
    p.(triples := map[])
  }

  /** The event hands pending to the writer, or drops it: a flushed write, or the end of the outermost body. */
  predicate Swaps(s: System, e: Event)
    requires Enabled(s, e)
  {
    Flushes(s, e) || (e.Finish? && s.lock.depth == 1)
  }

  /** Event `j` notes a revertible write, and nothing swaps pending out between it and `k`. */
  ghost predicate LastWord(ss: seq<System>, es: seq<Event>, j: nat, k: nat)
    requires Run(ss, es) && k <= |es|
  {
    && j < k && es[j].Put? && !es[j].w.MarkTriple?
    && forall p :: j <= p < k ==> !Swaps(ss[p], es[p])
  }

  lemma NoteFive(p: Pending, w: Write)
    ensures w.MarkTriple? ==> Five(Note(p, w)) == Five(p)
    ensures !w.MarkTriple? ==> Five(Note(p, w)) != NOTHING
  {
    match w
    case PutSession(id, row) => assert id in Note(p, w).sessions;
    case PutSenderKey(id, row) => assert id in Note(p, w).senderKeys;
    case PutUnprocessed(id, envelope) => assert id in Note(p, w).unprocessed;
    case RemovePreKey(id) => assert id in Note(p, w).preKeyRemovals;
    case RemoveKyberPreKey(id) => assert id in Note(p, w).kyberRemovals;
    case MarkTriple(_) =>
  }

  lemma StepFive(s: System, e: Event)
    requires Enabled(s, e) && s.lock.depth == |s.active|
    ensures Swaps(s, e) ==> Five(Step(s, e).store.pending) == NOTHING
    ensures !Swaps(s, e) && !e.Put? ==> Step(s, e).store.pending == s.store.pending
    ensures !Swaps(s, e) && e.Put? ==> Step(s, e).store.pending == Note(s.store.pending, e.w)
  {
    hide Note, Supports, Written, Applied, Left, Calls, Bodies;
  }

  /** In every interleaving: something revertible is pending exactly if a write has had the last word. */
  lemma {:induction false} PendingIsLastWord(ss: seq<System>, es: seq<Event>, k: nat)
    requires Run(ss, es) && Five(ss[0].store.pending) == NOTHING && k <= |es|
    ensures Five(ss[k].store.pending) != NOTHING <==> exists j: nat :: LastWord(ss, es, j, k)
  {
    if k == 0 {
    } else {
      var s, e := ss[k - 1], es[k - 1];
      hide Step, Five, Enabled, Swaps;
      PendingIsLastWord(ss, es, k - 1);
      StepFive(s, e);
      if !Swaps(s, e) {
        if e.Put? {
          NoteFive(s.store.pending, e.w);
        }
        if e.Put? && !e.w.MarkTriple? {
          assert LastWord(ss, es, k - 1, k);
        } else {
          LastWordStays(ss, es, k);
          assert Five(ss[k].store.pending) == Five(s.store.pending);
          if j: nat :| LastWord(ss, es, j, k) {
            assert j < k - 1;
            assert LastWord(ss, es, j, k - 1);
          }
          var before := k - 1;
          if j: nat :| LastWord(ss, es, j, before) {
            assert LastWord(ss, es, j, k);
          }
        }
      }
    }
  }

  lemma LastWordStays(ss: seq<System>, es: seq<Event>, k: nat)
    requires Run(ss, es) && 0 < k <= |es| && !Swaps(ss[k - 1], es[k - 1])
    ensures forall j: nat :: LastWord(ss, es, j, k - 1) ==> LastWord(ss, es, j, k)
    ensures forall j: nat :: LastWord(ss, es, j, k) && j < k - 1 ==> LastWord(ss, es, j, k - 1)
  {
    hide Step, Enabled, Swaps;
  }

  // ---------------------------------------------------------------- when writes are left behind

  predicate Closing(b: Body) {
    b.phase.Committing? || b.phase.Reverting?
  }

  /** The outermost body's batch is being written. */
  predicate InFlight(s: System) {
    exists i :: 0 <= i < |s.active| && s.active[i].phase.Committing? && s.active[i].phase.batch != NOTHING
  }

  /** A call that enters the zone in the middle of its commit. */
  ghost predicate JoinsMidCommit(ss: seq<System>, es: seq<Event>, a: nat)
    requires Run(ss, es)
  {
    a < |es| && es[a].Arrive? && !MustWait(ss[a].lock, es[a].zone) && InFlight(ss[a])
  }

  ghost predicate Joined(ss: seq<System>, es: seq<Event>, k: nat)
    requires Run(ss, es)
  {
    exists a: nat :: a < k && JoinsMidCommit(ss, es, a)
  }

  /** A call entered in the middle of a commit, and after that a write has had the last word. */
  ghost predicate Stranded(ss: seq<System>, es: seq<Event>, k: nat)
    requires Run(ss, es) && k <= |es|
  {
    exists a: nat, j: nat :: a < j && JoinsMidCommit(ss, es, a) && LastWord(ss, es, j, k)
  }

  ghost predicate OneCloses(s: System) {
    forall i, j :: 0 <= i < |s.active| && 0 <= j < |s.active| && Closing(s.active[i]) && Closing(s.active[j]) ==> i == j
  }

  ghost predicate LoneResumerIsClean(s: System) {
    |s.active| == 1 && Resumes(s.active[0]) ==> Five(s.store.pending) == NOTHING
  }

  ghost predicate WindowInv(ss: seq<System>, es: seq<Event>, k: nat)
    requires Run(ss, es) && k <= |es|
  {
    var s := ss[k];
    && LockInv(s) && OneCloses(s) && LoneResumerIsClean(s)
    && (InFlight(s) && |s.active| > 1 ==> Joined(ss, es, k))
    && (InFlight(s) && Five(s.store.pending) != NOTHING ==> Stranded(ss, es, k))
    && (s.lock.current.None? && Five(s.store.pending) != NOTHING ==> Stranded(ss, es, k))
  }

  lemma StrandedStays(ss: seq<System>, es: seq<Event>, k: nat)
    requires Run(ss, es) && 0 < k <= |es|
    ensures Joined(ss, es, k - 1) ==> Joined(ss, es, k)
    ensures Stranded(ss, es, k - 1) && !Swaps(ss[k - 1], es[k - 1]) ==> Stranded(ss, es, k)
  {
    hide Step, Enabled, Swaps, LastWord, JoinsMidCommit;
    if Stranded(ss, es, k - 1) && !Swaps(ss[k - 1], es[k - 1]) {
      var a: nat, j: nat :| a < j && JoinsMidCommit(ss, es, a) && LastWord(ss, es, j, k - 1);
      LastWordStays(ss, es, k);
      assert LastWord(ss, es, j, k);
    }
  }

  /** What a step does to the bodies, as far as closing ones are concerned. */
  lemma ArrivePhases(s: System, e: Event)
    requires LockInv(s) && OneCloses(s) && Enabled(s, e) && e.Arrive?
    ensures var r := Step(s, e);
            && OneCloses(r) && (InFlight(r) <==> InFlight(s)) && r.store == s.store
            && (|r.active| > |s.active| ==> !MustWait(s.lock, e.zone))
            && (|r.active| == 1 ==> r.active == s.active || (s.active == [] && r.active[0].phase.Running?))
            && (|r.active| <= |s.active| ==> r.active == s.active && r.lock.current == s.lock.current)
            && (|r.active| > |s.active| ==> r.lock.current.Some?)
  {
    var r := Step(s, e);
    if !MustWait(s.lock, e.zone) {
      assert forall i :: 0 <= i < |s.active| ==> r.active[i] == s.active[i];
      if InFlight(s) {
        var i :| 0 <= i < |s.active| && s.active[i].phase.Committing? && s.active[i].phase.batch != NOTHING;
        assert r.active[i].phase.Committing?;
      }
    }
  }

  lemma PutPhases(s: System, e: Event)
    requires LockInv(s) && OneCloses(s) && Enabled(s, e) && (e.Put? || e.EndFlush?)
    ensures var r := Step(s, e);
            && OneCloses(r) && (InFlight(r) <==> InFlight(s)) && |r.active| == |s.active| && r.lock == s.lock
            && (|s.active| == 1 ==> !Closing(r.active[0]))
            && (InFlight(s) ==> |s.active| > 1)
  {
    var r := Step(s, e);
    assert forall i :: 0 <= i < |s.active| && i != e.body ==> r.active[i] == s.active[i];
    assert !Closing(r.active[e.body]) && !Closing(s.active[e.body]);
    if InFlight(s) {
      var i :| 0 <= i < |s.active| && s.active[i].phase.Committing? && s.active[i].phase.batch != NOTHING;
      assert i != e.body && r.active[i].phase.Committing?;
    }
  }

  lemma OthersStay(s: System, i: nat)
    requires LockInv(s) && OneCloses(s) && i < |s.active| && s.lock.depth > 1
    ensures var r := Leaving(s, i);
            && r.active == s.active[..i] + s.active[i + 1..] && r.lock.current == s.lock.current && r.store == s.store
            && OneCloses(r) && (InFlight(r) ==> InFlight(s))
            && (Closing(s.active[i]) ==> forall j :: 0 <= j < |r.active| ==> !Closing(r.active[j]))
  {
    var r := Leaving(s, i);
    assert Bodies([]) == [];
    assert r.active == s.active[..i] + s.active[i + 1..];
    assert forall j :: 0 <= j < |r.active| ==> r.active[j] == s.active[if j < i then j else j + 1];
    hide Leaving, LockInv, Closing;
    forall j, l | 0 <= j < |r.active| && 0 <= l < |r.active| && Closing(r.active[j]) && Closing(r.active[l]) ensures j == l {
      assert Closing(s.active[if j < i then j else j + 1]) && Closing(s.active[if l < i then l else l + 1]);
    }
    if InFlight(r) {
      var j :| 0 <= j < |r.active| && r.active[j].phase.Committing? && r.active[j].phase.batch != NOTHING;
      assert s.active[if j < i then j else j + 1].phase.Committing?;
    }
  }

  lemma LastOneLeaves(s: System, i: nat)
    requires LockInv(s) && i < |s.active| && s.lock.depth == 1
    ensures var r := Leaving(s, i);
            OneCloses(r) && !InFlight(r) && r.store == s.store && forall j :: 0 <= j < |r.active| ==> r.active[j].phase.Running?
  {
    hide Calls;
  }

  lemma ArriveKeepsWindow(ss: seq<System>, es: seq<Event>, k: nat)
    requires Run(ss, es) && 0 < k <= |es| && WindowInv(ss, es, k - 1) && es[k - 1].Arrive?
    ensures WindowInv(ss, es, k)
  {
    var s, e := ss[k - 1], es[k - 1];
    StepKeepsLockInv(s, e);
    ArrivePhases(s, e);
    StrandedStays(ss, es, k);
    if InFlight(s) && |ss[k].active| > |s.active| {
      assert JoinsMidCommit(ss, es, k - 1);
    }
    hide Step, Five, OneCloses, InFlight, Stranded, LastWord;
    assert !Swaps(s, e);
  }

  lemma PutKeepsWindow(ss: seq<System>, es: seq<Event>, k: nat)
    requires Run(ss, es) && 0 < k <= |es| && WindowInv(ss, es, k - 1) && (es[k - 1].Put? || es[k - 1].EndFlush?)
    ensures WindowInv(ss, es, k)
  {
    var s, e := ss[k - 1], es[k - 1];
    StepKeepsLockInv(s, e);
    PutPhases(s, e);
    StrandedStays(ss, es, k);
    StepFive(s, e);
    assert s.lock.current.Some?;
    hide Step, OneCloses, InFlight;
    if InFlight(s) && Five(ss[k].store.pending) != NOTHING {
      if e.Put? {
        NoteFive(s.store.pending, e.w);
      }
      if e.Put? && !e.w.MarkTriple? {
        assert LastWord(ss, es, k - 1, k);
        var a: nat :| a < k - 1 && JoinsMidCommit(ss, es, a);
        assert Stranded(ss, es, k);
      } else {
        assert Stranded(ss, es, k - 1);
      }
    }
  }

  lemma FinishKeepsWindow(ss: seq<System>, es: seq<Event>, k: nat)
    requires Run(ss, es) && 0 < k <= |es| && WindowInv(ss, es, k - 1) && es[k - 1].Finish?
    ensures WindowInv(ss, es, k)
  {
    var s, e := ss[k - 1], es[k - 1];
    StepKeepsLockInv(s, e);
    StrandedStays(ss, es, k);
    StepFive(s, e);
    if s.lock.depth > 1 {
      OthersStay(s, e.body);
      hide Leaving, OneCloses, InFlight, Stranded, LastWord;
      assert ss[k] == Leaving(s, e.body);
    }
  }

  lemma CompleteKeepsWindow(ss: seq<System>, es: seq<Event>, k: nat)
    requires Run(ss, es) && 0 < k <= |es| && WindowInv(ss, es, k - 1) && es[k - 1].Complete?
    ensures WindowInv(ss, es, k)
  {
    var s, e := ss[k - 1], es[k - 1];
    StepKeepsLockInv(s, e);
    StrandedStays(ss, es, k);
    StepFive(s, e);
    var i := e.body;
    if s.active[i].phase.Committing? && s.active[i].phase.batch != NOTHING {
      assert InFlight(s);
    }
    CompletePhases(s, e);
    hide Step, Five, OneCloses, InFlight, Stranded, LastWord;
  }

  lemma CompletePhases(s: System, e: Event)
    requires LockInv(s) && OneCloses(s) && Enabled(s, e) && e.Complete?
    ensures var r := Step(s, e);
            && OneCloses(r) && !InFlight(r)
            && (forall j :: 0 <= j < |r.active| ==> !Closing(r.active[j]))
            && (r.lock.current.None? ==> |s.active| == 1)
  {
    var i := e.body;
    hide Written, Applied, Succeeds;
    if s.active[i].phase.Reverting? {
      if s.lock.depth > 1 { OthersStay(s, i); } else { LastOneLeaves(s, i); }
    } else if Succeeds(s.store.db, s.active[i].phase.batch, e.ok) {
      var landed := s.(store := Landed(s.store, s.active[i].phase.batch));
      if s.lock.depth > 1 { OthersStay(landed, i); } else { LastOneLeaves(landed, i); }
    } else {
      assert forall j :: 0 <= j < |s.active| && j != i ==> !Closing(s.active[j]);
    }
  }

  lemma {:induction false} WindowAlways(store: Store, ss: seq<System>, es: seq<Event>, k: nat)
    requires Run(ss, es) && ss[0] == Idle(store) && Five(store.pending) == NOTHING && k <= |es|
    ensures WindowInv(ss, es, k)
  {
    if k == 0 {
      CallsEmpty();
    } else {
      WindowAlways(store, ss, es, k - 1);
      hide WindowInv, Step;
      match es[k - 1]
      case Arrive(_, _) => ArriveKeepsWindow(ss, es, k);
      case Put(_, _) => PutKeepsWindow(ss, es, k);
      case EndFlush(_, _) => PutKeepsWindow(ss, es, k);
      case Finish(_, _) => FinishKeepsWindow(ss, es, k);
      case Complete(_, _) => CompleteKeepsWindow(ss, es, k);
    }
  }

  /**
   Over every interleaving, with the zone free: revertible writes are left behind exactly if
   some call entered the zone in the middle of a commit that had something to write, and
   after that a write was kept pending with no flush and no outermost end after it.
   */
  lemma LeftBehindExactly(store: Store, ss: seq<System>, es: seq<Event>, k: nat)
    requires Run(ss, es) && ss[0] == Idle(store) && Five(store.pending) == NOTHING && k <= |es|
    requires ss[k].lock.current.None?
    ensures Five(ss[k].store.pending) != NOTHING
            <==> exists a: nat, j: nat :: a < j && JoinsMidCommit(ss, es, a) && LastWord(ss, es, j, k)
  {
    WindowAlways(store, ss, es, k);
    PendingIsLastWord(ss, es, k);
  }

  /** So callers are safe that never enter a zone while its commit is being written. */
  lemma NothingLeftWithoutJoining(store: Store, ss: seq<System>, es: seq<Event>, k: nat)
    requires Run(ss, es) && ss[0] == Idle(store) && Five(store.pending) == NOTHING && k <= |es|
    requires ss[k].lock.current.None?
    requires forall a :: 0 <= a < k && es[a].Arrive? && InFlight(ss[a]) ==> MustWait(ss[a].lock, es[a].zone)
    ensures Five(ss[k].store.pending) == NOTHING
  {
    LeftBehindExactly(store, ss, es, k);
  }

  /** And so is the global zone, whatever the interleaving: it keeps no write pending. */
  lemma GlobalZoneLeavesNothing(store: Store, ss: seq<System>, es: seq<Event>, k: nat)
    requires Run(ss, es) && ss[0] == Idle(store) && Five(store.pending) == NOTHING && k <= |es|
    requires forall a :: 0 <= a < |es| && es[a].Arrive? ==> es[a].zone == GLOBAL_ZONE
    ensures Five(ss[k].store.pending) == NOTHING
  {
    PendingIsLastWord(ss, es, k);
    if j: nat :| LastWord(ss, es, j, k) {
      OnlyGlobal(store, ss, es, j);
      assert Swaps(ss[j], es[j]);
    }
  }

  lemma {:induction false} OnlyGlobal(store: Store, ss: seq<System>, es: seq<Event>, k: nat)
    requires Run(ss, es) && ss[0] == Idle(store) && k <= |es|
    requires forall a :: 0 <= a < |es| && es[a].Arrive? ==> es[a].zone == GLOBAL_ZONE
    ensures LockInv(ss[k]) && ss[k].lock.queue == []
    ensures forall i :: 0 <= i < |ss[k].active| ==> ss[k].active[i].zone == GLOBAL_ZONE
  {
    LockInvAlways(store, ss, es, k);
    if k == 0 {
    } else {
      OnlyGlobal(store, ss, es, k - 1);
      OnlyGlobalStep(ss[k - 1], es[k - 1]);
    }
  }

  lemma OnlyGlobalStep(s: System, e: Event)
    requires LockInv(s) && Enabled(s, e) && s.lock.queue == []
    requires forall i :: 0 <= i < |s.active| ==> s.active[i].zone == GLOBAL_ZONE
    requires e.Arrive? ==> e.zone == GLOBAL_ZONE
    ensures Step(s, e).lock.queue == []
    ensures forall i :: 0 <= i < |Step(s, e).active| ==> Step(s, e).active[i].zone == GLOBAL_ZONE
  {
    hide Noted, Landed, Revert, Succeeds, Calls;
    if e.Arrive? && s.lock.current.Some? {
      assert Some(s.active[0].zone) == s.lock.current;
    }
  }

  // ---------------------------------------------------------------- a run that loses a write

  /**
   A body's end starts a commit of its write `v`; another body of the zone enters meanwhile,
   writes `w` and ends first; a body of another zone fails.
   */
  function LosingRun(zone: Zone, other: Zone, v: Write, w: Write): seq<Event> {
    [Arrive(1, zone), Put(0, v), Finish(0, true), Arrive(2, zone), Put(1, w), Finish(1, true), Complete(0, true),
     Arrive(3, other), Finish(0, false), Complete(0, true)]
  }

  function LosingState(store: Store, zone: Zone, other: Zone, v: Write, w: Write, k: nat): System {
    var batch := Note(NOTHING, v);
    var dirty := Noted(store, w);
    var b1, b2, b3 := Body(zone, 1, Running), Body(zone, 2, Running), Body(other, 3, Running);
    var ending := b1.(phase := Phase.Committing(batch));
    match k
    case 0 => Idle(store)
    case 1 => System(Lock(Some(zone), 1, []), [b1], store, [], [])
    case 2 => System(Lock(Some(zone), 1, []), [b1], Noted(store, v), [], [])
    case 3 => System(Lock(Some(zone), 1, []), [ending], store, [], [])
    case 4 => System(Lock(Some(zone), 2, []), [ending, b2], store, [], [])
    case 5 => System(Lock(Some(zone), 2, []), [ending, b2], dirty, [], [])
    case 6 => System(Lock(Some(zone), 1, []), [ending], dirty, [], [])
    case 7 => System(UNLOCKED, [], Landed(dirty, batch), [], [])
    case 8 => System(Lock(Some(other), 1, []), [b3], Landed(dirty, batch), [], [])
    case 9 => System(Lock(Some(other), 1, []), [b3.(phase := Phase.Reverting)], Landed(store, batch), [], [])
    case _ => Idle(Landed(store, batch))
  }

  predicate Losable(store: Store, zone: Zone, other: Zone, v: Write, w: Write) {
    store.pending == NOTHING && zone != other && zone.supportsSessions && v.PutSession? && w.PutSession?
  }

  lemma NobodyWoken()
    ensures Calls([]) == [] && Bodies([]) == []
  {
  }

  lemma LosingStepsIn(store: Store, zone: Zone, other: Zone, v: Write, w: Write, k: nat)
    requires Losable(store, zone, other, v, w) && k < 5
    ensures var s, e := LosingState(store, zone, other, v, w, k), LosingRun(zone, other, v, w)[k];
            s.lock.depth == |s.active| && Enabled(s, e) && Step(s, e) == LosingState(store, zone, other, v, w, k + 1)
  {
    hide Landed, Note;
    if k == 0 {
    } else if k == 1 {
    } else if k == 2 {
      assert Noted(store, v).(pending := NOTHING) == store;
    }
  }

  lemma BatchIsThere(store: Store, v: Write)
    requires v.PutSession?
    ensures Note(NOTHING, v) != NOTHING && Succeeds(store.db, Note(NOTHING, v), true)
  {
    assert v.id in Note(NOTHING, v).sessions;
  }

  lemma LosingFinish(store: Store, zone: Zone, other: Zone, v: Write, w: Write)
    requires Losable(store, zone, other, v, w)
    ensures var s, e := LosingState(store, zone, other, v, w, 5), LosingRun(zone, other, v, w)[5];
            s.lock.depth == |s.active| && Enabled(s, e) && Step(s, e) == LosingState(store, zone, other, v, w, 6)
  {
    BatchIsThere(store, v);
    NobodyWoken();
    hide Noted, Note, Landed, Calls, Bodies, Succeeds;
  }

  lemma LosingComplete(store: Store, zone: Zone, other: Zone, v: Write, w: Write)
    requires Losable(store, zone, other, v, w)
    ensures var s, e := LosingState(store, zone, other, v, w, 6), LosingRun(zone, other, v, w)[6];
            s.lock.depth == |s.active| && Enabled(s, e) && Step(s, e) == LosingState(store, zone, other, v, w, 7)
  {
    BatchIsThere(Noted(store, w), v);
    NobodyWoken();
    hide Noted, Note, Landed, Calls, Bodies, Succeeds;
  }

  lemma LosingStepsOther(store: Store, zone: Zone, other: Zone, v: Write, w: Write, k: nat)
    requires Losable(store, zone, other, v, w) && 7 <= k < 10
    ensures var s, e := LosingState(store, zone, other, v, w, k), LosingRun(zone, other, v, w)[k];
            s.lock.depth == |s.active| && Enabled(s, e) && Step(s, e) == LosingState(store, zone, other, v, w, k + 1)
  {
    var batch := Note(NOTHING, v);
    assert Revert(Landed(Noted(store, w), batch)) == Landed(store, batch);
    hide Noted, Note, Landed, Calls, Bodies;
    NobodyWoken();
  }

  /**
   That does happen: a body entering while another's write is awaited, and finishing first,
   is not the outermost one and commits nothing; its write outlives the lock and is dropped
   when an unrelated body fails, although both bodies of its own zone succeeded.
   */
  lemma SucceededWriteCanBeLost(store: Store, zone: Zone, other: Zone, kept: RowId, keptRow: Row, lost: RowId, lostRow: Row)
    requires store.pending == NOTHING && zone != other && zone.supportsSessions
    ensures exists ss: seq<System> ::
              && Run(ss, LosingRun(zone, other, PutSession(kept, keptRow), PutSession(lost, lostRow)))
              && ss[0] == Idle(store)
              && ss[7].lock == UNLOCKED && lost in ss[7].store.pending.sessions
              && ss[10].lock == UNLOCKED && ss[10].store.pending == NOTHING
              && ss[10].store.db.sessions == store.db.sessions[kept := keptRow]
  {
    var v, w := PutSession(kept, keptRow), PutSession(lost, lostRow);
    var es := LosingRun(zone, other, v, w);
    var ss := seq(11, k requires 0 <= k < 11 => LosingState(store, zone, other, v, w, k));
    forall k | 0 <= k < 10
      ensures ss[k].lock.depth == |ss[k].active| && Enabled(ss[k], es[k]) && ss[k + 1] == Step(ss[k], es[k])
    {
      hide Step, Enabled, LosingState;
      if k < 5 {
        LosingStepsIn(store, zone, other, v, w, k);
      } else if k == 5 {
        LosingFinish(store, zone, other, v, w);
      } else if k == 6 {
        LosingComplete(store, zone, other, v, w);
      } else {
        LosingStepsOther(store, zone, other, v, w, k);
      }
    }
    LosingEnds(store, v, w);
    hide Step, Enabled, Landed, Noted, Note;
    assert Run(ss, es);
  }

  lemma LosingEnds(store: Store, v: Write, w: Write)
    requires store.pending == NOTHING && v.PutSession? && w.PutSession?
    ensures w.id in Landed(Noted(store, w), Note(NOTHING, v)).pending.sessions
    ensures Landed(store, Note(NOTHING, v)).pending == NOTHING
    ensures Landed(store, Note(NOTHING, v)).db.sessions == store.db.sessions[v.id := v.row]
  {
  }

  // ---------------------------------------------------------------- with every commit one step

  /** The same machine with each awaited commit, flush or revert completing at once. */
  datatype Whole =
    | Call(call: CallId, zone: Zone)
    | Do(body: nat, w: Write, ok: bool)
    | Settle(body: nat, success: bool, ok: bool)

  predicate Possible(s: System, c: Whole) {
    match c
    case Call(_, _) => true
    case Do(i, w, _) => Enabled(s, Put(i, w))
    case Settle(i, success, _) => Enabled(s, Finish(i, success))
  }

  function WholeStep(s: System, c: Whole): System
    requires s.lock.depth == |s.active| && Possible(s, c)
  {
    match c
    case Call(call, zone) => Step(s, Arrive(call, zone))
    case Do(i, w, ok) =>
      var noted := Step(s, Put(i, w));
      if Supports(s.active[i].zone, w) then noted else Step(noted, EndFlush(i, ok))
    case Settle(i, success, ok) =>
      var ended := Step(s, Finish(i, success));
      if s.lock.depth > 1 then ended else Step(ended, Complete(i, ok))
  }

  ghost predicate WholeRun(ss: seq<System>, cs: seq<Whole>) {
    && |ss| == |cs| + 1
    && forall i :: 0 <= i < |cs| ==> ss[i].lock.depth == |ss[i].active| && Possible(ss[i], cs[i]) && ss[i + 1] == WholeStep(ss[i], cs[i])
  }

  /** No revertible write is left while the zone is free, and caches agree with the database. */
  ghost predicate WholeInv(s: System) {
    && LockInv(s)
    && Coherent(s.store)
    && (s.lock.current.None? ==> Five(s.store.pending) == NOTHING)
    && (forall i :: 0 <= i < |s.active| ==> s.active[i].phase.Running? || s.active[i].phase.Stuck?)
    && (AnyStuck(s) ==> s.lock.current.Some?)
  }

  /** Swapping pending out and landing it at once is the commit of the store. */
  lemma SwapThenLand(store: Store, ok: bool)
    ensures var batch, swapped := store.pending, store.(pending := NOTHING);
            (if Succeeds(swapped.db, batch, ok) then Landed(swapped, batch) else swapped) == Commit(store, ok)
  {
  }

  lemma ValidWhole(s: System, c: Whole)
    requires WholeInv(s) && Possible(s, c) && (c.Do? ==> ValidWrite(c.w))
    ensures Coherent(WholeStep(s, c).store)
    ensures WholeStep(s, c).store ==
      match c
      case Call(_, _) => s.store
      case Do(i, w, ok) =>
        if Supports(s.active[i].zone, w) then Noted(s.store, w) else Commit(Noted(s.store, w), ok)
      case Settle(_, success, ok) =>
        if s.lock.depth > 1 then s.store else if success then Commit(s.store, ok) else Revert(s.store)
  {
    hide Coherent, Commit, Landed, Succeeds, LockInv;
    assert s.lock.depth == |s.active| by { DepthIsExact(s); }
    match c
    case Call(_, _) =>
    case Do(i, w, ok) =>
      WriteRefines(s.store, w);
      SwapThenLand(Noted(s.store, w), ok);
      CommitRefines(Noted(s.store, w), ok);
    case Settle(i, success, ok) =>
      SwapThenLand(s.store, ok);
      CommitRefines(s.store, ok);
      RevertRefines(s.store);
  }

  lemma DepthIsExact(s: System)
    requires LockInv(s)
    ensures s.lock.depth == |s.active|
  {
  }

  lemma WholeStepKeepsLockInv(s: System, c: Whole)
    requires LockInv(s) && Possible(s, c)
    ensures LockInv(WholeStep(s, c))
  {
    hide LockInv;
    DepthIsExact(s);
    match c
    case Call(call, zone) => StepKeepsLockInv(s, Arrive(call, zone));
    case Do(i, w, ok) =>
      StepKeepsLockInv(s, Put(i, w));
      if !Supports(s.active[i].zone, w) {
        StepKeepsLockInv(Step(s, Put(i, w)), EndFlush(i, ok));
      }
    case Settle(i, success, ok) =>
      StepKeepsLockInv(s, Finish(i, success));
      if s.lock.depth <= 1 {
        StepKeepsLockInv(Step(s, Finish(i, success)), Complete(i, ok));
      }
  }

  lemma WholePhases(s: System, c: Whole)
    requires WholeInv(s) && Possible(s, c)
    ensures var r := WholeStep(s, c);
            forall i :: 0 <= i < |r.active| ==> r.active[i].phase.Running? || r.active[i].phase.Stuck?
  {
    hide Coherent, Landed, Succeeds, Noted, Revert, Calls;
  }

  lemma CommitLeavesNothing(store: Store, ok: bool)
    ensures Five(Commit(store, ok).pending) == NOTHING && Five(Revert(store).pending) == NOTHING
  {
  }

  lemma WholeStepKeepsInv(s: System, c: Whole)
    requires WholeInv(s) && Possible(s, c) && (c.Do? ==> ValidWrite(c.w))
    ensures WholeInv(WholeStep(s, c))
  {
    WholeStepKeepsLockInv(s, c);
    WholePhases(s, c);
    ValidWhole(s, c);
    ReleasedMeans(s, c);
    if c.Settle? {
      CommitLeavesNothing(s.store, c.ok);
    }
    hide Coherent, WholeStep;
    var r := WholeStep(s, c);
    if AnyStuck(r) {
      assert |r.active| > 0;
    }
  }

  /** The zone is free after a step only if it was free before, or the one body left settled. */
  lemma ReleasedMeans(s: System, c: Whole)
    requires LockInv(s) && Possible(s, c)
    ensures WholeStep(s, c).lock.current.None? ==> c.Settle? && s.lock.depth == 1
  {
    hide Landed, Succeeds, Noted, Revert, Calls;
  }

  /**
   Over all runs in which each commit completes in one step: whenever no zone is held,
   nothing is pending in any of the five revertible collections; and the caches always hold
   exactly the rows of the database.
   */
  lemma {:induction false} NothingPendingWhenFree(store: Store, ss: seq<System>, cs: seq<Whole>, k: nat)
    requires WholeRun(ss, cs) && ss[0] == Idle(store) && Coherent(store) && Five(store.pending) == NOTHING
    requires forall i :: 0 <= i < |cs| && cs[i].Do? ==> ValidWrite(cs[i].w)
    requires k < |ss|
    ensures WholeInv(ss[k])
  {
    if k == 0 {
      CallsEmpty();
    } else {
      NothingPendingWhenFree(store, ss, cs, k - 1);
      hide WholeInv, WholeStep;
      WholeStepKeepsInv(ss[k - 1], cs[k - 1]);
    }
  }

  // ---------------------------------------------------------------- the last body decides

  function WritesOf(cs: seq<Whole>): seq<Write>
    decreases |cs|
  {
    if cs == [] then []
    else
      var before, c := WritesOf(cs[..|cs| - 1]), cs[|cs| - 1];
      if c.Do? then before + [c.w] else before
  }

  /** The zone stays held: every write is kept pending, and no settling body is the last one in. */
  ghost predicate Held(ss: seq<System>, cs: seq<Whole>) {
    && WholeRun(ss, cs)
    && forall i :: 0 <= i < |cs| ==>
         && (cs[i].Settle? ==> ss[i].lock.depth > 1)
         && (cs[i].Do? ==> ValidWrite(cs[i].w) && Supports(ss[i].active[cs[i].body].zone, cs[i].w))
  }

  lemma {:induction false} HeldAccumulates(ss: seq<System>, cs: seq<Whole>, k: nat)
    requires Held(ss, cs) && WholeInv(ss[0]) && Five(ss[0].store.pending) == NOTHING && k <= |cs|
    ensures WholeInv(ss[k]) && ss[k].store.db == ss[0].store.db
    ensures Tentative(ss[k].store) == Replay(Committed(ss[0].store), WritesOf(cs[..k]))
  {
    if k == 0 {
      EmptyPendingView(ss[0].store);
    } else {
      HeldAccumulates(ss, cs, k - 1);
      var s, c := ss[k - 1], cs[k - 1];
      assert cs[..k][..k - 1] == cs[..k - 1];
      WholeStepKeepsInv(s, c);
      ValidWhole(s, c);
      hide WholeInv, WholeStep, Coherent;
      assert cs[..k][k - 1] == c;
      if c.Do? {
        WholeIsCoherent(s);
        WriteRefines(s.store, c.w);
        var ws := WritesOf(cs[..k]);
        assert ws[..|ws| - 1] == WritesOf(cs[..k - 1]);
      }
    }
  }

  lemma WholeIsCoherent(s: System)
    requires WholeInv(s)
    ensures Coherent(s.store)
  {
  }

  /**
   One occupancy of the zone, from free or from its last flush to the last body's end, with
   any bodies of the zone overlapping in between: if the last body succeeds and its commit
   goes through, the database ends up with every write of every body, those of bodies that failed included,
   in order; if the last body fails, with none of them.
   */
  lemma LastBodyDecides(ss: seq<System>, cs: seq<Whole>, body: nat, success: bool)
    requires Held(ss, cs) && WholeInv(ss[0]) && Five(ss[0].store.pending) == NOTHING
    requires var s := ss[|cs|]; s.lock.depth == |s.active| == 1 && Possible(s, Settle(body, success, true))
    requires success ==> Succeeds(ss[|cs|].store.db, ss[|cs|].store.pending, true)
    ensures var end := WholeStep(ss[|cs|], Settle(body, success, true));
            && Committed(end.store) == (if success then Replay(Committed(ss[0].store), WritesOf(cs)) else Committed(ss[0].store))
            && Tentative(end.store) == Committed(end.store)
            && Coherent(end.store)
  {
    HeldAccumulates(ss, cs, |cs|);
    assert cs[..|cs|] == cs;
    var s := ss[|cs|];
    ValidWhole(s, Settle(body, success, true));
    CommitRefines(s.store, true);
    RevertRefines(s.store);
  }
}
