/**
 The re-entrant zone lock as a step machine. Every await is a step boundary: a body's
 end and the commit or revert that follows it are separate steps, and so are a write in a
 zone that cannot keep it pending and the landing of that write; any other event may fall
 between them.
 */
module ZoneLock {
  import opened Identifiers
  import opened ZoneStore

  /** Zones are compared by identity. */
  datatype Zone = Zone(
    identity: nat,
    supportsKyberPreKeys: bool,
    supportsPreKeys: bool,
    supportsSenderKeys: bool,
    supportsSessions: bool,
    supportsUnprocessed: bool)

  const GLOBAL_ZONE := Zone(0, false, false, false, false, false)

  type CallId = nat

  datatype Waiter = Waiter(zone: Zone, call: CallId)

  datatype Lock = Lock(current: Option<Zone>, depth: nat, queue: seq<Waiter>)

  const UNLOCKED := Lock(None, 0, [])

  function Entered(l: Lock, zone: Zone): Lock {
    Lock(if l.depth == 0 then Some(zone) else l.current, l.depth + 1, l.queue)
  }

  predicate MustWait(l: Lock, zone: Zone) {
    l.current.Some? && l.current.value != zone
  }

  /** How many waiters at the front of the queue are for the same zone as the first. */
  function BatchLength(queue: seq<Waiter>): (n: nat)
    ensures n <= |queue| && (queue != [] ==> n > 0)
    ensures forall i :: 0 <= i < n ==> queue[i].zone == queue[0].zone
    ensures n < |queue| ==> queue[n].zone != queue[0].zone
  {
    if queue == [] then 0
    else if |queue| == 1 || queue[1].zone != queue[0].zone then 1
    else 1 + BatchLength(queue[1..])
  }

  /** Leaving; the last one out wakes the batch at the front of the queue, which enters at once. */
  function Left(l: Lock): (Lock, seq<Waiter>)
    requires l.depth > 0
  {
    if l.depth > 1 then (l.(depth := l.depth - 1), [])
    else if l.queue == [] then (UNLOCKED, [])
    else
      var n := BatchLength(l.queue);
      (Lock(Some(l.queue[0].zone), n, l.queue[n..]), l.queue[..n])
  }

  // ---------------------------------------------------------------- the machine

  /** Where an entered body stands; a body whose commit threw never leaves. */
  datatype Phase =
    | Running
    | Flushing(batch: Pending)
    | Committing(batch: Pending)
    | Reverting
    | Stuck

  datatype Body = Body(zone: Zone, call: CallId, phase: Phase)

  /** The whole system. `waited` and `woken` log the calls that had to queue and those woken. */
  datatype System = System(
    lock: Lock,
    active: seq<Body>,
    store: Store,
    waited: seq<CallId>,
    woken: seq<CallId>)

  function Idle(store: Store): System {
    System(UNLOCKED, [], store, [], [])
  }

  datatype Event =
    | Arrive(call: CallId, zone: Zone)
    | Put(body: nat, w: Write)
    | EndFlush(body: nat, ok: bool)
    | Finish(body: nat, success: bool)
    | Complete(body: nat, ok: bool)

  /** Does the zone keep such a write pending, or has it to be written at once? */
  predicate Supports(zone: Zone, w: Write) {
    match w
    case PutSession(_, _) => zone.supportsSessions
    case PutSenderKey(_, _) => zone.supportsSenderKeys
    case PutUnprocessed(_, _) => zone.supportsUnprocessed
    case RemovePreKey(_) => zone.supportsPreKeys
    case RemoveKyberPreKey(_) => zone.supportsKyberPreKeys
    case MarkTriple(_) => zone.supportsKyberPreKeys
  }

  /** Nothing is awaited but a resolved promise: the body goes on before any that entered after it can end. */
  predicate Resumes(b: Body) {
    b.phase.Reverting? || (b.phase.Committing? && b.phase.batch == NOTHING)
  }

  predicate Enabled(s: System, e: Event) {
    match e
    case Arrive(_, _) => true
    case Put(i, _) => i < |s.active| && s.active[i].phase.Running?
    case EndFlush(i, _) => i < |s.active| && s.active[i].phase.Flushing?
    case Finish(i, _) =>
      && i < |s.active| && s.active[i].phase.Running?
      && forall j :: 0 <= j < |s.active| ==> !Resumes(s.active[j])
    case Complete(i, _) => i < |s.active| && (s.active[i].phase.Committing? || s.active[i].phase.Reverting?)
  }

  function Calls(ws: seq<Waiter>): (r: seq<CallId>)
    ensures |r| == |ws|
    ensures forall i :: 0 <= i < |ws| ==> r[i] == ws[i].call
  {
    seq(|ws|, i requires 0 <= i < |ws| => ws[i].call)
  }

  function Bodies(ws: seq<Waiter>): (r: seq<Body>)
    ensures |r| == |ws|
    ensures forall i :: 0 <= i < |ws| ==> r[i] == Body(ws[i].zone, ws[i].call, Running)
  {
    seq(|ws|, i requires 0 <= i < |ws| => Body(ws[i].zone, ws[i].call, Running))
  }

  function InPhase(s: System, i: nat, phase: Phase): System
    requires i < |s.active|
  {
    s.(active := s.active[i := s.active[i].(phase := phase)])
  }

  function Leaving(s: System, i: nat): System
    requires i < |s.active| && s.lock.depth > 0
  {
    var (lock, batch) := Left(s.lock);
    s.(lock := lock, active := s.active[..i] + s.active[i + 1..] + Bodies(batch), woken := s.woken + Calls(batch))
  }

  /** Pending is handed to the writer; an empty commit writes nothing. */
  function SwappedOut(s: System): System {
    s.(store := s.store.(pending := NOTHING))
  }

  /** The awaited write of a batch that was swapped out earlier. */
  function Landed(store: Store, batch: Pending): Store {
    store.(db := Written(store.db, batch), caches := Applied(store.caches, batch))
  }

  function Step(s: System, e: Event): System
    requires Enabled(s, e) && s.lock.depth == |s.active|
  {
    match e
    case Arrive(call, zone) =>
      if MustWait(s.lock, zone)
      then s.(lock := s.lock.(queue := s.lock.queue + [Waiter(zone, call)]), waited := s.waited + [call])
      else s.(lock := Entered(s.lock, zone), active := s.active + [Body(zone, call, Running)])
    case Put(i, w) =>
      var noted := s.(store := Noted(s.store, w));
      if Supports(s.active[i].zone, w) then noted else InPhase(SwappedOut(noted), i, Flushing(noted.store.pending))
    case EndFlush(i, ok) =>
      var batch := s.active[i].phase.batch;
      var settled := if Succeeds(s.store.db, batch, ok) then s.(store := Landed(s.store, batch)) else s;
      InPhase(settled, i, Running)
    case Finish(i, success) =>
      if s.lock.depth > 1 then Leaving(s, i)
      else if success then InPhase(SwappedOut(s), i, Committing(s.store.pending))
      else InPhase(s.(store := Revert(s.store)), i, Reverting)
    case Complete(i, ok) =>
      if s.active[i].phase.Reverting? then Leaving(s, i)
      else
        var batch := s.active[i].phase.batch;
        if Succeeds(s.store.db, batch, ok) then Leaving(s.(store := Landed(s.store, batch)), i)
        else InPhase(s, i, Stuck)
  }

  // ---------------------------------------------------------------- the lock's invariant

  ghost predicate LockInv(s: System) {
    && s.lock.depth == |s.active|
    && (s.lock.current.Some? <==> s.lock.depth > 0)
    && (forall i :: 0 <= i < |s.active| ==> Some(s.active[i].zone) == s.lock.current)
    && (s.lock.queue != [] ==> s.lock.current.Some? && s.lock.queue[0].zone != s.lock.current.value)
    && s.waited == s.woken + Calls(s.lock.queue)
  }

  lemma CallsSplit(ws: seq<Waiter>, n: nat)
    requires n <= |ws|
    ensures Calls(ws) == Calls(ws[..n]) + Calls(ws[n..])
  {
  }

  lemma CallsEmpty()
    ensures Calls([]) == []
  {
  }

  lemma LeavingKeepsLockInv(s: System, i: nat)
    requires LockInv(s) && i < |s.active|
    ensures LockInv(Leaving(s, i))
  {
    hide Calls;
    var queue := s.lock.queue;
    CallsEmpty();
    if s.lock.depth > 1 {
      assert s.woken + [] == s.woken;
    } else if queue == [] {
      assert s.woken + [] == s.woken;
    } else {
      var n := BatchLength(queue);
      CallsSplit(queue, n);
      assert s.waited == s.woken + Calls(queue[..n]) + Calls(queue[n..]);
    }
  }

  /** Every step keeps the invariant: one zone at a time, exact depth, first in first out. */
  lemma StepKeepsLockInv(s: System, e: Event)
    requires LockInv(s) && Enabled(s, e)
    ensures LockInv(Step(s, e))
  {
    match e
    case Arrive(call, zone) =>
      if MustWait(s.lock, zone) {
        assert Calls(s.lock.queue + [Waiter(zone, call)]) == Calls(s.lock.queue) + [call];
      }
    case Put(_, _) =>
    case EndFlush(_, _) =>
    case Finish(i, _) => if s.lock.depth > 1 { LeavingKeepsLockInv(s, i); }
    case Complete(i, ok) =>
      if s.active[i].phase.Reverting? {
        LeavingKeepsLockInv(s, i);
      } else {
        LeavingKeepsLockInv(s.(store := Landed(s.store, s.active[i].phase.batch)), i);
      }
  }

  /** A run is a sequence of systems, each following from the one before by an enabled event. */
  ghost predicate Run(ss: seq<System>, es: seq<Event>) {
    && |ss| == |es| + 1
    && forall i :: 0 <= i < |es| ==> ss[i].lock.depth == |ss[i].active| && Enabled(ss[i], es[i]) && ss[i + 1] == Step(ss[i], es[i])
  }

  /**
   In every interleaving of calls, nested or overlapping: the active bodies are of one zone,
   the depth is their number, the zone is set exactly when the depth is positive, a queue
   means the lock is held and its head waits for another zone, and calls are woken in the
   order they queued, each once.
   */
  lemma {:induction false} LockInvAlways(store: Store, ss: seq<System>, es: seq<Event>, k: nat)
    requires Run(ss, es) && ss[0] == Idle(store) && k < |ss|
    ensures LockInv(ss[k])
  {
    if k == 0 {
      assert Calls([]) == [];
    } else {
      LockInvAlways(store, ss, es, k - 1);
      hide LockInv;
      StepKeepsLockInv(ss[k - 1], es[k - 1]);
    }
  }

  /**
   A call for a free lock, or for the zone already held, enters at once, whoever is queued: a
   body may always make a nested call for its own zone. A call for another zone goes to the
   end of the queue, and nobody inside is touched.
   */
  lemma OwnZoneEntersAtOnce(s: System, call: CallId, zone: Zone)
    requires LockInv(s)
    ensures var r := Step(s, Arrive(call, zone));
            && r.store == s.store && r.woken == s.woken
            && if s.lock.current == None || s.lock.current == Some(zone)
               then r.active == s.active + [Body(zone, call, Running)] && r.lock.current == Some(zone)
                    && r.lock.queue == s.lock.queue && r.waited == s.waited
               else r.active == s.active && r.lock.current == s.lock.current
                    && r.lock.queue == s.lock.queue + [Waiter(zone, call)] && r.waited == s.waited + [call]
  {
  }

  /**
   A body that leaves takes only itself out. A wake-up enters the longest run of same-zone
   waiters at the front, each as a running body, and only when nobody is left.
   */
  lemma WakesMaximalBatch(s: System, i: nat)
    requires LockInv(s) && i < |s.active|
    ensures var r := Leaving(s, i); var n := |s.lock.queue| - |r.lock.queue|;
            && n >= 0 && r.lock.queue == s.lock.queue[n..]
            && r.woken == s.woken + Calls(s.lock.queue[..n])
            && (s.lock.depth > 1 || s.lock.queue == [] <==> n == 0)
            && (forall j :: 0 <= j < n ==> Some(s.lock.queue[j].zone) == r.lock.current)
            && (n > 0 && r.lock.queue != [] ==> Some(r.lock.queue[0].zone) != r.lock.current)
            && |r.active| == |s.active| - 1 + n
            && (forall j :: 0 <= j < |s.active| - 1 ==> r.active[j] == s.active[if j < i then j else j + 1])
            && (forall j :: 0 <= j < n ==>
                  r.active[|s.active| - 1 + j] == Body(s.lock.queue[j].zone, s.lock.queue[j].call, Running))
  {
    assert s.lock.queue[0..] == s.lock.queue && s.lock.queue[..0] == [];
    assert Calls([]) == [];
  }

  /** An end that is not the outermost touches no data; no end touches the database but a landing commit. */
  lemma InnerEndsTouchNothing(s: System, e: Event)
    requires LockInv(s) && Enabled(s, e) && e.Finish?
    ensures s.lock.depth > 1 ==> Step(s, e).store == s.store && |Step(s, e).active| == |s.active| - 1
    ensures Step(s, e).store.db == s.store.db && Step(s, e).store.caches == s.store.caches
    ensures s.lock.depth == 1 && e.success ==>
              Step(s, e).active == [s.active[0].(phase := Committing(s.store.pending))] && Step(s, e).store.pending == NOTHING
    ensures s.lock.depth == 1 && !e.success ==> Step(s, e).active == [s.active[0].(phase := Reverting)]
  {
    hide Calls;
    assert Bodies([]) == [];
  }

  /**
   The end of an awaited commit, flush or revert. What was handed over lands whole, beside
   whatever has become pending since, if the database takes it; a commit that does not go
   through leaves everything as it is and its body inside for good.
   */
  lemma AwaitedEndMeans(s: System, e: Event)
    requires LockInv(s) && Enabled(s, e) && (e.Complete? || e.EndFlush?)
    ensures var phase := s.active[e.body].phase; var r := Step(s, e);
            && (phase.Reverting? ==> r == Leaving(s, e.body) && r.store == s.store)
            && (!phase.Reverting? && Succeeds(s.store.db, phase.batch, e.ok) ==>
                  r.store == Store(Written(s.store.db, phase.batch), Applied(s.store.caches, phase.batch), s.store.pending))
            && (!phase.Reverting? && !Succeeds(s.store.db, phase.batch, e.ok) ==> r.store == s.store)
            && (phase.Flushing? ==> r.lock == s.lock && r.active == s.active[e.body := s.active[e.body].(phase := Running)])
            && (phase.Committing? && !Succeeds(s.store.db, phase.batch, e.ok) ==>
                  r.lock == s.lock && r.active == s.active[e.body := s.active[e.body].(phase := Stuck)])
            && (phase.Committing? && Succeeds(s.store.db, phase.batch, e.ok) ==>
                  (r.lock, r.active) == (Leaving(s, e.body).lock, Leaving(s, e.body).active))
  {
    hide Written, Applied, Succeeds, Calls, Bodies;
  }

  /** A body that leaves while another is inside leaves it there. */
  lemma LeavingOthers(s: System, b: nat, i: nat)
    requires LockInv(s) && b < |s.active| && i < |s.active| && i != b
    ensures Leaving(s, b).lock.current == s.lock.current && s.active[i] in Leaving(s, b).active
  {
    hide Calls;
    assert Bodies([]) == [];
    var rest := s.active[..b] + s.active[b + 1..];
    assert rest[if i < b then i else i - 1] == s.active[i];
    assert Leaving(s, b).active == rest;
  }

  /** A stuck body never gets out, and its zone stays held. */
  lemma StuckForGood(s: System, e: Event, i: nat)
    requires LockInv(s) && Enabled(s, e) && i < |s.active| && s.active[i].phase.Stuck?
    ensures s.active[i] in Step(s, e).active && Step(s, e).lock.current == s.lock.current
  {
    match e
    case Arrive(_, _) =>
      assert Step(s, e).active[i] == s.active[i];
    case Put(b, w) =>
      assert Step(s, e).active[i] == s.active[i];
    case EndFlush(b, ok) =>
      hide Succeeds, Landed;
      assert Step(s, e).active[i] == s.active[i];
    case Finish(b, success) =>
      LeavingOthers(s, b, i);
      hide Leaving;
      assert s.lock.depth > 1;
    case Complete(b, ok) =>
      LeavingOthers(s, b, i);
      StuckStays(s, e, i);
  }

  lemma StuckStays(s: System, e: Event, i: nat)
    requires LockInv(s) && Enabled(s, e) && e.Complete? && i < |s.active| && i != e.body
    requires s.active[i] in Leaving(s, e.body).active && Leaving(s, e.body).lock.current == s.lock.current
    ensures s.active[i] in Step(s, e).active && Step(s, e).lock.current == s.lock.current
  {
    hide Succeeds, Landed, Calls, Bodies;
    if Step(s, e).lock == s.lock {
      assert |Step(s, e).active| == |s.active| ==> Step(s, e).active[i] == s.active[i];
    }
  }

  // ---------------------------------------------------------------- progress

  function Weight(b: Body): nat {
    match b.phase
    case Running => 2
    case Flushing(_) => 3
    case Committing(_) => 1
    case Reverting => 1
    case Stuck => 0
  }

  function Weights(bs: seq<Body>): nat {
    if bs == [] then 0 else Weight(bs[0]) + Weights(bs[1..])
  }

  /** Work left: a waiter still has to be woken and then to finish. */
  function Work(s: System): nat {
    Weights(s.active) + 3 * |s.lock.queue|
  }

  /** An event by which a body that is in, or a write it awaits, comes to an end. */
  predicate Settles(e: Event) {
    e.Finish? || e.Complete? || e.EndFlush?
  }

  /** A write that its zone cannot keep pending. */
  predicate Flushes(s: System, e: Event)
    requires Enabled(s, e)
  {
    e.Put? && !Supports(s.active[e.body].zone, e.w)
  }

  lemma {:induction false} WeightsConcat(a: seq<Body>, b: seq<Body>)
    ensures Weights(a + b) == Weights(a) + Weights(b)
  {
    if a == [] {
      assert a + b == b;
    } else {
      WeightsConcat(a[1..], b);
      assert (a + b)[1..] == a[1..] + b;
    }
  }

  lemma WeightsSplit(bs: seq<Body>, i: nat)
    requires i < |bs|
    ensures Weights(bs) == Weights(bs[..i]) + Weight(bs[i]) + Weights(bs[i + 1..])
  {
    assert bs == bs[..i] + ([bs[i]] + bs[i + 1..]);
    WeightsConcat(bs[..i], [bs[i]] + bs[i + 1..]);
  }

  lemma {:induction false} WokenWeights(ws: seq<Waiter>)
    ensures Weights(Bodies(ws)) == 2 * |ws|
  {
    if ws == [] {
    } else {
      WokenWeights(ws[1..]);
      assert Bodies(ws)[1..] == Bodies(ws[1..]);
    }
  }

  lemma LeavingWork(s: System, i: nat)
    requires LockInv(s) && i < |s.active|
    ensures var n := |s.lock.queue| - |Leaving(s, i).lock.queue|;
            n >= 0 && Work(Leaving(s, i)) == Work(s) - Weight(s.active[i]) - n
  {
    var (lock, batch) := Left(s.lock);
    WeightsSplit(s.active, i);
    WeightsConcat(s.active[..i], s.active[i + 1..]);
    WeightsConcat(s.active[..i] + s.active[i + 1..], Bodies(batch));
    WokenWeights(batch);
  }

  lemma PhaseWork(s: System, i: nat, phase: Phase)
    requires i < |s.active|
    ensures Work(InPhase(s, i, phase)) == Work(s) - Weight(s.active[i]) + Weight(s.active[i].(phase := phase))
  {
    var bs := s.active[i := s.active[i].(phase := phase)];
    WeightsSplit(s.active, i);
    WeightsSplit(bs, i);
    assert bs[..i] == s.active[..i] && bs[i + 1..] == s.active[i + 1..];
  }

  /** Every settling event uses up work; a write adds none, or one step if it is flushed. */
  lemma SettlingProgresses(s: System, e: Event)
    requires LockInv(s) && Enabled(s, e) && !e.Arrive? && GoesThrough(s, e)
    ensures Settles(e) ==> Work(Step(s, e)) < Work(s)
    ensures e.Put? ==> Work(Step(s, e)) == Work(s) + if Flushes(s, e) then 1 else 0
  {
    match e
    case Put(i, w) =>
      if Flushes(s, e) {
        PhaseWork(SwappedOut(s.(store := Noted(s.store, w))), i, Flushing(Noted(s.store, w).pending));
      }
    case EndFlush(i, ok) =>
      var batch := s.active[i].phase.batch;
      PhaseWork(if Succeeds(s.store.db, batch, ok) then s.(store := Landed(s.store, batch)) else s, i, Running);
    case Finish(i, success) =>
      if s.lock.depth > 1 {
        LeavingWork(s, i);
      } else if success {
        PhaseWork(SwappedOut(s), i, Committing(s.store.pending));
      } else {
        PhaseWork(s.(store := Revert(s.store)), i, Reverting);
      }
    case Complete(i, ok) =>
      if s.active[i].phase.Reverting? {
        LeavingWork(s, i);
      } else {
        LeavingWork(s.(store := Landed(s.store, s.active[i].phase.batch)), i);
      }
  }

  predicate AnyStuck(s: System) {
    exists i :: 0 <= i < |s.active| && s.active[i].phase.Stuck?
  }

  /** Unless a commit threw, somebody can always come to an end while anybody is in or waiting. */
  lemma NeverDeadlocked(s: System)
    requires LockInv(s) && !AnyStuck(s) && (s.active != [] || s.lock.queue != [])
    ensures exists e :: Enabled(s, e) && Settles(e)
  {
    assert 0 < |s.active| && !s.active[0].phase.Stuck?;
    if i :| 0 <= i < |s.active| && Resumes(s.active[i]) {
      assert Enabled(s, Complete(i, true)) && Settles(Complete(i, true));
    } else {
      match s.active[0].phase
      case Running => assert Enabled(s, Finish(0, true)) && Settles(Finish(0, true));
      case Flushing(_) => assert Enabled(s, EndFlush(0, true)) && Settles(EndFlush(0, true));
      case Committing(_) => assert Enabled(s, Complete(0, true)) && Settles(Complete(0, true));
      case _ => assert false;
    }
  }

  /** The database accepts the batch, if this event completes a commit. */
  predicate GoesThrough(s: System, e: Event)
    requires Enabled(s, e)
  {
    e.Complete? && s.active[e.body].phase.Committing? ==> Succeeds(s.store.db, s.active[e.body].phase.batch, e.ok)
  }

  /** No new calls, and the commits that end an occupancy go through; bodies write, flush, fail and succeed freely. */
  ghost predicate CalmRun(ss: seq<System>, es: seq<Event>) {
    && Run(ss, es)
    && forall i :: 0 <= i < |es| ==> !es[i].Arrive? && GoesThrough(ss[i], es[i])
  }

  /** How many of the first `k` events settle something. */
  function Settlings(es: seq<Event>, k: nat): nat
    requires k <= |es|
  {
    if k == 0 then 0 else Settlings(es, k - 1) + if Settles(es[k - 1]) then 1 else 0
  }

  /** How many of the first `k` events are writes that are flushed at once. */
  ghost function FlushCount(ss: seq<System>, es: seq<Event>, k: nat): nat
    requires Run(ss, es) && k <= |es|
  {
    if k == 0 then 0 else FlushCount(ss, es, k - 1) + if Flushes(ss[k - 1], es[k - 1]) then 1 else 0
  }

  lemma CalmStep(s: System, e: Event)
    requires LockInv(s) && !AnyStuck(s) && Enabled(s, e) && !e.Arrive? && GoesThrough(s, e)
    ensures LockInv(Step(s, e)) && !AnyStuck(Step(s, e)) && Step(s, e).waited == s.waited
    ensures Work(Step(s, e)) + (if Settles(e) then 1 else 0) <= Work(s) + (if Flushes(s, e) then 1 else 0)
  {
    hide Landed, Noted, Revert, Calls, Work, Weights, Supports;
    StepKeepsLockInv(s, e);
    SettlingProgresses(s, e);
  }

  lemma {:induction false} CalmRunIsBounded(ss: seq<System>, es: seq<Event>, k: nat)
    requires CalmRun(ss, es) && LockInv(ss[0]) && !AnyStuck(ss[0]) && k < |ss|
    ensures LockInv(ss[k]) && !AnyStuck(ss[k]) && ss[k].waited == ss[0].waited
    ensures Work(ss[k]) + Settlings(es, k) <= Work(ss[0]) + FlushCount(ss, es, k)
  {
    if k == 0 {
    } else {
      hide LockInv, AnyStuck, Work, Step, GoesThrough, Flushes;
      CalmRunIsBounded(ss, es, k - 1);
      CalmStep(ss[k - 1], es[k - 1]);
    }
  }

  /**
   If no new calls arrive and the commits at the end of occupancies go through, then whatever
   the order the steps come in and however much the bodies write: at most `Work` events and
   one for each flushed write settle something, and once no body or awaited write can come
   to an end, the zone is free and every call that ever waited has been woken, in order.
   */
  lemma EveryWaiterRuns(ss: seq<System>, es: seq<Event>)
    requires CalmRun(ss, es) && LockInv(ss[0]) && !AnyStuck(ss[0])
    ensures Settlings(es, |es|) <= Work(ss[0]) + FlushCount(ss, es, |es|)
    ensures var last := ss[|es|];
            (forall e :: Enabled(last, e) ==> !Settles(e)) ==>
              last.lock == UNLOCKED && last.active == [] && last.woken == ss[0].waited
  {
    CalmRunIsBounded(ss, es, |es|);
    var last := ss[|es|];
    if forall e :: Enabled(last, e) ==> !Settles(e) {
      if last.active != [] || last.lock.queue != [] {
        NeverDeadlocked(last);
      }
      assert Calls([]) == [];
    }
  }
}
