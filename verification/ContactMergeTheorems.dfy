/** The walk is exactly the closed form, and what follows for callers. */
module ContactMergeTheorems {
  import opened Identifiers
  import opened ContactBook
  import opened ContactMerge
  import opened ContactMergeSteps

  // ---------------------------------------------------------------- the closed form, stage by stage

  function AciMoved(attributes: map<Conversation, Attributes>, t: Conversation, q: Query): map<Conversation, Attributes>
    requires t in attributes
  {
    attributes[t := TakeAci(attributes[t], q)]
  }

  predicate LonePniFound(a: Attributes, q: Query) {
    q.aci.None? && q.e164.None? && q.pni.Some? && HoldsPni(a, q.pni.value)
  }

  lemma GatheredInStages(a: Attributes, q: Query)
    requires q.Valid() && WellKinded(a) && !LonePniFound(a, q)
    requires q.aci.Some? ==> LacksAci(a, q.pni) || a.serviceId == q.aci
    ensures TakePni(TakeNumber(TakeAci(a, q), q), q, q.pni.Some? && HoldsPni(a, q.pni.value)) == Gathered(a, q)
  {
  }

  lemma StrippedInStages(a: Attributes, q: Query)
    requires q.Valid() && WellKinded(a)
    ensures LosePni(LoseNumber(a, q), q) == Stripped(a, q)
  {
  }

  /** The three stages in a row give the closed form. */
  lemma StagesCompose(attributes: map<Conversation, Attributes>, t: Conversation, q: Query, found: Option<Conversation>)
    requires q.Valid() && t in attributes
    requires forall c :: c in attributes ==> WellKinded(attributes[c])
    requires found == Some(t) <==> q.pni.Some? && HoldsPni(attributes[t], q.pni.value)
    requires !LonePniFound(attributes[t], q)
    requires q.aci.Some? ==> LacksAci(attributes[t], q.pni) || attributes[t].serviceId == q.aci
    ensures PniMoved(NumberMoved(AciMoved(attributes, t, q), t, q), t, q, found) == Outcome(attributes, t, q)
  {
    GatheredInStages(attributes[t], q);
    forall c | c in attributes && c != t
      ensures LosePni(LoseNumber(attributes[c], q), q) == Stripped(attributes[c], q)
    {
      StrippedInStages(attributes[c], q);
    }
  }

  // ---------------------------------------------------------------- choosing or making the target

  /** A fresh object under a fresh id, ready to become a conversation of the book. */
  ghost predicate Unborn(b: Book, created: Conversation) {
    created !in b.attributes && created.id.ConversationId? && created.id !in b.byId
  }

  lemma HoldersFound(b: Book, q: Query)
    requires Consistent(b) && q.Valid()
    ensures NumberHeldBy(b.attributes, q, Get(b, q.e164))
    ensures PniHeldBy(b.attributes, q, Get(b, q.pni))
    ensures q.aci.Some? ==> forall c :: c in b.attributes && b.attributes[c].serviceId == q.aci ==> Get(b, q.aci) == Some(c)
    ensures Get(b, q.aci).Some? ==> Get(b, q.aci).value in b.attributes && b.attributes[Get(b, q.aci).value].serviceId == q.aci
    ensures Get(b, q.pni).Some? ==> q.pni.Some? && HoldsPni(b.attributes[Get(b, q.pni).value], q.pni.value)
    ensures Get(b, q.aci).Some? ==> q.aci.Some?
    ensures Get(b, q.e164).Some? ==> q.e164.Some?
  {
    hide Get, Indexed;
    FindsHolderOf(b, q.aci);
    FindsHolderOf(b, q.e164);
    FindsHolderOf(b, q.pni);
  }

  lemma FindsHolderOf(b: Book, id: Option<Identifier>)
    requires Consistent(b)
    requires id.Some? && id.value.E164? ==> IsE164(id.value)
    ensures forall c :: Get(b, id) == Some(c) <==> id.Some? && Holder(b, c, id.value)
    ensures Get(b, id).Some? ==> id.Some? && Holder(b, Get(b, id).value, id.value)
  {
    hide Get, Consistent;
    if id.None? {
      GetNothing(b);
    } else {
      assert id == Some(id.value);
      forall c ensures Get(b, id) == Some(c) <==> Holder(b, c, id.value) { GetFindsHolder(b, id.value, c); }
      if Get(b, id).Some? {
        GetFindsHolder(b, id.value, Get(b, id).value);
      }
    }
  }

  lemma GetNothing(b: Book)
    ensures Get(b, None).None?
  {
  }

  lemma UnheldIsAbsent(m: Lookup, f: map<Conversation, Option<Identifier>>, v: Option<Identifier>)
    requires Inverse(m, f)
    requires forall c :: c in f && v.Some? ==> f[c] != v
    ensures v.Some? ==> v.value !in m
  {
  }

  /** A conversation made for an identifier nobody has. */
  lemma Created(b: Book, identifier: Identifier, initial: Attributes, created: Conversation)
    requires Consistent(b) && Unborn(b, created)
    requires Get(b, Some(identifier)).None?
    requires initial.groupId.None?
    requires forall c :: c in b.attributes ==> Disjoint(initial, b.attributes[c])
    ensures var r := GetOrCreate(b, identifier, initial, created);
            && r.1 == created && Indexed(r.0) && r.0.attributes == b.attributes[created := initial]
            && r.0.conversations == b.conversations + [created]
  {
    hide Get;
    UnheldIsAbsent(b.byServiceId, ServiceIds(b.attributes), initial.serviceId);
    UnheldIsAbsent(b.byE164, E164s(b.attributes), initial.e164);
    UnheldIsAbsent(b.byPni, Pnis(b.attributes), initial.pni);
    hide Inverse, Add;
    AddKeepsIndex(b, created, initial);
    AddInserts(b, created, initial);
  }

  lemma AlreadyNumbered(b: Book, t: Conversation, q: Query)
    requires t in b.attributes && q.Valid() && q.e164.Some?
    requires b.attributes[t] == BLANK.(e164 := q.e164)
    ensures ApplyChange(b, t, Only(E164Key, q.e164)) == b
  {
  }

  /** An unused ACI goes to the match if it lacks one, and to a new conversation otherwise. */
  lemma TakeUnusedAci(b: Book, q: Query, m: Conversation, created: Conversation)
    requires Consistent(b) && q.Valid() && Unborn(b, created)
    requires q.aci.Some? && Get(b, q.aci).None? && m in b.attributes
    ensures var r := TakeOne(Progress(b, None, [], []), m, Unused(ServiceIdKey, q.aci.value), q.pni, created);
            var made := !LacksAci(b.attributes[m], q.pni);
            var t := if made then created else m;
            var before := if made then b.attributes[created := BLANK] else b.attributes;
            && r.target == Some(t) && r.requests == [] && r.unused == []
            && Indexed(r.book) && r.book.attributes == AciMoved(before, t, q)
            && r.book.conversations == (if made then b.conversations + [created] else b.conversations)
  {
    hide Get, Indexed, ApplyChange;
    HoldersFound(b, q);
    var u := Unused(ServiceIdKey, q.aci.value);
    assert Some(q.aci.value) == q.aci;
    assert CanTake(b.Of(m), u.key, q.pni) <==> LacksAci(b.attributes[m], q.pni);
    if LacksAci(b.attributes[m], q.pni) {
      GiveAci(b, m, q);
    } else {
      var initial := Initial(q.aci.value);
      Created(b, q.aci.value, initial, created);
      var made := GetOrCreate(b, q.aci.value, initial, created).0;
      GiveAci(made, created, q);
      assert made.attributes[created := TakeAci(initial, q)] == AciMoved(b.attributes[created := BLANK], created, q);
    }
  }

  lemma NumberToMatch(b: Book, q: Query, m: Conversation, created: Conversation)
    requires Consistent(b) && q.Valid() && q.e164.Some? && Get(b, q.e164).None? && m in b.attributes
    requires b.attributes[m].e164.None?
    ensures var r := TakeOne(Progress(b, None, [], []), m, Unused(E164Key, q.e164.value), q.pni, created);
            && r.target == Some(m) && r.requests == [] && r.unused == []
            && Indexed(r.book) && r.book.attributes == NumberMoved(b.attributes, m, q)
            && r.book.conversations == b.conversations
  {
    hide Get, Indexed, ApplyChange;
    HoldersFound(b, q);
    assert Some(q.e164.value) == q.e164;
    GiveNumber(b, m, q);
    assert b.attributes[m := TakeNumber(b.attributes[m], q)] == NumberMoved(b.attributes, m, q);
  }

  lemma NumberToCreated(b: Book, q: Query, m: Conversation, created: Conversation)
    requires Consistent(b) && q.Valid() && Unborn(b, created) && q.e164.Some? && Get(b, q.e164).None? && m in b.attributes
    requires b.attributes[m].e164.Some?
    ensures var r := TakeOne(Progress(b, None, [], []), m, Unused(E164Key, q.e164.value), q.pni, created);
            && r.target == Some(created) && r.requests == [] && r.unused == []
            && Indexed(r.book) && r.book.attributes == NumberMoved(b.attributes[created := BLANK], created, q)
            && r.book.conversations == b.conversations + [created]
  {
    hide Get, Indexed, ApplyChange;
    HoldersFound(b, q);
    assert Some(q.e164.value) == q.e164;
    var initial := Initial(q.e164.value);
    Created(b, q.e164.value, initial, created);
    var made := GetOrCreate(b, q.e164.value, initial, created).0;
    AlreadyNumbered(made, created, q);
    assert made.attributes == NumberMoved(b.attributes[created := BLANK], created, q);
  }

  /** An unused number, with no ACI given, goes to the match if it lacks one, and to a new conversation otherwise. */
  lemma TakeUnusedNumber(b: Book, q: Query, m: Conversation, created: Conversation)
    requires Consistent(b) && q.Valid() && Unborn(b, created)
    requires q.e164.Some? && Get(b, q.e164).None? && m in b.attributes
    ensures var r := TakeOne(Progress(b, None, [], []), m, Unused(E164Key, q.e164.value), q.pni, created);
            var made := b.attributes[m].e164.Some?;
            var t := if made then created else m;
            var before := if made then b.attributes[created := BLANK] else b.attributes;
            && r.target == Some(t) && r.requests == [] && r.unused == []
            && Indexed(r.book) && r.book.attributes == NumberMoved(before, t, q)
            && r.book.conversations == (if made then b.conversations + [created] else b.conversations)
  {
    hide *;
    if b.attributes[m].e164.None? {
      NumberToMatch(b, q, m, created);
    } else {
      NumberToCreated(b, q, m, created);
    }
  }

  /** A further unused number goes to the target chosen for the ACI. */
  lemma TakeNumberToo(p: Progress, m: Conversation, q: Query, created: Conversation)
    requires q.Valid() && q.e164.Some? && p.target.Some? && p.target.value in p.book.attributes
    requires Indexed(p.book) && NumberHeldBy(p.book.attributes, q, None)
    ensures var r := TakeOne(p, m, Unused(E164Key, q.e164.value), q.pni, created);
            && r.target == p.target && r.requests == p.requests && r.unused == p.unused
            && Indexed(r.book) && r.book.attributes == NumberMoved(p.book.attributes, p.target.value, q)
            && r.book.conversations == p.book.conversations
  {
    hide Indexed, ApplyChange;
    var t := p.target.value;
    assert Some(q.e164.value) == q.e164;
    GiveNumber(p.book, t, q);
    assert p.book.attributes[t := TakeNumber(p.book.attributes[t], q)] == NumberMoved(p.book.attributes, t, q);
  }

  // ---------------------------------------------------------------- the walk is the closed form

  /** The state right after the target is known and every identifier up to and including `items` handled. */
  ghost predicate Reached(p: Progress, b: Book, q: Query, created: Conversation,
                          attributes: map<Conversation, Attributes>, requests: seq<Request>) {
    && p.target == Some(Target(b, q, created)) && p.unused == []
    && Indexed(p.book) && p.book.attributes == attributes
    && p.book.conversations == (if Chosen(b, q).Some? then b.conversations else b.conversations + [created])
    && p.requests == requests
  }

  lemma WalkThree(p: Progress, c1: Candidate, c2: Candidate, c3: Candidate, pni: Option<Identifier>, created: Conversation)
    ensures Walk(p, [c1, c2, c3], pni, created)
         == Step(Step(Step(p, c1, pni, created), c2, pni, created), c3, pni, created)
  {
    hide Step;
    assert [c1, c2, c3][1..] == [c2, c3];
    assert [c2, c3][1..] == [c3];
    var p1 := Step(p, c1, pni, created);
    var p2 := Step(p1, c2, pni, created);
    assert Walk(p2, [c3], pni, created) == Step(p2, c3, pni, created);
    assert Walk(p1, [c2, c3], pni, created) == Walk(p2, [c3], pni, created);
  }

  /** From the target and its ACI onwards: the number's step, then the PNI's. */
  lemma FinishFromAci(b: Book, q: Query, created: Conversation, p1: Progress)
    requires Consistent(b) && q.Valid() && Unborn(b, created)
    requires Target(b, q, created) in Before(b, q, created)
    requires Reached(p1, b, q, created, AciMoved(Before(b, q, created), Target(b, q, created), q), [])
    requires Eligible(b, q, created)
    ensures var r := Step(Step(p1, Numbered(q, Get(b, q.e164)), q.pni, created), Tagging(q, Get(b, q.pni)), q.pni, created);
            Finished(r, b, q, created)
  {
    hide Step, Get, Indexed, Chosen, Before, Target, Consistent, NumberMoved, AciMoved, RequestFor, Eligible;
    var before, t := Before(b, q, created), Target(b, q, created);
    BeforeIsKinded(b, q, created);
    NumberStillHeldBy(before, t, q, Get(b, q.e164));
    StillThere(before, t, q);
    NumberStep(p1, q, Get(b, q.e164), created);
    var p2 := Step(p1, Numbered(q, Get(b, q.e164)), q.pni, created);
    FinishFromNumber(b, q, created, p2);
  }

  /** The target may take all the identifiers: it holds the given ACI or can be given it. */
  ghost predicate Eligible(b: Book, q: Query, created: Conversation)
    requires Target(b, q, created) in Before(b, q, created)
  {
    var a := Before(b, q, created)[Target(b, q, created)];
    !LonePniFound(a, q) && (q.aci.Some? ==> LacksAci(a, q.pni) || a.serviceId == q.aci)
  }

  ghost predicate Finished(r: Progress, b: Book, q: Query, created: Conversation) {
    var t := Target(b, q, created);
    var after := Outcome(Before(b, q, created), t, q);
    Reached(r, b, q, created, after, Requests(b, q, t, after))
  }

  lemma BeforeIsKinded(b: Book, q: Query, created: Conversation)
    requires Consistent(b) && q.Valid() && Unborn(b, created)
    ensures AllKinded(Before(b, q, created))
    ensures NumberHeldBy(Before(b, q, created), q, Get(b, q.e164))
    ensures PniHeldBy(Before(b, q, created), q, Get(b, q.pni))
    ensures Get(b, q.pni).Some? ==> HoldsPni(Before(b, q, created)[Get(b, q.pni).value], q.pni.value)
  {
    hide Chosen, Get, Indexed;
    HoldersFound(b, q);
  }

  /** Moving the ACI and the number never hands the PNI to anyone. */
  lemma PniStillHeldBy(before: map<Conversation, Attributes>, t: Conversation, q: Query, found: Option<Conversation>)
    requires t in before && q.Valid() && PniHeldBy(before, q, found)
    requires found.Some? ==> HoldsPni(before[found.value], q.pni.value)
    ensures PniHeldBy(NumberMoved(AciMoved(before, t, q), t, q), q, found)
    ensures HeldOrLost(NumberMoved(AciMoved(before, t, q), t, q), t, q, found)
  {
  }

  lemma NumberStillHeldBy(before: map<Conversation, Attributes>, t: Conversation, q: Query, found: Option<Conversation>)
    requires t in before && NumberHeldBy(before, q, found)
    ensures NumberHeldBy(AciMoved(before, t, q), q, found)
  {
  }

  lemma FinishFromNumber(b: Book, q: Query, created: Conversation, p2: Progress)
    requires Consistent(b) && q.Valid() && Unborn(b, created)
    requires Target(b, q, created) in Before(b, q, created)
    requires var before, t := Before(b, q, created), Target(b, q, created);
             var attributes := NumberMoved(AciMoved(before, t, q), t, q);
             Reached(p2, b, q, created, attributes, RequestFor(Get(b, q.e164), t, attributes))
    requires Eligible(b, q, created)
    ensures Finished(Step(p2, Tagging(q, Get(b, q.pni)), q.pni, created), b, q, created)
  {
    hide Step, Get, Indexed, Chosen, Before, Target, Consistent, NumberMoved, AciMoved, PniMoved, Outcome, RequestFor;
    var before, t := Before(b, q, created), Target(b, q, created);
    var attributes := NumberMoved(AciMoved(before, t, q), t, q);
    BeforeIsKinded(b, q, created);
    PniStillHeldBy(before, t, q, Get(b, q.pni));
    assert t in attributes by { StillThere(before, t, q); }
    PniStep(p2, q, Get(b, q.pni), created);
    StagesCompose(before, t, q, Get(b, q.pni));
    SameRequest(before, t, q, Get(b, q.e164), Get(b, q.pni));
  }

  lemma StillThere(before: map<Conversation, Attributes>, t: Conversation, q: Query)
    requires t in before
    ensures t in AciMoved(before, t, q) && t in NumberMoved(AciMoved(before, t, q), t, q)
  {
  }

  /** Losing the PNI afterwards never changes whether the number's holder was left with nothing. */
  lemma SameRequest(before: map<Conversation, Attributes>, t: Conversation, q: Query,
                    found: Option<Conversation>, foundPni: Option<Conversation>)
    requires t in before && q.Valid() && AllKinded(before) && NumberHeldBy(before, q, found)
    ensures var attributes := NumberMoved(AciMoved(before, t, q), t, q);
            RequestFor(found, t, attributes) == RequestFor(found, t, PniMoved(attributes, t, q, foundPni))
  {
  }

  // ---------------------------------------------------------------- the four ways a call can go

  lemma ByAci(b: Book, q: Query, created: Conversation)
    requires Consistent(b) && q.Valid() && Unborn(b, created)
    requires Get(b, q.aci).Some?
    ensures Finished(Merge(b, q, created), b, q, created)
  {
    hide Get, Indexed, Finished, NumberMoved;
    HoldersFound(b, q);
    GetNothing(b);
    var t := Get(b, q.aci).value;
    var cs := Candidates(b, q);
    var p0 := Progress(b, None, [], []);
    var p1 := Step(p0, cs[0], q.pni, created);
    assert p0.(unused := []) == p0;
    assert p1 == p0.(target := Some(t));
    assert AciMoved(b.attributes, t, q) == b.attributes;
    hide Step, Walk;
    FinishFromAci(b, q, created, p1);
    WalkThree(p0, cs[0], cs[1], cs[2], q.pni, created);
  }

  /** The progress after an ACI that nobody has, or none at all. */
  lemma NoAciYet(b: Book, q: Query, created: Conversation)
    requires q.Valid() && Get(b, q.aci).None?
    ensures Step(Progress(b, None, [], []), Candidates(b, q)[0], q.pni, created)
         == Progress(b, None, if q.aci.Some? then [Unused(ServiceIdKey, q.aci.value)] else [], [])
  {
  }

  lemma TakeSingle(p: Progress, m: Conversation, u: Unused, pni: Option<Identifier>, created: Conversation)
    ensures TakeUnused(p, m, [u], pni, created) == TakeOne(p, m, u, pni, created)
  {
    hide TakeOne;
    assert [u][1..] == [];
  }

  lemma TakePair(p: Progress, m: Conversation, u: Unused, v: Unused, pni: Option<Identifier>, created: Conversation)
    ensures TakeUnused(p, m, [u, v], pni, created) == TakeOne(TakeOne(p, m, u, pni, created), m, v, pni, created)
  {
    hide TakeOne;
    assert [u, v][1..] == [v];
    TakeSingle(TakeOne(p, m, u, pni, created), m, v, pni, created);
  }

  lemma ByNumber(b: Book, q: Query, created: Conversation)
    requires Consistent(b) && q.Valid() && Unborn(b, created)
    requires Get(b, q.aci).None? && Get(b, q.e164).Some?
    ensures Finished(Merge(b, q, created), b, q, created)
  {
    hide Get, Indexed, Finished, TakeOne, ApplyChange, Add;
    HoldersFound(b, q);
    GetNothing(b);
    NoAciYet(b, q, created);
    var m := Get(b, q.e164).value;
    var cs := Candidates(b, q);
    var p0 := Progress(b, None, [], []);
    var p1 := Step(p0, cs[0], q.pni, created);
    var p2 := Step(p1, cs[1], q.pni, created);
    if q.aci.None? {
      assert p2 == p1.(target := Some(m));
      assert NumberMoved(AciMoved(b.attributes, m, q), m, q) == b.attributes;
    } else {
      var u := Unused(ServiceIdKey, q.aci.value);
      var bare := Progress(b, None, [], []);
      TakeUnusedAci(b, q, m, created);
      TakeSingle(p1, m, u, q.pni, created);
      TakeOneIgnoresUnused(p1, m, u, q.pni, created);
      var taken := TakeOne(bare, m, u, q.pni, created);
      assert TakeUnused(p1, m, p1.unused, q.pni, created).(unused := []) == taken;
      assert p2 == Claim(taken, cs[1], m, q.pni);
      BeforeIsKinded(b, q, created);
      NumberStillHeldBy(Before(b, q, created), Target(b, q, created), q, Some(m));
      hide Step, Claim;
      ClaimNumber(taken, q, m);
    }
    hide Step, Walk, NumberMoved, AciMoved;
    FinishFromNumber(b, q, created, p2);
    WalkThree(p0, cs[0], cs[1], cs[2], q.pni, created);
  }

  lemma TakeOneIgnoresUnused(p: Progress, m: Conversation, u: Unused, pni: Option<Identifier>, created: Conversation)
    ensures TakeOne(p, m, u, pni, created) == TakeOne(p.(unused := []), m, u, pni, created).(unused := p.unused)
  {
    hide ApplyChange, GetOrCreate, CanTake;
  }

  /** What the unused identifiers leave behind: the target, its ACI and its number. */
  lemma UnusedTaken(b: Book, q: Query, m: Conversation, us: seq<Unused>, created: Conversation)
    requires Consistent(b) && q.Valid() && Unborn(b, created)
    requires Get(b, q.aci).None? && Get(b, q.e164).None? && Get(b, q.pni) == Some(m)
    requires us == (if q.aci.Some? then [Unused(ServiceIdKey, q.aci.value)] else [])
                 + (if q.e164.Some? then [Unused(E164Key, q.e164.value)] else [])
    requires us != []
    ensures var t, before := Target(b, q, created), Before(b, q, created);
            t in before &&
            Reached(TakeUnused(Progress(b, None, us, []), m, us, q.pni, created).(unused := []), b, q, created,
                    NumberMoved(AciMoved(before, t, q), t, q), [])
  {
    hide Get, Indexed, TakeOne, ApplyChange, Add;
    HoldersFound(b, q);
    var p, bare := Progress(b, None, us, []), Progress(b, None, [], []);
    BeforeIsKinded(b, q, created);
    if q.aci.Some? {
      var u := Unused(ServiceIdKey, q.aci.value);
      TakeUnusedAci(b, q, m, created);
      TakeOneIgnoresUnused(p, m, u, q.pni, created);
      if q.e164.Some? {
        var v := Unused(E164Key, q.e164.value);
        assert us == [u, v];
        TakePair(p, m, u, v, q.pni, created);
        var taken := TakeOne(p, m, u, q.pni, created);
        NumberStillHeldBy(Before(b, q, created), Target(b, q, created), q, None);
        hide NumberMoved;
        TakeNumberToo(taken, m, q, created);
      } else {
        assert us == [u];
        TakeSingle(p, m, u, q.pni, created);
        var t, before := Target(b, q, created), Before(b, q, created);
        assert NumberMoved(AciMoved(before, t, q), t, q) == AciMoved(before, t, q);
      }
    } else {
      var v := Unused(E164Key, q.e164.value);
      assert us == [v];
      TakeSingle(p, m, v, q.pni, created);
      TakeUnusedNumber(b, q, m, created);
      TakeOneIgnoresUnused(p, m, v, q.pni, created);
      assert AciMoved(Before(b, q, created), Target(b, q, created), q) == Before(b, q, created);
    }
  }

  /** The progress after a number that nobody has, or none at all. */
  lemma NoNumberYet(p: Progress, q: Query, created: Conversation)
    requires q.Valid() && p.target.None?
    ensures Step(p, Numbered(q, None), q.pni, created)
         == p.(unused := p.unused + if q.e164.Some? then [Unused(E164Key, q.e164.value)] else [])
  {
  }

  lemma ByPni(b: Book, q: Query, created: Conversation)
    requires Consistent(b) && q.Valid() && Unborn(b, created)
    requires Get(b, q.aci).None? && Get(b, q.e164).None? && Get(b, q.pni).Some?
    ensures Finished(Merge(b, q, created), b, q, created)
  {
    hide Get, Indexed, TakeOne, ApplyChange, Add, NumberMoved, AciMoved, PniMoved;
    HoldersFound(b, q);
    GetNothing(b);
    NoAciYet(b, q, created);
    var m := Get(b, q.pni).value;
    var cs := Candidates(b, q);
    var p0 := Progress(b, None, [], []);
    var p1 := Step(p0, cs[0], q.pni, created);
    NoNumberYet(p1, q, created);
    var p2 := Step(p1, cs[1], q.pni, created);
    var p3 := Step(p2, cs[2], q.pni, created);
    if p2.unused == [] {
      assert p2 == p0;
      assert p3 == p0.(target := Some(m));
      LoneChangesNothing(b, q, m);
    } else {
      var taken := TakeUnused(p2, m, p2.unused, q.pni, created).(unused := []);
      UnusedTaken(b, q, m, p2.unused, created);
      assert Step(taken, cs[2], q.pni, created) == p3 by {
        assert TakeUnused(taken, m, [], q.pni, created).(unused := []) == taken;
      }
      hide Step, Walk, Finished;
      assert RequestFor(Get(b, q.e164), Target(b, q, created), taken.book.attributes) == [];
      FinishFromNumber(b, q, created, taken);
    }
    hide Step, Walk;
    WalkThree(p0, cs[0], cs[1], cs[2], q.pni, created);
  }

  lemma LoneChangesNothing(b: Book, q: Query, m: Conversation)
    requires Consistent(b) && q.Valid() && q.aci.None? && q.e164.None? && Get(b, q.pni) == Some(m)
    ensures Outcome(b.attributes, m, q) == b.attributes
  {
    hide Get, Indexed;
    HoldersFound(b, q);
  }

  lemma Nobody(b: Book, q: Query, created: Conversation)
    requires Consistent(b) && q.Valid() && Unborn(b, created)
    requires Get(b, q.aci).None? && Get(b, q.e164).None? && Get(b, q.pni).None?
    ensures Finished(Merge(b, q, created), b, q, created)
  {
    hide Get, Indexed, Add;
    HoldersFound(b, q);
    GetNothing(b);
    NoAciYet(b, q, created);
    var cs := Candidates(b, q);
    var p0 := Progress(b, None, [], []);
    var p1 := Step(p0, cs[0], q.pni, created);
    NoNumberYet(p1, q, created);
    var p2 := Step(p1, cs[1], q.pni, created);
    var p3 := Step(p2, cs[2], q.pni, created);
    assert p3.target.None?;
    var identifier := q.Primary().value;
    var initial := Initial(identifier).(e164 := q.e164, pni := q.pni);
    assert initial == Gathered(BLANK, q);
    NobodyClashes(b, q, initial);
    Created(b, identifier, initial, created);
    assert b.attributes[created := initial] == Outcome(b.attributes[created := BLANK], created, q);
    hide Step, Walk;
    WalkThree(p0, cs[0], cs[1], cs[2], q.pni, created);
  }

  lemma NobodyClashes(b: Book, q: Query, initial: Attributes)
    requires Consistent(b) && q.Valid()
    requires Get(b, q.aci).None? && Get(b, q.e164).None? && Get(b, q.pni).None?
    requires initial == Gathered(BLANK, q)
    ensures forall c :: c in b.attributes ==> Disjoint(initial, b.attributes[c]) && Stripped(b.attributes[c], q) == b.attributes[c]
    ensures Get(b, q.Primary()).None?
  {
    hide Get, Indexed;
    HoldersFound(b, q);
  }

  // ---------------------------------------------------------------- main results

  /**
   The walk does exactly what the closed form says, for every consistent book, whatever
   earlier merges left in it, and every query: which conversation is chosen, every attribute
   of every conversation afterwards, the exactness of all five lookups, and the merges asked
   for.
   */
  lemma MergeIsOutcome(b: Book, q: Query, created: Conversation)
    requires Consistent(b) && q.Valid() && Unborn(b, created)
    ensures var r, t := Merge(b, q, created), Target(b, q, created);
            && r.target == Some(t)
            && Indexed(r.book)
            && r.book.attributes == Outcome(Before(b, q, created), t, q)
            && r.book.conversations == (if Chosen(b, q).Some? then b.conversations else b.conversations + [created])
            && r.requests == Requests(b, q, t, r.book.attributes)
  {
    hide Merge, Get, Indexed, Outcome, Before, Target, Chosen, Requests;
    if Get(b, q.aci).Some? {
      ByAci(b, q, created);
    } else if Get(b, q.e164).Some? {
      ByNumber(b, q, created);
    } else if Get(b, q.pni).Some? {
      ByPni(b, q, created);
    } else {
      Nobody(b, q, created);
    }
  }

  /** The guard under which a PNI in the service id slot ends up contradicting the pni field. */
  ghost predicate LeavesForeignPni(b: Book, q: Query) {
    && q.aci.None? && q.pni.Some? && Get(b, q.e164).Some?
    && var a := b.Of(Get(b, q.e164).value);
       a.serviceId.Some? && a.serviceId.value.Pni? && a.serviceId != q.pni && a.pni.None?
  }

  /** Nobody but the target comes to hold an identifier it did not hold before. */
  lemma PniHoldersAfter(a: Attributes, q: Query, p: Identifier)
    requires q.Valid() && WellKinded(a) && p.Pni?
    ensures HoldsPni(Gathered(a, q), p) && q.pni != Some(p) ==> HoldsPni(a, p)
    ensures HoldsPni(Stripped(a, q), p) ==> HoldsPni(a, p) && q.pni != Some(p)
  {
  }

  lemma SlotsAfter(a: Attributes, q: Query)
    requires q.Valid() && WellKinded(a)
    ensures WellKinded(Gathered(a, q)) && WellKinded(Stripped(a, q))
    ensures Tagged(a) ==> Tagged(Stripped(a, q))
    ensures Paired(a) ==> Paired(Gathered(a, q)) && Paired(Stripped(a, q))
  {
  }

  lemma OutcomeExclusive(before: map<Conversation, Attributes>, t: Conversation, q: Query)
    requires q.Valid() && t in before && AllKinded(before) && Exclusive(before)
    ensures Exclusive(Outcome(before, t, q))
  {
    var after := Outcome(before, t, q);
    forall c, d, p: Identifier | c in after && d in after && p.Pni? && HoldsPni(after[c], p) && HoldsPni(after[d], p)
      ensures c == d
    {
      hide HoldsPni, Gathered, Stripped;
      PniHoldersAfter(before[c], q, p);
      PniHoldersAfter(before[d], q, p);
    }
  }

  lemma OutcomeKinded(before: map<Conversation, Attributes>, t: Conversation, q: Query)
    requires q.Valid() && t in before && AllKinded(before)
    ensures AllKinded(Outcome(before, t, q))
    ensures AllTagged(before) ==> (AllTagged(Outcome(before, t, q)) <==> Tagged(Gathered(before[t], q)))
    ensures AllPaired(before) ==> AllPaired(Outcome(before, t, q))
  {
    var after := Outcome(before, t, q);
    assert after[t] == Gathered(before[t], q);
    forall c | c in after
      ensures WellKinded(after[c])
      ensures Tagged(before[c]) && c != t ==> Tagged(after[c])
      ensures Paired(before[c]) ==> Paired(after[c])
    {
      hide WellKinded, Tagged, Paired, Gathered, Stripped;
      SlotsAfter(before[c], q);
    }
  }

  lemma BeforeIsExclusive(b: Book, q: Query, created: Conversation)
    requires Consistent(b)
    ensures Exclusive(Before(b, q, created))
    ensures AllTagged(b.attributes) ==> AllTagged(Before(b, q, created))
    ensures AllPaired(b.attributes) ==> AllPaired(Before(b, q, created))
  {
    hide Chosen;
  }

  lemma TargetIsThere(b: Book, q: Query, created: Conversation)
    requires Consistent(b) && q.Valid()
    ensures Target(b, q, created) in Before(b, q, created)
  {
    hide Get;
    HoldersFound(b, q);
  }

  /**
   Merging never lets two conversations share an identifier and keeps every lookup exact,
   always; and where the two PNI slots of every conversation agreed, they agree afterwards
   exactly unless the number is known by a conversation whose service id is another, untagged
   PNI and no ACI is given.
   */
  lemma MergeKeepsWellFormed(b: Book, q: Query, created: Conversation)
    requires Consistent(b) && q.Valid() && Unborn(b, created)
    ensures Consistent(Merge(b, q, created).book)
    ensures WellFormed(b) ==> (WellFormed(Merge(b, q, created).book) <==> !LeavesForeignPni(b, q))
  {
    MergeIsOutcome(b, q, created);
    hide Merge, Get, Indexed, Outcome, Before, Target, Chosen, Exclusive, AllKinded, AllTagged, Tagged, LeavesForeignPni, Gathered;
    var before, t := Before(b, q, created), Target(b, q, created);
    BeforeIsKinded(b, q, created);
    BeforeIsExclusive(b, q, created);
    TargetIsThere(b, q, created);
    OutcomeExclusive(before, t, q);
    OutcomeKinded(before, t, q);
    if WellFormed(b) {
      TargetTagged(b, q, created);
    }
  }

  /** Where every PNI in a service id slot equals the pni field, it still does after any merge. */
  lemma MergeKeepsPaired(b: Book, q: Query, created: Conversation)
    requires Consistent(b) && AllPaired(b.attributes) && q.Valid() && Unborn(b, created)
    ensures Consistent(Merge(b, q, created).book) && AllPaired(Merge(b, q, created).book.attributes)
    ensures WellFormed(Merge(b, q, created).book)
  {
    MergeIsOutcome(b, q, created);
    MergeKeepsWellFormed(b, q, created);
    hide Merge, Get, Indexed, Outcome, Before, Target, Chosen, Exclusive, AllKinded;
    BeforeIsKinded(b, q, created);
    BeforeIsExclusive(b, q, created);
    TargetIsThere(b, q, created);
    OutcomeKinded(Before(b, q, created), Target(b, q, created), q);
  }

  lemma OutcomeAt(before: map<Conversation, Attributes>, t: Conversation, q: Query)
    ensures Outcome(before, t, q).Keys == before.Keys
    ensures t in before ==> Outcome(before, t, q)[t] == Gathered(before[t], q)
    ensures forall c :: c in before && c != t ==> Outcome(before, t, q)[c] == Stripped(before[c], q)
  {
  }

  /** The book speaks of its target only through the conversation found by number. */
  lemma TargetTagged(b: Book, q: Query, created: Conversation)
    requires WellFormed(b) && q.Valid() && Unborn(b, created)
    requires Target(b, q, created) in Before(b, q, created)
    ensures Tagged(Gathered(Before(b, q, created)[Target(b, q, created)], q)) <==> !LeavesForeignPni(b, q)
  {
    hide Get, Indexed, Exclusive;
    HoldersFound(b, q);
    var a := Before(b, q, created)[Target(b, q, created)];
    BeforeIsKinded(b, q, created);
    BeforeIsExclusive(b, q, created);
    assert WellKinded(a) && Tagged(a);
    if q.aci.Some? || q.pni.None? {
      assert Tagged(Gathered(a, q));
    } else if Get(b, q.e164).Some? {
      assert a == b.attributes[Get(b, q.e164).value];
    } else if Get(b, q.pni).Some? {
      assert a == BLANK || HoldsPni(a, q.pni.value);
    } else {
      assert a == BLANK;
    }
  }

  predicate HoldsAccount(a: Attributes, q: Query) {
    && (q.aci.Some? ==> a.serviceId == q.aci)
    && (q.e164.Some? ==> a.e164 == q.e164)
  }

  predicate Holds(a: Attributes, q: Query) {
    && HoldsAccount(a, q)
    && (q.pni.Some? ==> HoldsPni(a, q.pni.value))
  }

  predicate HoldsNone(a: Attributes, q: Query) {
    && (q.aci.Some? ==> a.serviceId != q.aci)
    && (q.e164.Some? ==> a.e164 != q.e164)
    && (q.pni.Some? ==> !HoldsPni(a, q.pni.value))
  }

  /** The ACI takes the slot the PNI was found in, and a foreign pni field keeps it from being put back. */
  predicate Displaces(a: Attributes, q: Query) {
    && q.aci.Some? && q.pni.Some? && a.serviceId == q.pni && a.pni.Some? && a.pni != q.pni
    && (q.e164.None? || a.e164 == q.e164)
  }

  /** A new ACI, given with no other number, for a conversation found by its service id but tagged with another PNI. */
  ghost predicate LosesPni(b: Book, q: Query) {
    Get(b, q.aci).None? && Get(b, q.pni).Some? && Displaces(b.Of(Get(b, q.pni).value), q)
  }

  /**
   The conversation returned holds every identifier that was asked about, and no other
   conversation holds any, except that the PNI is lost exactly under one condition, which no
   well-formed book meets.
   */
  lemma TargetHoldsAll(b: Book, q: Query, created: Conversation)
    requires Consistent(b) && q.Valid() && Unborn(b, created)
    ensures var r := Merge(b, q, created);
            && r.target.Some? && r.target.value in r.book.attributes
            && HoldsAccount(r.book.attributes[r.target.value], q)
            && (Holds(r.book.attributes[r.target.value], q) <==> !LosesPni(b, q))
            && (forall c :: c in r.book.attributes && c != r.target.value ==> HoldsNone(r.book.attributes[c], q))
    ensures WellFormed(b) ==> !LosesPni(b, q)
  {
    MergeIsOutcome(b, q, created);
    TargetIsThere(b, q, created);
    BeforeIsKinded(b, q, created);
    OnlyTargetHadAci(b, q, created);
    TargetDisplaces(b, q, created);
    TaggedNeverLoses(b, q);
    hide Merge, Get, Indexed, Outcome, Before, Target, Chosen, Exclusive, Requests, Stripped, Gathered, Holds, HoldsNone,
         HoldsAccount, Displaces, LosesPni, WellFormed, WellKinded;
    var before, t := Before(b, q, created), Target(b, q, created);
    OutcomeAt(before, t, q);
    GatheredHolds(before[t], q);
    forall c | c in before && c != t ensures HoldsNone(Stripped(before[c], q), q) {
      StrippedHoldsNone(before[c], q);
    }
  }

  lemma GatheredHolds(a: Attributes, q: Query)
    requires q.Valid() && WellKinded(a)
    ensures HoldsAccount(Gathered(a, q), q)
    ensures Holds(Gathered(a, q), q) <==> !Displaces(a, q)
  {
  }

  lemma StrippedHoldsNone(a: Attributes, q: Query)
    requires q.Valid() && WellKinded(a) && (q.aci.Some? ==> a.serviceId != q.aci)
    ensures HoldsNone(Stripped(a, q), q)
  {
  }

  lemma OnlyTargetHadAci(b: Book, q: Query, created: Conversation)
    requires Consistent(b) && q.Valid()
    ensures forall c :: c in Before(b, q, created) && q.aci.Some? && Before(b, q, created)[c].serviceId == q.aci
              ==> c == Target(b, q, created)
  {
    hide Get;
    HoldersFound(b, q);
  }

  /** The condition on the book is the condition on the target. */
  lemma TargetDisplaces(b: Book, q: Query, created: Conversation)
    requires Consistent(b) && q.Valid() && Unborn(b, created)
    requires Target(b, q, created) in Before(b, q, created)
    ensures LosesPni(b, q) <==> Displaces(Before(b, q, created)[Target(b, q, created)], q)
  {
    hide Get, Indexed, Exclusive, AllKinded;
    HoldersFound(b, q);
  }

  lemma TaggedNeverLoses(b: Book, q: Query)
    requires Consistent(b) && q.Valid()
    ensures WellFormed(b) ==> !LosesPni(b, q)
  {
    hide Get, Indexed, Exclusive, AllKinded;
    HoldersFound(b, q);
  }
}
