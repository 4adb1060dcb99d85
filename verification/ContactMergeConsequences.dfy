/** What callers of a merge rely on, derived from the closed form. */
module ContactMergeConsequences {
  import opened Identifiers
  import opened ContactBook
  import opened ContactMerge
  import opened ContactMergeSteps
  import opened ContactMergeTheorems

  // ---------------------------------------------------------------- idempotence

  /** One step for a candidate that was found on the target, or is the first to be found, changes nothing. */
  lemma FoundOnTarget(p: Progress, item: Candidate, t: Conversation, pni: Option<Identifier>, created: Conversation)
    requires p.unused == [] && item.found == (if item.value.Some? then Some(t) else None)
    requires p.target.Some? ==> p.target == Some(t) && (item.value.Some? ==> Slot(p.book.Of(t), item.key).Some?)
    ensures Step(p, item, pni, created) == if item.value.Some? then p.(target := Some(t)) else p
  {
    assert p.(unused := []) == p;
    assert TakeUnused(p, t, [], pni, created) == p;
  }

  /** A query all of whose identifiers are on one conversation is answered with it, and changes nothing. */
  lemma HolderAnswers(b: Book, q: Query, t: Conversation, created: Conversation)
    requires Consistent(b) && q.Valid() && t in b.attributes && Holds(b.attributes[t], q)
    requires q.pni.Some? && (q.aci.Some? || q.e164.Some?) ==> b.attributes[t].pni.Some?
    ensures Merge(b, q, created) == Progress(b, Some(t), [], [])
  {
    hide Get, Consistent, Step;
    FindsHolderOf(b, q.aci);
    FindsHolderOf(b, q.e164);
    FindsHolderOf(b, q.pni);
    assert q.aci.Some? ==> Holder(b, t, q.aci.value);
    assert q.e164.Some? ==> Holder(b, t, q.e164.value);
    assert q.pni.Some? ==> Holder(b, t, q.pni.value);
    var p, cs := Progress(b, None, [], []), Candidates(b, q);
    WalkThree(p, cs[0], cs[1], cs[2], q.pni, created);
    FoundOnTarget(p, cs[0], t, q.pni, created);
    var p1 := Step(p, cs[0], q.pni, created);
    FoundOnTarget(p1, cs[1], t, q.pni, created);
    FoundOnTarget(Step(p1, cs[1], q.pni, created), cs[2], t, q.pni, created);
  }

  lemma TargetEligible(b: Book, q: Query, created: Conversation)
    requires Consistent(b) && q.Valid()
    ensures var t, before := Target(b, q, created), Before(b, q, created);
            t in before && (q.aci.Some? ==> LacksAci(before[t], q.pni) || before[t].serviceId == q.aci)
  {
    hide Get, Indexed;
    HoldersFound(b, q);
  }

  lemma GatheredSetsPni(a: Attributes, q: Query)
    requires q.pni.Some? && (q.aci.Some? || q.e164.Some?)
    ensures Gathered(a, q).pni.Some?
  {
  }

  /**
   Asking again for the same contact answers with the same conversation, changes no
   attribute and no lookup, makes no conversation and asks for no merge, unless the first
   call lost the PNI; a well-formed book never loses one.
   */
  lemma MergeTwice(b: Book, q: Query, created: Conversation, again: Conversation)
    requires Consistent(b) && q.Valid() && Unborn(b, created)
    ensures var first := Merge(b, q, created); var second := Merge(first.book, q, again);
            !LosesPni(b, q) ==> second.book == first.book && second.target == first.target && second.requests == []
    ensures WellFormed(b) ==> !LosesPni(b, q)
  {
    hide Merge, Outcome, Holds, HoldsNone, Before, Target, Gathered, WellFormed, Unborn, Consistent, Requests, LosesPni;
    MergeIsOutcome(b, q, created);
    MergeKeepsWellFormed(b, q, created);
    TargetHoldsAll(b, q, created);
    TargetIsThere(b, q, created);
    var before, t := Before(b, q, created), Target(b, q, created);
    OutcomeAt(before, t, q);
    if q.pni.Some? && (q.aci.Some? || q.e164.Some?) {
      GatheredSetsPni(before[t], q);
    }
    if !LosesPni(b, q) {
      HolderAnswers(Merge(b, q, created).book, q, t, again);
    }
  }

  /** And if it did lose the PNI, the second call changes the book: it puts the PNI back. */
  lemma LostPniIsPutBack(b: Book, q: Query, created: Conversation, again: Conversation)
    requires Consistent(b) && q.Valid() && Unborn(b, created) && LosesPni(b, q)
    requires Unborn(Merge(b, q, created).book, again)
    ensures var first := Merge(b, q, created); var second := Merge(first.book, q, again);
            && !LosesPni(first.book, q) && second.book != first.book && second.target == first.target
            && Holds(second.book.Of(second.target.value), q)
  {
    hide Merge, Get, HoldsNone, Unborn, Consistent;
    var first := Merge(b, q, created);
    MergeKeepsWellFormed(b, q, created);
    TargetHoldsAll(b, q, created);
    var t := first.target.value;
    FindsHolderOf(first.book, q.aci);
    assert Holder(first.book, t, q.aci.value);
    TargetHoldsAll(first.book, q, again);
    ChosenByAci(first.book, q, again);
  }

  lemma ChosenByAci(b: Book, q: Query, created: Conversation)
    requires Consistent(b) && q.Valid() && Unborn(b, created) && Get(b, q.aci).Some?
    ensures Merge(b, q, created).target == Get(b, q.aci)
  {
    hide Merge, Get, Consistent, Outcome, Requests;
    MergeIsOutcome(b, q, created);
  }

  // ---------------------------------------------------------------- spelled out

  /**
   Which conversation a merge answers with, by who is found: the holder of the ACI; else, with
   an ACI given, the one found by number, or else by PNI, if its service id leaves room for an
   ACI; else, without an ACI, the one found by number, or the one found by PNI if it can take
   the number; and a new one otherwise.
   */
  lemma TargetMeans(b: Book, q: Query, created: Conversation)
    requires Consistent(b) && q.Valid() && Unborn(b, created)
    ensures var r := Merge(b, q, created);
            var byAci, byNumber, byPni := Get(b, q.aci), Get(b, q.e164), Get(b, q.pni);
            var found := if byNumber.Some? then byNumber else byPni;
            var existing :=
              if byAci.Some? then byAci
              else if found.None? then None
              else if q.aci.Some? then
                var a := b.Of(found.value);
                if a.serviceId == None || (a.serviceId.value.Pni? && (a.serviceId == q.pni || a.serviceId == a.pni)) then found else None
              else if byNumber.Some? || q.e164 == None || b.Of(found.value).e164 == None then found
              else None;
            && r.target == (if existing.Some? then existing else Some(created))
            && r.book.conversations == (if existing.Some? then b.conversations else b.conversations + [created])
  {
    hide Merge, Get, Outcome, Requests, Indexed;
    MergeIsOutcome(b, q, created);
  }

  /**
   What a merge takes from the others: the number asked for, with it or by itself the PNI, and
   a service id that is just that PNI. Nothing else is ever taken.
   */
  lemma OthersAfter(b: Book, q: Query, created: Conversation, c: Conversation)
    requires Consistent(b) && q.Valid() && Unborn(b, created) && c in b.attributes
    ensures var r := Merge(b, q, created); var a := b.attributes[c];
            var losesNumber := q.e164.Some? && a.e164 == q.e164;
            var losesPni := losesNumber || (q.pni.Some? && (a.pni == q.pni || a.serviceId == q.pni));
            Some(c) != r.target ==>
              && c in r.book.attributes && r.book.attributes[c].groupId == a.groupId
              && r.book.attributes[c].e164 == (if losesNumber then None else a.e164)
              && r.book.attributes[c].pni == (if losesPni then None else a.pni)
              && r.book.attributes[c].serviceId
                   == if losesPni && (a.serviceId == a.pni || a.serviceId == q.pni) then None else a.serviceId
  {
    hide Merge, Get, Requests, Indexed, Outcome;
    MergeIsOutcome(b, q, created);
    TargetIsThere(b, q, created);
    var before, t := Before(b, q, created), Target(b, q, created);
    assert before[c] == b.attributes[c];
    OutcomeAt(before, t, q);
  }

  /**
   What an existing target ends up with: the number and the ACI asked for; the PNI asked for,
   unless it is found there already and some PNI is in its field; no PNI, if its number
   changes and none is asked for; and that PNI in the service id slot, too, where no ACI and
   no foreign PNI is.
   */
  lemma TargetAfter(b: Book, q: Query, created: Conversation, c: Conversation)
    requires Consistent(b) && q.Valid() && Unborn(b, created) && c in b.attributes
    ensures var m := Merge(b, q, created);
            m.target == Some(c) ==> c in m.book.attributes
    ensures var m := Merge(b, q, created);
            m.target == Some(c) ==>
              var a, r := b.attributes[c], m.book.attributes[c];
              var numberChanges := q.e164.Some? && a.e164 != q.e164;
              var holds := q.pni.Some? && (a.pni == q.pni || a.serviceId == q.pni);
              var stays := !numberChanges && (q.pni == None || (holds && (a.pni.Some? || (q.aci == None && q.e164 == None))));
              && r.groupId == a.groupId
              && r.e164 == (if q.e164 == None then a.e164 else q.e164)
              && r.pni == (if stays then a.pni else q.pni)
              && r.serviceId == if q.aci.Some? then q.aci
                                else if stays then a.serviceId
                                else if a.serviceId == None || a.serviceId == a.pni then q.pni
                                else a.serviceId
  {
    hide Merge, Get, Requests, Indexed, Outcome;
    MergeIsOutcome(b, q, created);
    TargetIsThere(b, q, created);
    var before, t := Before(b, q, created), Target(b, q, created);
    assert before[c] == b.attributes[c];
    OutcomeAt(before, t, q);
  }

  /** Getting or creating by a service id or a number gives the conversation a lookup gives from then on. */
  lemma CreatedIsFound(b: Book, identifier: Identifier, created: Conversation)
    requires Consistent(b) && Unborn(b, created) && (IsServiceId(identifier) || IsE164(identifier))
    ensures var (after, c) := GetOrCreate(b, identifier, Initial(identifier), created);
            && Consistent(after) && Get(after, Some(identifier)) == Some(c)
            && (Get(b, Some(identifier)).Some? ==> after == b)
            && (Get(b, Some(identifier)).None? ==>
                  && c == created && after.conversations == b.conversations + [created]
                  && after.attributes == b.attributes[created :=
                       Attributes(if identifier.E164? then None else Some(identifier),
                                  if identifier.E164? then Some(identifier) else None, None, None)])
  {
    hide Get, Indexed, Add, AllKinded, Exclusive;
    FindsHolderOf(b, Some(identifier));
    if Get(b, Some(identifier)).None? {
      NobodyHas(b, identifier);
      Created(b, identifier, Initial(identifier), created);
      var after := GetOrCreate(b, identifier, Initial(identifier), created).0;
      NewcomerIsConsistent(b, identifier, created);
      assert Consistent(after);
      GetFindsHolder(after, identifier, created);
    }
  }

  lemma NobodyHas(b: Book, identifier: Identifier)
    requires Consistent(b) && (IsServiceId(identifier) || IsE164(identifier))
    requires forall c :: !Holder(b, c, identifier)
    ensures forall c :: c in b.attributes ==> Disjoint(Initial(identifier), b.attributes[c])
  {
    hide Indexed, Exclusive;
    forall c | c in b.attributes ensures Disjoint(Initial(identifier), b.attributes[c]) {
      assert !Holder(b, c, identifier);
    }
  }

  lemma NewcomerIsConsistent(b: Book, identifier: Identifier, created: Conversation)
    requires Consistent(b) && created.id.ConversationId? && (IsServiceId(identifier) || IsE164(identifier))
    requires forall c :: !Holder(b, c, identifier)
    ensures var after := b.attributes[created := Initial(identifier)]; AllKinded(after) && Exclusive(after)
  {
    hide Indexed;
    var after := b.attributes[created := Initial(identifier)];
    forall c, d, p: Identifier | c in after && d in after && p.Pni? && HoldsPni(after[c], p) && HoldsPni(after[d], p)
      ensures c == d
    {
      assert c in b.attributes ==> (Holder(b, c, p) <==> HoldsPni(b.attributes[c], p));
      assert d in b.attributes ==> (Holder(b, d, p) <==> HoldsPni(b.attributes[d], p));
    }
  }

  // ---------------------------------------------------------------- accounts survive, only shells are discarded

  predicate HasAci(a: Attributes) {
    a.serviceId.Some? && a.serviceId.value.Aci?
  }

  lemma AciUntouched(a: Attributes, q: Query)
    requires q.Valid() && WellKinded(a) && HasAci(a)
    ensures Stripped(a, q).serviceId == a.serviceId
    ensures (q.aci.Some? ==> LacksAci(a, q.pni) || a.serviceId == q.aci) ==> Gathered(a, q).serviceId == a.serviceId
  {
  }

  /** No conversation that had an ACI loses or changes it, in any consistent book. */
  lemma AcisKept(b: Book, q: Query, created: Conversation, c: Conversation)
    requires Consistent(b) && q.Valid() && Unborn(b, created)
    requires c in b.attributes && HasAci(b.attributes[c])
    ensures var after := Merge(b, q, created).book.attributes;
            c in after && after[c].serviceId == b.attributes[c].serviceId
  {
    hide Merge, Get, Indexed, Outcome, Target, Chosen, Gathered, Stripped;
    MergeIsOutcome(b, q, created);
    var before, t := Before(b, q, created), Target(b, q, created);
    BeforeIsKinded(b, q, created);
    TargetEligible(b, q, created);
    assert before[c] == b.attributes[c];
    OutcomeAt(before, t, q);
    AciUntouched(b.attributes[c], q);
  }

  /** One merge after another, each with an object ready in case a conversation has to be made. */
  ghost predicate Merges(bs: seq<Book>, qs: seq<Query>, spares: seq<Conversation>) {
    && |bs| == |qs| + 1 && |spares| == |qs|
    && forall i :: 0 <= i < |qs| ==> qs[i].Valid() && Unborn(bs[i], spares[i]) && bs[i + 1] == Merge(bs[i], qs[i], spares[i]).book
  }

  lemma MergesAt(bs: seq<Book>, qs: seq<Query>, spares: seq<Conversation>, j: nat)
    requires Merges(bs, qs, spares) && j < |qs|
    ensures |bs| == |qs| + 1 && |spares| == |qs|
    ensures qs[j].Valid() && Unborn(bs[j], spares[j]) && bs[j + 1] == Merge(bs[j], qs[j], spares[j]).book
  {
    hide Merge, Unborn;
  }

  /** Every run of merges from a consistent book stays consistent, whatever the queries. */
  lemma {:induction false} ConsistentForever(bs: seq<Book>, qs: seq<Query>, spares: seq<Conversation>, k: nat)
    requires Merges(bs, qs, spares) && Consistent(bs[0]) && k <= |qs|
    ensures Consistent(bs[k])
  {
    if k == 0 {
    } else {
      hide *;
      MergesAt(bs, qs, spares, k - 1);
      ConsistentForever(bs, qs, spares, k - 1);
      MergeKeepsWellFormed(bs[k - 1], qs[k - 1], spares[k - 1]);
    }
  }

  /** Every conversation with an ACI is still there, with the same ACI. */
  ghost predicate KeepsAcis(before: map<Conversation, Attributes>, after: map<Conversation, Attributes>) {
    forall c :: c in before && HasAci(before[c]) ==> c in after && after[c].serviceId == before[c].serviceId
  }

  lemma KeepsAcisTwice(m: map<Conversation, Attributes>, n: map<Conversation, Attributes>, o: map<Conversation, Attributes>)
    requires KeepsAcis(m, n) && KeepsAcis(n, o)
    ensures KeepsAcis(m, o)
  {
  }

  lemma MergeKeepsAcis(b: Book, q: Query, created: Conversation)
    requires Consistent(b) && q.Valid() && Unborn(b, created)
    ensures KeepsAcis(b.attributes, Merge(b, q, created).book.attributes)
  {
    hide Merge, Consistent, Unborn, HasAci;
    forall c | c in b.attributes && HasAci(b.attributes[c])
      ensures var after := Merge(b, q, created).book.attributes; c in after && after[c].serviceId == b.attributes[c].serviceId
    {
      AcisKept(b, q, created, c);
    }
  }

  /**
   Over every run of merges from a consistent book: a conversation that ever held an ACI
   holds that ACI from then on.
   */
  lemma {:induction false} AcisKeptForever(bs: seq<Book>, qs: seq<Query>, spares: seq<Conversation>, i: nat, k: nat)
    requires Merges(bs, qs, spares) && Consistent(bs[0]) && i <= k <= |qs|
    ensures KeepsAcis(bs[i].attributes, bs[k].attributes)
    decreases k
  {
    if i == k {
      hide Merge, Consistent, Unborn;
    } else {
      hide *;
      MergesAt(bs, qs, spares, k - 1);
      AcisKeptForever(bs, qs, spares, i, k - 1);
      ConsistentForever(bs, qs, spares, k - 1);
      MergeKeepsAcis(bs[k - 1], qs[k - 1], spares[k - 1]);
      KeepsAcisTwice(bs[i].attributes, bs[k - 1].attributes, bs[k].attributes);
    }
  }

  /**
   Every run of merges from a book whose service id PNIs equal the pni fields keeps that, so
   it never meets the guard: each call answers with a conversation that holds everything
   asked for.
   */
  lemma {:induction false} PairedForever(bs: seq<Book>, qs: seq<Query>, spares: seq<Conversation>, k: nat)
    requires Merges(bs, qs, spares) && Consistent(bs[0]) && AllPaired(bs[0].attributes) && k <= |qs|
    ensures Consistent(bs[k]) && AllPaired(bs[k].attributes)
    ensures k < |qs| ==> !LeavesForeignPni(bs[k], qs[k]) && !LosesPni(bs[k], qs[k])
  {
    hide Merge, Consistent, Unborn, AllPaired, LeavesForeignPni, LosesPni;
    if k == 0 {
    } else {
      PairedForever(bs, qs, spares, k - 1);
      MergeKeepsPaired(bs[k - 1], qs[k - 1], spares[k - 1]);
    }
    if k < |qs| {
      PairedIsTagged(bs[k]);
      TargetHoldsAll(bs[k], qs[k], spares[k]);
      MergeKeepsPaired(bs[k], qs[k], spares[k]);
      MergeKeepsWellFormed(bs[k], qs[k], spares[k]);
    }
  }

  lemma PairedIsTagged(b: Book)
    requires Consistent(b) && AllPaired(b.attributes)
    ensures WellFormed(b)
  {
  }

  lemma EmptiedWas(a: Attributes, q: Query)
    requires q.Valid() && WellKinded(a)
    ensures Stripped(a, q).IsEmptied() ==> !HasAci(a)
    ensures Stripped(a, q).IsEmptied() && !a.IsEmptied() ==>
              (q.e164.Some? && a.e164 == q.e164) || (q.pni.Some? && HoldsPni(a, q.pni.value))
  {
  }

  /**
   The conversations handed over as obsolete are exactly the others that this merge left
   without any identifier: each had no ACI before, is not the target, and none is forgotten.
   */
  lemma ObsoleteExactlyEmptied(b: Book, q: Query, created: Conversation, c: Conversation)
    requires Consistent(b) && q.Valid() && Unborn(b, created)
    requires c in b.attributes && !b.attributes[c].IsEmptied()
    ensures var r := Merge(b, q, created);
            Request(r.target.value, c) in r.requests <==> c != r.target.value && r.book.Of(c).IsEmptied()
    ensures var r := Merge(b, q, created); var a := r.book.Of(c);
            r.book.Of(c).IsEmptied() <==> a.serviceId == None && a.e164 == None && a.pni == None
    ensures var r := Merge(b, q, created);
            Request(r.target.value, c) in r.requests ==> !HasAci(b.attributes[c])
  {
    hide Merge, Get, Indexed, Outcome, Target, Chosen, Stripped, Gathered;
    MergeIsOutcome(b, q, created);
    var r, before, t := Merge(b, q, created), Before(b, q, created), Target(b, q, created);
    BeforeIsKinded(b, q, created);
    assert before[c] == b.attributes[c];
    OutcomeAt(before, t, q);
    EmptiedWas(b.attributes[c], q);
    HoldersFound(b, q);
  }

  /** Every request names the target and a conversation that was in the book. */
  lemma RequestsAreProper(b: Book, q: Query, created: Conversation)
    requires Consistent(b) && q.Valid() && Unborn(b, created)
    ensures var r := Merge(b, q, created);
            && |r.requests| <= 2
            && (forall x :: x in r.requests ==> x.current == r.target.value && x.obsolete in b.attributes && x.obsolete != x.current)
  {
    hide Merge, Get, Indexed, Outcome, Target, Chosen, Before;
    MergeIsOutcome(b, q, created);
    HoldersFound(b, q);
  }

  /**
   The same obsolete conversation is handed over twice exactly when the number and the PNI
   were both found on one conversation, other than the target, with no service id but the
   PNI asked for or its own.
   */
  lemma HandedOverTwice(b: Book, q: Query, created: Conversation)
    requires Consistent(b) && q.Valid() && Unborn(b, created)
    ensures var requests := Merge(b, q, created).requests;
            (|requests| == 2 && requests[0] == requests[1])
            <==> (Get(b, q.e164).Some? && Get(b, q.e164) == Get(b, q.pni)
                  && Get(b, q.e164) != Chosen(b, q) && LacksAci(b.Of(Get(b, q.e164).value), q.pni))
  {
    hide Merge, Get, Indexed, Outcome, Stripped, Gathered;
    MergeIsOutcome(b, q, created);
    var before, t := Before(b, q, created), Target(b, q, created);
    HoldersFound(b, q);
    OutcomeAt(before, t, q);
    BeforeIsKinded(b, q, created);
    if Get(b, q.e164).Some? && Get(b, q.e164) == Get(b, q.pni) {
      var m := Get(b, q.e164).value;
      assert before[m] == b.attributes[m];
      StrippedOfBoth(b.attributes[m], q);
    }
  }

  lemma StrippedOfBoth(a: Attributes, q: Query)
    requires q.Valid() && WellKinded(a)
    requires q.e164.Some? && a.e164 == q.e164 && q.pni.Some? && HoldsPni(a, q.pni.value)
    ensures Stripped(a, q).IsEmptied() <==> LacksAci(a, q.pni)
  {
  }
}
