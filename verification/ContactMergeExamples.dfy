/** Inputs that show the exceptions in the results on merging to be real. */
module ContactMergeExamples {
  import opened Identifiers
  import opened ContactBook
  import opened ContactMerge
  import opened ContactMergeTheorems
  import opened ContactMergeConsequences

  /** A book with one conversation. */
  function Single(c: Conversation, a: Attributes): Book {
    Add(EMPTY_BOOK, c, a)
  }

  const EMPTY_BOOK := Book([], map[], map[], map[], map[], map[], map[])

  lemma EmptyIsIndexed(c: Conversation, a: Attributes)
    ensures Indexed(EMPTY_BOOK) && AllNew(EMPTY_BOOK, c, a)
  {
  }

  lemma OneIsExclusive(c: Conversation, a: Attributes)
    requires WellKinded(a) && Tagged(a)
    ensures Exclusive(map[c := a]) && AllTagged(map[c := a])
  {
    hide WellKinded, Tagged, HoldsPni;
  }

  lemma OneIsKinded(c: Conversation, a: Attributes)
    requires c.id.ConversationId? && WellKinded(a)
    ensures AllKinded(map[c := a])
  {
    hide WellKinded;
  }

  lemma SingleIsWellFormed(c: Conversation, a: Attributes)
    requires c.id.ConversationId? && WellKinded(a) && Tagged(a)
    ensures WellFormed(Single(c, a)) && Single(c, a).attributes == map[c := a]
  {
    EmptyIsIndexed(c, a);
    OneIsExclusive(c, a);
    OneIsKinded(c, a);
    assert EMPTY_BOOK.attributes[c := a] == map[c := a];
    hide Indexed, Add, AllNew, Exclusive, AllKinded, AllTagged, WellKinded, Tagged, HoldsPni;
    AddKeepsIndex(EMPTY_BOOK, c, a);
  }

  /** Without the guard the pni field really does end up contradicting the service id. */
  lemma ForeignPniReached(c: Conversation, created: Conversation)
    requires c.id.ConversationId? && created.id.ConversationId? && c != created && c.id != created.id
    ensures var a := Attributes(Some(Pni("PNI:1")), Some(E164("+1")), None, None);
            var q := Query(None, Some(E164("+1")), Some(Pni("PNI:2")));
            && WellFormed(Single(c, a)) && q.Valid()
            && Merge(Single(c, a), q, created).book.Of(c)
                 == Attributes(Some(Pni("PNI:1")), Some(E164("+1")), Some(Pni("PNI:2")), None)
            && !WellFormed(Merge(Single(c, a), q, created).book)
  {
    var a := Attributes(Some(Pni("PNI:1")), Some(E164("+1")), None, None);
    var q := Query(None, Some(E164("+1")), Some(Pni("PNI:2")));
    var b := Single(c, a);
    assert "PNI:1" != "PNI:2" by { assert "PNI:1"[4] != "PNI:2"[4]; }
    SingleIsWellFormed(c, a);
    hide *;
    ForeignGuard(b, c, a, q);
    ForeignUnborn(c, a, created);
    MergeIsOutcome(b, q, created);
    MergeKeepsWellFormed(b, q, created);
    GatheredForeign(a, q);
    OutcomeAt(b.attributes, c, q);
    ChosenIsTarget(b, q, created);
    OfAttributes(Merge(b, q, created).book, c);
    ForeignValid(q);
  }

  lemma ForeignValid(q: Query)
    requires q == Query(None, Some(E164("+1")), Some(Pni("PNI:2")))
    ensures q.Valid()
  {
  }

  lemma OfAttributes(b: Book, c: Conversation)
    requires c in b.attributes
    ensures b.Of(c) == b.attributes[c]
  {
  }

  lemma ForeignUnborn(c: Conversation, a: Attributes, created: Conversation)
    requires created.id.ConversationId? && c != created && c.id != created.id
    ensures Unborn(Single(c, a), created)
  {
  }

  lemma ForeignGuard(b: Book, c: Conversation, a: Attributes, q: Query)
    requires WellFormed(b) && b.attributes == map[c := a]
    requires a == Attributes(Some(Pni("PNI:1")), Some(E164("+1")), None, None)
    requires q == Query(None, Some(E164("+1")), Some(Pni("PNI:2")))
    ensures LeavesForeignPni(b, q) && Chosen(b, q) == Some(c)
  {
    WellFormedIsConsistent(b);
    hide Get, WellFormed, Consistent, LeavesForeignPni, Chosen;
    FindsHolderOf(b, q.e164);
    GetNothing(b);
    assert Holder(b, c, q.e164.value);
    OnlyForeign(b, c, a, q);
  }

  lemma OnlyForeign(b: Book, c: Conversation, a: Attributes, q: Query)
    requires b.attributes == map[c := a]
    requires a == Attributes(Some(Pni("PNI:1")), Some(E164("+1")), None, None)
    requires q == Query(None, Some(E164("+1")), Some(Pni("PNI:2")))
    requires Get(b, q.e164) == Some(c) && Get(b, q.aci).None?
    ensures LeavesForeignPni(b, q) && Chosen(b, q) == Some(c)
  {
    assert "PNI:1" != "PNI:2" by { assert "PNI:1"[4] != "PNI:2"[4]; }
    hide Get;
  }

  lemma WellFormedIsConsistent(b: Book)
    ensures WellFormed(b) ==> Consistent(b)
  {
  }

  lemma GatheredForeign(a: Attributes, q: Query)
    requires a == Attributes(Some(Pni("PNI:1")), Some(E164("+1")), None, None)
    requires q == Query(None, Some(E164("+1")), Some(Pni("PNI:2")))
    ensures Gathered(a, q) == Attributes(Some(Pni("PNI:1")), Some(E164("+1")), Some(Pni("PNI:2")), None)
  {
    assert "PNI:1" != "PNI:2" by { assert "PNI:1"[4] != "PNI:2"[4]; }
  }

  lemma ChosenIsTarget(b: Book, q: Query, created: Conversation)
    ensures Chosen(b, q).Some? ==> Target(b, q, created) == Chosen(b, q).value && Before(b, q, created) == b.attributes
    ensures Chosen(b, q).None? ==> Target(b, q, created) == created && Before(b, q, created) == b.attributes[created := BLANK]
  {
  }

  // ---------------------------------------------------------------- a PNI lost on the way

  const FOREIGN := Attributes(Some(Pni("PNI:1")), Some(E164("+1")), Some(Pni("PNI:2")), None)

  /**
   Two merges from a well-formed book: the first leaves the two PNI slots apart, the second
   gives the conversation its ACI and loses the very PNI it was found by.
   */
  lemma PniLostByTwoMerges(c: Conversation, spare: Conversation)
    requires c.id.ConversationId? && spare.id.ConversationId? && c != spare && c.id != spare.id
    ensures var b := Single(c, Attributes(Some(Pni("PNI:1")), Some(E164("+1")), None, None));
            var first := Merge(b, Query(None, Some(E164("+1")), Some(Pni("PNI:2"))), spare).book;
            var q := Query(Some(Aci("a")), None, Some(Pni("PNI:1")));
            && WellFormed(b) && Consistent(first) && q.Valid() && first.Of(c) == FOREIGN && LosesPni(first, q)
  {
    ForeignPniReached(c, spare);
    var b := Single(c, Attributes(Some(Pni("PNI:1")), Some(E164("+1")), None, None));
    var q1 := Query(None, Some(E164("+1")), Some(Pni("PNI:2")));
    var q := Query(Some(Aci("a")), None, Some(Pni("PNI:1")));
    var first := Merge(b, q1, spare).book;
    ForeignUnborn(c, Attributes(Some(Pni("PNI:1")), Some(E164("+1")), None, None), spare);
    WellFormedIsConsistent(b);
    ForeignIsAlone(b, c, q1, spare);
    hide *;
    ForeignLoses(first, c, q);
  }

  lemma ForeignIsAlone(b: Book, c: Conversation, q: Query, spare: Conversation)
    requires WellFormed(b) && b.attributes == map[c := Attributes(Some(Pni("PNI:1")), Some(E164("+1")), None, None)]
    requires q == Query(None, Some(E164("+1")), Some(Pni("PNI:2"))) && q.Valid() && Unborn(b, spare)
    ensures Consistent(Merge(b, q, spare).book) && Merge(b, q, spare).book.attributes.Keys == {c}
  {
    hide Merge, Get, Indexed, Exclusive, AllKinded, Unborn, Outcome, Chosen;
    ForeignGuard(b, c, b.attributes[c], q);
    MergeIsOutcome(b, q, spare);
    MergeKeepsWellFormed(b, q, spare);
    ChosenIsTarget(b, q, spare);
    OutcomeAt(b.attributes, c, q);
  }

  lemma ForeignLoses(b: Book, c: Conversation, q: Query)
    requires Consistent(b) && b.attributes.Keys == {c} && b.Of(c) == FOREIGN
    requires q == Query(Some(Aci("a")), None, Some(Pni("PNI:1")))
    ensures LosesPni(b, q) && q.Valid()
  {
    assert "PNI:1" != "PNI:2" by { assert "PNI:1"[4] != "PNI:2"[4]; }
    hide Get, Consistent;
    FindsHolderOf(b, q.aci);
    FindsHolderOf(b, q.pni);
    assert Holder(b, c, q.pni.value);
    assert !Holder(b, c, q.aci.value);
  }

  // ---------------------------------------------------------------- one request twice

  const ACCOUNT := BLANK.(serviceId := Some(Aci("a")))
  const NUMBERED := Attributes(None, Some(E164("+1")), Some(Pni("PNI:1")), None)

  function Pair(t: Conversation, m: Conversation): Book {
    Add(Single(t, ACCOUNT), m, NUMBERED)
  }

  lemma PairIsConsistent(t: Conversation, m: Conversation)
    requires t.id.ConversationId? && m.id.ConversationId? && t != m && t.id != m.id
    ensures Consistent(Pair(t, m)) && Pair(t, m).attributes == map[t := ACCOUNT, m := NUMBERED]
  {
    SingleIsWellFormed(t, ACCOUNT);
    var b := Single(t, ACCOUNT);
    assert AllNew(b, m, NUMBERED);
    assert b.attributes[m := NUMBERED] == map[t := ACCOUNT, m := NUMBERED];
    PairIsExclusive(t, m);
    hide *;
    WellFormedIsConsistent(b);
    ConsistentIsIndexed(b);
    AddKeepsIndex(b, m, NUMBERED);
    PairOf(t, m);
  }

  lemma ConsistentIsIndexed(b: Book)
    ensures Consistent(b) ==> Indexed(b)
  {
  }

  lemma PairOf(t: Conversation, m: Conversation)
    requires var a := map[t := ACCOUNT, m := NUMBERED]; AllKinded(a) && Exclusive(a)
    requires Indexed(Pair(t, m)) && Pair(t, m).attributes == map[t := ACCOUNT, m := NUMBERED]
    ensures Consistent(Pair(t, m))
  {
  }

  lemma PairIsExclusive(t: Conversation, m: Conversation)
    requires t.id.ConversationId? && m.id.ConversationId? && t != m
    ensures AllKinded(map[t := ACCOUNT, m := NUMBERED]) && Exclusive(map[t := ACCOUNT, m := NUMBERED])
  {
  }

  /** An account, and another conversation with just the number and the PNI: asked about all three, it is handed over twice. */
  lemma SameRequestTwice(t: Conversation, m: Conversation, spare: Conversation)
    requires t.id.ConversationId? && m.id.ConversationId? && t != m && t.id != m.id
    requires Unborn(Pair(t, m), spare)
    ensures var q := Query(Some(Aci("a")), Some(E164("+1")), Some(Pni("PNI:1")));
            && Consistent(Pair(t, m)) && q.Valid()
            && Merge(Pair(t, m), q, spare).requests == [Request(t, m), Request(t, m)]
  {
    var b, q := Pair(t, m), Query(Some(Aci("a")), Some(E164("+1")), Some(Pni("PNI:1")));
    PairIsConsistent(t, m);
    PairFound(b, t, m, q);
    hide *;
    MergeIsOutcome(b, q, spare);
    PairRequests(b, t, m, q, spare);
  }

  lemma PairFound(b: Book, t: Conversation, m: Conversation, q: Query)
    requires Consistent(b) && b.attributes == map[t := ACCOUNT, m := NUMBERED] && t != m
    requires q == Query(Some(Aci("a")), Some(E164("+1")), Some(Pni("PNI:1")))
    ensures Get(b, q.aci) == Some(t) && Get(b, q.e164) == Some(m) && Get(b, q.pni) == Some(m) && q.Valid()
  {
    hide Get, Consistent;
    FindsHolderOf(b, q.aci);
    FindsHolderOf(b, q.e164);
    FindsHolderOf(b, q.pni);
    assert Holder(b, t, q.aci.value) && Holder(b, m, q.e164.value) && Holder(b, m, q.pni.value);
  }

  lemma PairRequests(b: Book, t: Conversation, m: Conversation, q: Query, spare: Conversation)
    requires b.attributes == map[t := ACCOUNT, m := NUMBERED] && t != m
    requires q == Query(Some(Aci("a")), Some(E164("+1")), Some(Pni("PNI:1")))
    requires Get(b, q.aci) == Some(t) && Get(b, q.e164) == Some(m) && Get(b, q.pni) == Some(m)
    ensures Target(b, q, spare) == t
    ensures Requests(b, q, t, Outcome(Before(b, q, spare), t, q)) == [Request(t, m), Request(t, m)]
  {
    hide Get, Outcome;
    OutcomeAt(b.attributes, t, q);
    assert Stripped(NUMBERED, q) == BLANK;
  }
}
