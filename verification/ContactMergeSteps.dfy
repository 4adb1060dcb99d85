/** How single steps of the walk act on the attributes, given that every table is exact. */
module ContactMergeSteps {
  import opened Identifiers
  import opened ContactBook
  import opened ContactMerge

  ghost predicate Distinct(attributes: map<Conversation, Attributes>) {
    forall c, d :: c in attributes && d in attributes && c != d ==> Disjoint(attributes[c], attributes[d])
  }

  predicate Disjoint(a: Attributes, b: Attributes) {
    && (a.serviceId.Some? ==> a.serviceId != b.serviceId)
    && (a.e164.Some? ==> a.e164 != b.e164)
    && (a.pni.Some? ==> a.pni != b.pni)
  }

  lemma InverseIsInjective(m: Lookup, f: map<Conversation, Option<Identifier>>, c: Conversation, d: Conversation)
    requires Inverse(m, f) && c in f && d in f && f[c].Some? && f[c] == f[d]
    ensures c == d
  {
  }

  lemma IndexedIsDistinct(b: Book)
    requires Indexed(b)
    ensures Distinct(b.attributes)
  {
    forall c, d | c in b.attributes && d in b.attributes && c != d ensures Disjoint(b.attributes[c], b.attributes[d]) {
      hide Inverse;
      if b.attributes[c].serviceId.Some? && b.attributes[c].serviceId == b.attributes[d].serviceId {
        InverseIsInjective(b.byServiceId, ServiceIds(b.attributes), c, d);
      }
      if b.attributes[c].e164.Some? && b.attributes[c].e164 == b.attributes[d].e164 {
        InverseIsInjective(b.byE164, E164s(b.attributes), c, d);
      }
      if b.attributes[c].pni.Some? && b.attributes[c].pni == b.attributes[d].pni {
        InverseIsInjective(b.byPni, Pnis(b.attributes), c, d);
      }
    }
  }

  lemma UnheldIsFree(m: Lookup, f: map<Conversation, Option<Identifier>>, c: Conversation, v: Option<Identifier>)
    requires Inverse(m, f)
    requires forall d :: d in f && d != c && v.Some? ==> f[d] != v
    ensures FreeFor(m, c, v)
  {
  }

  /** A change that leaves identifiers unshared is exact on the attributes and on every table. */
  lemma ChangeExact(b: Book, c: Conversation, change: Change)
    requires Indexed(b) && c in b.attributes
    requires Distinct(b.attributes[c := Changed(b.attributes[c], change)])
    ensures Indexed(ApplyChange(b, c, change))
    ensures ApplyChange(b, c, change).attributes == b.attributes[c := Changed(b.attributes[c], change)]
    ensures ApplyChange(b, c, change).conversations == b.conversations
  {
    hide ApplyChange, Changed, Inverse;
    var a := Changed(b.attributes[c], change);
    forall d | d in b.attributes && d != c ensures Disjoint(a, b.attributes[d]) {
      var n := b.attributes[c := a];
      assert c in n && d in n && Disjoint(n[c], n[d]);
    }
    UnheldIsFree(b.byServiceId, ServiceIds(b.attributes), c, a.serviceId);
    UnheldIsFree(b.byE164, E164s(b.attributes), c, a.e164);
    UnheldIsFree(b.byPni, Pnis(b.attributes), c, a.pni);
    ApplyChangeKeepsIndex(b, c, change);
  }

  // ---------------------------------------------------------------- the three identifiers, one at a time

  function TakeAci(a: Attributes, q: Query): Attributes {
    if q.aci.Some? then a.(serviceId := q.aci) else a
  }

  function TakeNumber(a: Attributes, q: Query): Attributes {
    if q.e164.None? || a.e164 == q.e164 then a
    else a.(e164 := q.e164, pni := None, serviceId := if a.serviceId == a.pni then None else a.serviceId)
  }

  function LoseNumber(a: Attributes, q: Query): Attributes {
    if q.e164.None? || a.e164 != q.e164 then a
    else a.(e164 := None, pni := None,
            serviceId := if a.serviceId == a.pni || a.serviceId == q.pni then None else a.serviceId)
  }

  /** `mine` says that the PNI was found on this very conversation. */
  function TakePni(a: Attributes, q: Query, mine: bool): Attributes {
    if q.pni.None? || a.pni == q.pni || (mine && a.pni.Some?) then a
    else a.(pni := q.pni, serviceId := if a.serviceId.None? || a.serviceId == a.pni then q.pni else a.serviceId)
  }

  function LosePni(a: Attributes, q: Query): Attributes {
    if q.pni.None? || !HoldsPni(a, q.pni.value) then a
    else a.(pni := None, serviceId := if a.serviceId == a.pni || a.serviceId == q.pni then None else a.serviceId)
  }

  function NumberMoved(attributes: map<Conversation, Attributes>, t: Conversation, q: Query): map<Conversation, Attributes> {
    map c | c in attributes :: if c == t then TakeNumber(attributes[c], q) else LoseNumber(attributes[c], q)
  }

  function PniMoved(attributes: map<Conversation, Attributes>, t: Conversation, q: Query, found: Option<Conversation>)
    : map<Conversation, Attributes>
  {
    map c | c in attributes :: if c == t then TakePni(attributes[c], q, found == Some(t)) else LosePni(attributes[c], q)
  }

  /** Who holds the number: at most the conversation found for it. */
  ghost predicate NumberHeldBy(attributes: map<Conversation, Attributes>, q: Query, found: Option<Conversation>) {
    && (forall c :: c in attributes && q.e164.Some? && attributes[c].e164 == q.e164 ==> found == Some(c))
    && (found.Some? ==> found.value in attributes && q.e164.Some? && attributes[found.value].e164 == q.e164)
  }

  /** Who holds the PNI: at most the conversation found for it. */
  ghost predicate PniHeldBy(attributes: map<Conversation, Attributes>, q: Query, found: Option<Conversation>) {
    && (forall c :: c in attributes && q.pni.Some? && HoldsPni(attributes[c], q.pni.value) ==> found == Some(c))
    && (found.Some? ==> found.value in attributes && q.pni.Some?)
  }

  /** The conversation found for the PNI, unless it is the target, holds it still or has lost it with its number. */
  ghost predicate HeldOrLost(attributes: map<Conversation, Attributes>, t: Conversation, q: Query, found: Option<Conversation>) {
    found.Some? && found.value != t && found.value in attributes && q.pni.Some? ==>
      HoldsPni(attributes[found.value], q.pni.value) || attributes[found.value].pni.None?
  }

  lemma DistinctUpdate(attributes: map<Conversation, Attributes>, c: Conversation, a: Attributes)
    requires Distinct(attributes)
    requires forall d :: d in attributes && d != c ==> Disjoint(a, attributes[d])
    ensures Distinct(attributes[c := a])
  {
    var n := attributes[c := a];
    forall d, e | d in n && e in n && d != e ensures Disjoint(n[d], n[e]) {
      if d == c {
      } else if e == c {
        assert Disjoint(a, attributes[d]);
      } else {
        assert Disjoint(attributes[d], attributes[e]);
      }
    }
  }

  lemma GiveAci(b: Book, t: Conversation, q: Query)
    requires Indexed(b) && t in b.attributes && q.Valid() && q.aci.Some?
    requires forall d :: d in b.attributes && d != t ==> b.attributes[d].serviceId != q.aci
    ensures var n := ApplyChange(b, t, Only(ServiceIdKey, q.aci));
            Indexed(n) && n.attributes == b.attributes[t := TakeAci(b.attributes[t], q)]
            && n.conversations == b.conversations
  {
    hide Indexed, ApplyChange;
    var a := b.attributes[t];
    assert Changed(a, Only(ServiceIdKey, q.aci)) == TakeAci(a, q);
    IndexedIsDistinct(b);
    forall d | d in b.attributes && d != t ensures Disjoint(TakeAci(a, q), b.attributes[d]) {
      assert Disjoint(a, b.attributes[d]);
    }
    DistinctUpdate(b.attributes, t, TakeAci(a, q));
    ChangeExact(b, t, Only(ServiceIdKey, q.aci));
  }

  lemma GiveNumber(b: Book, t: Conversation, q: Query)
    requires Indexed(b) && t in b.attributes && q.Valid() && q.e164.Some? && b.attributes[t].e164 != q.e164
    requires forall d :: d in b.attributes && d != t ==> b.attributes[d].e164 != q.e164
    ensures var n := ApplyChange(b, t, Only(E164Key, q.e164));
            Indexed(n) && n.attributes == b.attributes[t := TakeNumber(b.attributes[t], q)]
            && n.conversations == b.conversations
  {
    hide Indexed, ApplyChange;
    var a := b.attributes[t];
    assert Changed(a, Only(E164Key, q.e164)) == TakeNumber(a, q);
    IndexedIsDistinct(b);
    forall d | d in b.attributes && d != t ensures Disjoint(TakeNumber(a, q), b.attributes[d]) {
      assert Disjoint(a, b.attributes[d]);
    }
    DistinctUpdate(b.attributes, t, TakeNumber(a, q));
    ChangeExact(b, t, Only(E164Key, q.e164));
  }

  lemma GivePni(b: Book, t: Conversation, q: Query)
    requires Indexed(b) && t in b.attributes && q.Valid() && q.pni.Some? && b.attributes[t].pni != q.pni
    requires forall d :: d in b.attributes && d != t ==> !HoldsPni(b.attributes[d], q.pni.value)
    ensures var n := ApplyChange(b, t, Only(PniKey, q.pni));
            Indexed(n) && n.attributes == b.attributes[t := TakePni(b.attributes[t], q, false)]
            && n.conversations == b.conversations
  {
    hide Indexed, ApplyChange;
    var a := b.attributes[t];
    assert Changed(a, Only(PniKey, q.pni)) == TakePni(a, q, false);
    IndexedIsDistinct(b);
    forall d | d in b.attributes && d != t ensures Disjoint(TakePni(a, q, false), b.attributes[d]) {
      assert Disjoint(a, b.attributes[d]);
    }
    DistinctUpdate(b.attributes, t, TakePni(a, q, false));
    ChangeExact(b, t, Only(PniKey, q.pni));
  }

  lemma ReleaseOnly(b: Book, m: Conversation, change: Change, after: Attributes)
    requires Indexed(b) && m in b.attributes
    requires Changed(b.attributes[m], change) == after
    requires after.serviceId.None? || after.serviceId == b.attributes[m].serviceId
    requires after.e164.None? || after.e164 == b.attributes[m].e164
    requires after.pni.None? || after.pni == b.attributes[m].pni
    ensures var n := ApplyChange(b, m, change);
            Indexed(n) && n.attributes == b.attributes[m := after] && n.conversations == b.conversations
  {
    hide Indexed, ApplyChange, Changed;
    IndexedIsDistinct(b);
    forall d | d in b.attributes && d != m ensures Disjoint(after, b.attributes[d]) {
      assert Disjoint(b.attributes[m], b.attributes[d]);
    }
    DistinctUpdate(b.attributes, m, after);
    ChangeExact(b, m, change);
  }

  // ---------------------------------------------------------------- claiming with the target known

  function Numbered(q: Query, found: Option<Conversation>): Candidate {
    Candidate(E164Key, q.e164, found)
  }

  function Tagging(q: Query, found: Option<Conversation>): Candidate {
    Candidate(PniKey, q.pni, found)
  }

  lemma ClaimNumber(p: Progress, q: Query, m: Conversation)
    requires q.Valid() && q.e164.Some? && p.target.Some? && p.target.value in p.book.attributes
    requires Indexed(p.book) && NumberHeldBy(p.book.attributes, q, Some(m))
    ensures var t := p.target.value; var r := Claim(p, Numbered(q, Some(m)), m, q.pni);
            && Indexed(r.book) && r.book.attributes == NumberMoved(p.book.attributes, t, q)
            && r.book.conversations == p.book.conversations
            && r.target == p.target && r.unused == p.unused
            && r.requests == p.requests + RequestFor(Some(m), t, r.book.attributes)
  {
    hide Indexed, ApplyChange;
    var t, b := p.target.value, p.book;
    if t != m {
      var a := b.attributes[m];
      assert Changed(a, Release(a, E164Key, q.pni)) == LoseNumber(a, q);
      ReleaseOnly(b, m, Release(a, E164Key, q.pni), LoseNumber(a, q));
      var released := ApplyChange(b, m, Release(a, E164Key, q.pni));
      GiveNumber(released, t, q);
      assert b.attributes[m := LoseNumber(a, q)][t := TakeNumber(b.attributes[t], q)] == NumberMoved(b.attributes, t, q);
    } else {
      assert b.attributes == NumberMoved(b.attributes, t, q);
    }
  }

  lemma ClaimPni(p: Progress, q: Query, m: Conversation)
    requires q.Valid() && q.pni.Some? && p.target.Some? && p.target.value in p.book.attributes
    requires Indexed(p.book) && PniHeldBy(p.book.attributes, q, Some(m)) && HeldOrLost(p.book.attributes, p.target.value, q, Some(m))
    ensures var t := p.target.value; var r := Claim(p, Tagging(q, Some(m)), m, q.pni);
            && Indexed(r.book) && r.book.attributes == PniMoved(p.book.attributes, t, q, Some(m))
            && r.book.conversations == p.book.conversations
            && r.target == p.target && r.unused == p.unused
            && r.requests == p.requests + RequestFor(Some(m), t, r.book.attributes)
  {
    hide Indexed, ApplyChange;
    var t, b := p.target.value, p.book;
    if t != m {
      var a := b.attributes[m];
      assert Changed(a, Release(a, PniKey, q.pni)) == LosePni(a, q);
      ReleaseOnly(b, m, Release(a, PniKey, q.pni), LosePni(a, q));
      var released := ApplyChange(b, m, Release(a, PniKey, q.pni));
      GivePni(released, t, q);
      assert b.attributes[m := LosePni(a, q)][t := TakePni(b.attributes[t], q, false)] == PniMoved(b.attributes, t, q, Some(m));
    } else if b.attributes[t].pni.None? {
      GivePni(b, t, q);
      assert b.attributes[t := TakePni(b.attributes[t], q, false)] == PniMoved(b.attributes, t, q, Some(m));
    } else {
      assert b.attributes == PniMoved(b.attributes, t, q, Some(m));
    }
  }

  /** The number's step once the target is known. */
  lemma NumberStep(p: Progress, q: Query, found: Option<Conversation>, created: Conversation)
    requires q.Valid() && p.target.Some? && p.target.value in p.book.attributes && p.unused == []
    requires Indexed(p.book) && NumberHeldBy(p.book.attributes, q, found)
    ensures var t := p.target.value; var r := Step(p, Numbered(q, found), q.pni, created);
            && Indexed(r.book) && r.book.attributes == NumberMoved(p.book.attributes, t, q)
            && r.book.conversations == p.book.conversations
            && r.target == p.target && r.unused == []
            && r.requests == p.requests + RequestFor(found, t, r.book.attributes)
  {
    hide Indexed, ApplyChange, Claim;
    var t := p.target.value;
    if q.e164.None? {
      assert p.book.attributes == NumberMoved(p.book.attributes, t, q);
    } else if found.None? {
      GiveNumber(p.book, t, q);
      assert p.book.attributes[t := TakeNumber(p.book.attributes[t], q)] == NumberMoved(p.book.attributes, t, q);
    } else {
      assert p.(unused := []) == p;
      ClaimNumber(p, q, found.value);
    }
  }

  /** The PNI's step once the target is known. */
  lemma PniStep(p: Progress, q: Query, found: Option<Conversation>, created: Conversation)
    requires q.Valid() && p.target.Some? && p.target.value in p.book.attributes && p.unused == []
    requires Indexed(p.book) && PniHeldBy(p.book.attributes, q, found)
    requires HeldOrLost(p.book.attributes, p.target.value, q, found)
    ensures var t := p.target.value; var r := Step(p, Tagging(q, found), q.pni, created);
            && Indexed(r.book) && r.book.attributes == PniMoved(p.book.attributes, t, q, found)
            && r.book.conversations == p.book.conversations
            && r.target == p.target && r.unused == []
            && r.requests == p.requests + RequestFor(found, t, r.book.attributes)
  {
    hide Indexed, ApplyChange, Claim;
    var t := p.target.value;
    if q.pni.None? {
      assert p.book.attributes == PniMoved(p.book.attributes, t, q, found);
    } else if found.None? {
      GivePni(p.book, t, q);
      assert p.book.attributes[t := TakePni(p.book.attributes[t], q, false)] == PniMoved(p.book.attributes, t, q, found);
    } else {
      assert p.(unused := []) == p;
      ClaimPni(p, q, found.value);
    }
  }
}
