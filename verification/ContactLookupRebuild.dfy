/**
 Rebuilding the lookups from the conversation list. All five tables obey one rule that
 also settles duplicates: the first preferred holder of an identifier wins and, when no
 holder is preferred, the last one does.
 */
module ContactLookupRebuild {
  import opened Identifiers
  import opened ContactBook

  function Erased(b: Book): Book {
    b.(byE164 := map[], byServiceId := map[], byPni := map[], byGroupId := map[], byId := map[])
  }

  /** The book after the first `n` conversations of the list were added to the lookups. */
  function Generated(b: Book, n: nat): Book
    requires n <= |b.conversations|
    ensures Generated(b, n).attributes == b.attributes && Generated(b, n).conversations == b.conversations
  {
    if n == 0 then b else AddToLookup(Generated(b, n - 1), b.conversations[n - 1])
  }

  function Rebuilt(b: Book): Book {
    Generated(Erased(b), |b.conversations|)
  }

  type SlotOf = Conversation -> Option<Identifier>
  type Preference = Conversation -> bool

  /** One conversation's entry in one table, by the common rule. */
  function Rebind(m: Lookup, c: Conversation, v: Option<Identifier>, preferred: Preference): Lookup {
    if v.Some? && (v.value !in m || !preferred(m[v.value])) then m[v.value := c] else m
  }

  function Table(list: seq<Conversation>, n: nat, slot: SlotOf, preferred: Preference): Lookup
    requires n <= |list|
  {
    if n == 0 then map[] else Rebind(Table(list, n - 1, slot, preferred), list[n - 1], slot(list[n - 1]), preferred)
  }

  /** Position `i` is the first preferred holder of `k` among the first `n`, or the last holder if none is preferred. */
  predicate ElectedAt(list: seq<Conversation>, n: nat, slot: SlotOf, preferred: Preference, k: Identifier, i: nat)
    requires n <= |list|
  {
    && i < n && slot(list[i]) == Some(k)
    && if preferred(list[i])
       then forall j :: 0 <= j < i && slot(list[j]) == Some(k) ==> !preferred(list[j])
       else forall j :: 0 <= j < n && slot(list[j]) == Some(k) ==> !preferred(list[j]) && j <= i
  }

  ghost predicate Elected(list: seq<Conversation>, n: nat, slot: SlotOf, preferred: Preference, k: Identifier, c: Conversation)
    requires n <= |list|
  {
    exists i: nat :: ElectedAt(list, n, slot, preferred, k, i) && list[i] == c
  }

  /** The table binds `k` exactly if somebody holds it, and then to the conversation elected for it. */
  ghost predicate Follows(m: Lookup, list: seq<Conversation>, n: nat, slot: SlotOf, preferred: Preference, k: Identifier)
    requires n <= |list|
  {
    && (k in m <==> exists i :: 0 <= i < n && slot(list[i]) == Some(k))
    && (k in m ==> Elected(list, n, slot, preferred, k, m[k]))
  }

  /** A table built in list order follows the rule, whatever the slot and the preference. */
  lemma {:induction false} TableElects(list: seq<Conversation>, n: nat, slot: SlotOf, preferred: Preference, k: Identifier)
    requires n <= |list|
    ensures Follows(Table(list, n, slot, preferred), list, n, slot, preferred, k)
  {
    if n == 0 {
    } else {
      TableElects(list, n - 1, slot, preferred, k);
      var m, c := Table(list, n - 1, slot, preferred), list[n - 1];
      if slot(c) == Some(k) && (k !in m || !preferred(m[k])) {
        assert ElectedAt(list, n, slot, preferred, k, n - 1);
      } else if k in m {
        var i: nat :| ElectedAt(list, n - 1, slot, preferred, k, i) && list[i] == m[k];
        assert ElectedAt(list, n, slot, preferred, k, i);
      }
    }
  }

  /** At most one conversation can be elected for an identifier. */
  lemma ElectedIsUnique(list: seq<Conversation>, n: nat, slot: SlotOf, preferred: Preference, k: Identifier, c: Conversation, d: Conversation)
    requires n <= |list|
    requires Elected(list, n, slot, preferred, k, c) && Elected(list, n, slot, preferred, k, d)
    ensures c == d
  {
  }

  function HasServiceId(b: Book): Preference {
    (c: Conversation) => b.Of(c).serviceId.Some?
  }

  function HasE164(b: Book): Preference {
    (c: Conversation) => b.Of(c).e164.Some?
  }

  function Nobody(): Preference {
    (c: Conversation) => false
  }

  function E164Slot(b: Book): SlotOf {
    (c: Conversation) => b.Of(c).e164
  }

  function ServiceIdSlot(b: Book): SlotOf {
    (c: Conversation) => b.Of(c).serviceId
  }

  function PniSlot(b: Book): SlotOf {
    (c: Conversation) => b.Of(c).pni
  }

  function GroupIdSlot(b: Book): SlotOf {
    (c: Conversation) => b.Of(c).groupId
  }

  function IdSlot(): SlotOf {
    (c: Conversation) => Some(c.id)
  }

  /** Each rebuilt table follows the common rule, with its own slot and preference. */
  lemma {:induction false} GeneratedTables(b: Book, n: nat)
    requires n <= |b.conversations|
    ensures var g, list := Generated(Erased(b), n), b.conversations;
            && g.byE164 == Table(list, n, E164Slot(b), HasServiceId(b))
            && g.byPni == Table(list, n, PniSlot(b), HasServiceId(b))
            && g.byId == Table(list, n, IdSlot(), HasServiceId(b))
            && g.byServiceId == Table(list, n, ServiceIdSlot(b), HasE164(b))
            && g.byGroupId == Table(list, n, GroupIdSlot(b), Nobody())
  {
    if n == 0 {
    } else {
      GeneratedTables(b, n - 1);
      AddRebinds(Generated(Erased(b), n - 1), b, b.conversations[n - 1]);
      hide AddToLookup, Rebind, HasServiceId, HasE164, Nobody, E164Slot, PniSlot, IdSlot, ServiceIdSlot, GroupIdSlot;
    }
  }

  /** Adding one conversation is the common rule on every table. */
  lemma AddRebinds(g: Book, b: Book, c: Conversation)
    requires g.attributes == b.attributes
    ensures var r := AddToLookup(g, c);
            && r.byE164 == Rebind(g.byE164, c, E164Slot(b)(c), HasServiceId(b))
            && r.byPni == Rebind(g.byPni, c, PniSlot(b)(c), HasServiceId(b))
            && r.byId == Rebind(g.byId, c, IdSlot()(c), HasServiceId(b))
            && r.byServiceId == Rebind(g.byServiceId, c, ServiceIdSlot(b)(c), HasE164(b))
            && r.byGroupId == Rebind(g.byGroupId, c, GroupIdSlot(b)(c), Nobody())
  {
    OneTableRebinds(g, b, c);
    OtherTablesRebind(g, b, c);
    hide Rebind, HasServiceId, HasE164, Nobody, E164Slot, PniSlot, IdSlot, ServiceIdSlot, GroupIdSlot;
    hide AddToE164, AddToPni, AddToId, AddToServiceId, AddToGroupId;
  }

  lemma OneTableRebinds(g: Book, b: Book, c: Conversation)
    requires g.attributes == b.attributes
    ensures AddToE164(g, c) == Rebind(g.byE164, c, E164Slot(b)(c), HasServiceId(b))
    ensures AddToPni(g, c) == Rebind(g.byPni, c, PniSlot(b)(c), HasServiceId(b))
    ensures AddToId(g, c) == Rebind(g.byId, c, IdSlot()(c), HasServiceId(b))
  {
    var hasServiceId := HasServiceId(b);
    assert forall d: Conversation | d in g.attributes :: hasServiceId(d) == g.Of(d).serviceId.Some?;
  }

  lemma OtherTablesRebind(g: Book, b: Book, c: Conversation)
    requires g.attributes == b.attributes
    ensures AddToServiceId(g, c) == Rebind(g.byServiceId, c, ServiceIdSlot(b)(c), HasE164(b))
    ensures AddToGroupId(g, c) == Rebind(g.byGroupId, c, GroupIdSlot(b)(c), Nobody())
  {
    var hasE164 := HasE164(b);
    assert forall d: Conversation | d in g.attributes :: hasE164(d) == g.Of(d).e164.Some?;
  }

  /** What the slots and preferences of the five tables are. */
  lemma SlotsAreFields(b: Book, c: Conversation)
    ensures E164Slot(b)(c) == b.Of(c).e164
    ensures PniSlot(b)(c) == b.Of(c).pni
    ensures ServiceIdSlot(b)(c) == b.Of(c).serviceId
    ensures GroupIdSlot(b)(c) == b.Of(c).groupId
    ensures IdSlot()(c) == Some(c.id)
    ensures HasServiceId(b)(c) <==> b.Of(c).serviceId != None
    ensures HasE164(b)(c) <==> b.Of(c).e164 != None
    ensures !Nobody()(c)
  {
  }

  /**
   Rebuilding from any list, duplicates included: a number or PNI leads to its first holder
   with a service id, a service id to its first holder with a number, a group id to its last
   holder, each falling back to the last holder; an identifier nobody holds leads nowhere.
   */
  lemma RebuildElects(b: Book, k: Identifier)
    ensures var r, list, n := Rebuilt(b), b.conversations, |b.conversations|;
            && Follows(r.byE164, list, n, E164Slot(b), HasServiceId(b), k)
            && Follows(r.byPni, list, n, PniSlot(b), HasServiceId(b), k)
            && Follows(r.byId, list, n, IdSlot(), HasServiceId(b), k)
            && Follows(r.byServiceId, list, n, ServiceIdSlot(b), HasE164(b), k)
            && Follows(r.byGroupId, list, n, GroupIdSlot(b), Nobody(), k)
  {
    hide Follows, Table;
    var list, n := b.conversations, |b.conversations|;
    GeneratedTables(b, n);
    TableElects(list, n, E164Slot(b), HasServiceId(b), k);
    TableElects(list, n, PniSlot(b), HasServiceId(b), k);
    TableElects(list, n, IdSlot(), HasServiceId(b), k);
    TableElects(list, n, ServiceIdSlot(b), HasE164(b), k);
    TableElects(list, n, GroupIdSlot(b), Nobody(), k);
  }

  lemma TableIsInverse(b: Book, m: Lookup, f: map<Conversation, Option<Identifier>>, slot: SlotOf, preferred: Preference)
    requires Inverse(m, f) && f.Keys == Members(b.conversations)
    requires forall c :: c in f ==> f[c] == slot(c)
    ensures Table(b.conversations, |b.conversations|, slot, preferred) == m
  {
    var list, n := b.conversations, |b.conversations|;
    var t := Table(list, n, slot, preferred);
    forall k ensures k in t <==> k in m
             ensures k in t ==> t[k] == m[k]
    {
      TableElects(list, n, slot, preferred, k);
      if k in m {
        assert m[k] in list;
        var i :| 0 <= i < n && list[i] == m[k];
        assert slot(list[i]) == Some(k);
      }
      if k in t {
        assert t[k] in list && slot(t[k]) == Some(k);
        assert f[t[k]] == Some(k);
      }
    }
  }

  /** Where the lookups are exact, rebuilding them changes nothing. */
  lemma RebuildRestores(b: Book)
    requires Indexed(b)
    ensures Rebuilt(b) == b
  {
    hide Inverse, Table;
    var n := |b.conversations|;
    GeneratedTables(b, n);
    forall c ensures E164Slot(b)(c) == b.Of(c).e164 && PniSlot(b)(c) == b.Of(c).pni && ServiceIdSlot(b)(c) == b.Of(c).serviceId
                     && GroupIdSlot(b)(c) == b.Of(c).groupId && IdSlot()(c) == Some(c.id) {
      SlotsAreFields(b, c);
    }
    assert Rebuilt(b).conversations == b.conversations && Rebuilt(b).attributes == b.attributes;
    hide Generated, E164Slot, PniSlot, ServiceIdSlot, GroupIdSlot, IdSlot, HasServiceId, HasE164, Nobody, Members;
    TableIsInverse(b, b.byE164, E164s(b.attributes), E164Slot(b), HasServiceId(b));
    TableIsInverse(b, b.byPni, Pnis(b.attributes), PniSlot(b), HasServiceId(b));
    TableIsInverse(b, b.byId, Ids(b.attributes), IdSlot(), HasServiceId(b));
    TableIsInverse(b, b.byServiceId, ServiceIds(b.attributes), ServiceIdSlot(b), HasE164(b));
    TableIsInverse(b, b.byGroupId, GroupIds(b.attributes), GroupIdSlot(b), Nobody());
  }

  /** Taking a conversation out of exact lookups undoes putting it in. */
  lemma RemoveUndoesAdd(b: Book, c: Conversation, a: Attributes)
    requires AllNew(b, c, a)
    ensures var r := RemoveFromLookup(Add(b, c, a), c);
            && r.byE164 == b.byE164 && r.byServiceId == b.byServiceId && r.byPni == b.byPni
            && r.byGroupId == b.byGroupId && r.byId == b.byId
  {
    AddInserts(b, c, a);
    hide Add;
    InsertThenWithout(b.byE164, c, a.e164);
    InsertThenWithout(b.byServiceId, c, a.serviceId);
    InsertThenWithout(b.byPni, c, a.pni);
    InsertThenWithout(b.byGroupId, c, a.groupId);
    InsertThenWithout(b.byId, c, Some(c.id));
  }

  lemma InsertThenWithout(m: Lookup, c: Conversation, v: Option<Identifier>)
    requires v.Some? ==> v.value !in m
    ensures Without(Inserted(m, c, v), c, v) == m
  {
  }
}
