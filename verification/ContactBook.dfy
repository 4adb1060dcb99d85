/**
 The address book of the conversation controller, as a value: the conversations,
 their identifying attributes and the five lookup tables, with the operations
 that keep the tables in step with the attributes.
 */
module ContactBook {
  import opened Identifiers

  /** A conversation object; its attributes change in place, its id never does. */
  class Conversation {
    const id: Identifier
    var serviceId: Option<Identifier>
    var e164: Option<Identifier>
    var pni: Option<Identifier>
    var groupId: Option<Identifier>

    constructor (id: Identifier, attributes: Attributes)
      ensures this.id == id
      ensures GetAttributes() == attributes
    {
      this.id := id;
      serviceId, e164, pni, groupId := attributes.serviceId, attributes.e164, attributes.pni, attributes.groupId;
    }

    function GetAttributes(): Attributes
      reads this
    {
      Attributes(serviceId, e164, pni, groupId)
    }
  }

  datatype Attributes = Attributes(
    serviceId: Option<Identifier>,
    e164: Option<Identifier>,
    pni: Option<Identifier>,
    groupId: Option<Identifier>)
  {
    /** No identifier is left by which this conversation could be reached as a contact. */
    predicate IsEmptied() {
      serviceId.None? && e164.None? && pni.None?
    }
  }

  const BLANK := Attributes(None, None, None, None)

  type Lookup = map<Identifier, Conversation>

  datatype Book = Book(
    conversations: seq<Conversation>,
    attributes: map<Conversation, Attributes>,
    byE164: Lookup,
    byServiceId: Lookup,
    byPni: Lookup,
    byGroupId: Lookup,
    byId: Lookup)
  {
    function Of(c: Conversation): Attributes {
      if c in attributes then attributes[c] else BLANK
    }
  }

  // ---------------------------------------------------------------- lookups

  function Find(m: Lookup, key: Identifier): Option<Conversation> {
    if key in m then Some(m[key]) else None
  }

  function OrElse<T>(first: Option<T>, second: Option<T>): Option<T> {
    if first.Some? then first else second
  }

  function Get(b: Book, key: Option<Identifier>): Option<Conversation> {
    if key.None? then None else
    var id := key.value;
    OrElse(Find(b.byE164, id),
    OrElse(Find(b.byE164, WithPlus(id)),
    OrElse(Find(b.byServiceId, id),
    OrElse(Find(b.byPni, id),
    OrElse(Find(b.byGroupId, id),
           Find(b.byId, id))))))
  }

  /** One table after an attribute went from `before` to `after`. */
  function Reindexed(m: Lookup, c: Conversation, before: Option<Identifier>, after: Option<Identifier>): Lookup {
    var cleared := if before.Some? then m - {before.value} else m;
    if after.Some? then cleared[after.value := c] else cleared
  }

  function SetServiceId(b: Book, c: Conversation, v: Option<Identifier>): Book {
    var a := b.Of(c);
    if a.serviceId == v then b
    else b.(attributes := b.attributes[c := a.(serviceId := v)],
            byServiceId := Reindexed(b.byServiceId, c, a.serviceId, v))
  }

  function SetE164(b: Book, c: Conversation, v: Option<Identifier>): Book {
    var a := b.Of(c);
    if a.e164 == v then b
    else b.(attributes := b.attributes[c := a.(e164 := v)],
            byE164 := Reindexed(b.byE164, c, a.e164, v))
  }

  function SetPni(b: Book, c: Conversation, v: Option<Identifier>): Book {
    var a := b.Of(c);
    if a.pni == v then b
    else b.(attributes := b.attributes[c := a.(pni := v)],
            byPni := Reindexed(b.byPni, c, a.pni, v))
  }

  // ---------------------------------------------------------------- changes

  datatype Field = Untouched | Put(value: Option<Identifier>)
  {
    predicate Truthy() {
      Put? && value.Some?
    }
  }

  datatype Change = Change(serviceId: Field, e164: Field, pni: Field)

  const NO_CHANGE := Change(Untouched, Untouched, Untouched)

  /** A new number without its PNI clears the PNI. */
  function ClearStalePni(change: Change): Change {
    if change.e164.Put? && !change.pni.Truthy() then change.(pni := Put(None)) else change
  }

  /** Without an ACI the PNI also goes in the service id slot. */
  function PromotePni(a: Attributes, change: Change): Change {
    if change.pni.Truthy() && !change.serviceId.Truthy() && (a.serviceId.None? || a.serviceId == a.pni)
    then change.(serviceId := change.pni)
    else change
  }

  /** Clearing a PNI that sits in the service id slot clears that slot too. */
  function DemotePni(a: Attributes, change: Change): Change {
    if !change.serviceId.Truthy() && change.pni.Put? && !change.pni.Truthy() && a.serviceId == a.pni
    then change.(serviceId := Put(None))
    else change
  }

  function Completed(a: Attributes, change: Change): Change {
    DemotePni(a, PromotePni(a, ClearStalePni(change)))
  }

  function ApplyChange(b: Book, c: Conversation, suggested: Change): Book {
    var change := Completed(b.Of(c), suggested);
    var b1 := if change.serviceId.Put? then SetServiceId(b, c, change.serviceId.value) else b;
    var b2 := if change.e164.Put? then SetE164(b1, c, change.e164.value) else b1;
    if change.pni.Put? then SetPni(b2, c, change.pni.value) else b2
  }

  /** What the same change does to the attributes alone. */
  function Changed(a: Attributes, suggested: Change): Attributes {
    var change := Completed(a, suggested);
    a.(serviceId := if change.serviceId.Put? then change.serviceId.value else a.serviceId,
       e164 := if change.e164.Put? then change.e164.value else a.e164,
       pni := if change.pni.Put? then change.pni.value else a.pni)
  }

  // ---------------------------------------------------------------- adding

  function AddToId(b: Book, c: Conversation): Lookup {
    if c.id !in b.byId || b.Of(b.byId[c.id]).serviceId.None? then b.byId[c.id := c] else b.byId
  }

  function AddToE164(b: Book, c: Conversation): Lookup {
    var v := b.Of(c).e164;
    if v.Some? && (v.value !in b.byE164 || b.Of(b.byE164[v.value]).serviceId.None?)
    then b.byE164[v.value := c] else b.byE164
  }

  function AddToServiceId(b: Book, c: Conversation): Lookup {
    var v := b.Of(c).serviceId;
    if v.Some? && (v.value !in b.byServiceId || b.Of(b.byServiceId[v.value]).e164.None?)
    then b.byServiceId[v.value := c] else b.byServiceId
  }

  function AddToPni(b: Book, c: Conversation): Lookup {
    var v := b.Of(c).pni;
    if v.Some? && (v.value !in b.byPni || b.Of(b.byPni[v.value]).serviceId.None?)
    then b.byPni[v.value := c] else b.byPni
  }

  function AddToGroupId(b: Book, c: Conversation): Lookup {
    var v := b.Of(c).groupId;
    if v.Some? then b.byGroupId[v.value := c] else b.byGroupId
  }

  function AddToLookup(b: Book, c: Conversation): Book {
    b.(byId := AddToId(b, c), byE164 := AddToE164(b, c), byServiceId := AddToServiceId(b, c),
       byPni := AddToPni(b, c), byGroupId := AddToGroupId(b, c))
  }

  function Add(b: Book, c: Conversation, a: Attributes): Book {
    AddToLookup(b.(conversations := b.conversations + [c], attributes := b.attributes[c := a]), c)
  }

  /** One table after a conversation is taken out; an entry for someone else stays. */
  function Without(m: Lookup, c: Conversation, v: Option<Identifier>): Lookup {
    if v.Some? && (v.value !in m || m[v.value] == c) then m - {v.value} else m
  }

  function RemoveFromLookup(b: Book, c: Conversation): Book {
    var a := b.Of(c);
    b.(byId := Without(b.byId, c, Some(c.id)), byE164 := Without(b.byE164, c, a.e164),
       byServiceId := Without(b.byServiceId, c, a.serviceId), byPni := Without(b.byPni, c, a.pni),
       byGroupId := Without(b.byGroupId, c, a.groupId))
  }

  /** The attributes `getOrCreate` starts a private conversation from. */
  function Initial(identifier: Identifier): Attributes {
    if IsServiceId(identifier) then BLANK.(serviceId := Some(identifier)) else BLANK.(e164 := Some(identifier))
  }

  // ---------------------------------------------------------------- well-formedness

  /** The table `m` is exactly the inverse of the slot `f`; in particular no two conversations share a value. */
  ghost predicate Inverse(m: Lookup, f: map<Conversation, Option<Identifier>>) {
    && (forall c :: c in f && f[c].Some? ==> f[c].value in m && m[f[c].value] == c)
    && (forall k :: k in m ==> m[k] in f && f[m[k]] == Some(k))
  }

  ghost function ServiceIds(attributes: map<Conversation, Attributes>): map<Conversation, Option<Identifier>> {
    map c | c in attributes :: attributes[c].serviceId
  }

  ghost function E164s(attributes: map<Conversation, Attributes>): map<Conversation, Option<Identifier>> {
    map c | c in attributes :: attributes[c].e164
  }

  ghost function Pnis(attributes: map<Conversation, Attributes>): map<Conversation, Option<Identifier>> {
    map c | c in attributes :: attributes[c].pni
  }

  ghost function GroupIds(attributes: map<Conversation, Attributes>): map<Conversation, Option<Identifier>> {
    map c | c in attributes :: attributes[c].groupId
  }

  ghost function Ids(attributes: map<Conversation, Attributes>): map<Conversation, Option<Identifier>> {
    map c | c in attributes :: Some(c.id)
  }

  ghost function Members(conversations: seq<Conversation>): set<Conversation> {
    set c | c in conversations
  }

  /** Every lookup table is the inverse of the attributes. */
  ghost predicate Indexed(b: Book) {
    && Inverse(b.byServiceId, ServiceIds(b.attributes))
    && Inverse(b.byE164, E164s(b.attributes))
    && Inverse(b.byPni, Pnis(b.attributes))
    && Inverse(b.byGroupId, GroupIds(b.attributes))
    && Inverse(b.byId, Ids(b.attributes))
    && b.attributes.Keys == Members(b.conversations)
  }

  /** Every slot holds an identifier of its own kind. */
  predicate WellKinded(a: Attributes) {
    && (a.serviceId.Some? ==> IsServiceId(a.serviceId.value))
    && (a.e164.Some? ==> IsE164(a.e164.value))
    && (a.pni.Some? ==> a.pni.value.Pni?)
    && (a.groupId.Some? ==> a.groupId.value.GroupId?)
  }

  /** A PNI in the service id slot never contradicts the pni field. */
  predicate Tagged(a: Attributes) {
    a.serviceId.Some? && a.serviceId.value.Pni? && a.pni.Some? ==> a.pni == a.serviceId
  }

  /** The strict form: a PNI in the service id slot equals the pni field. */
  predicate Paired(a: Attributes) {
    a.serviceId.Some? && a.serviceId.value.Pni? ==> a.pni == a.serviceId
  }

  predicate HoldsPni(a: Attributes, pni: Identifier) {
    a.pni == Some(pni) || a.serviceId == Some(pni)
  }

  /** A PNI belongs to one conversation, whichever slot holds it. */
  ghost predicate Exclusive(attributes: map<Conversation, Attributes>) {
    forall c, d, p: Identifier | c in attributes && d in attributes && p.Pni? ::
      HoldsPni(attributes[c], p) && HoldsPni(attributes[d], p) ==> c == d
  }

  ghost predicate AllKinded(attributes: map<Conversation, Attributes>) {
    forall c :: c in attributes ==> WellKinded(attributes[c]) && c.id.ConversationId?
  }

  ghost predicate AllTagged(attributes: map<Conversation, Attributes>) {
    forall c :: c in attributes ==> Tagged(attributes[c])
  }

  ghost predicate AllPaired(attributes: map<Conversation, Attributes>) {
    forall c :: c in attributes ==> Paired(attributes[c])
  }

  ghost predicate Consistent(b: Book) {
    Indexed(b) && AllKinded(b.attributes) && Exclusive(b.attributes)
  }

  ghost predicate WellFormed(b: Book) {
    Consistent(b) && AllTagged(b.attributes)
  }

  // ---------------------------------------------------------------- lemmas

  lemma ReindexKeepsInverse(m: Lookup, f: map<Conversation, Option<Identifier>>, c: Conversation, after: Option<Identifier>)
    requires Inverse(m, f) && c in f
    requires after.Some? && after.value in m ==> m[after.value] == c
    ensures Inverse(Reindexed(m, c, f[c], after), f[c := after])
  {
    var n, g := Reindexed(m, c, f[c], after), f[c := after];
    forall k | k in n ensures n[k] in g && g[n[k]] == Some(k) {
      if after != Some(k) {
        assert k in m && m[k] != c;
      }
    }
    forall d | d in g && g[d].Some? ensures g[d].value in n && n[g[d].value] == d {
      if d != c {
        assert m[f[d].value] == d;
      }
    }
  }

  /** The value is in use by no conversation other than `c`. */
  predicate FreeFor(m: Lookup, c: Conversation, v: Option<Identifier>) {
    v.Some? && v.value in m ==> m[v.value] == c
  }

  lemma SlotsAfterSet(b: Book, c: Conversation, a: Attributes)
    requires c in b.attributes
    ensures ServiceIds(b.attributes[c := a]) == ServiceIds(b.attributes)[c := a.serviceId]
    ensures E164s(b.attributes[c := a]) == E164s(b.attributes)[c := a.e164]
    ensures Pnis(b.attributes[c := a]) == Pnis(b.attributes)[c := a.pni]
    ensures Ids(b.attributes[c := a]) == Ids(b.attributes)
    ensures b.attributes[c := a].Keys == b.attributes.Keys
  {
  }

  lemma SameSlots(b: Book, c: Conversation, a: Attributes)
    requires c in b.attributes
    ensures b.attributes[c].serviceId == a.serviceId ==> ServiceIds(b.attributes[c := a]) == ServiceIds(b.attributes)
    ensures b.attributes[c].e164 == a.e164 ==> E164s(b.attributes[c := a]) == E164s(b.attributes)
    ensures b.attributes[c].pni == a.pni ==> Pnis(b.attributes[c := a]) == Pnis(b.attributes)
    ensures b.attributes[c].groupId == a.groupId ==> GroupIds(b.attributes[c := a]) == GroupIds(b.attributes)
  {
  }

  lemma SlotsAt(b: Book, c: Conversation)
    requires c in b.attributes
    ensures c in ServiceIds(b.attributes) && ServiceIds(b.attributes)[c] == b.attributes[c].serviceId
    ensures c in E164s(b.attributes) && E164s(b.attributes)[c] == b.attributes[c].e164
    ensures c in Pnis(b.attributes) && Pnis(b.attributes)[c] == b.attributes[c].pni
  {
  }

  lemma SetServiceIdTouches(b: Book, c: Conversation, v: Option<Identifier>)
    ensures var r := SetServiceId(b, c, v); r.conversations == b.conversations && r.byE164 == b.byE164 && r.byPni == b.byPni
  {
    hide Reindexed;
  }

  lemma SetE164Touches(b: Book, c: Conversation, v: Option<Identifier>)
    ensures SetE164(b, c, v).conversations == b.conversations && SetE164(b, c, v).byPni == b.byPni
  {
    hide Reindexed;
  }

  lemma SetPniTouches(b: Book, c: Conversation, v: Option<Identifier>)
    ensures SetPni(b, c, v).conversations == b.conversations
  {
    hide Reindexed;
  }

  lemma SetServiceIdKeepsIndex(b: Book, c: Conversation, v: Option<Identifier>)
    requires Indexed(b) && c in b.attributes && FreeFor(b.byServiceId, c, v)
    ensures Indexed(SetServiceId(b, c, v))
    ensures SetServiceId(b, c, v).attributes == b.attributes[c := b.attributes[c].(serviceId := v)]
  {
    hide Inverse, ServiceIds, E164s, Pnis, GroupIds, Ids, Members, Reindexed;
    SlotsAt(b, c);
    SlotsAfterSet(b, c, b.attributes[c].(serviceId := v));
    SameSlots(b, c, b.attributes[c].(serviceId := v));
    ReindexKeepsInverse(b.byServiceId, ServiceIds(b.attributes), c, v);
  }

  lemma SetE164KeepsIndex(b: Book, c: Conversation, v: Option<Identifier>)
    requires Indexed(b) && c in b.attributes && FreeFor(b.byE164, c, v)
    ensures Indexed(SetE164(b, c, v))
    ensures SetE164(b, c, v).attributes == b.attributes[c := b.attributes[c].(e164 := v)]
  {
    hide Inverse, ServiceIds, E164s, Pnis, GroupIds, Ids, Members, Reindexed;
    SlotsAt(b, c);
    SlotsAfterSet(b, c, b.attributes[c].(e164 := v));
    SameSlots(b, c, b.attributes[c].(e164 := v));
    ReindexKeepsInverse(b.byE164, E164s(b.attributes), c, v);
  }

  lemma SetPniKeepsIndex(b: Book, c: Conversation, v: Option<Identifier>)
    requires Indexed(b) && c in b.attributes && FreeFor(b.byPni, c, v)
    ensures Indexed(SetPni(b, c, v))
    ensures SetPni(b, c, v).attributes == b.attributes[c := b.attributes[c].(pni := v)]
  {
    hide Inverse, ServiceIds, E164s, Pnis, GroupIds, Ids, Members, Reindexed;
    SlotsAt(b, c);
    SlotsAfterSet(b, c, b.attributes[c].(pni := v));
    SameSlots(b, c, b.attributes[c].(pni := v));
    ReindexKeepsInverse(b.byPni, Pnis(b.attributes), c, v);
  }

  /** A change whose new values are free keeps every table exact and touches one conversation. */
  lemma ApplyChangeKeepsIndex(b: Book, c: Conversation, change: Change)
    requires Indexed(b) && c in b.attributes
    requires FreeFor(b.byServiceId, c, Changed(b.attributes[c], change).serviceId)
    requires FreeFor(b.byE164, c, Changed(b.attributes[c], change).e164)
    requires FreeFor(b.byPni, c, Changed(b.attributes[c], change).pni)
    ensures Indexed(ApplyChange(b, c, change))
    ensures ApplyChange(b, c, change).attributes == b.attributes[c := Changed(b.attributes[c], change)]
    ensures ApplyChange(b, c, change).conversations == b.conversations
  {
    hide Indexed, SetServiceId, SetE164, SetPni;
    var full := Completed(b.Of(c), change);
    var b1 := if full.serviceId.Put? then SetServiceId(b, c, full.serviceId.value) else b;
    if full.serviceId.Put? {
      SetServiceIdKeepsIndex(b, c, full.serviceId.value);
      SetServiceIdTouches(b, c, full.serviceId.value);
    }
    var b2 := if full.e164.Put? then SetE164(b1, c, full.e164.value) else b1;
    if full.e164.Put? {
      SetE164KeepsIndex(b1, c, full.e164.value);
      SetE164Touches(b1, c, full.e164.value);
    }
    if full.pni.Put? {
      SetPniKeepsIndex(b2, c, full.pni.value);
      SetPniTouches(b2, c, full.pni.value);
    }
  }

  ghost predicate AllNew(b: Book, c: Conversation, a: Attributes) {
    && c !in b.attributes && c.id !in b.byId
    && (a.serviceId.Some? ==> a.serviceId.value !in b.byServiceId)
    && (a.e164.Some? ==> a.e164.value !in b.byE164)
    && (a.pni.Some? ==> a.pni.value !in b.byPni)
    && (a.groupId.Some? ==> a.groupId.value !in b.byGroupId)
  }

  function Inserted(m: Lookup, c: Conversation, v: Option<Identifier>): Lookup {
    if v.Some? then m[v.value := c] else m
  }

  lemma AddInserts(b: Book, c: Conversation, a: Attributes)
    requires AllNew(b, c, a)
    ensures Add(b, c, a) == Book(b.conversations + [c], b.attributes[c := a],
                                 Inserted(b.byE164, c, a.e164), Inserted(b.byServiceId, c, a.serviceId),
                                 Inserted(b.byPni, c, a.pni), Inserted(b.byGroupId, c, a.groupId), b.byId[c.id := c])
  {
  }

  lemma SlotsAfterAdd(b: Book, c: Conversation, a: Attributes)
    ensures ServiceIds(b.attributes[c := a]) == ServiceIds(b.attributes)[c := a.serviceId]
    ensures E164s(b.attributes[c := a]) == E164s(b.attributes)[c := a.e164]
    ensures Pnis(b.attributes[c := a]) == Pnis(b.attributes)[c := a.pni]
    ensures GroupIds(b.attributes[c := a]) == GroupIds(b.attributes)[c := a.groupId]
    ensures Ids(b.attributes[c := a]) == Ids(b.attributes)[c := Some(c.id)]
  {
  }

  lemma MembersAfterAdd(b: Book, c: Conversation, a: Attributes)
    requires b.attributes.Keys == Members(b.conversations)
    ensures b.attributes[c := a].Keys == Members(b.conversations + [c])
  {
  }

  lemma SlotKeys(attributes: map<Conversation, Attributes>)
    ensures ServiceIds(attributes).Keys == E164s(attributes).Keys == Pnis(attributes).Keys
         == GroupIds(attributes).Keys == Ids(attributes).Keys == attributes.Keys
  {
  }

  /** Adding a conversation whose identifiers are all new keeps every table exact. */
  lemma AddKeepsIndex(b: Book, c: Conversation, a: Attributes)
    requires Indexed(b) && AllNew(b, c, a)
    ensures Indexed(Add(b, c, a))
    ensures Add(b, c, a).attributes == b.attributes[c := a]
  {
    AddInserts(b, c, a);
    IdentifiersNew(b, c, a);
    hide Inverse, Add, AllNew, Inserted, ServiceIds, E164s, Pnis, GroupIds, Ids, Members;
    MembersAfterAdd(b, c, a);
    SlotsAfterAdd(b, c, a);
    SlotKeys(b.attributes);
    InsertKeepsInverse(b.byServiceId, ServiceIds(b.attributes), c, a.serviceId);
    InsertKeepsInverse(b.byE164, E164s(b.attributes), c, a.e164);
    InsertKeepsInverse(b.byPni, Pnis(b.attributes), c, a.pni);
    InsertKeepsInverse(b.byGroupId, GroupIds(b.attributes), c, a.groupId);
    InsertKeepsInverse(b.byId, Ids(b.attributes), c, Some(c.id));
    InsertedSome(b.byId, c, c.id);
  }

  lemma IdentifiersNew(b: Book, c: Conversation, a: Attributes)
    requires AllNew(b, c, a)
    ensures c !in b.attributes && c.id !in b.byId
    ensures a.serviceId.Some? ==> a.serviceId.value !in b.byServiceId
    ensures a.e164.Some? ==> a.e164.value !in b.byE164
    ensures a.pni.Some? ==> a.pni.value !in b.byPni
    ensures a.groupId.Some? ==> a.groupId.value !in b.byGroupId
  {
  }

  lemma InsertedSome(m: Lookup, c: Conversation, v: Identifier)
    ensures Inserted(m, c, Some(v)) == m[v := c]
  {
  }

  lemma InsertKeepsInverse(m: Lookup, f: map<Conversation, Option<Identifier>>, c: Conversation, v: Option<Identifier>)
    requires Inverse(m, f) && c !in f
    requires v.Some? ==> v.value !in m
    ensures Inverse(Inserted(m, c, v), f[c := v])
  {
    var n, g := Inserted(m, c, v), f[c := v];
    forall k | k in n ensures n[k] in g && g[n[k]] == Some(k) {
      if v != Some(k) { assert k in m; }
    }
    forall d | d in g && g[d].Some? ensures g[d].value in n && n[g[d].value] == d {
      if d != c { assert m[f[d].value] == d; }
    }
  }

  /** Every table holds keys of its own kind only. */
  lemma TablesWellKinded(b: Book)
    requires Consistent(b)
    ensures forall k :: k in b.byE164 ==> IsE164(k)
    ensures forall k :: k in b.byServiceId ==> IsServiceId(k)
    ensures forall k :: k in b.byPni ==> k.Pni?
    ensures forall k :: k in b.byGroupId ==> k.GroupId?
    ensures forall k :: k in b.byId ==> k.ConversationId?
  {
    forall k | k in b.byE164 ensures IsE164(k) { assert b.attributes[b.byE164[k]].e164 == Some(k); }
    forall k | k in b.byServiceId ensures IsServiceId(k) { assert b.attributes[b.byServiceId[k]].serviceId == Some(k); }
    forall k | k in b.byPni ensures k.Pni? { assert b.attributes[b.byPni[k]].pni == Some(k); }
    forall k | k in b.byGroupId ensures k.GroupId? { assert b.attributes[b.byGroupId[k]].groupId == Some(k); }
  }

  /** The conversation `c` holds `id` in the slot (or, for a PNI, one of the two slots) that can hold it. */
  ghost predicate Holder(b: Book, c: Conversation, id: Identifier) {
    c in b.attributes &&
    match id
    case Aci(_) => b.attributes[c].serviceId == Some(id)
    case Pni(_) => HoldsPni(b.attributes[c], id)
    case E164(_) => b.attributes[c].e164 == Some(id)
    case GroupId(_) => b.attributes[c].groupId == Some(id)
    case ConversationId(_) => c.id == id
  }

  lemma AbsentByKind(b: Book, id: Identifier)
    requires Consistent(b)
    ensures !id.E164? ==> id !in b.byE164
    ensures !IsServiceId(id) ==> id !in b.byServiceId
    ensures !id.Pni? ==> id !in b.byPni
    ensures !id.GroupId? ==> id !in b.byGroupId
    ensures !id.ConversationId? ==> id !in b.byId
    ensures (id.E164? ==> IsE164(id)) ==> WithPlus(id) !in b.byE164
  {
    TablesWellKinded(b);
    hide Consistent;
    var plus := WithPlus(id);
    if id.E164? && IsE164(id) {
      assert plus.text[1] == '+';
    }
    assert plus in b.byE164 ==> IsE164(plus);
  }

  /** Because the identifier spaces are disjoint, a lookup consults only the tables of its own space. */
  lemma GetByKind(b: Book, id: Identifier)
    requires Consistent(b)
    requires id.E164? ==> IsE164(id)
    ensures Get(b, Some(id)) ==
      match id
      case Aci(_) => Find(b.byServiceId, id)
      case Pni(_) => OrElse(Find(b.byServiceId, id), Find(b.byPni, id))
      case E164(_) => Find(b.byE164, id)
      case GroupId(_) => Find(b.byGroupId, id)
      case ConversationId(_) => Find(b.byId, id)
  {
    AbsentByKind(b, id);
    hide Consistent, IsE164, WithPlus;
  }

  lemma TableFinds(m: Lookup, f: map<Conversation, Option<Identifier>>, id: Identifier, c: Conversation)
    requires Inverse(m, f)
    ensures Find(m, id) == Some(c) <==> c in f && f[c] == Some(id)
  {
  }

  lemma GetFindsPniHolder(b: Book, id: Identifier, c: Conversation)
    requires Consistent(b) && id.Pni?
    ensures Get(b, Some(id)) == Some(c) <==> Holder(b, c, id)
  {
    hide Inverse, Get, AllKinded;
    GetByKind(b, id);
    TableFinds(b.byServiceId, ServiceIds(b.attributes), id, c);
    TableFinds(b.byPni, Pnis(b.attributes), id, c);
    if id in b.byServiceId {
      var d := b.byServiceId[id];
      TableFinds(b.byServiceId, ServiceIds(b.attributes), id, d);
      assert HoldsPni(b.attributes[d], id);
    }
  }

  /** In a consistent book a lookup answers with the one conversation that holds the identifier, if any. */
  lemma GetFindsHolder(b: Book, id: Identifier, c: Conversation)
    requires Consistent(b)
    requires id.E164? ==> IsE164(id)
    ensures Get(b, Some(id)) == Some(c) <==> Holder(b, c, id)
  {
    hide Get, Inverse, IsE164, HoldsPni;
    GetByKind(b, id);
    match id
    case Aci(_) => TableFinds(b.byServiceId, ServiceIds(b.attributes), id, c);
    case Pni(_) => GetFindsPniHolder(b, id, c);
    case E164(_) => TableFinds(b.byE164, E164s(b.attributes), id, c);
    case GroupId(_) => TableFinds(b.byGroupId, GroupIds(b.attributes), id, c);
    case ConversationId(_) => TableFinds(b.byId, Ids(b.attributes), id, c);
  }

  // ---------------------------------------------------------------- single operations, by what they do

  /** A number written without its plus is found too. */
  lemma NumberWithoutPlus(b: Book, digits: string, c: Conversation)
    requires Consistent(b) && c in b.attributes && b.attributes[c].e164 == Some(E164("+" + digits))
    ensures Get(b, Some(E164(digits))) == Some(c)
  {
    TablesWellKinded(b);
    var plus := E164("+" + digits);
    TableFinds(b.byE164, E164s(b.attributes), plus, c);
    assert WithPlus(E164(digits)) == plus;
    assert plus.text[1] == digits[0] && !IsE164(E164(digits));
  }

  /** A table after a conversation is taken out: its own entry is gone, and everybody else's stays. */
  lemma OthersStayBound(m: Lookup, c: Conversation, v: Option<Identifier>, k: Identifier)
    ensures k in Without(m, c, v) <==> k in m && !(v == Some(k) && m[k] == c)
    ensures k in Without(m, c, v) ==> Without(m, c, v)[k] == m[k]
  {
  }

  /** Taking a conversation out of an exact book leaves exactly the other conversations' entries. */
  lemma RemovalTakesOnlyOwn(b: Book, c: Conversation, k: Identifier)
    requires Indexed(b) && c in b.attributes
    ensures var r := RemoveFromLookup(b, c);
            && (k in r.byE164 <==> k in b.byE164 && b.byE164[k] != c) && (k in r.byE164 ==> r.byE164[k] == b.byE164[k])
            && (k in r.byServiceId <==> k in b.byServiceId && b.byServiceId[k] != c)
            && (k in r.byServiceId ==> r.byServiceId[k] == b.byServiceId[k])
            && (k in r.byPni <==> k in b.byPni && b.byPni[k] != c) && (k in r.byPni ==> r.byPni[k] == b.byPni[k])
            && (k in r.byGroupId <==> k in b.byGroupId && b.byGroupId[k] != c)
            && (k in r.byGroupId ==> r.byGroupId[k] == b.byGroupId[k])
            && (k in r.byId <==> k in b.byId && b.byId[k] != c) && (k in r.byId ==> r.byId[k] == b.byId[k])
            && r.attributes == b.attributes && r.conversations == b.conversations
  {
    hide Without;
    OthersStayBound(b.byE164, c, b.attributes[c].e164, k);
    OthersStayBound(b.byServiceId, c, b.attributes[c].serviceId, k);
    OthersStayBound(b.byPni, c, b.attributes[c].pni, k);
    OthersStayBound(b.byGroupId, c, b.attributes[c].groupId, k);
    OthersStayBound(b.byId, c, Some(c.id), k);
  }

  /**
   What a change means for the attributes. A field that is put counts as put. A number put
   without its PNI clears the PNI; a PNI put without a service id also goes in the service id
   slot if that is empty or held the old PNI; and a cleared PNI is cleared there, too.
   */
  lemma ChangeMeans(a: Attributes, change: Change)
    ensures var r := Changed(a, change);
            var pniCleared := change.pni == Put(None) || (change.pni == Untouched && change.e164 != Untouched);
            && r.groupId == a.groupId
            && r.e164 == (if change.e164 == Untouched then a.e164 else change.e164.value)
            && r.pni == (if change.pni.Put? && change.pni.value.Some? then change.pni.value else if pniCleared then None else a.pni)
            && r.serviceId ==
                 if change.serviceId.Put? && change.serviceId.value.Some? then change.serviceId.value
                 else if change.pni.Put? && change.pni.value.Some? && (a.serviceId == None || a.serviceId == a.pni) then change.pni.value
                 else if pniCleared && a.serviceId == a.pni then None
                 else if change.serviceId.Put? then None
                 else a.serviceId
  {
  }
}
