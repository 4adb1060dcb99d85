/**
 What one call of `maybeMergeContacts` does to the address book: the walk over the
 three candidates (aci, e164, pni) as a fold over a progress value, and beside it an
 independent closed form saying which conversation is chosen and what becomes of the
 attributes of every conversation.
 */
module ContactMerge {
  import opened Identifiers
  import opened ContactBook

  datatype Key = ServiceIdKey | E164Key | PniKey

  datatype Candidate = Candidate(key: Key, value: Option<Identifier>, found: Option<Conversation>)

  datatype Unused = Unused(key: Key, value: Identifier)

  /** A conversation with no identifier left, to be merged into `current`. */
  datatype Request = Request(current: Conversation, obsolete: Conversation)

  datatype Progress = Progress(book: Book, target: Option<Conversation>, unused: seq<Unused>, requests: seq<Request>)

  function Slot(a: Attributes, key: Key): Option<Identifier> {
    match key
    case ServiceIdKey => a.serviceId
    case E164Key => a.e164
    case PniKey => a.pni
  }

  function Only(key: Key, value: Option<Identifier>): Change {
    match key
    case ServiceIdKey => NO_CHANGE.(serviceId := Put(value))
    case E164Key => NO_CHANGE.(e164 := Put(value))
    case PniKey => NO_CHANGE.(pni := Put(value))
  }

  // ---------------------------------------------------------------- the walk

  /** Finds the conversation known by `identifier`, or adds `created` with the given attributes. */
  function GetOrCreate(b: Book, identifier: Identifier, initial: Attributes, created: Conversation): (Book, Conversation) {
    var existing := Get(b, Some(identifier));
    if existing.Some? then (b, existing.value) else (Add(b, created, initial), created)
  }

  /** May the matched conversation itself take the unused identifier? */
  predicate CanTake(a: Attributes, key: Key, pni: Option<Identifier>) {
    || Slot(a, key).None?
    || (key == ServiceIdKey && Slot(a, key) == pni)
    || (key == ServiceIdKey && Slot(a, key) == a.pni)
  }

  function ChooseTarget(p: Progress, m: Conversation, u: Unused, pni: Option<Identifier>, created: Conversation): Progress {
    if p.target.Some? then p
    else if CanTake(p.book.Of(m), u.key, pni) then p.(target := Some(m))
    else
      var (b, c) := GetOrCreate(p.book, u.value, Initial(u.value), created);
      p.(book := b, target := Some(c))
  }

  function TakeOne(p: Progress, m: Conversation, u: Unused, pni: Option<Identifier>, created: Conversation): Progress {
    var q := ChooseTarget(p, m, u, pni, created);
    q.(book := ApplyChange(q.book, q.target.value, Only(u.key, Some(u.value))))
  }

  function TakeUnused(p: Progress, m: Conversation, us: seq<Unused>, pni: Option<Identifier>, created: Conversation): Progress
    decreases |us|
  {
    if us == [] then p else TakeUnused(TakeOne(p, m, us[0], pni, created), m, us[1..], pni, created)
  }

  /** The change that takes a candidate's identifier away from the conversation it was found on. */
  function Release(a: Attributes, key: Key, pni: Option<Identifier>): Change {
    var change := Only(key, None);
    if key != ServiceIdKey && a.serviceId == pni then change.(serviceId := Put(None)) else change
  }

  /** Moves the candidate's identifier from `m` to the target, or re-adds it when it was erased. */
  function Claim(p: Progress, item: Candidate, m: Conversation, pni: Option<Identifier>): Progress {
    if p.target.None? then p else
    var t := p.target.value;
    if t != m then
      var released := ApplyChange(p.book, m, Release(p.book.Of(m), item.key, pni));
      var claimed := ApplyChange(released, t, Only(item.key, item.value));
      p.(book := claimed,
         requests := if released.Of(m).IsEmptied() then p.requests + [Request(t, m)] else p.requests)
    else if Slot(p.book.Of(t), item.key).None? then
      p.(book := ApplyChange(p.book, t, Only(item.key, item.value)))
    else p
  }

  function Step(p: Progress, item: Candidate, pni: Option<Identifier>, created: Conversation): Progress {
    if item.value.None? then p
    else if item.found.None? then
      if p.target.Some?
      then p.(book := ApplyChange(p.book, p.target.value, Only(item.key, item.value)))
      else p.(unused := p.unused + [Unused(item.key, item.value.value)])
    else
      var m := item.found.value;
      var q := Claim(TakeUnused(p, m, p.unused, pni, created).(unused := []), item, m, pni);
      if q.target.None? then q.(target := Some(m)) else q
  }

  function Walk(p: Progress, items: seq<Candidate>, pni: Option<Identifier>, created: Conversation): Progress
    decreases |items|
  {
    if items == [] then p else Walk(Step(p, items[0], pni, created), items[1..], pni, created)
  }

  /** Who is asked about: at least one of the three is given. */
  datatype Query = Query(aci: Option<Identifier>, e164: Option<Identifier>, pni: Option<Identifier>)
  {
    predicate Valid() {
      && (aci.Some? || e164.Some? || pni.Some?)
      && (aci.Some? ==> aci.value.Aci?)
      && (e164.Some? ==> IsE164(e164.value))
      && (pni.Some? ==> pni.value.Pni?)
    }

    /** The identifier a conversation made from scratch is created under. */
    function Primary(): Option<Identifier> {
      if aci.Some? then aci else if pni.Some? then pni else e164
    }
  }

  function Candidates(b: Book, q: Query): seq<Candidate> {
    [ Candidate(ServiceIdKey, q.aci, Get(b, q.aci)),
      Candidate(E164Key, q.e164, Get(b, q.e164)),
      Candidate(PniKey, q.pni, Get(b, q.pni)) ]
  }

  /** The whole call; `created` is the object to use if a conversation has to be made. */
  function Merge(b: Book, q: Query, created: Conversation): Progress {
    var p := Walk(Progress(b, None, [], []), Candidates(b, q), q.pni, created);
    if p.target.Some? || q.Primary().None? then p
    else
      var identifier := q.Primary().value;
      var (b', c) := GetOrCreate(b, identifier, Initial(identifier).(e164 := q.e164, pni := q.pni), created);
      p.(book := b', target := Some(c), unused := [])
  }

  // ---------------------------------------------------------------- the closed form

  /** No identifier of the slot's kind stands in the way of giving this conversation an ACI. */
  predicate LacksAci(a: Attributes, pni: Option<Identifier>) {
    a.serviceId.None? || (a.serviceId.value.Pni? && (a.serviceId == pni || a.serviceId == a.pni))
  }

  /** The existing conversation the identifiers are gathered on; None when one is made. */
  function Chosen(b: Book, q: Query): Option<Conversation> {
    var byAci, byE164, byPni := Get(b, q.aci), Get(b, q.e164), Get(b, q.pni);
    var first := OrElse(byE164, byPni);
    if byAci.Some? then byAci
    else if first.None? then None
    else if q.aci.Some? then (if LacksAci(b.Of(first.value), q.pni) then first else None)
    else if byE164.Some? || q.e164.None? || b.Of(first.value).e164.None? then first
    else None
  }

  /** What the chosen conversation ends up with. */
  function Gathered(a: Attributes, q: Query): Attributes {
    var numberChanges := q.e164.Some? && a.e164 != q.e164;
    // A PNI found on the conversation is not written again while its pni field has some value.
    var pniStays := q.pni.None? || (HoldsPni(a, q.pni.value) && a.pni.Some?);
    var pni := if !numberChanges && pniStays then a.pni else q.pni;
    var slot :=
      if q.aci.Some? then q.aci
      else if pni == a.pni && !numberChanges then a.serviceId
      else if a.serviceId.None? || a.serviceId == a.pni then pni
      else a.serviceId;
    // A lone PNI that is found changes nothing at all.
    if q.aci.None? && q.e164.None? && q.pni.Some? && HoldsPni(a, q.pni.value) then a
    else a.(serviceId := slot, e164 := if q.e164.Some? then q.e164 else a.e164, pni := pni)
  }

  /** What any other conversation is left with. */
  function Stripped(a: Attributes, q: Query): Attributes {
    var losesNumber := q.e164.Some? && a.e164 == q.e164;
    var losesPni := losesNumber || (q.pni.Some? && HoldsPni(a, q.pni.value));
    a.(e164 := if losesNumber then None else a.e164,
       pni := if losesPni then None else a.pni,
       serviceId := if losesPni && a.serviceId.Some? && (a.serviceId == a.pni || a.serviceId == q.pni) then None else a.serviceId)
  }

  function Outcome(attributes: map<Conversation, Attributes>, t: Conversation, q: Query): map<Conversation, Attributes> {
    map c | c in attributes :: if c == t then Gathered(attributes[c], q) else Stripped(attributes[c], q)
  }

  /** The book before the call, with an empty conversation added when one has to be made. */
  function Before(b: Book, q: Query, created: Conversation): map<Conversation, Attributes> {
    if Chosen(b, q).Some? then b.attributes else b.attributes[created := BLANK]
  }

  function Target(b: Book, q: Query, created: Conversation): Conversation {
    if Chosen(b, q).Some? then Chosen(b, q).value else created
  }

  /** A merge is asked for exactly when a conversation found by number, then by PNI, is left with nothing. */
  function RequestFor(found: Option<Conversation>, t: Conversation, after: map<Conversation, Attributes>): seq<Request> {
    if found.Some? && found.value != t && found.value in after && after[found.value].IsEmptied()
    then [Request(t, found.value)] else []
  }

  function Requests(b: Book, q: Query, t: Conversation, after: map<Conversation, Attributes>): seq<Request> {
    RequestFor(Get(b, q.e164), t, after) + RequestFor(Get(b, q.pni), t, after)
  }
}
