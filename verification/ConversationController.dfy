/**
 The conversation controller itself: conversation objects and five lookup tables,
 updated in place. Every method is tied to the book operation it performs.
 */
module ConversationController {
  import opened Identifiers
  import opened ContactBook
  import opened ContactMerge
  import opened ContactLookupRebuild

  datatype IdProp = ServiceIdProp | E164Prop | PniProp | GroupIdProp

  /** Initial values a caller of `GetOrCreate` may add. */
  datatype InitialProps = NoProps | NumberAndPni(e164: Option<Identifier>, pni: Option<Identifier>)

  function WithProps(a: Attributes, props: InitialProps): Attributes {
    match props
    case NoProps => a
    case NumberAndPni(e164, pni) => a.(e164 := e164, pni := pni)
  }

  /** What a merge answers: an error when a PNI is passed for the ACI, or there is nothing to go by. */
  datatype MergeReply = PniGivenForAci | NothingToGoBy | Merged(conversation: Conversation, requests: seq<Request>)

  /** Every conversation the table leads to is in the list. */
  ghost predicate Listed(m: Lookup, conversations: seq<Conversation>) {
    forall k :: k in m ==> m[k] in conversations
  }

  class ConversationController {
    var conversations: seq<Conversation>
    var byE164: Lookup
    var byServiceId: Lookup
    var byPni: Lookup
    var byGroupId: Lookup
    var byId: Lookup

    constructor ()
      ensures Valid() && conversations == []
      ensures ToBook() == Book([], map[], map[], map[], map[], map[], map[])
    {
      conversations := [];
      byE164, byServiceId, byPni, byGroupId, byId := map[], map[], map[], map[], map[];
    }

    /** Every conversation a table leads to is in the list. */
    ghost predicate Valid()
      reads this
    {
      && Listed(byE164, conversations)
      && Listed(byServiceId, conversations)
      && Listed(byPni, conversations)
      && Listed(byGroupId, conversations)
      && Listed(byId, conversations)
    }

    ghost function AllAttributes(): map<Conversation, Attributes>
      reads this`conversations, conversations
    {
      map c: Conversation | c in conversations :: c.GetAttributes()
    }

    ghost function ToBook(): Book
      reads this, conversations
    {
      Book(conversations, AllAttributes(),
           byE164, byServiceId, byPni, byGroupId, byId)
    }

    method Get(id: Option<Identifier>) returns (r: Option<Conversation>)
      ensures r == ContactBook.Get(ToBook(), id)
      ensures Valid() && r.Some? ==> r.value in conversations
    {
      if id.None? {
        return None;
      }
      var key := id.value;
      if key in byE164 {
        r := Some(byE164[key]);
      } else if WithPlus(key) in byE164 {
        r := Some(byE164[WithPlus(key)]);
      } else if key in byServiceId {
        r := Some(byServiceId[key]);
      } else if key in byPni {
        r := Some(byPni[key]);
      } else if key in byGroupId {
        r := Some(byGroupId[key]);
      } else if key in byId {
        r := Some(byId[key]);
      } else {
        r := None;
      }
    }

    /** Called after an attribute of the model changed, with the value it had. */
    method IdUpdated(model: Conversation, prop: IdProp, oldValue: Option<Identifier>)
      requires Valid() && model in conversations
      modifies this`byE164, this`byServiceId, this`byPni, this`byGroupId
      ensures Valid()
      ensures byServiceId == if prop == ServiceIdProp then Reindexed(old(byServiceId), model, oldValue, model.serviceId) else old(byServiceId)
      ensures byE164 == if prop == E164Prop then Reindexed(old(byE164), model, oldValue, model.e164) else old(byE164)
      ensures byPni == if prop == PniProp then Reindexed(old(byPni), model, oldValue, model.pni) else old(byPni)
      ensures byGroupId == if prop == GroupIdProp then Reindexed(old(byGroupId), model, oldValue, model.groupId) else old(byGroupId)
    {
      if oldValue.Some? {
        match prop
        case E164Prop => byE164 := byE164 - {oldValue.value};
        case ServiceIdProp => byServiceId := byServiceId - {oldValue.value};
        case PniProp => byPni := byPni - {oldValue.value};
        case GroupIdProp => byGroupId := byGroupId - {oldValue.value};
      }
      match prop
      case E164Prop =>
        if model.e164.Some? { byE164 := byE164[model.e164.value := model]; }
      case ServiceIdProp =>
        if model.serviceId.Some? { byServiceId := byServiceId[model.serviceId.value := model]; }
      case PniProp =>
        if model.pni.Some? { byPni := byPni[model.pni.value := model]; }
      case GroupIdProp =>
        if model.groupId.Some? { byGroupId := byGroupId[model.groupId.value := model]; }
    }

    method UpdateServiceId(c: Conversation, serviceId: Option<Identifier>)
      requires Valid() && c in conversations
      modifies this`byE164, this`byServiceId, this`byPni, this`byGroupId, c`serviceId
      ensures Valid() && ToBook() == SetServiceId(old(ToBook()), c, serviceId)
    {
      var oldValue := c.serviceId;
      if serviceId == oldValue {
        return;
      }
      c.serviceId := serviceId;
      IdUpdated(c, ServiceIdProp, oldValue);
    }

    method UpdateE164(c: Conversation, e164: Option<Identifier>)
      requires Valid() && c in conversations
      modifies this`byE164, this`byServiceId, this`byPni, this`byGroupId, c`e164
      ensures Valid() && ToBook() == SetE164(old(ToBook()), c, e164)
    {
      var oldValue := c.e164;
      if e164 == oldValue {
        return;
      }
      c.e164 := e164;
      IdUpdated(c, E164Prop, oldValue);
    }

    method UpdatePni(c: Conversation, pni: Option<Identifier>)
      requires Valid() && c in conversations
      modifies this`byE164, this`byServiceId, this`byPni, this`byGroupId, c`pni
      ensures Valid() && ToBook() == SetPni(old(ToBook()), c, pni)
    {
      var oldValue := c.pni;
      if pni == oldValue {
        return;
      }
      c.pni := pni;
      IdUpdated(c, PniProp, oldValue);
    }

    method ApplyChangeToConversation(c: Conversation, suggestedChange: Change)
      requires Valid() && c in conversations
      modifies this`byE164, this`byServiceId, this`byPni, this`byGroupId, c`serviceId, c`e164, c`pni
      ensures Valid() && ToBook() == ApplyChange(old(ToBook()), c, suggestedChange)
    {
      var change := suggestedChange;
      // Three adjustments, in this order, complete the change; the setters come after them.
      if change.e164.Put? && !change.pni.Truthy() {
        change := change.(pni := Put(None));
      }
      if change.pni.Truthy() && !change.serviceId.Truthy() && (c.serviceId.None? || c.serviceId == c.pni) {
        change := change.(serviceId := change.pni);
      }
      if !change.serviceId.Truthy() && change.pni.Put? && !change.pni.Truthy() && c.serviceId == c.pni {
        change := change.(serviceId := Put(None));
      }
      assert change == Completed(old(ToBook()).Of(c), suggestedChange);

      if change.serviceId.Put? {
        UpdateServiceId(c, change.serviceId.value);
      }
      if change.e164.Put? {
        UpdateE164(c, change.e164.value);
      }
      if change.pni.Put? {
        UpdatePni(c, change.pni.value);
      }
    }

    /** Binds the id unless it is bound to a conversation that has a service id. */
    method AddById(c: Conversation, ghost was: Book)
      requires Valid() && c in conversations
      requires was.attributes == AllAttributes() && was.byId == byId
      modifies this`byId
      ensures byId == AddToId(was, c) && Listed(byId, conversations)
    {
      if c.id !in byId || byId[c.id].serviceId.None? {
        byId := byId[c.id := c];
      }
    }

    /** Binds the number unless it is bound to a conversation that has a service id. */
    method AddByE164(c: Conversation, ghost was: Book)
      requires Valid() && c in conversations
      requires was.attributes == AllAttributes() && was.byE164 == byE164
      modifies this`byE164
      ensures byE164 == AddToE164(was, c) && Listed(byE164, conversations)
    {
      if c.e164.Some? {
        if c.e164.value !in byE164 || byE164[c.e164.value].serviceId.None? {
          byE164 := byE164[c.e164.value := c];
        }
      }
    }

    /** Binds the service id unless it is bound to a conversation that has a number. */
    method AddByServiceId(c: Conversation, ghost was: Book)
      requires Valid() && c in conversations
      requires was.attributes == AllAttributes() && was.byServiceId == byServiceId
      modifies this`byServiceId
      ensures byServiceId == AddToServiceId(was, c) && Listed(byServiceId, conversations)
    {
      if c.serviceId.Some? {
        if c.serviceId.value !in byServiceId || byServiceId[c.serviceId.value].e164.None? {
          byServiceId := byServiceId[c.serviceId.value := c];
        }
      }
    }

    /** Binds the PNI unless it is bound to a conversation that has a service id. */
    method AddByPni(c: Conversation, ghost was: Book)
      requires Valid() && c in conversations
      requires was.attributes == AllAttributes() && was.byPni == byPni
      modifies this`byPni
      ensures byPni == AddToPni(was, c) && Listed(byPni, conversations)
    {
      if c.pni.Some? {
        if c.pni.value !in byPni || byPni[c.pni.value].serviceId.None? {
          byPni := byPni[c.pni.value := c];
        }
      }
    }

    /** Binds the group id. */
    method AddByGroupId(c: Conversation, ghost was: Book)
      requires Valid() && c in conversations
      requires was.attributes == AllAttributes() && was.byGroupId == byGroupId
      modifies this`byGroupId
      ensures byGroupId == AddToGroupId(was, c) && Listed(byGroupId, conversations)
    {
      if c.groupId.Some? {
        byGroupId := byGroupId[c.groupId.value := c];
      }
    }

    method AddToLookup(c: Conversation)
      requires Valid() && c in conversations
      modifies this`byE164, this`byServiceId, this`byPni, this`byGroupId, this`byId
      ensures Valid() && ToBook() == ContactBook.AddToLookup(old(ToBook()), c)
    {
      hide Listed, AddToId, AddToE164, AddToServiceId, AddToPni, AddToGroupId;
      ghost var was := ToBook();
      AddById(c, was);
      AddByE164(c, was);
      AddByServiceId(c, was);
      AddByPni(c, was);
      AddByGroupId(c, was);
    }

    /** A table without the conversation's entry, unless the entry is someone else's. */
    method Taken(m: Lookup, c: Conversation, v: Option<Identifier>) returns (r: Lookup)
      ensures r == Without(m, c, v)
      ensures Listed(m, conversations) ==> Listed(r, conversations)
    {
      r := m;
      if v.Some? {
        if v.value !in m || m[v.value] == c {
          r := m - {v.value};
        }
      }
    }

    method RemoveFromLookup(c: Conversation)
      requires Valid() && c in conversations
      modifies this`byE164, this`byServiceId, this`byPni, this`byGroupId, this`byId
      ensures Valid() && ToBook() == ContactBook.RemoveFromLookup(old(ToBook()), c)
    {
      hide Listed, Without;
      ghost var was := ToBook();
      byId := Taken(byId, c, Some(c.id));
      byE164 := Taken(byE164, c, c.e164);
      byServiceId := Taken(byServiceId, c, c.serviceId);
      byPni := Taken(byPni, c, c.pni);
      byGroupId := Taken(byGroupId, c, c.groupId);
      assert AllAttributes() == was.attributes && was.Of(c) == c.GetAttributes();
    }

    method EraseLookups()
      modifies this`byE164, this`byServiceId, this`byPni, this`byGroupId, this`byId
      ensures Valid() && ToBook() == Erased(old(ToBook()))
    {
      byE164, byServiceId, byPni, byGroupId, byId := map[], map[], map[], map[], map[];
    }

    method GenerateLookups()
      requires Valid()
      modifies this`byE164, this`byServiceId, this`byPni, this`byGroupId, this`byId
      ensures Valid() && ToBook() == Generated(old(ToBook()), |conversations|)
    {
      hide ContactBook.AddToLookup, Listed;
      var i := 0;
      while i < |conversations|
        invariant 0 <= i <= |conversations|
        invariant Valid() && ToBook() == Generated(old(ToBook()), i)
      {
        AddToLookup(conversations[i]);
        i := i + 1;
      }
    }

    method ResetLookups()
      modifies this`byE164, this`byServiceId, this`byPni, this`byGroupId, this`byId
      ensures Valid() && ToBook() == Rebuilt(old(ToBook()))
    {
      EraseLookups();
      GenerateLookups();
    }

    method AddConversation(c: Conversation)
      requires Valid() && c !in conversations
      modifies this
      ensures Valid() && ToBook() == Add(old(ToBook()), c, c.GetAttributes())
    {
      ghost var was := ToBook();
      conversations := conversations + [c];
      assert ToBook() == was.(conversations := conversations, attributes := was.attributes[c := c.GetAttributes()]);
      AddToLookup(c);
    }

    /** `spare` is the new object, under its own fresh id, that is used if one has to be made. */
    method GetOrCreate(identifier: Identifier, props: InitialProps, spare: Conversation) returns (conversation: Conversation)
      requires Valid() && spare !in conversations
      modifies this, spare
      ensures Valid() && conversation in conversations
      ensures (ToBook(), conversation)
           == ContactMerge.GetOrCreate(old(ToBook()), identifier, WithProps(Initial(identifier), props), spare)
      ensures conversations == if ContactBook.Get(old(ToBook()), Some(identifier)).None?
                               then old(conversations) + [spare] else old(conversations)
    {
      var existing := Get(Some(identifier));
      if existing.Some? {
        return existing.value;
      }
      var initial := WithProps(Initial(identifier), props);
      spare.serviceId, spare.e164, spare.pni, spare.groupId :=
        initial.serviceId, initial.e164, initial.pni, initial.groupId;
      assert ToBook() == old(ToBook());
      AddConversation(spare);
      return spare;
    }

    /** The list after a step that may have put `spare` to use. */
    ghost predicate Extends(before: seq<Conversation>, spare: Conversation)
      reads this
    {
      conversations == before || (spare !in before && conversations == before + [spare])
    }

    /** Chooses the target for one identifier no conversation was found for, unless it is known already. */
    method ChooseTargetFor(known: Option<Conversation>, m: Conversation, unused: Unused, pni: Option<Identifier>, spare: Conversation)
      returns (target: Conversation)
      requires Valid() && m in conversations
      requires known.Some? ==> known.value in conversations
      requires spare in conversations ==> known.Some?
      modifies this, spare
      ensures Valid() && Extends(old(conversations), spare) && target in conversations
      ensures forall requests, us :: Progress(ToBook(), Some(target), us, requests)
                == ChooseTarget(Progress(old(ToBook()), known, us, requests), m, unused, pni, spare)
    {
      var targetConversation := known;
      if targetConversation.None? && SlotOf(m, unused.key).None? {
        targetConversation := Some(m);
      }
      // A service id that is only a PNI does not keep the match from taking an ACI.
      if targetConversation.None? && unused.key == ServiceIdKey && SlotOf(m, unused.key) == pni {
        targetConversation := Some(m);
      }
      if targetConversation.None? && unused.key == ServiceIdKey && SlotOf(m, unused.key) == m.pni {
        targetConversation := Some(m);
      }
      if targetConversation.None? {
        var made := GetOrCreate(unused.value, NoProps, spare);
        targetConversation := Some(made);
      }
      target := targetConversation.value;
    }

    /** Applies the identifiers no conversation was found for to the target, choosing it on the way. */
    method TakeUnusedMatches(known: Option<Conversation>, unusedMatches: seq<Unused>, ghost requests: seq<Request>,
                             m: Conversation, pni: Option<Identifier>, spare: Conversation)
      returns (target: Option<Conversation>)
      requires Valid() && m in conversations
      requires known.Some? ==> known.value in conversations
      requires spare in conversations ==> known.Some?
      modifies this, conversations, spare
      ensures Valid() && Extends(old(conversations), spare)
      ensures target.Some? ==> target.value in conversations
      ensures spare in conversations ==> target.Some?
      ensures Progress(ToBook(), target, unusedMatches, requests)
           == TakeUnused(Progress(old(ToBook()), known, unusedMatches, requests), m, unusedMatches, pni, spare)
    {
      hide ChooseTarget, ApplyChange, Valid;
      target := known;
      ghost var start := Progress(ToBook(), known, unusedMatches, requests);
      var i := 0;
      assert unusedMatches[0..] == unusedMatches;
      while i < |unusedMatches|
        invariant 0 <= i <= |unusedMatches|
        invariant Valid() && Extends(old(conversations), spare) && m in conversations
        invariant target.Some? ==> target.value in conversations
        invariant spare in conversations ==> target.Some?
        invariant TakeUnused(Progress(ToBook(), target, unusedMatches, requests), m, unusedMatches[i..], pni, spare)
               == TakeUnused(start, m, unusedMatches, pni, spare)
      {
        var unused := unusedMatches[i];
        ghost var q := Progress(ToBook(), target, unusedMatches, requests);
        var chosen := ChooseTargetFor(target, m, unused, pni, spare);
        ApplyChangeToConversation(chosen, Only(unused.key, Some(unused.value)));
        target := Some(chosen);
        assert Progress(ToBook(), target, unusedMatches, requests) == TakeOne(q, m, unused, pni, spare);
        assert unusedMatches[i..][1..] == unusedMatches[i + 1..];
        i := i + 1;
      }
    }

    /** Moves one identifier from the match to the target, or re-adds it when it was erased on the way. */
    method ClaimMatch(target: Option<Conversation>, before: seq<Request>, item: Candidate, m: Conversation, pni: Option<Identifier>)
      returns (requests: seq<Request>)
      requires Valid() && m in conversations
      requires target.Some? ==> target.value in conversations
      modifies this`byE164, this`byServiceId, this`byPni, this`byGroupId, conversations
      ensures Valid() && conversations == old(conversations)
      ensures Progress(ToBook(), target, [], requests)
           == Claim(Progress(old(ToBook()), target, [], before), item, m, pni)
    {
      hide ApplyChange;
      requests := before;
      if target.Some? && target.value != m {
        // Released first: the other order would leave the table without the identifier.
        var change := Only(item.key, None);
        if (item.key == PniKey || item.key == E164Key) && m.serviceId == pni {
          change := change.(serviceId := Put(None));
        }
        assert change == Release(old(ToBook()).Of(m), item.key, pni);
        ApplyChangeToConversation(m, change);
        var willMerge := m.serviceId.None? && m.e164.None? && m.pni.None?;
        assert willMerge == ToBook().Of(m).IsEmptied();
        ApplyChangeToConversation(target.value, Only(item.key, item.value));
        if willMerge {
          requests := requests + [Request(target.value, m)];
        }
      } else if target.Some? && SlotOf(target.value, item.key).None? {
        ApplyChangeToConversation(target.value, Only(item.key, item.value));
      }
    }

    /** One candidate of the walk. */
    method ProcessMatch(known: Option<Conversation>, unusedBefore: seq<Unused>, requestsBefore: seq<Request>,
                        item: Candidate, pni: Option<Identifier>, spare: Conversation)
      returns (target: Option<Conversation>, unused: seq<Unused>, requests: seq<Request>)
      requires Valid()
      requires known.Some? ==> known.value in conversations
      requires item.found.Some? ==> item.found.value in conversations
      requires spare in conversations ==> known.Some?
      modifies this, conversations, spare
      ensures Valid() && Extends(old(conversations), spare)
      ensures target.Some? ==> target.value in conversations
      ensures spare in conversations ==> target.Some?
      ensures known.Some? || (item.value.Some? && item.found.Some?) ==> target.Some?
      ensures target.None? ==> ToBook() == old(ToBook())
      ensures Progress(ToBook(), target, unused, requests)
           == Step(Progress(old(ToBook()), known, unusedBefore, requestsBefore), item, pni, spare)
    {
      hide TakeUnused, Claim, ApplyChange, Valid;
      target, unused, requests := known, unusedBefore, requestsBefore;
      if item.value.None? {
        return;
      }
      if item.found.None? {
        if target.Some? {
          ApplyChangeToConversation(target.value, Only(item.key, item.value));
        } else {
          unused := unused + [Unused(item.key, item.value.value)];
        }
        return;
      }
      var m := item.found.value;
      ghost var p := Progress(ToBook(), known, unusedBefore, requestsBefore);
      target := TakeUnusedMatches(known, unused, requests, m, pni, spare);
      unused := [];
      assert Progress(ToBook(), target, [], requests) == TakeUnused(p, m, p.unused, pni, spare).(unused := []);
      requests := ClaimMatch(target, requests, item, m, pni);
      if target.None? {
        target := Some(m);
      }
    }

    /** The walk over all candidates. */
    method WalkMatches(matches: seq<Candidate>, pni: Option<Identifier>, spare: Conversation)
      returns (targetConversation: Option<Conversation>, requests: seq<Request>)
      requires Valid() && spare !in conversations
      requires forall k :: 0 <= k < |matches| && matches[k].found.Some? ==> matches[k].found.value in conversations
      modifies this, conversations, spare
      ensures Valid() && Extends(old(conversations), spare)
      ensures targetConversation.Some? ==> targetConversation.value in conversations
      ensures targetConversation.None? ==> ToBook() == old(ToBook()) && spare !in conversations
      ensures var p := Walk(Progress(old(ToBook()), None, [], []), matches, pni, spare);
              p.book == ToBook() && p.target == targetConversation && p.requests == requests
    {
      hide Step, Valid;
      var unusedMatches: seq<Unused> := [];
      targetConversation, requests := None, [];
      var matchCount := 0;
      ghost var start := Progress(ToBook(), None, [], []);
      var i := 0;
      assert matches[0..] == matches;
      while i < |matches|
        invariant 0 <= i <= |matches|
        invariant Valid() && Extends(old(conversations), spare)
        invariant targetConversation.Some? ==> targetConversation.value in conversations
        invariant spare in conversations ==> targetConversation.Some?
        invariant forall k :: i <= k < |matches| && matches[k].found.Some? ==> matches[k].found.value in conversations
        invariant matchCount > 0 ==> targetConversation.Some?
        invariant targetConversation.None? ==> ToBook() == start.book
        invariant Walk(Progress(ToBook(), targetConversation, unusedMatches, requests), matches[i..], pni, spare)
               == Walk(start, matches, pni, spare)
      {
        var item := matches[i];
        if item.value.Some? && item.found.Some? {
          matchCount := matchCount + 1;
        }
        targetConversation, unusedMatches, requests :=
          ProcessMatch(targetConversation, unusedMatches, requests, item, pni, spare);
        assert matches[i..][1..] == matches[i + 1..];
        i := i + 1;
      }
      assert targetConversation.None? ==> matchCount == 0;
    }

    /** `uuid` is the fresh id, and `spare` the new object, of a conversation made by this call. */
    method MaybeMergeContacts(query: Query, uuid: Identifier) returns (reply: MergeReply, ghost spare: Conversation)
      requires Valid()
      modifies this, conversations
      ensures Valid() && fresh(spare) && spare.id == uuid
      ensures reply.PniGivenForAci? <==> query.aci.Some? && query.aci.value.Pni?
      ensures reply.NothingToGoBy? <==> query.Primary().None?
      ensures !reply.Merged? ==> ToBook() == old(ToBook())
      ensures reply.Merged? ==>
                var m := Merge(old(ToBook()), query, spare);
                && ToBook() == m.book && m.target == Some(reply.conversation) && m.requests == reply.requests
                && reply.conversation in conversations && Extends(old(conversations), spare)
    {
      hide Walk, Add, ContactBook.Get, Listed;
      var created := new Conversation(uuid, BLANK);
      spare := created;
      assert ToBook() == old(ToBook());
      if query.aci.Some? && query.aci.value.Pni? {
        return PniGivenForAci, spare;
      }
      if query.aci.None? && query.e164.None? && query.pni.None? {
        return NothingToGoBy, spare;
      }
      var byAci := Get(query.aci);
      var byE164 := Get(query.e164);
      var byPni := Get(query.pni);
      var matches := [ Candidate(ServiceIdKey, query.aci, byAci),
                       Candidate(E164Key, query.e164, byE164),
                       Candidate(PniKey, query.pni, byPni) ];
      assert matches == Candidates(old(ToBook()), query);
      var targetConversation, requests := WalkMatches(matches, query.pni, created);
      if targetConversation.Some? {
        return Merged(targetConversation.value, requests), spare;
      }
      var identifier := if query.aci.Some? then query.aci else if query.pni.Some? then query.pni else query.e164;
      var made := GetOrCreate(identifier.value, NumberAndPni(query.e164, query.pni), created);
      return Merged(made, requests), spare;
    }

    function SlotOf(c: Conversation, key: Key): Option<Identifier>
      reads c
    {
      match key
      case ServiceIdKey => c.serviceId
      case E164Key => c.e164
      case PniKey => c.pni
    }
  }
}
