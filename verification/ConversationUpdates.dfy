/**
 How batched conversation changes reach the user interface's store: runs of changes go out
 in one dispatch, each removal in one of its own. Compared with dispatching every item by
 itself, the conversations come out the same.
 */
module ConversationUpdates {
  import opened Identifiers

  type ConversationId = string

  /** A conversation as formatted for the store; `rest` stands for all other properties. */
  datatype Props = Props(id: ConversationId, e164: Option<string>, rest: string)

  datatype UiState = UiState(conversationLookup: map<ConversationId, Props>, conversationsByE164: map<string, Props>)

  datatype Item = Changed(conversation: Props) | Removed(id: ConversationId)

  function Stored(lookup: map<ConversationId, Props>, changed: seq<Props>): map<ConversationId, Props> {
    if changed == [] then lookup
    else Stored(lookup, changed[..|changed| - 1])[changed[|changed| - 1].id := changed[|changed| - 1]]
  }

  /** The numbers held by those of the conversations that are already known, as known. */
  function KnownNumbers(lookup: map<ConversationId, Props>, changed: seq<Props>): set<string> {
    set c | c in changed && c.id in lookup && lookup[c.id].e164.Some? :: lookup[c.id].e164.value
  }

  function WithNumbers(byE164: map<string, Props>, changed: seq<Props>): map<string, Props> {
    if changed == [] then byE164
    else
      var before, c := WithNumbers(byE164, changed[..|changed| - 1]), changed[|changed| - 1];
      if c.e164.Some? then before[c.e164.value := c] else before
  }

  /** The reducer for updated conversations: forget what they were known under, then add what they are. */
  function ConversationsUpdated(s: UiState, changed: seq<Props>): UiState {
    UiState(Stored(s.conversationLookup, changed),
            WithNumbers(s.conversationsByE164 - KnownNumbers(s.conversationLookup, changed), changed))
  }

  function ConversationRemoved(s: UiState, id: ConversationId): UiState {
    if id !in s.conversationLookup then s
    else UiState(s.conversationLookup - {id},
                 if s.conversationLookup[id].e164.None? then s.conversationsByE164
                 else s.conversationsByE164 - {s.conversationLookup[id].e164.value})
  }

  function Flushed(s: UiState, pending: seq<Props>): UiState {
    if pending == [] then s else ConversationsUpdated(s, pending)
  }

  /** The batch in grouped dispatches, with `pending` changes collected so far. */
  function Grouped(s: UiState, pending: seq<Props>, batch: seq<Item>): UiState
    decreases |batch|
  {
    if batch == [] then Flushed(s, pending)
    else match batch[0]
      case Changed(c) => Grouped(s, pending + [c], batch[1..])
      case Removed(id) => Grouped(ConversationRemoved(Flushed(s, pending), id), [], batch[1..])
  }

  /** The reference: every item dispatched by itself, in order. */
  function OneByOne(s: UiState, batch: seq<Item>): UiState
    decreases |batch|
  {
    if batch == [] then s
    else match batch[0]
      case Changed(c) => OneByOne(ConversationsUpdated(s, [c]), batch[1..])
      case Removed(id) => OneByOne(ConversationRemoved(s, id), batch[1..])
  }

  lemma StoredByOne(lookup: map<ConversationId, Props>, changed: seq<Props>, c: Props)
    ensures Stored(Stored(lookup, changed), [c]) == Stored(lookup, changed + [c])
  {
    assert (changed + [c])[..|changed|] == changed;
    assert [c][..0] == [];
    assert Stored(Stored(lookup, changed), []) == Stored(lookup, changed);
  }

  lemma {:induction false} SameConversationsFrom(g: UiState, pending: seq<Props>, o: UiState, batch: seq<Item>)
    requires Stored(g.conversationLookup, pending) == o.conversationLookup
    ensures Grouped(g, pending, batch).conversationLookup == OneByOne(o, batch).conversationLookup
    decreases |batch|
  {
    if batch == [] {
    } else {
      match batch[0]
      case Changed(c) =>
        StoredByOne(g.conversationLookup, pending, c);
        SameConversationsFrom(g, pending + [c], ConversationsUpdated(o, [c]), batch[1..]);
      case Removed(id) =>
        SameConversationsFrom(ConversationRemoved(Flushed(g, pending), id), [], ConversationRemoved(o, id), batch[1..]);
    }
  }

  /** For every batch the conversations end up as they would one item at a time. */
  lemma SameConversations(s: UiState, batch: seq<Item>)
    ensures Grouped(s, [], batch).conversationLookup == OneByOne(s, batch).conversationLookup
  {
    SameConversationsFrom(s, [], s, batch);
  }

  // ---------------------------------------------------------------- the conversations, by the last item about each

  /** Does the item say anything about this conversation? */
  predicate Mentions(item: Item, id: ConversationId) {
    match item
    case Changed(c) => c.id == id
    case Removed(other) => other == id
  }

  /** What is known of a conversation after the batch: the last item about it decides. */
  function LastSaid(before: Option<Props>, batch: seq<Item>, id: ConversationId): Option<Props>
    decreases |batch|
  {
    if batch == [] then before
    else
      var last := batch[|batch| - 1];
      if !Mentions(last, id) then LastSaid(before, batch[..|batch| - 1], id)
      else if last.Changed? then Some(last.conversation)
      else None
  }

  function Known(s: UiState, id: ConversationId): Option<Props> {
    if id in s.conversationLookup then Some(s.conversationLookup[id]) else None
  }

  lemma {:induction false} OneByOneSplits(s: UiState, batch: seq<Item>, last: Item)
    ensures OneByOne(s, batch + [last]) == OneByOne(OneByOne(s, batch), [last])
    decreases |batch|
  {
    if batch == [] {
      assert batch + [last] == [last];
      assert OneByOne(s, batch) == s;
    } else {
      assert (batch + [last])[1..] == batch[1..] + [last];
      match batch[0]
      case Changed(c) => OneByOneSplits(ConversationsUpdated(s, [c]), batch[1..], last);
      case Removed(id) => OneByOneSplits(ConversationRemoved(s, id), batch[1..], last);
    }
  }

  lemma OneItem(s: UiState, item: Item, id: ConversationId)
    ensures Known(OneByOne(s, [item]), id)
            == if !Mentions(item, id) then Known(s, id) else if item.Changed? then Some(item.conversation) else None
  {
    assert [item][1..] == [];
    match item
    case Changed(c) =>
      assert [c][..0] == [];
      assert Stored(s.conversationLookup, []) == s.conversationLookup;
      assert OneByOne(s, [item]) == OneByOne(ConversationsUpdated(s, [c]), []);
    case Removed(other) =>
      assert OneByOne(s, [item]) == OneByOne(ConversationRemoved(s, other), []);
  }

  lemma {:induction false} OneByOneIsLastSaid(s: UiState, batch: seq<Item>, id: ConversationId)
    ensures Known(OneByOne(s, batch), id) == LastSaid(Known(s, id), batch, id)
    decreases |batch|
  {
    if batch == [] {
    } else {
      var before, last := batch[..|batch| - 1], batch[|batch| - 1];
      assert batch == before + [last];
      OneByOneSplits(s, before, last);
      OneItem(OneByOne(s, before), last, id);
      OneByOneIsLastSaid(s, before, id);
    }
  }

  /**
   After a batch a conversation is what the last item about it says: gone if that removed it,
   with or without a number, and as before if nothing was said about it.
   */
  lemma BatchIsLastSaid(s: UiState, batch: seq<Item>, id: ConversationId)
    ensures Known(Grouped(s, [], batch), id) == LastSaid(Known(s, id), batch, id)
  {
    SameConversations(s, batch);
    OneByOneIsLastSaid(s, batch, id);
  }

  // ---------------------------------------------------------------- the batcher

  class UiStore {
    var state: UiState

    constructor (state: UiState)
      ensures this.state == state
    {
      this.state := state;
    }

    method Update(changed: seq<Props>)
      modifies this
      ensures state == ConversationsUpdated(old(state), changed)
    {
      state := ConversationsUpdated(state, changed);
    }

    method Remove(id: ConversationId)
      modifies this
      ensures state == ConversationRemoved(old(state), id)
    {
      state := ConversationRemoved(state, id);
    }
  }

  method ProcessBatch(store: UiStore, batch: seq<Item>)
    modifies store
    ensures store.state == Grouped(old(store.state), [], batch)
    ensures store.state.conversationLookup == OneByOne(old(store.state), batch).conversationLookup
  {
    var changedOrAdded: seq<Props> := [];
    var i := 0;
    while i < |batch|
      invariant 0 <= i <= |batch|
      invariant Grouped(store.state, changedOrAdded, batch[i..]) == Grouped(old(store.state), [], batch)
    {
      match batch[i] {
        case Changed(conversation) =>
          changedOrAdded := changedOrAdded + [conversation];
        case Removed(id) =>
          if changedOrAdded != [] {
            store.Update(changedOrAdded);
            changedOrAdded := [];
          }
          store.Remove(id);
      }
      i := i + 1;
    }
    if changedOrAdded != [] {
      store.Update(changedOrAdded);
    }
    SameConversations(old(store.state), batch);
  }
}
