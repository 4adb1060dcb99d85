/**
 The user interface's lookup by phone number under batched changes. A dispatch forgets the
 numbers its conversations were known under and adds those they have now; between two
 dispatches of one batch a number may be forgotten that another conversation already has.
 */
module ConversationNumbers {
  import opened Identifiers
  import opened ConversationUpdates

  /** Every entry leads to a known conversation that holds the number. */
  ghost predicate Sound(s: UiState) {
    && (forall id :: id in s.conversationLookup ==> s.conversationLookup[id].id == id)
    && (forall e :: e in s.conversationsByE164 ==>
          && s.conversationsByE164[e].id in s.conversationLookup
          && s.conversationLookup[s.conversationsByE164[e].id] == s.conversationsByE164[e]
          && s.conversationsByE164[e].e164 == Some(e))
  }

  predicate HasNumber(lookup: map<ConversationId, Props>, id: ConversationId, e: string) {
    id in lookup && lookup[id].e164 == Some(e)
  }

  /** Each number leads to the one conversation that holds it. */
  ghost predicate Inverse(s: UiState) {
    && Sound(s)
    && forall id, e :: HasNumber(s.conversationLookup, id, e) ==>
         e in s.conversationsByE164 && s.conversationsByE164[e] == s.conversationLookup[id]
  }

  /** No two conversations hold one number. */
  ghost predicate Exclusive(lookup: map<ConversationId, Props>) {
    forall a, b, e :: HasNumber(lookup, a, e) && HasNumber(lookup, b, e) ==> a == b
  }

  /** Every number that is held has an entry. */
  ghost predicate Complete(s: UiState) {
    forall id, e :: HasNumber(s.conversationLookup, id, e) ==> e in s.conversationsByE164
  }

  lemma InverseIff(s: UiState)
    requires Sound(s)
    ensures Inverse(s) <==> Exclusive(s.conversationLookup) && Complete(s)
  {
    if Exclusive(s.conversationLookup) && Complete(s) {
      forall id, e | HasNumber(s.conversationLookup, id, e) ensures s.conversationsByE164[e] == s.conversationLookup[id] {
        assert HasNumber(s.conversationLookup, s.conversationsByE164[e].id, e);
      }
    }
    if Inverse(s) {
      forall a, b, e | HasNumber(s.conversationLookup, a, e) && HasNumber(s.conversationLookup, b, e) ensures a == b {
        assert s.conversationLookup[a] == s.conversationLookup[b];
      }
    }
  }

  // ---------------------------------------------------------------- one dispatch

  /** All changes to one conversation in one dispatch carry its one present value. */
  ghost predicate OneValueEach(changed: seq<Props>) {
    forall c, d :: c in changed && d in changed && c.id == d.id ==> c == d
  }

  lemma {:induction false} StoredIs(lookup: map<ConversationId, Props>, changed: seq<Props>)
    requires OneValueEach(changed)
    ensures forall c :: c in changed ==> c.id in Stored(lookup, changed) && Stored(lookup, changed)[c.id] == c
    ensures forall id :: (forall c :: c in changed ==> c.id != id) ==>
              (id in Stored(lookup, changed) <==> id in lookup)
              && (id in lookup ==> Stored(lookup, changed)[id] == lookup[id])
    ensures forall id :: id in Stored(lookup, changed) ==>
              id in lookup || exists c :: c in changed && c.id == id
  {
    if changed == [] {
    } else {
      StoredIs(lookup, changed[..|changed| - 1]);
      assert changed == changed[..|changed| - 1] + [changed[|changed| - 1]];
    }
  }

  lemma {:induction false} WithNumbersIs(byE164: map<string, Props>, changed: seq<Props>)
    ensures forall e :: e in WithNumbers(byE164, changed) ==>
              (WithNumbers(byE164, changed)[e] in changed && WithNumbers(byE164, changed)[e].e164 == Some(e))
              || (e in byE164 && WithNumbers(byE164, changed)[e] == byE164[e]
                  && forall c :: c in changed ==> c.e164 != Some(e))
    ensures forall c :: c in changed && c.e164.Some? ==> c.e164.value in WithNumbers(byE164, changed)
    ensures forall e :: e in byE164 ==> e in WithNumbers(byE164, changed)
  {
    if changed == [] {
    } else {
      WithNumbersIs(byE164, changed[..|changed| - 1]);
      assert changed == changed[..|changed| - 1] + [changed[|changed| - 1]];
    }
  }

  /** Among changes that hold one number, the last gets the entry. */
  lemma {:induction false} LastHolderGetsEntry(byE164: map<string, Props>, changed: seq<Props>, i: nat, e: string)
    requires i < |changed| && changed[i].e164 == Some(e)
    requires forall j :: i < j < |changed| ==> changed[j].e164 != Some(e)
    ensures e in WithNumbers(byE164, changed) && WithNumbers(byE164, changed)[e] == changed[i]
    decreases |changed|
  {
    if i == |changed| - 1 {
    } else {
      LastHolderGetsEntry(byE164, changed[..|changed| - 1], i, e);
    }
  }

  datatype Dispatch = Update(changed: seq<Props>) | Remove(id: ConversationId)

  function Apply(s: UiState, d: Dispatch): UiState {
    match d
    case Update(changed) => ConversationsUpdated(s, changed)
    case Remove(id) => ConversationRemoved(s, id)
  }

  ghost predicate Consistent(d: Dispatch) {
    d.Update? ==> OneValueEach(d.changed)
  }

  /** The dispatch says that some conversation has this number now. */
  predicate Gives(d: Dispatch, e: string) {
    d.Update? && exists c :: c in d.changed && c.e164 == Some(e)
  }

  /** The dispatch changes or removes a conversation so far known under this number. */
  predicate Takes(lookup: map<ConversationId, Props>, d: Dispatch, e: string) {
    match d
    case Update(changed) => e in KnownNumbers(lookup, changed)
    case Remove(id) => HasNumber(lookup, id, e)
  }

  lemma UpdateKeepsSound(s: UiState, changed: seq<Props>)
    requires Sound(s) && OneValueEach(changed)
    ensures Sound(ConversationsUpdated(s, changed))
  {
    StoredIs(s.conversationLookup, changed);
    WithNumbersIs(s.conversationsByE164 - KnownNumbers(s.conversationLookup, changed), changed);
    var r := ConversationsUpdated(s, changed);
    forall id | id in r.conversationLookup ensures r.conversationLookup[id].id == id {
      if forall c :: c in changed ==> c.id != id {
        assert r.conversationLookup[id] == s.conversationLookup[id];
      }
    }
    forall e | e in r.conversationsByE164
      ensures r.conversationsByE164[e].id in r.conversationLookup
      ensures r.conversationLookup[r.conversationsByE164[e].id] == r.conversationsByE164[e]
      ensures r.conversationsByE164[e].e164 == Some(e)
    {
      var c := r.conversationsByE164[e];
      if c !in changed {
        assert forall d :: d in changed ==> d.id != c.id;
      }
    }
  }

  /** After one dispatch a number has an entry exactly if it was given, or had one and was not taken. */
  lemma UpdateKeys(s: UiState, changed: seq<Props>, e: string)
    ensures e in ConversationsUpdated(s, changed).conversationsByE164
            <==> Gives(Update(changed), e) || (e in s.conversationsByE164 && !Takes(s.conversationLookup, Update(changed), e))
  {
    WithNumbersIs(s.conversationsByE164 - KnownNumbers(s.conversationLookup, changed), changed);
  }

  lemma ApplyKeepsSound(s: UiState, d: Dispatch)
    requires Sound(s) && Consistent(d)
    ensures Sound(Apply(s, d))
    ensures forall e :: e in Apply(s, d).conversationsByE164
              <==> Gives(d, e) || (e in s.conversationsByE164 && !Takes(s.conversationLookup, d, e))
  {
    match d
    case Update(changed) =>
      UpdateKeepsSound(s, changed);
      forall e ensures e in Apply(s, d).conversationsByE164
        <==> Gives(d, e) || (e in s.conversationsByE164 && !Takes(s.conversationLookup, d, e))
      {
        UpdateKeys(s, changed, e);
      }
    case Remove(id) =>
  }

  /** A holder afterwards got the number in this dispatch, or held it before. */
  lemma HolderFrom(s: UiState, d: Dispatch, id: ConversationId, e: string)
    requires Sound(s) && Consistent(d) && HasNumber(Apply(s, d).conversationLookup, id, e)
    ensures Gives(d, e) || HasNumber(s.conversationLookup, id, e)
  {
    if d.Update? {
      StoredIs(s.conversationLookup, d.changed);
    }
  }

  /**
   One dispatch of any number of changes leaves the lookup exact, however numbers move
   between conversations in it, exactly if they end up on one conversation each.
   */
  lemma DispatchExactIff(s: UiState, d: Dispatch)
    requires Inverse(s) && Consistent(d)
    ensures Inverse(Apply(s, d)) <==> Exclusive(Apply(s, d).conversationLookup)
  {
    ApplyKeepsSound(s, d);
    InverseIff(Apply(s, d));
    var r := Apply(s, d);
    if Exclusive(r.conversationLookup) {
      forall id, e | HasNumber(r.conversationLookup, id, e) ensures e in r.conversationsByE164 {
        HolderFrom(s, d, id, e);
        if !Gives(d, e) {
          NotTakenWhereHeld(s, d, id, e);
        }
      }
    }
  }

  /** A number that stays where it is, and is given to nobody, is not taken from an exact lookup. */
  lemma NotTakenWhereHeld(s: UiState, d: Dispatch, id: ConversationId, e: string)
    requires Inverse(s) && Consistent(d) && !Gives(d, e)
    requires HasNumber(s.conversationLookup, id, e) && HasNumber(Apply(s, d).conversationLookup, id, e)
    ensures !Takes(s.conversationLookup, d, e)
  {
    InverseIff(s);
    if d.Update? {
      StoredIs(s.conversationLookup, d.changed);
      forall c | c in d.changed && c.id in s.conversationLookup ensures s.conversationLookup[c.id].e164 != Some(e) {
        assert HasNumber(s.conversationLookup, c.id, e) ==> c.id == id;
      }
    }
  }

  // ---------------------------------------------------------------- a whole batch

  /** The dispatches of a batch, with `pending` changes collected so far. */
  function Dispatches(pending: seq<Props>, batch: seq<Item>): seq<Dispatch>
    decreases |batch|
  {
    if batch == [] then Flush(pending)
    else match batch[0]
      case Changed(c) => Dispatches(pending + [c], batch[1..])
      case Removed(id) => Flush(pending) + [Remove(id)] + Dispatches([], batch[1..])
  }

  function Flush(pending: seq<Props>): seq<Dispatch> {
    if pending == [] then [] else [Update(pending)]
  }

  function ApplyAll(s: UiState, ds: seq<Dispatch>): UiState
    decreases |ds|
  {
    if ds == [] then s else Apply(ApplyAll(s, ds[..|ds| - 1]), ds[|ds| - 1])
  }

  lemma {:induction false} ApplyAllSplits(s: UiState, ds: seq<Dispatch>, es: seq<Dispatch>)
    ensures ApplyAll(s, ds + es) == ApplyAll(ApplyAll(s, ds), es)
    decreases |es|
  {
    if es == [] {
      assert ds + es == ds;
    } else {
      ApplyAllSplits(s, ds, es[..|es| - 1]);
      assert (ds + es)[..|ds + es| - 1] == ds + es[..|es| - 1];
    }
  }

  lemma FlushIs(s: UiState, pending: seq<Props>)
    ensures ApplyAll(s, Flush(pending)) == Flushed(s, pending)
  {
    if pending != [] {
      assert [Update(pending)][..0] == [];
      assert ApplyAll(s, []) == s;
    }
  }

  lemma RemoveIs(s: UiState, id: ConversationId)
    ensures ApplyAll(s, [Remove(id)]) == ConversationRemoved(s, id)
  {
    assert [Remove(id)][..0] == [];
    assert ApplyAll(s, []) == s;
  }

  /** The dispatches, applied in order, are the grouped batch. */
  lemma {:induction false} DispatchesAreGrouped(s: UiState, pending: seq<Props>, batch: seq<Item>)
    ensures ApplyAll(s, Dispatches(pending, batch)) == Grouped(s, pending, batch)
    decreases |batch|
  {
    FlushIs(s, pending);
    if batch == [] {
    } else {
      match batch[0]
      case Changed(c) => DispatchesAreGrouped(s, pending + [c], batch[1..]);
      case Removed(id) =>
        var flushed, rest := Flushed(s, pending), Dispatches([], batch[1..]);
        ApplyAllSplits(s, Flush(pending) + [Remove(id)], rest);
        ApplyAllSplits(s, Flush(pending), [Remove(id)]);
        RemoveIs(flushed, id);
        DispatchesAreGrouped(ConversationRemoved(flushed, id), [], batch[1..]);
    }
  }

  ghost predicate AllConsistent(ds: seq<Dispatch>) {
    forall i :: 0 <= i < |ds| ==> Consistent(ds[i])
  }

  /** Dispatch `k` takes the number and does not give it, and no later one gives it either. */
  ghost predicate AbandonedAt(s: UiState, ds: seq<Dispatch>, e: string, k: nat) {
    && k < |ds|
    && Takes(ApplyAll(s, ds[..k]).conversationLookup, ds[k], e)
    && forall l :: k <= l < |ds| ==> !Gives(ds[l], e)
  }

  ghost predicate Abandoned(s: UiState, ds: seq<Dispatch>, e: string) {
    exists k: nat :: AbandonedAt(s, ds, e, k)
  }

  ghost predicate Given(ds: seq<Dispatch>, e: string) {
    exists k :: 0 <= k < |ds| && Gives(ds[k], e)
  }

  lemma AbandonedStep(s: UiState, ds: seq<Dispatch>, e: string)
    requires ds != []
    ensures var before, d := ds[..|ds| - 1], ds[|ds| - 1];
            Abandoned(s, ds, e) <==>
              !Gives(d, e) && (Abandoned(s, before, e) || Takes(ApplyAll(s, before).conversationLookup, d, e))
  {
    var before, d := ds[..|ds| - 1], ds[|ds| - 1];
    hide Takes, Gives, ApplyAll;
    if Abandoned(s, ds, e) {
      var k: nat :| AbandonedAt(s, ds, e, k);
      if k < |before| {
        assert before[..k] == ds[..k];
        assert AbandonedAt(s, before, e, k);
      }
    }
    if !Gives(d, e) {
      if k: nat :| AbandonedAt(s, before, e, k) {
        assert before[..k] == ds[..k];
        assert AbandonedAt(s, ds, e, k);
      }
      if Takes(ApplyAll(s, before).conversationLookup, d, e) {
        assert AbandonedAt(s, ds, e, |before|);
      }
    }
  }

  lemma GivenStep(ds: seq<Dispatch>, e: string)
    requires ds != []
    ensures Given(ds, e) <==> Given(ds[..|ds| - 1], e) || Gives(ds[|ds| - 1], e)
  {
    hide Gives;
    var before := ds[..|ds| - 1];
    if k :| 0 <= k < |before| && Gives(before[k], e) {
      assert ds[k] == before[k];
    }
    if k :| 0 <= k < |ds| && Gives(ds[k], e) {
      assert k < |before| ==> before[k] == ds[k];
    }
  }

  /** Which numbers have an entry in the end, read off the dispatches. */
  lemma {:induction false} KeysAfter(s: UiState, ds: seq<Dispatch>, e: string)
    requires Sound(s) && AllConsistent(ds)
    ensures Sound(ApplyAll(s, ds))
    ensures e in ApplyAll(s, ds).conversationsByE164
            <==> !Abandoned(s, ds, e) && (e in s.conversationsByE164 || Given(ds, e))
    decreases |ds|
  {
    if ds == [] {
    } else {
      hide Abandoned, Given, Sound, Apply, Gives, Takes;
      KeysAfter(s, ds[..|ds| - 1], e);
      ApplyKeepsSound(ApplyAll(s, ds[..|ds| - 1]), ds[|ds| - 1]);
      AbandonedStep(s, ds, e);
      GivenStep(ds, e);
    }
  }

  lemma {:induction false} HolderComesFrom(s: UiState, ds: seq<Dispatch>, id: ConversationId, e: string)
    requires Sound(s) && AllConsistent(ds) && HasNumber(ApplyAll(s, ds).conversationLookup, id, e)
    ensures Given(ds, e) || HasNumber(s.conversationLookup, id, e)
    decreases |ds|
  {
    if ds == [] {
    } else {
      var before := ds[..|ds| - 1];
      KeysAfter(s, before, e);
      hide Sound, Apply, Gives, Given;
      HolderFrom(ApplyAll(s, before), ds[|ds| - 1], id, e);
      GivenStep(ds, e);
      if HasNumber(ApplyAll(s, before).conversationLookup, id, e) {
        HolderComesFrom(s, before, id, e);
      }
    }
  }

  /**
   After a whole batch from an exact lookup, the lookup is exact exactly if no two
   conversations hold one number and no number still held was abandoned on the way: taken by
   a dispatch that did not give it, with no later one giving it.
   */
  lemma BatchExactIff(s: UiState, batch: seq<Item>)
    requires Inverse(s) && AllConsistent(Dispatches([], batch))
    ensures var r := Grouped(s, [], batch);
            Inverse(r) <==>
              && Exclusive(r.conversationLookup)
              && forall id, e :: HasNumber(r.conversationLookup, id, e) ==> !Abandoned(s, Dispatches([], batch), e)
  {
    var ds := Dispatches([], batch);
    DispatchesAreGrouped(s, [], batch);
    var r := ApplyAll(s, ds);
    KeysAfter(s, ds, "");
    InverseIff(r);
    hide Abandoned, Given, Dispatches, Grouped, Exclusive, ApplyAll, AllConsistent;
    forall id, e | HasNumber(r.conversationLookup, id, e)
      ensures e in r.conversationsByE164 <==> !Abandoned(s, ds, e)
    {
      KeysAfter(s, ds, e);
      HolderComesFrom(s, ds, id, e);
    }
  }

  /** In particular, if every dispatch leaves numbers on one conversation each, the lookup is exact after each. */
  lemma {:induction false} ExclusiveThroughout(s: UiState, ds: seq<Dispatch>, k: nat)
    requires Inverse(s) && AllConsistent(ds) && k <= |ds|
    requires forall i :: 0 <= i <= |ds| ==> Exclusive(ApplyAll(s, ds[..i]).conversationLookup)
    ensures Inverse(ApplyAll(s, ds[..k]))
  {
    if k == 0 {
    } else {
      hide Inverse, Exclusive, Apply;
      ExclusiveThroughout(s, ds, k - 1);
      assert ds[..k][..k - 1] == ds[..k - 1];
      DispatchExactIff(ApplyAll(s, ds[..k - 1]), ds[k - 1]);
    }
  }

  /** A batch without removals is one dispatch, so for it `DispatchExactIff` says when it is exact. */
  lemma {:induction false} ChangesAreOneDispatch(pending: seq<Props>, changed: seq<Props>, batch: seq<Item>)
    requires |batch| == |changed| && forall i :: 0 <= i < |batch| ==> batch[i] == Changed(changed[i])
    ensures Dispatches(pending, batch) == Flush(pending + changed)
    decreases |batch|
  {
    if batch == [] {
      assert pending + changed == pending;
    } else {
      ChangesAreOneDispatch(pending + [changed[0]], changed[1..], batch[1..]);
      assert pending + [changed[0]] + changed[1..] == pending + changed;
    }
  }

  // ---------------------------------------------------------------- inputs that lose a number

  const OLD_A := Props("a", Some("+1"), "")
  const NEW_A := Props("a", None, "")
  const OLD_B := Props("b", None, "")
  const NEW_B := Props("b", Some("+1"), "")

  const BEFORE := UiState(map["a" := OLD_A, "b" := OLD_B], map["+1" := OLD_A])

  lemma BeforeIsExact()
    ensures Inverse(BEFORE)
  {
    assert "a"[0] != "b"[0];
  }

  lemma OneUpdate(s: UiState, c: Props)
    ensures ConversationsUpdated(s, [c]).conversationLookup == s.conversationLookup[c.id := c]
    ensures c.e164.None? ==> ConversationsUpdated(s, [c]).conversationsByE164
                             == s.conversationsByE164 - KnownNumbers(s.conversationLookup, [c])
  {
    assert [c][..0] == [];
    assert Stored(s.conversationLookup, []) == s.conversationLookup;
    var kept := s.conversationsByE164 - KnownNumbers(s.conversationLookup, [c]);
    assert WithNumbers(kept, []) == kept;
  }

  /** The winner of the number goes out first, the loser in a later dispatch: the number is lost. */
  lemma TwoDispatches()
    ensures var r := ConversationsUpdated(ConversationsUpdated(BEFORE, [NEW_B]), [NEW_A]);
            && r.conversationLookup == map["a" := NEW_A, "b" := NEW_B]
            && "+1" !in r.conversationsByE164 && Exclusive(r.conversationLookup) && !Inverse(r)
  {
    assert "a"[0] != "b"[0];
    var s1 := ConversationsUpdated(BEFORE, [NEW_B]);
    OneUpdate(BEFORE, NEW_B);
    assert s1.conversationLookup["a"] == OLD_A;
    assert NEW_A in [NEW_A] && "+1" in KnownNumbers(s1.conversationLookup, [NEW_A]);
    OneUpdate(s1, NEW_A);
    var r := ConversationsUpdated(s1, [NEW_A]);
    assert HasNumber(r.conversationLookup, "b", "+1");
  }

  lemma ChangesOneByOne(s: UiState, c: Props, d: Props)
    ensures OneByOne(s, [Changed(c), Changed(d)]) == ConversationsUpdated(ConversationsUpdated(s, [c]), [d])
  {
    hide ConversationsUpdated;
    var last: seq<Item> := [Changed(d)];
    assert [Changed(c), Changed(d)][1..] == last && last[1..] == [];
    var s1 := ConversationsUpdated(s, [c]);
    assert OneByOne(s1, last) == OneByOne(ConversationsUpdated(s1, [d]), []);
  }

  /** Dispatched one by one, the two changes lose the number that one dispatch of both would keep. */
  lemma OneByOneLosesNumber()
    ensures Inverse(BEFORE) && !Inverse(OneByOne(BEFORE, [Changed(NEW_B), Changed(NEW_A)]))
    ensures Inverse(Grouped(BEFORE, [], [Changed(NEW_B), Changed(NEW_A)]))
  {
    var batch := [Changed(NEW_B), Changed(NEW_A)];
    BeforeIsExact();
    TwoDispatches();
    ChangesOneByOne(BEFORE, NEW_B, NEW_A);
    SameConversations(BEFORE, batch);
    var pair := [NEW_B, NEW_A];
    ChangesAreOneDispatch([], pair, batch);
    assert [] + pair == pair;
    DispatchesAreGrouped(BEFORE, [], batch);
    FlushIs(BEFORE, pair);
    PairIsConsistent();
    hide ConversationsUpdated, Inverse, OneByOne, Grouped, Exclusive;
    DispatchExactIff(BEFORE, Update(pair));
  }

  lemma PairIsConsistent()
    ensures Consistent(Update([NEW_B, NEW_A]))
  {
    assert "a"[0] != "b"[0];
  }

  lemma SplitBatch(s: UiState, c: Props, id: ConversationId, d: Props)
    ensures Grouped(s, [], [Changed(c), Removed(id), Changed(d)])
         == ConversationsUpdated(ConversationRemoved(ConversationsUpdated(s, [c]), id), [d])
  {
    hide ConversationsUpdated, ConversationRemoved;
    var batch := [Changed(c), Removed(id), Changed(d)];
    var rest: seq<Item> := [Removed(id), Changed(d)];
    var last: seq<Item> := [Changed(d)];
    assert batch[1..] == rest && rest[1..] == last && last[1..] == [];
    assert [] + [c] == [c] && [] + [d] == [d];
    assert Grouped(s, [c], rest) == Grouped(ConversationRemoved(ConversationsUpdated(s, [c]), id), [], last);
    var s1 := ConversationRemoved(ConversationsUpdated(s, [c]), id);
    assert Grouped(s1, [], last) == Grouped(s1, [d], []);
  }

  /**
   And so does the batcher itself when a removal, of whatever conversation, falls between
   them: it splits the changes into two dispatches, although in the end each number is on
   one conversation.
   */
  lemma RemovalBetweenLosesNumber()
    ensures var batch := [Changed(NEW_B), Removed("z"), Changed(NEW_A)];
            var r := Grouped(BEFORE, [], batch);
            && Inverse(BEFORE) && Exclusive(r.conversationLookup) && !Inverse(r)
            && HasNumber(r.conversationLookup, "b", "+1") && "+1" !in r.conversationsByE164
  {
    BeforeIsExact();
    TwoDispatches();
    SplitBatch(BEFORE, NEW_B, "z", NEW_A);
    OneUpdate(BEFORE, NEW_B);
    assert "a"[0] != "z"[0] && "b"[0] != "z"[0];
    var s1 := ConversationsUpdated(BEFORE, [NEW_B]);
    assert "z" !in s1.conversationLookup;
    assert ConversationRemoved(s1, "z") == s1;
  }
}
