/** What a contact's record is after each call, and which key may then be sent to. */
module IdentityTrust {
  import opened Identifiers
  import opened IdentityRecords

  /** The record of the contact once the call has found it, under whichever id it was kept. */
  function Found(s: Records, id: string, conversation: Option<string>): Option<Record> {
    if OfService(id) in s.cache then Some(s.cache[OfService(id)])
    else if conversation.Some? && OfConversation(conversation.value) in s.cache then Some(s.cache[OfConversation(conversation.value)])
    else None
  }

  // ---------------------------------------------------------------- which key is trusted

  /** With a record at most one key is ever trusted, whatever the time: the stored one. */
  lemma OnlyTheStoredKey(k: PublicKey, r: Record, previousKey: Option<PublicKey>, now: int)
    ensures IsTrustedForSending(k, Some(r), previousKey, now) ==> k == r.publicKey && r.verified != UNVERIFIED
  {
  }

  /** Without one, any key is, unless another one is known from before. */
  lemma WithoutRecord(k: PublicKey, previousKey: Option<PublicKey>, now: int)
    ensures IsTrustedForSending(k, None, previousKey, now) <==> previousKey == None || previousKey == Some(k)
  {
  }

  /** The key a new contact is saved with is trusted at once and for good, and no other is. */
  lemma NewContactIsTrusted(s: Records, call: Call, c: Context, k: PublicKey, previousKey: Option<PublicKey>, now: int)
    requires call.SaveIdentity? && call.key != "" && Found(s, call.id, c.conversation) == None && c.dbWorks
    ensures var (after, reply) := Apply(s, call, c);
            && reply == NewOrUnchanged
            && (IsTrustedForSending(k, RecordOf(after, call.id), previousKey, now) <==> k == call.key)
  {
  }

  /**
   After a save replaced the key of a contact that was neither verified nor unverified: the
   old key is never trusted again, the new one as soon as it is approved or has been there
   for five seconds.
   */
  lemma ReplacedKeyMatures(s: Records, call: Call, c: Context, k: PublicKey, previousKey: Option<PublicKey>, now: int)
    requires call.SaveIdentity? && Apply(s, call, c).1 == ReplacedExisting
    requires Found(s, call.id, c.conversation).value.verified == DEFAULT
    ensures IsTrustedForSending(k, RecordOf(Apply(s, call, c).0, call.id), previousKey, now)
            <==> k == call.key && (call.approval || now >= c.now + 5000)
    ensures Found(s, call.id, c.conversation).value.publicKey != call.key
  {
  }

  /** Approving lets the stored key be used at once, unless it is unverified. */
  lemma ApprovalUnblocks(s: Records, call: Call, c: Context, k: PublicKey, previousKey: Option<PublicKey>, now: int)
    requires call.SetApproval? && Apply(s, call, c).1 == Done
    ensures var before := Found(s, call.id, c.conversation);
            && before.Some?
            && RecordOf(Apply(s, call, c).0, call.id) == Some(before.value.(nonblockingApproval := call.approval))
            && (IsTrustedForSending(k, RecordOf(Apply(s, call, c).0, call.id), previousKey, now)
                <==> k == before.value.publicKey && before.value.verified != UNVERIFIED
                     && (call.approval || before.value.firstUse || now >= before.value.timestamp + 5000))
  {
  }

  // ---------------------------------------------------------------- what each call does

  /** When a save replaces a key, and when it throws. */
  lemma SaveAnswers(s: Records, call: Call, c: Context)
    requires call.SaveIdentity?
    ensures var before := Found(s, call.id, c.conversation); var (after, reply) := Apply(s, call, c);
            && (reply == ReplacedExisting <==>
                  && call.key != "" && c.dbWorks && before.Some? && !call.noOverwrite
                  && before.value.publicKey != call.key && !c.isOurs)
            && (reply == ReplacedExisting ==>
                  && after.cache[OfService(call.id)].publicKey == call.key
                  && after.db[OfService(call.id)] == after.cache[OfService(call.id)])
            && (reply == NewOrUnchanged && before.Some? ==>
                  && RecordOf(after, call.id).Some?
                  && RecordOf(after, call.id).value.publicKey == before.value.publicKey
                  && RecordOf(after, call.id).value.verified == before.value.verified)
            && (reply == Threw ==> call.key == "" || !c.dbWorks)
            && (call.key == "" ==> reply == Threw && after == s)
            && (before.None? && call.key != "" && !c.dbWorks ==> reply == Threw && after == s)
  {
  }

  /** An unchanged key is approved or not only while that is pending, and even if the write fails. */
  lemma SaveOfSameKey(s: Records, call: Call, c: Context)
    requires call.SaveIdentity? && call.key != "" && OfService(call.id) in s.cache && s.cache[OfService(call.id)].publicKey == call.key
    ensures var before := s.cache[OfService(call.id)];
            var pending := !call.noOverwrite && !before.firstUse && c.now < before.timestamp + 5000 && !before.nonblockingApproval;
            && RecordOf(Apply(s, call, c).0, call.id)
                 == Some(if pending then before.(nonblockingApproval := call.approval) else before)
            && Apply(s, call, c).1 == if pending && !c.dbWorks then Threw else NewOrUnchanged
  {
  }

  /** A call that sets the status and gets done stores just that status, with the key that was there. */
  lemma VerifyStores(s: Records, call: Call, c: Context)
    requires call.SetVerified?
    ensures var before := Found(s, call.id, c.conversation); var (after, reply) := Apply(s, call, c);
            && (reply == Done <==> before.Some? && before.value.timestamp > 0 && c.dbWorks)
            && (reply == Done ==>
                  && RecordOf(after, call.id) == Some(before.value.(
                       verified := call.status,
                       firstUse := if call.firstUse == None then before.value.firstUse else call.firstUse.value,
                       nonblockingApproval := if call.extraApproval == None then before.value.nonblockingApproval else call.extraApproval.value))
                  && after.db[OfService(call.id)] == after.cache[OfService(call.id)])
            && (reply == Done || reply == Threw)
  {
  }

  /** A sync that gets done stores the key and the status it brought; unless they were there, the key is approved. */
  lemma SyncStores(s: Records, call: Call, c: Context, k: PublicKey, previousKey: Option<PublicKey>, now: int)
    requires call.UpdateAfterSync? && Apply(s, call, c).1 == Done
    ensures var before := Found(s, call.id, c.conversation); var after := RecordOf(Apply(s, call, c).0, call.id);
            && after.Some? && after.value.publicKey == call.key && after.value.verified == call.status
            && (before.Some? && before.value.publicKey == call.key && before.value.verified == call.status ==> after == before)
            && (!(before.Some? && before.value.publicKey == call.key && before.value.verified == call.status) ==>
                  && after.value.timestamp == c.now && (after.value.firstUse <==> before.None?)
                  && (IsTrustedForSending(k, after, previousKey, now) <==> k == call.key && call.status != UNVERIFIED))
  {
  }

  /** When a sync gets done: always if it brings nothing new, else if the clock and the database work. */
  lemma SyncAnswers(s: Records, call: Call, c: Context)
    requires call.UpdateAfterSync?
    ensures var before := Found(s, call.id, c.conversation); var moves := OfService(call.id) !in s.cache && before.Some?;
            Apply(s, call, c).1 == Done <==>
              || (before.Some? && before.value.publicKey == call.key && before.value.verified == call.status && (moves ==> c.dbWorks))
              || (c.dbWorks && c.now > 0)
  {
  }

  /** A removed record is gone from the cache in any case, and from the database if that works. */
  lemma RemovalRemoves(s: Records, call: Call, c: Context)
    requires call.RemoveIdentityKey?
    ensures var (after, reply) := Apply(s, call, c);
            && RecordOf(after, call.id) == None && (reply == Done <==> c.dbWorks)
            && (c.dbWorks ==> OfService(call.id) !in after.db) && (!c.dbWorks ==> after.db == s.db)
  {
  }

  /**
   A record found under its conversation's id moves over as it is: the same record under the
   new id, in cache and database, and no longer under the old one.
   */
  lemma RecordMoves(s: Records, id: string, c: Context)
    requires OfService(id) !in s.cache && c.conversation.Some? && OfConversation(c.conversation.value) in s.cache
    ensures var after, legacy := Migrated(s, id, c), OfConversation(c.conversation.value);
            && RecordOf(after, id) == Some(s.cache[legacy]) && OfService(id) in after.db && after.db[OfService(id)] == s.cache[legacy]
            && legacy !in after.cache && legacy !in after.db
  {
  }

  /** A call that throws leaves the record's key, status and age alone, and the database's row, too. */
  lemma ThrowingKeeps(s: Records, call: Call, c: Context)
    requires !call.RemoveIdentityKey? && Apply(s, call, c).1 == Threw
    ensures var before := Found(s, call.id, c.conversation);
            var after := Found(Apply(s, call, c).0, call.id, c.conversation);
            && (before.Some? <==> after.Some?)
            && (before.Some? ==> after.value.(nonblockingApproval := before.value.nonblockingApproval) == before.value)
    ensures !c.dbWorks ==> Apply(s, call, c).0.db == s.db
  {
    match call
    case SaveIdentity(_, _, _, _) =>
    case SetApproval(_, _) =>
    case SetVerified(_, _, _, _) =>
    case UpdateAfterSync(_, _, _) =>
  }

  /** An approval of a cached record shows at once, even if it cannot be written. */
  lemma ApprovalShowsAnyway(s: Records, call: Call, c: Context)
    requires call.SetApproval? && OfService(call.id) in s.cache
    ensures RecordOf(Apply(s, call, c).0, call.id) == Some(s.cache[OfService(call.id)].(nonblockingApproval := call.approval))
    ensures Apply(s, call, c).1 == if c.dbWorks then Done else Threw
  {
  }

  /** Nobody else's record is touched by any call, in cache or database. */
  lemma OthersUntouched(s: Records, call: Call, c: Context, r: RecordId)
    requires r != OfService(call.id) && (c.conversation.Some? ==> r != OfConversation(c.conversation.value))
    ensures var after := Apply(s, call, c).0;
            && (r in after.cache <==> r in s.cache) && (r in s.cache ==> after.cache[r] == s.cache[r])
            && (r in after.db <==> r in s.db) && (r in s.db ==> after.db[r] == s.db[r])
  {
    match call
    case SaveIdentity(_, _, _, _) =>
    case SetApproval(_, _) =>
    case SetVerified(_, _, _, _) =>
    case UpdateAfterSync(_, _, _) =>
    case RemoveIdentityKey(_) =>
  }
}
