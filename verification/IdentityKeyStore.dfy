/** The identity-key methods of the protocol store, updating the cache and the database in place. */
module IdentityKeyStore {
  import opened Identifiers
  import opened IdentityRecords

  class IdentityKeyStore {
    var identityKeys: map<RecordId, Record>
    var database: map<RecordId, Record>

    ghost function GetRecords(): Records
      reads this
    {
      Records(identityKeys, database)
    }

    constructor (db: map<RecordId, Record>)
      ensures GetRecords() == Records(db, db)
    {
      identityKeys, database := db, db;
    }

    /** Writes the record to the database and then to the cache; false if the database throws. */
    method SaveIdentityKey(id: RecordId, data: Record, c: Context) returns (saved: bool)
      modifies this
      ensures saved == c.dbWorks
      ensures GetRecords() == if saved then Saved(old(GetRecords()), id, data) else old(GetRecords())
    {
      if !c.dbWorks {
        return false;
      }
      database := database[id := data];
      identityKeys := identityKeys[id := data];
      return true;
    }

    method GetOrMigrateIdentityRecord(id: string, c: Context) returns (record: Option<Record>, threw: bool)
      modifies this
      ensures threw == (Migrates(old(GetRecords()), id, c) && !c.dbWorks)
      ensures threw ==> GetRecords() == old(GetRecords())
      ensures !threw ==> GetRecords() == Migrated(old(GetRecords()), id, c) && record == RecordOf(GetRecords(), id)
    {
      if OfService(id) in identityKeys {
        return Some(identityKeys[OfService(id)]), false;
      }
      if c.conversation.None? {
        return None, false;
      }
      var oldId := OfConversation(c.conversation.value);
      if oldId !in identityKeys {
        return None, false;
      }
      var newRecord := identityKeys[oldId];
      var saved := SaveIdentityKey(OfService(id), newRecord, c);
      if !saved {
        return None, true;
      }
      identityKeys := identityKeys - {oldId};
      database := database - {oldId};
      return Some(newRecord), false;
    }

    method SaveIdentity(call: Call, c: Context) returns (reply: Reply)
      requires call.SaveIdentity?
      modifies this
      ensures (GetRecords(), reply) == Apply(old(GetRecords()), call, c)
    {
      if call.key == "" {
        return Threw;
      }
      var identityRecord, threw := GetOrMigrateIdentityRecord(call.id, c);
      if threw {
        return Threw;
      }
      var id := OfService(call.id);
      if identityRecord.None? {
        var saved := SaveIdentityKey(id, Record(call.key, true, c.now, DEFAULT, call.approval), c);
        return if saved then NewOrUnchanged else Threw;
      }
      if call.noOverwrite {
        return NewOrUnchanged;
      }
      var record := identityRecord.value;
      var identityKeyChanged := record.publicKey != call.key;
      if identityKeyChanged {
        if c.isOurs {
          return NewOrUnchanged;
        }
        var previousStatus := record.verified;
        var verifiedStatus := DEFAULT;
        if previousStatus == VERIFIED || previousStatus == UNVERIFIED {
          verifiedStatus := UNVERIFIED;
        }
        var saved := SaveIdentityKey(id, Record(call.key, false, c.now, verifiedStatus, call.approval), c);
        return if saved then ReplacedExisting else Threw;
      }
      if IsNonBlockingApprovalRequired(record, c.now) {
        record := record.(nonblockingApproval := call.approval);
        identityKeys := identityKeys[id := record];
        assert identityKeys[id := record] == identityKeys;
        var saved := SaveIdentityKey(id, record, c);
        return if saved then NewOrUnchanged else Threw;
      }
      return NewOrUnchanged;
    }

    /** The cached record shows the approval even if the write fails. */
    method SetApproval(call: Call, c: Context) returns (reply: Reply)
      requires call.SetApproval?
      modifies this
      ensures (GetRecords(), reply) == Apply(old(GetRecords()), call, c)
    {
      var identityRecord, threw := GetOrMigrateIdentityRecord(call.id, c);
      if threw || identityRecord.None? {
        return Threw;
      }
      var record := identityRecord.value.(nonblockingApproval := call.approval);
      identityKeys := identityKeys[OfService(call.id) := record];
      assert identityKeys[OfService(call.id) := record] == identityKeys;
      var saved := SaveIdentityKey(OfService(call.id), record, c);
      return if saved then Done else Threw;
    }

    method SetVerified(call: Call, c: Context) returns (reply: Reply)
      requires call.SetVerified?
      modifies this
      ensures (GetRecords(), reply) == Apply(old(GetRecords()), call, c)
    {
      var identityRecord, threw := GetOrMigrateIdentityRecord(call.id, c);
      if threw || identityRecord.None? || !IsValidRecord(identityRecord.value) {
        return Threw;
      }
      var record := identityRecord.value;
      if call.firstUse.Some? {
        record := record.(firstUse := call.firstUse.value);
      }
      if call.extraApproval.Some? {
        record := record.(nonblockingApproval := call.extraApproval.value);
      }
      record := record.(verified := call.status);
      var saved := SaveIdentityKey(OfService(call.id), record, c);
      return if saved then Done else Threw;
    }

    method UpdateIdentityAfterSync(call: Call, c: Context) returns (reply: Reply, shouldAddVerifiedChangedMessage: bool)
      requires call.UpdateAfterSync?
      modifies this
      ensures (GetRecords(), reply) == Apply(old(GetRecords()), call, c)
      ensures reply == Done ==>
                var before := RecordOf(Migrated(old(GetRecords()), call.id, c), call.id);
                shouldAddVerifiedChangedMessage <==>
                  (before.Some? ==> before.value.publicKey == call.key)
                  && (call.status == VERIFIED <==> before.None? || before.value.verified != VERIFIED)
                  && (before.None? ==> call.status == VERIFIED)
    {
      var identityRecord, threw := GetOrMigrateIdentityRecord(call.id, c);
      if threw {
        return Threw, false;
      }
      var hadEntry := identityRecord.Some?;
      var keyMatches := hadEntry && identityRecord.value.publicKey == call.key;
      var statusMatches := keyMatches && call.status == identityRecord.value.verified;
      if !keyMatches || !statusMatches {
        var updates := Record(call.key, !hadEntry, c.now, call.status, true);
        if !IsValidRecord(updates) {
          return Threw, false;
        }
        var saved := SaveIdentityKey(OfService(call.id), updates, c);
        if !saved {
          return Threw, false;
        }
      }
      if hadEntry && !keyMatches {
        return Done, false;
      }
      if call.status == VERIFIED && (!hadEntry || identityRecord.value.verified != VERIFIED) {
        return Done, true;
      }
      if call.status != VERIFIED && hadEntry && identityRecord.value.verified == VERIFIED {
        return Done, true;
      }
      return Done, false;
    }

    method RemoveIdentityKey(call: Call, c: Context) returns (reply: Reply)
      requires call.RemoveIdentityKey?
      modifies this
      ensures (GetRecords(), reply) == Apply(old(GetRecords()), call, c)
    {
      identityKeys := identityKeys - {OfService(call.id)};
      if !c.dbWorks {
        return Threw;
      }
      database := database - {OfService(call.id)};
      return Done;
    }
  }
}
