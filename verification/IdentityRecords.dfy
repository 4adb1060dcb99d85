/** Identity keys, their verification status, and what every call on them may do. */
module IdentityRecords {
  import opened Identifiers

  type PublicKey = string

  datatype VerifiedStatus = DEFAULT | VERIFIED | UNVERIFIED

  datatype Record = Record(
    publicKey: PublicKey,
    firstUse: bool,
    timestamp: int,
    verified: VerifiedStatus,
    nonblockingApproval: bool)

  /** What the schema demands of a record that is validated before it is saved. */
  predicate IsValidRecord(r: Record) {
    r.timestamp > 0
  }

  /** Records are kept under the service id; older ones still under the conversation. */
  datatype RecordId = OfService(serviceId: string) | OfConversation(conversationId: string)

  datatype Records = Records(cache: map<RecordId, Record>, db: map<RecordId, Record>)

  const TIMESTAMP_THRESHOLD := 5000

  predicate IsNonBlockingApprovalRequired(r: Record, now: int) {
    !r.firstUse && r.timestamp > now - TIMESTAMP_THRESHOLD && !r.nonblockingApproval
  }

  predicate IsTrustedForSending(publicKey: PublicKey, record: Option<Record>, previousKey: Option<PublicKey>, now: int) {
    if record.None? then previousKey.None? || previousKey.value == publicKey
    else
      && record.value.publicKey == publicKey
      && !record.value.verified.UNVERIFIED?
      && !IsNonBlockingApprovalRequired(record.value, now)
  }

  /**
   A call, with what it finds around it: the conversation of the contact, whether the contact
   is ourselves, the clock, and whether the database is working.
   */
  datatype Context = Context(conversation: Option<string>, isOurs: bool, now: int, dbWorks: bool)

  datatype Call =
    | SaveIdentity(id: string, key: PublicKey, approval: bool, noOverwrite: bool)
    | SetApproval(id: string, approval: bool)
    | SetVerified(id: string, status: VerifiedStatus, firstUse: Option<bool>, extraApproval: Option<bool>)
    | UpdateAfterSync(id: string, status: VerifiedStatus, key: PublicKey)
    | RemoveIdentityKey(id: string)

  datatype Reply = Threw | NewOrUnchanged | ReplacedExisting | Done

  function Saved(s: Records, id: RecordId, r: Record): Records {
    Records(s.cache[id := r], s.db[id := r])
  }

  /** The record of a contact, moving it over from its conversation's id on first use. */
  predicate Migrates(s: Records, id: string, c: Context) {
    OfService(id) !in s.cache && c.conversation.Some? && OfConversation(c.conversation.value) in s.cache
  }

  function Migrated(s: Records, id: string, c: Context): Records {
    if !Migrates(s, id, c) then s else
    var legacy := OfConversation(c.conversation.value);
    var moved := Saved(s, OfService(id), s.cache[legacy]);
    Records(moved.cache - {legacy}, moved.db - {legacy})
  }

  function RecordOf(s: Records, id: string): Option<Record> {
    if OfService(id) in s.cache then Some(s.cache[OfService(id)]) else None
  }

  /** A save that may fail: the cached record is only replaced once the database took it. */
  function TrySave(s: Records, id: string, r: Record, c: Context, reply: Reply): (Records, Reply) {
    if c.dbWorks then (Saved(s, OfService(id), r), reply) else (s, Threw)
  }

  /** A save of a record that was changed in place: the cache shows the change even if the database fails. */
  function TrySaveInPlace(s: Records, id: string, r: Record, c: Context, reply: Reply): (Records, Reply) {
    if c.dbWorks then (Saved(s, OfService(id), r), reply) else (s.(cache := s.cache[OfService(id) := r]), Threw)
  }

  function GetOr(o: Option<bool>, otherwise: bool): bool {
    if o.Some? then o.value else otherwise
  }

  function DoSaveIdentity(s: Records, call: Call, c: Context): (Records, Reply)
    requires call.SaveIdentity?
  {
    var record := RecordOf(s, call.id);
    if record.None? then
      TrySave(s, call.id, Record(call.key, true, c.now, DEFAULT, call.approval), c, NewOrUnchanged)
    else if call.noOverwrite then (s, NewOrUnchanged)
    else if record.value.publicKey != call.key then
      if c.isOurs then (s, NewOrUnchanged)
      else
        var status := if record.value.verified.DEFAULT? then DEFAULT else UNVERIFIED;
        TrySave(s, call.id, Record(call.key, false, c.now, status, call.approval), c, ReplacedExisting)
    else if IsNonBlockingApprovalRequired(record.value, c.now) then
      TrySaveInPlace(s, call.id, record.value.(nonblockingApproval := call.approval), c, NewOrUnchanged)
    else (s, NewOrUnchanged)
  }

  function DoUpdateAfterSync(s: Records, call: Call, c: Context): (Records, Reply)
    requires call.UpdateAfterSync?
  {
    var record := RecordOf(s, call.id);
    var matches := record.Some? && record.value.publicKey == call.key && record.value.verified == call.status;
    var update := Record(call.key, record.None?, c.now, call.status, true);
    if matches then (s, Done)
    else if !IsValidRecord(update) then (s, Threw)
    else TrySave(s, call.id, update, c, Done)
  }

  function DoSetVerified(s: Records, call: Call, c: Context): (Records, Reply)
    requires call.SetVerified?
  {
    var record := RecordOf(s, call.id);
    if record.None? || !IsValidRecord(record.value) then (s, Threw)
    else
      TrySave(s, call.id,
              record.value.(firstUse := GetOr(call.firstUse, record.value.firstUse),
                            nonblockingApproval := GetOr(call.extraApproval, record.value.nonblockingApproval),
                            verified := call.status), c, Done)
  }

  function DoSetApproval(s: Records, call: Call, c: Context): (Records, Reply)
    requires call.SetApproval?
  {
    var record := RecordOf(s, call.id);
    if record.None? then (s, Threw)
    else TrySaveInPlace(s, call.id, record.value.(nonblockingApproval := call.approval), c, Done)
  }

  /** The cached record goes first, so it is gone even if the database fails. */
  function DoRemoveIdentityKey(s: Records, call: Call, c: Context): (Records, Reply) {
    var dropped := s.(cache := s.cache - {OfService(call.id)});
    if c.dbWorks then (dropped.(db := s.db - {OfService(call.id)}), Done) else (dropped, Threw)
  }

  /** The call proper, once the record is where it belongs. */
  function Perform(s: Records, call: Call, c: Context): (Records, Reply) {
    match call
    case SaveIdentity(_, _, _, _) => DoSaveIdentity(s, call, c)
    case SetApproval(_, _) => DoSetApproval(s, call, c)
    case SetVerified(_, _, _, _) => DoSetVerified(s, call, c)
    case UpdateAfterSync(_, _, _) => DoUpdateAfterSync(s, call, c)
    case RemoveIdentityKey(_) => DoRemoveIdentityKey(s, call, c)
  }

  /** The call throws before it gets to the record: an empty key, or a move the database rejects. */
  predicate Refused(s: Records, call: Call, c: Context) {
    (call.SaveIdentity? && call.key == "") || (!call.RemoveIdentityKey? && Migrates(s, call.id, c) && !c.dbWorks)
  }

  function Located(s: Records, call: Call, c: Context): Records {
    if call.RemoveIdentityKey? then s else Migrated(s, call.id, c)
  }

  /** One call run to its end on the contact's queue. */
  function Apply(s: Records, call: Call, c: Context): (Records, Reply) {
    if Refused(s, call, c) then (s, Threw) else Perform(Located(s, call, c), call, c)
  }

  // ---------------------------------------------------------------- who vouched for a verified key

  /**
   Kept beside the records and never consulted by them: the key that was stored at, or
   supplied with, the latest call that made the record verified.
   */
  type Vouchers = map<RecordId, PublicKey>

  function Vouch(v: Vouchers, s: Records, call: Call, c: Context): Vouchers {
    if Refused(s, call, c) then v else VouchPerformed(VouchMoved(v, s, call, c), Located(s, call, c), call, c)
  }

  /** A record that moves over takes its voucher along. */
  function VouchMoved(v: Vouchers, s: Records, call: Call, c: Context): Vouchers {
    if !call.RemoveIdentityKey? && Migrates(s, call.id, c) && OfConversation(c.conversation.value) in v
    then v[OfService(call.id) := v[OfConversation(c.conversation.value)]] else v
  }

  function VouchPerformed(v: Vouchers, s: Records, call: Call, c: Context): Vouchers {
    if Perform(s, call, c).1.Threw? then v
    else if call.SetVerified? && call.status.VERIFIED? && RecordOf(s, call.id).Some?
    then v[OfService(call.id) := RecordOf(s, call.id).value.publicKey]
    else if call.UpdateAfterSync? && call.status.VERIFIED? then v[OfService(call.id) := call.key]
    else v
  }

  /** Every verified record carries the key vouched for, in the cache and in the database. */
  ghost predicate Vouched(v: Vouchers, s: Records) {
    VouchedIn(v, s.cache) && VouchedIn(v, s.db)
  }

  ghost predicate VouchedIn(v: Vouchers, records: map<RecordId, Record>) {
    forall r :: r in records && records[r].verified.VERIFIED? ==> r in v && v[r] == records[r].publicKey
  }

  /** A call, or a restart, which fills the cache from the database. */
  datatype Moment = Moment(call: Call, context: Context) | Restart

  function RecordsAfter(s: Records, ms: seq<Moment>): Records
    decreases |ms|
  {
    if ms == [] then s
    else
      var before, m := RecordsAfter(s, ms[..|ms| - 1]), ms[|ms| - 1];
      match m
      case Moment(call, context) => Apply(before, call, context).0
      case Restart => Records(before.db, before.db)
  }

  function VouchersAfter(v: Vouchers, s: Records, ms: seq<Moment>): Vouchers
    decreases |ms|
  {
    if ms == [] then v
    else
      var before, m := VouchersAfter(v, s, ms[..|ms| - 1]), ms[|ms| - 1];
      match m
      case Moment(call, context) => Vouch(before, RecordsAfter(s, ms[..|ms| - 1]), call, context)
      case Restart => before
  }

  /** A voucher is given only by a call that makes the record verified, for its key, or comes along with the record. */
  lemma VouchersChangeOnly(v: Vouchers, s: Records, call: Call, c: Context, r: RecordId)
    requires r in Vouch(v, s, call, c) && (r !in v || Vouch(v, s, call, c)[r] != v[r])
    ensures r == OfService(call.id)
    ensures var key, reply := Vouch(v, s, call, c)[r], Apply(s, call, c).1;
            || (call.SetVerified? && call.status == VERIFIED && reply == Done
                && RecordOf(Apply(s, call, c).0, call.id).Some? && key == RecordOf(Apply(s, call, c).0, call.id).value.publicKey)
            || (call.UpdateAfterSync? && call.status == VERIFIED && reply == Done && key == call.key)
            || (c.conversation.Some? && OfService(call.id) !in s.cache && OfConversation(c.conversation.value) in v
                && key == v[OfConversation(c.conversation.value)])
  {
  }

  lemma MigrationKeepsVouched(v: Vouchers, s: Records, call: Call, c: Context)
    requires VouchedIn(v, s.cache)
    ensures VouchedIn(VouchMoved(v, s, call, c), Located(s, call, c).cache)
    ensures VouchedIn(v, s.db) ==> VouchedIn(VouchMoved(v, s, call, c), Located(s, call, c).db)
  {
  }

  lemma SaveKeepsVouched(v: Vouchers, s: Records, call: Call, c: Context)
    requires VouchedIn(v, s.cache) && call.SaveIdentity?
    ensures VouchedIn(v, DoSaveIdentity(s, call, c).0.cache)
    ensures VouchedIn(v, s.db) ==> VouchedIn(v, DoSaveIdentity(s, call, c).0.db)
  {
  }

  lemma PerformKeepsVouched(v: Vouchers, s: Records, call: Call, c: Context)
    requires VouchedIn(v, s.cache)
    ensures VouchedIn(VouchPerformed(v, s, call, c), Perform(s, call, c).0.cache)
    ensures VouchedIn(v, s.db) ==> VouchedIn(VouchPerformed(v, s, call, c), Perform(s, call, c).0.db)
  {
    if call.SaveIdentity? {
      hide DoSaveIdentity, VouchedIn;
      SaveKeepsVouched(v, s, call, c);
    } else {
      hide DoSaveIdentity;
      match call
      case SetApproval(_, _) =>
      case SetVerified(_, _, _, _) =>
      case UpdateAfterSync(_, _, _) =>
      case RemoveIdentityKey(_) =>
    }
  }

  /** Every single call keeps it: for the cache whatever the database holds, and for the database with the cache. */
  lemma CallKeepsVouched(v: Vouchers, s: Records, call: Call, c: Context)
    requires VouchedIn(v, s.cache)
    ensures VouchedIn(Vouch(v, s, call, c), Apply(s, call, c).0.cache)
    ensures VouchedIn(v, s.db) ==> VouchedIn(Vouch(v, s, call, c), Apply(s, call, c).0.db)
  {
    hide VouchedIn, Perform, VouchPerformed, VouchMoved, Located;
    MigrationKeepsVouched(v, s, call, c);
    PerformKeepsVouched(VouchMoved(v, s, call, c), Located(s, call, c), call, c);
  }

  /**
   Over all runs of all the calls and restarts, with failing writes and records moving over
   from their conversations: a record that says VERIFIED, cached or stored, carries exactly
   the key vouched for by the latest call that made it so.
   */
  lemma {:induction false} VerifiedKeyIsVouched(v: Vouchers, s: Records, ms: seq<Moment>)
    requires Vouched(v, s)
    ensures Vouched(VouchersAfter(v, s, ms), RecordsAfter(s, ms))
    decreases |ms|
  {
    if ms == [] {
    } else {
      hide VouchedIn, Apply, Vouch;
      var before, m := ms[..|ms| - 1], ms[|ms| - 1];
      VerifiedKeyIsVouched(v, s, before);
      if m.Moment? {
        CallKeepsVouched(VouchersAfter(v, s, before), RecordsAfter(s, before), m.call, m.context);
      }
    }
  }

  // ---------------------------------------------------------------- a replaced key stays blocked

  /** Restarts aside, only such calls. */
  predicate OnlySavesAndApprovals(ms: seq<Moment>) {
    forall i :: 0 <= i < |ms| && ms[i].Moment? ==> ms[i].call.SaveIdentity? || ms[i].call.SetApproval?
  }

  /** Unverified in the cache and in the database. */
  predicate IsUnverified(s: Records, id: string) {
    && OfService(id) in s.cache && s.cache[OfService(id)].verified.UNVERIFIED?
    && OfService(id) in s.db && s.db[OfService(id)].verified.UNVERIFIED?
  }

  lemma ReplacingUnverifies(s: Records, call: Call, c: Context)
    requires call.SaveIdentity? && Apply(s, call, c).1.ReplacedExisting?
    ensures var before := RecordOf(Migrated(s, call.id, c), call.id);
            before.Some? && (IsUnverified(Apply(s, call, c).0, call.id) <==> !before.value.verified.DEFAULT?)
    ensures !RecordOf(Apply(s, call, c).0, call.id).value.verified.VERIFIED?
  {
  }

  lemma StaysUnverified(s: Records, call: Call, c: Context, id: string)
    requires IsUnverified(s, id) && (call.SaveIdentity? || call.SetApproval?)
    ensures IsUnverified(Apply(s, call, c).0, id)
  {
  }

  lemma {:induction false} StaysUnverifiedForever(s: Records, ms: seq<Moment>, id: string)
    requires IsUnverified(s, id) && OnlySavesAndApprovals(ms)
    ensures IsUnverified(RecordsAfter(s, ms), id)
    decreases |ms|
  {
    if ms == [] {
    } else {
      hide Apply;
      var before, m := ms[..|ms| - 1], ms[|ms| - 1];
      StaysUnverifiedForever(s, before, id);
      if m.Moment? {
        StaysUnverified(RecordsAfter(s, before), m.call, m.context, id);
      }
    }
  }

  /**
   After a save replaced the key of a verified or unverified contact, sending to it is
   refused for every key and at every time, whatever saves, approvals and restarts follow.
   */
  lemma ReplacedKeyStaysBlocked(s: Records, call: Call, c: Context, ms: seq<Moment>,
                                publicKey: PublicKey, previousKey: Option<PublicKey>, now: int)
    requires call.SaveIdentity? && Apply(s, call, c).1.ReplacedExisting?
    requires !RecordOf(Migrated(s, call.id, c), call.id).value.verified.DEFAULT?
    requires OnlySavesAndApprovals(ms)
    ensures var after := RecordsAfter(Apply(s, call, c).0, ms);
            !IsTrustedForSending(publicKey, RecordOf(after, call.id), previousKey, now)
  {
    ReplacingUnverifies(s, call, c);
    StaysUnverifiedForever(Apply(s, call, c).0, ms, call.id);
  }
}
