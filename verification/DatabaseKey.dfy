/**
 The database key over restarts. Every start reads the configuration file, finds or makes
 the key, and may rewrite the file in several separate writes; it may be killed, or a write
 may fail, between any two of them. What the operating system's secret storage answers is
 arbitrary at every start.
 */
module DatabaseKey {
  import opened Identifiers

  type Key = string

  /** What secret storage made of a key; only the storage can look inside. */
  datatype Sealed = Sealed(content: Key, nonce: nat)

  /** The configuration entries in play, as on disk. */
  datatype Config = Config(
    key: Option<Key>,
    encryptedKey: Option<Sealed>,
    safeStorageBackend: Option<string>,
    safeStorageDecryptionError: bool)

  const EMPTY: Config := Config(None, None, None, false)

  /** One start's surroundings; `writes` is how many writes succeed before it is killed or one fails. */
  datatype Environment = Environment(
    isLinux: bool,
    isFlatpak: bool,
    selectedBackend: string,
    mayAskStorage: bool,
    storageWorks: bool,
    decrypt: Sealed -> Option<Key>,
    continues: bool,
    freshKey: Key,
    nonce: nat,
    writes: nat)

  datatype Outcome =
    | Returned(key: Key)
    | BackendChanged
    | EncryptionUnavailable
    | DecryptFailed
    | UserQuit
    | Stopped

  predicate IsEncryptionAvailable(e: Environment) {
    e.mayAskStorage && e.storageWorks && (!e.isLinux || e.selectedBackend != "basic_text")
  }

  predicate IsBackendChanged(c: Config, e: Environment) {
    e.isLinux && c.safeStorageBackend.Some? && c.safeStorageBackend.value != e.selectedBackend
  }

  /** Decryption contradicts the plaintext copy. */
  predicate IsMismatch(c: Config, e: Environment) {
    && c.encryptedKey.Some? && c.key.Some?
    && e.decrypt(c.encryptedKey.value).Some? && e.decrypt(c.encryptedKey.value) != c.key
  }

  /** What the start answers if no write gets in its way. */
  function Answer(c: Config, e: Environment): Outcome {
    if IsBackendChanged(c, e) then BackendChanged
    else if c.encryptedKey.Some? then
      if !IsEncryptionAvailable(e) then EncryptionUnavailable
      else if e.decrypt(c.encryptedKey.value).None? then DecryptFailed
      else if IsMismatch(c, e) then
        if c.safeStorageDecryptionError || e.continues then Returned(c.key.value) else UserQuit
      else Returned(e.decrypt(c.encryptedKey.value).value)
    else if c.key.Some? then Returned(c.key.value)
    else Returned(e.freshKey)
  }

  /** The configurations written on the way to the answer, one by one. */
  function Writes(c: Config, e: Environment): seq<Config> {
    if !Answer(c, e).Returned? then []
    else if c.encryptedKey.Some? then
      var settled := if IsMismatch(c, e) then c.(safeStorageDecryptionError := true) else c.(key := None);
      var pinned := settled.(safeStorageBackend := Some(e.selectedBackend));
      (if settled != c then [settled] else [])
      + (if e.isLinux && c.safeStorageBackend.None? then [pinned] else [])
    else if IsEncryptionAvailable(e) then
      var key := Answer(c, e).key;
      var sealed := c.(encryptedKey := Some(Sealed(key, e.nonce)));
      var copied := sealed.(key := if e.isFlatpak then Some(key) else None);
      [sealed, copied]
      + (if e.isLinux && e.selectedBackend != "" then [copied.(safeStorageBackend := Some(e.selectedBackend))] else [])
    else if c.key.Some? then []
    else [c.(key := Some(e.freshKey))]
  }

  datatype Started = Started(config: Config, outcome: Outcome)

  /** A start with its writes cut off where its surroundings say. */
  function Start(c: Config, e: Environment): Started {
    var writes := Writes(c, e);
    if e.writes < |writes| then Started(([c] + writes)[e.writes], Stopped)
    else Started(([c] + writes)[|writes|], Answer(c, e))
  }

  // ---------------------------------------------------------------- one start

  /** Both copies, where there are two, are of one key. */
  predicate Coherent(c: Config) {
    c.key.Some? && c.encryptedKey.Some? ==> c.key.value == c.encryptedKey.value.content
  }

  /** The key the configuration holds, in whichever form. */
  function Custody(c: Config): Option<Key> {
    if c.key.Some? then c.key
    else if c.encryptedKey.Some? then Some(c.encryptedKey.value.content)
    else None
  }

  /** The storage passes off a wrong key with no plaintext copy left to contradict it. */
  predicate Misread(c: Config, e: Environment) {
    && c.key.None? && c.encryptedKey.Some?
    && e.decrypt(c.encryptedKey.value).Some?
    && e.decrypt(c.encryptedKey.value).value != c.encryptedKey.value.content
  }

  /** Wherever a start is cut off, a key once held is still held, in coherent copies. */
  lemma CustodyKept(c: Config, e: Environment)
    requires Coherent(c)
    ensures Coherent(Start(c, e).config)
    ensures Custody(c).Some? ==> Custody(Start(c, e).config) == Custody(c)
  {
  }

  /** A start that returns a key has it on disk by then, exactly unless it misread it. */
  lemma ReturnedIsHeld(c: Config, e: Environment)
    requires Coherent(c) && Start(c, e).outcome.Returned?
    ensures Custody(Start(c, e).config) == Some(Start(c, e).outcome.key) <==> !Misread(c, e)
  {
  }

  /** The plaintext copy goes only where the other copy is known good or brand new. */
  lemma PlaintextErasedOnlyWithCopy(c: Config, e: Environment)
    requires Coherent(c) && c.key.Some? && Start(c, e).config.key.None?
    ensures Start(c, e).config.encryptedKey.Some? && Start(c, e).config.encryptedKey.value.content == c.key.value
    ensures c.encryptedKey.Some? ==> e.decrypt(c.encryptedKey.value) == c.key
    ensures e.isFlatpak ==> c.encryptedKey.Some?
  {
  }

  /** Same machine and secret storage as before, decrypting correctly and letting every write through. */
  predicate SettledAfter(e: Environment, c: Config, next: Environment) {
    && next.isLinux == e.isLinux && next.selectedBackend == e.selectedBackend
    && IsEncryptionAvailable(next) == IsEncryptionAvailable(e)
    && (c.encryptedKey.Some? ==> next.decrypt(c.encryptedKey.value) == Some(c.encryptedKey.value.content))
    && next.writes >= 3
  }

  /** After a start has returned, or was cut off on its way there, the next one in settled surroundings returns. */
  lemma ReturnsAgain(c: Config, e: Environment, next: Environment)
    requires Coherent(c) && Answer(c, e).Returned? && SettledAfter(e, Start(c, e).config, next)
    ensures var again := Start(Start(c, e).config, next);
            again.outcome.Returned? && Custody(again.config) == Some(again.outcome.key)
    ensures Custody(Start(c, e).config).Some? ==>
              Start(Start(c, e).config, next).outcome == Returned(Custody(Start(c, e).config).value)
  {
    var s := Start(c, e).config;
    assert Coherent(s) by { CustodyKept(c, e); }
    assert !IsBackendChanged(s, next);
    assert s.encryptedKey.Some? ==> IsEncryptionAvailable(next);
    hide Start;
    ReturnsSettled(s, next);
  }

  lemma ReturnsSettled(s: Config, next: Environment)
    requires Coherent(s) && !IsBackendChanged(s, next) && next.writes >= 3
    requires s.encryptedKey.Some? ==> IsEncryptionAvailable(next) && next.decrypt(s.encryptedKey.value) == Some(s.encryptedKey.value.content)
    ensures Start(s, next).outcome.Returned? && Custody(Start(s, next).config) == Some(Start(s, next).outcome.key)
    ensures Custody(s).Some? ==> Start(s, next).outcome == Returned(Custody(s).value)
  {
  }

  // ---------------------------------------------------------------- which start does what

  /** A start is refused for its backend exactly if, on Linux, another one is on file; nothing is written. */
  lemma BackendMustMatch(c: Config, e: Environment)
    ensures Start(c, e).outcome == BackendChanged
            <==> e.isLinux && c.safeStorageBackend != None && c.safeStorageBackend != Some(e.selectedBackend)
    ensures Start(c, e).outcome == BackendChanged ==> Start(c, e).config == c
  {
  }

  /** With the storage in order, a sealed key that decrypts rightly is the answer, and a plaintext copy of it goes. */
  lemma SealedKeyIsRead(c: Config, e: Environment)
    requires Coherent(c) && c.encryptedKey.Some?
    requires !e.isLinux || c.safeStorageBackend == None || c.safeStorageBackend == Some(e.selectedBackend)
    requires e.mayAskStorage && e.storageWorks && (!e.isLinux || e.selectedBackend != "basic_text")
    requires e.decrypt(c.encryptedKey.value) == Some(c.encryptedKey.value.content) && e.writes >= 3
    ensures Start(c, e) == Started(
              c.(key := None, safeStorageBackend := if e.isLinux then Some(e.selectedBackend) else c.safeStorageBackend),
              Returned(c.encryptedKey.value.content))
  {
    var key := c.encryptedKey.value.content;
    assert c.key.Some? ==> c.key == Some(key);
    assert c.key.None? ==> c.(key := None) == c;
    assert c.safeStorageBackend.Some? && e.isLinux ==> c.safeStorageBackend == Some(e.selectedBackend);
  }

  /** A sealed key that contradicts the plaintext copy: the user quits, or the plaintext copy is used and kept. */
  lemma ContradictedKey(c: Config, e: Environment)
    requires c.encryptedKey.Some? && c.key.Some?
    requires !e.isLinux || c.safeStorageBackend == None || c.safeStorageBackend == Some(e.selectedBackend)
    requires e.mayAskStorage && e.storageWorks && (!e.isLinux || e.selectedBackend != "basic_text")
    requires e.decrypt(c.encryptedKey.value).Some? && e.decrypt(c.encryptedKey.value) != c.key && e.writes >= 3
    ensures Start(c, e) ==
              if !c.safeStorageDecryptionError && !e.continues then Started(c, UserQuit)
              else Started(c.(safeStorageDecryptionError := true,
                              safeStorageBackend := if e.isLinux then Some(e.selectedBackend) else c.safeStorageBackend),
                           Returned(c.key.value))
  {
    assert c.safeStorageDecryptionError ==> c.(safeStorageDecryptionError := true) == c;
    assert c.safeStorageBackend.Some? && e.isLinux ==> c.safeStorageBackend == Some(e.selectedBackend);
  }

  /** A sealed key is not read, and nothing written, exactly without working storage or when decrypting throws. */
  lemma SealedKeyNotRead(c: Config, e: Environment)
    requires c.encryptedKey.Some?
    requires !e.isLinux || c.safeStorageBackend == None || c.safeStorageBackend == Some(e.selectedBackend)
    ensures Start(c, e).outcome == EncryptionUnavailable
            <==> !(e.mayAskStorage && e.storageWorks && (!e.isLinux || e.selectedBackend != "basic_text"))
    ensures Start(c, e).outcome == DecryptFailed
            <==> e.mayAskStorage && e.storageWorks && (!e.isLinux || e.selectedBackend != "basic_text")
                 && e.decrypt(c.encryptedKey.value) == None
    ensures Start(c, e).outcome == EncryptionUnavailable || Start(c, e).outcome == DecryptFailed ==> Start(c, e).config == c
  {
  }

  /**
   Without a sealed key on file: the plaintext key if there is one and else a new one is the
   answer. With the storage in order it is sealed, with a plaintext copy kept exactly on
   Flatpak; otherwise it is in plaintext and nothing is sealed.
   */
  lemma KeyIsStored(c: Config, e: Environment)
    requires c.encryptedKey == None && e.writes >= 3
    requires !e.isLinux || c.safeStorageBackend == None || c.safeStorageBackend == Some(e.selectedBackend)
    ensures var key := if c.key == None then e.freshKey else c.key.value;
            var available := e.mayAskStorage && e.storageWorks && (!e.isLinux || e.selectedBackend != "basic_text");
            var end := Start(c, e).config;
            && Start(c, e).outcome == Returned(key)
            && end.encryptedKey == (if available then Some(Sealed(key, e.nonce)) else None)
            && end.key == (if available && !e.isFlatpak then None else Some(key))
            && end.safeStorageDecryptionError == c.safeStorageDecryptionError
            && end.safeStorageBackend == if available && e.isLinux && e.selectedBackend != "" then Some(e.selectedBackend)
                                         else c.safeStorageBackend
  {
  }

  /** How few writes stop a start: it is cut off exactly if one it needs does not go through. */
  lemma CutOffMeans(c: Config, e: Environment)
    ensures Start(c, e).outcome == Stopped <==> e.writes < |Writes(c, e)|
    ensures |Writes(c, e)| <= 3
    ensures Start(c, e).config in [c] + Writes(c, e)
    ensures c.encryptedKey.None? && !IsBackendChanged(c, e) && e.writes == 0 ==>
              (Start(c, e).outcome == Stopped
               <==> c.key == None || (e.mayAskStorage && e.storageWorks && (!e.isLinux || e.selectedBackend != "basic_text")))
    ensures e.writes == 0 ==> Start(c, e).config == c
  {
  }

  /** Two configurations that differ in at most one entry. */
  predicate OneEntryApart(c: Config, d: Config) {
    || c == d.(key := c.key)
    || c == d.(encryptedKey := c.encryptedKey)
    || c == d.(safeStorageBackend := c.safeStorageBackend)
    || c == d.(safeStorageDecryptionError := c.safeStorageDecryptionError)
  }

  /**
   The order of the writes: each changes one entry; the sealed key comes first, so that no
   plaintext copy goes before it is there; and the backend is recorded last.
   */
  lemma WritesInOrder(c: Config, e: Environment, i: nat)
    requires i < |Writes(c, e)|
    ensures OneEntryApart(([c] + Writes(c, e))[i], Writes(c, e)[i])
    ensures c.encryptedKey == None && IsEncryptionAvailable(e) ==> Writes(c, e)[i].encryptedKey.Some?
    ensures i + 1 < |Writes(c, e)| ==> Writes(c, e)[i].safeStorageBackend == c.safeStorageBackend
    ensures i == 0 && c.encryptedKey == None && IsEncryptionAvailable(e) ==> Writes(c, e)[0].key == c.key
  {
  }

  // ---------------------------------------------------------------- all starts

  /** Starts one after another from an empty configuration, each in surroundings of its own. */
  ghost predicate Run(cs: seq<Config>, es: seq<Environment>) {
    && |cs| == |es| + 1
    && cs[0] == EMPTY
    && forall i :: 0 <= i < |es| ==> cs[i + 1] == Start(cs[i], es[i]).config
  }

  function OutcomeAt(cs: seq<Config>, es: seq<Environment>, i: nat): Outcome
    requires i < |es| && |cs| == |es| + 1
  {
    Start(cs[i], es[i]).outcome
  }

  lemma {:induction false} CoherentAlways(cs: seq<Config>, es: seq<Environment>, k: nat)
    requires Run(cs, es) && k <= |es|
    ensures Coherent(cs[k])
  {
    if k == 0 {
    } else {
      CoherentAlways(cs, es, k - 1);
      CustodyKept(cs[k - 1], es[k - 1]);
    }
  }

  lemma {:induction false} CustodyForever(cs: seq<Config>, es: seq<Environment>, i: nat, k: nat)
    requires Run(cs, es) && i <= k <= |es| && Custody(cs[i]).Some?
    ensures Custody(cs[k]) == Custody(cs[i])
    decreases k
  {
    if i == k {
    } else {
      CustodyForever(cs, es, i, k - 1);
      CoherentAlways(cs, es, k - 1);
      CustodyKept(cs[k - 1], es[k - 1]);
    }
  }

  /**
   Over all starts from an empty configuration, killed wherever they may be: once a start
   has returned a key it did not misread, a later start that returns gives the same key
   exactly if it does not misread its own.
   */
  lemma SameKeyIff(cs: seq<Config>, es: seq<Environment>, i: nat, k: nat)
    requires Run(cs, es) && i < k < |es|
    requires OutcomeAt(cs, es, i).Returned? && !Misread(cs[i], es[i])
    requires OutcomeAt(cs, es, k).Returned?
    ensures OutcomeAt(cs, es, k) == OutcomeAt(cs, es, i) <==> !Misread(cs[k], es[k])
  {
    CoherentAlways(cs, es, i);
    CoherentAlways(cs, es, k);
    ReturnedIsHeld(cs[i], es[i]);
    ReturnedIsHeld(cs[k], es[k]);
    CustodyForever(cs, es, i + 1, k);
    CustodyForever(cs, es, i + 1, k + 1);
  }

  /** With decryption right whenever no plaintext copy is left, every returning start gives one key. */
  lemma SameKeyAlways(cs: seq<Config>, es: seq<Environment>, i: nat, k: nat)
    requires Run(cs, es) && i < k < |es|
    requires forall j :: 0 <= j < |es| ==> !Misread(cs[j], es[j])
    requires OutcomeAt(cs, es, i).Returned? && OutcomeAt(cs, es, k).Returned?
    ensures OutcomeAt(cs, es, k) == OutcomeAt(cs, es, i)
  {
    SameKeyIff(cs, es, i, k);
  }

  /** The sealed copy, once written, is never rewritten, and a plaintext copy then never comes back. */
  lemma {:induction false} SealedForGood(cs: seq<Config>, es: seq<Environment>, i: nat, k: nat)
    requires Run(cs, es) && i <= k <= |es| && cs[i].encryptedKey.Some?
    ensures cs[k].encryptedKey == cs[i].encryptedKey
    ensures cs[k].key.Some? ==> cs[k].key == cs[i].key
    ensures cs[i].safeStorageBackend.Some? ==> cs[k].safeStorageBackend == cs[i].safeStorageBackend
    decreases k
  {
    if i == k {
    } else {
      SealedForGood(cs, es, i, k - 1);
    }
  }

  /**
   On Flatpak, where decryption may be wrong on a later start than the one that encrypted,
   a plaintext copy is given up only after some start decrypted the sealed one correctly.
   */
  lemma {:induction false} FlatpakConfirms(cs: seq<Config>, es: seq<Environment>, i: nat, k: nat) returns (m: nat)
    requires Run(cs, es) && i < k <= |es| && (forall j :: 0 <= j < |es| ==> es[j].isFlatpak)
    requires cs[i].key.Some? && cs[k].key.None?
    ensures i <= m < k && cs[m].encryptedKey.Some? && es[m].decrypt(cs[m].encryptedKey.value) == cs[i].key
    ensures OutcomeAt(cs, es, m).Returned? || OutcomeAt(cs, es, m).Stopped?
    decreases k
  {
    if cs[k - 1].key.Some? {
      m := k - 1;
      CoherentAlways(cs, es, m);
      CustodyForever(cs, es, i, m);
      PlaintextErasedOnlyWithCopy(cs[m], es[m]);
    } else {
      m := FlatpakConfirms(cs, es, i, k - 1);
    }
  }

  /**
   The hypothesis on decryption cannot be dropped, not even on Flatpak. The sealed copy is
   written before the plaintext one; killed in between, the first start leaves nothing to
   check a wrong decryption against, and two starts return different keys.
   */
  lemma KilledBetweenWritesOnFlatpak() returns (cs: seq<Config>, es: seq<Environment>)
    ensures Run(cs, es) && |es| == 3 && forall j :: 0 <= j < 3 ==> es[j].isFlatpak
    ensures OutcomeAt(cs, es, 0) == Stopped
    ensures OutcomeAt(cs, es, 1).Returned? && OutcomeAt(cs, es, 2).Returned?
    ensures OutcomeAt(cs, es, 1) != OutcomeAt(cs, es, 2)
  {
    var first := Environment(true, true, "kwallet", true, true, (s: Sealed) => Some(s.content), false, "k", 0, 1);
    var wrong := first.(decrypt := (s: Sealed) => Some("w"), writes := 3);
    var right := first.(writes := 3);
    es := [first, wrong, right];
    var c1 := Start(EMPTY, first).config;
    var c2 := Start(c1, wrong).config;
    cs := [EMPTY, c1, c2, Start(c2, right).config];
    assert c1 == EMPTY.(encryptedKey := Some(Sealed("k", 0)));
    assert right.decrypt(Sealed("k", 0)) == Some("k") && wrong.decrypt(Sealed("k", 0)) == Some("w");
    assert Start(c1, wrong).outcome == Returned("w");
    assert "w"[0] != "k"[0];
  }

  // ---------------------------------------------------------------- the program

  /** The configuration file; a write that fails throws, and leaves file and memory as they were. */
  class UserConfig {
    var stored: Config
    var writesLeft: nat
    ghost var history: seq<Config>

    constructor (stored: Config, writes: nat)
      ensures this.stored == stored && writesLeft == writes && history == [stored]
    {
      this.stored, writesLeft, history := stored, writes, [stored];
    }

    method Set(next: Config) returns (ok: bool)
      modifies this
      ensures ok == (old(writesLeft) > 0)
      ensures stored == (if ok then next else old(stored))
      ensures history == (if ok then old(history) + [next] else old(history))
      ensures writesLeft == old(writesLeft) - (if ok then 1 else 0)
    {
      if writesLeft == 0 {
        return false;
      }
      stored, writesLeft, history := next, writesLeft - 1, history + [next];
      return true;
    }
  }

  /** None if the write of the user's choice did not get through. */
  method HandleSafeStorageDecryptionError(userConfig: UserConfig, e: Environment) returns (continues: Option<bool>)
    modifies userConfig
    ensures old(userConfig.stored).safeStorageDecryptionError ==> continues == Some(true)
    ensures continues == Some(false) <==> !old(userConfig.stored).safeStorageDecryptionError && !e.continues
    ensures continues == None <==>
              !old(userConfig.stored).safeStorageDecryptionError && e.continues && old(userConfig.writesLeft) == 0
    ensures var writes := continues.Some? && continues.value && !old(userConfig.stored).safeStorageDecryptionError;
            && userConfig.stored == (if writes then old(userConfig.stored).(safeStorageDecryptionError := true) else old(userConfig.stored))
            && userConfig.history == (if writes then old(userConfig.history) + [userConfig.stored] else old(userConfig.history))
            && userConfig.writesLeft == old(userConfig.writesLeft) - (if writes then 1 else 0)
  {
    if userConfig.stored.safeStorageDecryptionError {
      return Some(true);
    }
    if !e.continues {
      return Some(false);
    }
    var ok := userConfig.Set(userConfig.stored.(safeStorageDecryptionError := true));
    return if ok then Some(true) else None;
  }

  function Cut(writes: seq<Config>, n: nat): seq<Config> {
    if n < |writes| then writes[..n] else writes
  }

  /** With a sealed key on file: decrypts it, and settles it against a plaintext copy if there is one. */
  method ReadSealedKey(userConfig: UserConfig, e: Environment, sealed: Sealed) returns (outcome: Outcome)
    requires userConfig.writesLeft == e.writes && userConfig.stored.encryptedKey == Some(sealed)
    requires !IsBackendChanged(userConfig.stored, e)
    modifies userConfig
    ensures Started(userConfig.stored, outcome) == Start(old(userConfig.stored), e)
    ensures userConfig.history == old(userConfig.history) + Cut(Writes(old(userConfig.stored), e), e.writes)
  {
    ghost var c := userConfig.stored;
    var legacyKey := userConfig.stored.key;
    var previousBackend := if e.isLinux then userConfig.stored.safeStorageBackend else None;
    if !IsEncryptionAvailable(e) {
      return EncryptionUnavailable;
    }
    var decrypted := e.decrypt(sealed);
    if decrypted.None? {
      return DecryptFailed;
    }
    var key := decrypted.value;
    if legacyKey.Some? {
      if key == legacyKey.value {
        assert !IsMismatch(c, e);
        var ok := userConfig.Set(userConfig.stored.(key := None));
        if !ok { return Stopped; }
      } else {
        assert IsMismatch(c, e);
        var next := HandleSafeStorageDecryptionError(userConfig, e);
        if next.None? { return Stopped; }
        if !next.value { return UserQuit; }
        key := legacyKey.value;
        assert userConfig.stored == c.(safeStorageDecryptionError := true);
      }
    } else {
      assert c == c.(key := None) && !IsMismatch(c, e);
    }
    ghost var settled := if IsMismatch(c, e) then c.(safeStorageDecryptionError := true) else c.(key := None);
    assert userConfig.stored == settled;
    assert Answer(c, e) == Returned(key);
    if e.isLinux && previousBackend.None? {
      var ok := userConfig.Set(userConfig.stored.(safeStorageBackend := Some(e.selectedBackend)));
      if !ok { return Stopped; }
    }
    return Returned(key);
  }

  /** With no sealed key on file: seals the key, on Flatpak beside a plaintext copy. */
  method StoreSealedKey(userConfig: UserConfig, e: Environment, key: Key) returns (outcome: Outcome)
    requires userConfig.writesLeft == e.writes && userConfig.stored.encryptedKey.None?
    requires Answer(userConfig.stored, e) == Returned(key) && IsEncryptionAvailable(e)
    modifies userConfig
    ensures Started(userConfig.stored, outcome) == Start(old(userConfig.stored), e)
    ensures userConfig.history == old(userConfig.history) + Cut(Writes(old(userConfig.stored), e), e.writes)
  {
    ghost var c := userConfig.stored;
    ghost var sealed := c.(encryptedKey := Some(Sealed(key, e.nonce)));
    ghost var copied := sealed.(key := if e.isFlatpak then Some(key) else None);
    assert Writes(c, e) == [sealed, copied]
        + (if e.isLinux && e.selectedBackend != "" then [copied.(safeStorageBackend := Some(e.selectedBackend))] else []);
    hide Answer, IsEncryptionAvailable, Writes;
    var ok := userConfig.Set(userConfig.stored.(encryptedKey := Some(Sealed(key, e.nonce))));
    if !ok { return Stopped; }
    ok := userConfig.Set(userConfig.stored.(key := if e.isFlatpak then Some(key) else None));
    if !ok { return Stopped; }
    if e.isLinux && e.selectedBackend != "" {
      ok := userConfig.Set(userConfig.stored.(safeStorageBackend := Some(e.selectedBackend)));
      if !ok { return Stopped; }
    }
    return Returned(key);
  }

  /** With no key on file and no encryption: stores a new one in plaintext. */
  method StorePlaintextKey(userConfig: UserConfig, e: Environment, key: Key) returns (outcome: Outcome)
    requires userConfig.writesLeft == e.writes && userConfig.stored.encryptedKey.None? && userConfig.stored.key.None?
    requires Answer(userConfig.stored, e) == Returned(key) && !IsEncryptionAvailable(e)
    modifies userConfig
    ensures Started(userConfig.stored, outcome) == Start(old(userConfig.stored), e)
    ensures userConfig.history == old(userConfig.history) + Cut(Writes(old(userConfig.stored), e), e.writes)
  {
    var ok := userConfig.Set(userConfig.stored.(key := Some(key)));
    if !ok { return Stopped; }
    return Returned(key);
  }

  method GetSQLKey(userConfig: UserConfig, e: Environment) returns (outcome: Outcome)
    requires userConfig.writesLeft == e.writes
    modifies userConfig
    ensures Started(userConfig.stored, outcome) == Start(old(userConfig.stored), e)
    ensures userConfig.history == old(userConfig.history) + Cut(Writes(old(userConfig.stored), e), e.writes)
  {
    var update := false;
    var legacyKey := userConfig.stored.key;
    var modernKey := userConfig.stored.encryptedKey;
    if e.isLinux && userConfig.stored.safeStorageBackend.Some?
       && userConfig.stored.safeStorageBackend.value != e.selectedBackend {
      return BackendChanged;
    }
    if modernKey.Some? {
      outcome := ReadSealedKey(userConfig, e, modernKey.value);
      return;
    }
    var key: Key;
    if legacyKey.Some? {
      key := legacyKey.value;
      update := IsEncryptionAvailable(e);
    } else {
      key := e.freshKey;
      update := true;
    }
    if !update {
      return Returned(key);
    }
    if IsEncryptionAvailable(e) {
      outcome := StoreSealedKey(userConfig, e, key);
    } else {
      outcome := StorePlaintextKey(userConfig, e, key);
    }
  }
}
