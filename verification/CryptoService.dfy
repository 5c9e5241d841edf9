/** Key rotation over an abstract authenticated cipher, and the two envelopes the stores keep ciphertext in. */
module CryptoService {
  import opened AuthTypes

  type Bytes = seq<bv8>

  const NONCE_LENGTH := 12
  const AUTH_TAG_LENGTH := 16
  const KEY_LENGTH := 32
  const KEY_ID_LENGTH := 16
  const MS_PER_DAY := 86400000

  /** SHA-256, its truncation to a key id, and AES-256-GCM: `seal(key, nonce, plaintext)` yields the
      ciphertext and its tag, `open(key, nonce, ciphertext, tag)` undoes it. */
  datatype Primitives = Primitives(
    sha256: Bytes -> Bytes,
    fingerprint: Bytes -> string,
    seal: (Bytes, Bytes, Bytes) -> (Bytes, Bytes),
    open: (Bytes, Bytes, Bytes, Bytes) -> Option<Bytes>)

  /** What is assumed of the primitives: their lengths, and that opening undoes sealing. */
  ghost predicate Lawful(p: Primitives) {
    && (forall b: Bytes :: |p.sha256(b)| == KEY_LENGTH)
    && (forall k: Bytes :: |p.fingerprint(k)| == KEY_ID_LENGTH)
    && (forall k: Bytes, n: Bytes, m: Bytes :: |k| == KEY_LENGTH && |n| == NONCE_LENGTH ==>
          var sealed := p.seal(k, n, m);
          |sealed.1| == AUTH_TAG_LENGTH && p.open(k, n, sealed.0, sealed.1) == Some(m))
  }

  /** No two of these keys share an id. */
  predicate DistinctIds(p: Primitives, used: set<Bytes>) {
    forall a, b :: a in used && b in used && p.fingerprint(a) == p.fingerprint(b) ==> a == b
  }

  /** What another key makes of a sealed message. GCM does not commit to its key, so this need not be None. */
  function OpenedUnder(p: Primitives, other: Bytes, key: Bytes, nonce: Bytes, message: Bytes): Option<Bytes> {
    var sealed := p.seal(key, nonce, message);
    p.open(other, nonce, sealed.0, sealed.1)
  }

  /** This sealed message is refused under every other of these keys. */
  predicate RefusedElsewhere(p: Primitives, key: Bytes, nonce: Bytes, message: Bytes, used: set<Bytes>) {
    forall other :: other in used && other != key ==> OpenedUnder(p, other, key, nonce, message) == None
  }

  /** A service call's value, or EncryptionError. */
  datatype Outcome<+T> = Done(value: T) | EncryptionError

  /** A refused tag is an EncryptionError. */
  function OrError(o: Option<Bytes>): Outcome<Bytes> {
    match o
    case None => EncryptionError
    case Some(plaintext) => Done(plaintext)
  }

  datatype CryptoKey = CryptoKey(id: string, key: Bytes, algorithm: string, expiresAt: Option<int>, active: bool)

  datatype Keyring = Keyring(keys: map<string, CryptoKey>, activeKeyId: Option<string>)

  const NO_KEYS := Keyring(map[], None)

  datatype SecurityConfig = SecurityConfig(enableEncryption: bool, encryptionAlgorithm: string, keyRotationDays: int)

  datatype EncryptedData = EncryptedData(ciphertext: Bytes, nonce: Bytes, keyId: string)

  function ActiveKey(r: Keyring): Option<CryptoKey> {
    if r.activeKeyId.Some? && r.activeKeyId.value in r.keys then Some(r.keys[r.activeKeyId.value]) else None
  }

  /** The key becomes known; an active one takes over from the key that was active. */
  function WithKey(r: Keyring, key: CryptoKey): Keyring {
    var keys := r.keys[key.id := key];
    if !key.active then Keyring(keys, r.activeKeyId)
    else if r.activeKeyId.Some? && r.activeKeyId.value != key.id && r.activeKeyId.value in keys then
      var before := r.activeKeyId.value;
      Keyring(keys[before := keys[before].(active := false)], Some(key.id))
    else Keyring(keys, Some(key.id))
  }

  predicate Removable(key: CryptoKey, now: int) {
    key.expiresAt.Some? && key.expiresAt.value < now && !key.active
  }

  function WithoutExpired(r: Keyring, now: int): Keyring {
    r.(keys := map id | id in r.keys && !Removable(r.keys[id], now) :: r.keys[id])
  }

  class KeyManager {
    var keys: map<string, CryptoKey>
    var activeKeyId: Option<string>

    constructor ()
      ensures Ring() == NO_KEYS
    {
      keys, activeKeyId := map[], None;
    }

    function Ring(): Keyring
      reads this
    {
      Keyring(keys, activeKeyId)
    }

    method AddKey(key: CryptoKey)
      modifies this
      ensures Ring() == WithKey(old(Ring()), key)
    {
      keys := keys[key.id := key];
      if key.active {
        if activeKeyId.Some? && activeKeyId.value != key.id {
          if activeKeyId.value in keys {
            keys := keys[activeKeyId.value := keys[activeKeyId.value].(active := false)];
          }
        }
        activeKeyId := Some(key.id);
      }
    }

    method GetActiveKey() returns (key: Option<CryptoKey>)
      ensures key == ActiveKey(Ring())
    {
      if activeKeyId.None? { return None; }
      key := if activeKeyId.value in keys then Some(keys[activeKeyId.value]) else None;
    }

    method CleanupExpiredKeys(now: int) returns (removed: nat)
      modifies this`keys
      ensures Ring() == WithoutExpired(old(Ring()), now)
      ensures removed == |old(keys)| - |keys|
    {
      removed := 0;
      var ids := keys.Keys;
      while ids != {}
        invariant ids <= old(keys).Keys && removed + |keys| == |old(keys)|
        invariant keys == map id | id in old(keys) && (id in ids || !Removable(old(keys)[id], now)) :: old(keys)[id]
        decreases ids
      {
        var id :| id in ids;
        var key := keys[id];
        if key.expiresAt.Some? && key.expiresAt.value < now && !key.active {
          assert (keys - {id}).Keys == keys.Keys - {id};
          keys := keys - {id};
          removed := removed + 1;
        }
        ids := ids - {id};
      }
    }
  }

  /** A master key of the wrong length is hashed down to a key. */
  function Derived(p: Primitives, master: Bytes): Bytes {
    if |master| == KEY_LENGTH then master else p.sha256(master)
  }

  function NewKey(p: Primitives, c: SecurityConfig, master: Bytes, now: int): CryptoKey {
    var key := Derived(p, master);
    CryptoKey(p.fingerprint(key), key, c.encryptionAlgorithm,
              if c.keyRotationDays > 0 then Some(now + c.keyRotationDays * MS_PER_DAY) else None, true)
  }

  predicate Supported(algorithm: string) {
    algorithm == "secretbox" || algorithm == "aes-256-gcm"
  }

  function Encrypted(p: Primitives, c: SecurityConfig, r: Keyring, plaintext: Bytes, nonce: Bytes)
    : Outcome<EncryptedData>
  {
    if !c.enableEncryption then Done(EncryptedData(plaintext, [], "none"))
    else
      var key := ActiveKey(r);
      if key.None? || !Supported(key.value.algorithm) then EncryptionError
      else
        var sealed := p.seal(key.value.key, nonce, plaintext);
        Done(EncryptedData(sealed.0 + sealed.1, nonce, key.value.id))
  }

  function OpenWith(p: Primitives, key: CryptoKey, e: EncryptedData): Outcome<Bytes> {
    if !Supported(key.algorithm) || |e.nonce| != NONCE_LENGTH || |e.ciphertext| < AUTH_TAG_LENGTH then EncryptionError
    else
      var split := |e.ciphertext| - AUTH_TAG_LENGTH;
      OrError(p.open(key.key, e.nonce, e.ciphertext[..split], e.ciphertext[split..]))
  }

  function Decrypted(p: Primitives, c: SecurityConfig, r: Keyring, e: EncryptedData): Outcome<Bytes> {
    if !c.enableEncryption || e.keyId == "none" then Done(e.ciphertext)
    else if e.keyId == "auto" && ActiveKey(r).None? then EncryptionError
    else
      var keyId := if e.keyId == "auto" then ActiveKey(r).value.id else e.keyId;
      if keyId !in r.keys then EncryptionError else OpenWith(p, r.keys[keyId], e)
  }

  class CryptoService {
    const keyManager: KeyManager
    const config: SecurityConfig
    const p: Primitives

    constructor (config: SecurityConfig, p: Primitives)
      ensures this.config == config && this.p == p
      ensures fresh(keyManager) && keyManager.Ring() == NO_KEYS
    {
      this.config, this.p := config, p;
      keyManager := new KeyManager();
    }

    method Initialize(masterKey: Bytes, now: int)
      modifies keyManager
      ensures keyManager.Ring() == WithKey(old(keyManager.Ring()), NewKey(p, config, masterKey, now))
    {
      if |masterKey| != KEY_LENGTH {
        var derived := p.sha256(masterKey);
        AddKey(derived, true, now);
      } else {
        AddKey(masterKey, true, now);
      }
    }

    method RotateKey(newMasterKey: Bytes, now: int)
      modifies keyManager
      ensures keyManager.Ring() == WithKey(old(keyManager.Ring()), NewKey(p, config, newMasterKey, now))
    {
      var derived := if |newMasterKey| == KEY_LENGTH then newMasterKey else p.sha256(newMasterKey);
      AddKey(derived, true, now);
    }

    method AddKey(key: Bytes, active: bool, now: int)
      modifies keyManager
      ensures keyManager.Ring() == WithKey(old(keyManager.Ring()),
        CryptoKey(p.fingerprint(key), key, config.encryptionAlgorithm,
                  if config.keyRotationDays > 0 then Some(now + config.keyRotationDays * MS_PER_DAY) else None, active))
    {
      var keyId := p.fingerprint(key);
      var expiresAt: Option<int> := None;
      if config.keyRotationDays > 0 {
        expiresAt := Some(now + config.keyRotationDays * MS_PER_DAY);
      }
      keyManager.AddKey(CryptoKey(keyId, key, config.encryptionAlgorithm, expiresAt, active));
    }

    /** `nonce` is the twelve random bytes drawn for this call. */
    method Encrypt(plaintext: Bytes, nonce: Bytes) returns (r: Outcome<EncryptedData>)
      ensures r == Encrypted(p, config, keyManager.Ring(), plaintext, nonce)
    {
      if !config.enableEncryption {
        return Done(EncryptedData(plaintext, [], "none"));
      }
      var key := keyManager.GetActiveKey();
      if key.None? { return EncryptionError; }
      if key.value.algorithm != "secretbox" && key.value.algorithm != "aes-256-gcm" { return EncryptionError; }
      var sealed := p.seal(key.value.key, nonce, plaintext);
      r := Done(EncryptedData(sealed.0 + sealed.1, nonce, key.value.id));
    }

    method Decrypt(encrypted: EncryptedData) returns (r: Outcome<Bytes>)
      ensures r == Decrypted(p, config, keyManager.Ring(), encrypted)
    {
      if !config.enableEncryption || encrypted.keyId == "none" { return Done(encrypted.ciphertext); }
      var keyId := encrypted.keyId;
      if keyId == "auto" {
        var activeKey := keyManager.GetActiveKey();
        if activeKey.None? { return EncryptionError; }
        keyId := activeKey.value.id;
      }
      if keyId !in keyManager.keys { return EncryptionError; }
      r := OpenWith(p, keyManager.keys[keyId], encrypted);
    }

    method CleanupExpiredKeys(now: int) returns (removed: nat)
      modifies keyManager
      ensures keyManager.Ring() == WithoutExpired(old(keyManager.Ring()), now)
      ensures removed == |old(keyManager.keys)| - |keyManager.keys|
    {
      removed := keyManager.CleanupExpiredKeys(now);
    }
  }
}

/** Runs of initialize, rotateKey and cleanupExpiredKeys. */
module KeyRotation {
  import opened AuthTypes
  import opened CryptoService

  datatype Op = Install(master: Bytes, at: int) | Cleanup(at: int) // initialize and rotateKey install alike

  function Apply(p: Primitives, c: SecurityConfig, r: Keyring, op: Op): Keyring {
    match op
    case Install(master, at) => WithKey(r, NewKey(p, c, master, at))
    case Cleanup(at) => WithoutExpired(r, at)
  }

  function Run(p: Primitives, c: SecurityConfig, r: Keyring, ops: seq<Op>): Keyring
    decreases |ops|
  {
    if ops == [] then r else Run(p, c, Apply(p, c, r, ops[0]), ops[1..])
  }

  /** Every key this run installs is among these. */
  predicate Uses(p: Primitives, ops: seq<Op>, used: set<Bytes>) {
    forall i :: 0 <= i < |ops| && ops[i].Install? ==> Derived(p, ops[i].master) in used
  }

  /** Exactly one key is active once there is any, and every key is filed under its own id. */
  predicate Inv(p: Primitives, c: SecurityConfig, r: Keyring, used: set<Bytes>) {
    && (r.activeKeyId.None? ==> r.keys == map[])
    && (r.activeKeyId.Some? ==> r.activeKeyId.value in r.keys)
    && (forall id :: id in r.keys ==>
          && (r.keys[id].active <==> r.activeKeyId == Some(id))
          && r.keys[id].id == id == p.fingerprint(r.keys[id].key)
          && |r.keys[id].key| == KEY_LENGTH && r.keys[id].key in used
          && r.keys[id].algorithm == c.encryptionAlgorithm)
  }

  lemma StepKeepsInv(p: Primitives, c: SecurityConfig, r: Keyring, op: Op, used: set<Bytes>)
    requires Lawful(p) && Inv(p, c, r, used) && Uses(p, [op], used)
    ensures Inv(p, c, Apply(p, c, r, op), used)
    ensures r.activeKeyId.Some? || op.Install? ==> Apply(p, c, r, op).activeKeyId.Some?
  {
    assert [op][0] == op;
  }

  /** In every run, once a key was installed exactly one key is active, and no later operation undoes it. */
  lemma {:induction false} OneActiveKey(p: Primitives, c: SecurityConfig, r: Keyring, ops: seq<Op>, used: set<Bytes>)
    requires Lawful(p) && Inv(p, c, r, used) && Uses(p, ops, used)
    ensures var end := Run(p, c, r, ops);
            && Inv(p, c, end, used)
            && (r.activeKeyId.Some? || (exists i :: 0 <= i < |ops| && ops[i].Install?) ==>
                  end.activeKeyId.Some? && ActiveKey(end).Some?
                  && (set id | id in end.keys && end.keys[id].active) == {end.activeKeyId.value})
    decreases |ops|
  {
    if ops != [] {
      assert Uses(p, [ops[0]], used);
      StepKeepsInv(p, c, r, ops[0], used);
      OneActiveKey(p, c, Apply(p, c, r, ops[0]), ops[1..], used);
      if exists i :: 0 <= i < |ops| && ops[i].Install? {
        var i :| 0 <= i < |ops| && ops[i].Install?;
        assert i > 0 ==> ops[1..][i - 1] == ops[i];
      }
    }
  }

  /** A cleanup removes the expired keys that are not active, and nothing else changes. */
  lemma CleanupRemovesOnlyExpiredInactive(p: Primitives, c: SecurityConfig, r: Keyring, at: int, used: set<Bytes>)
    requires Inv(p, c, r, used)
    ensures var end := Apply(p, c, r, Cleanup(at));
            && end.activeKeyId == r.activeKeyId && ActiveKey(end) == ActiveKey(r)
            && (forall id :: id in end.keys ==> id in r.keys && end.keys[id] == r.keys[id])
            && (forall id :: id in r.keys ==>
                  (id !in end.keys <==>
                     r.activeKeyId != Some(id) && r.keys[id].expiresAt.Some? && r.keys[id].expiresAt.value < at))
  {
  }

  /** Later operations may forget a key; they never file another one under its id. */
  lemma {:induction false} KeysKeepTheirMaterial(
    p: Primitives, c: SecurityConfig, r: Keyring, ops: seq<Op>, used: set<Bytes>, key: Bytes)
    requires Lawful(p) && Inv(p, c, r, used) && Uses(p, ops, used) && DistinctIds(p, used) && key in used
    ensures var end := Run(p, c, r, ops);
            p.fingerprint(key) in end.keys ==> end.keys[p.fingerprint(key)].key == key
  {
    OneActiveKey(p, c, r, ops, used);
  }

  lemma OpeningUndoesSealing(p: Primitives, key: CryptoKey, e: EncryptedData, plaintext: Bytes)
    requires Lawful(p) && Supported(key.algorithm) && |key.key| == KEY_LENGTH && |e.nonce| == NONCE_LENGTH
    requires e.ciphertext == p.seal(key.key, e.nonce, plaintext).0 + p.seal(key.key, e.nonce, plaintext).1
    ensures OpenWith(p, key, e) == Done(plaintext)
  {
    var sealed := p.seal(key.key, e.nonce, plaintext);
    assert e.ciphertext[..|sealed.0|] == sealed.0 && e.ciphertext[|sealed.0|..] == sealed.1;
  }

  /** The same under any key. */
  lemma OpeningUnderAnother(p: Primitives, other: CryptoKey, key: CryptoKey, e: EncryptedData, plaintext: Bytes)
    requires Lawful(p) && Supported(other.algorithm) && |other.key| == KEY_LENGTH
    requires |key.key| == KEY_LENGTH && |e.nonce| == NONCE_LENGTH
    requires e.ciphertext == p.seal(key.key, e.nonce, plaintext).0 + p.seal(key.key, e.nonce, plaintext).1
    ensures OpenWith(p, other, e) == OrError(OpenedUnder(p, other.key, key.key, e.nonce, plaintext))
  {
    var sealed := p.seal(key.key, e.nonce, plaintext);
    assert e.ciphertext[..|sealed.0|] == sealed.0 && e.ciphertext[|sealed.0|..] == sealed.1;
  }

  /** Decryption survives rotation: what was encrypted at any point of a run, and carries its key id,
      decrypts to its plaintext after any further operations exactly while that key is retained. */
  lemma DecryptsWhileKeyIsRetained(p: Primitives, c: SecurityConfig, r: Keyring, ops: seq<Op>, used: set<Bytes>,
      plaintext: Bytes, nonce: Bytes)
    requires Lawful(p) && Inv(p, c, r, used) && Uses(p, ops, used) && DistinctIds(p, used)
    requires |nonce| == NONCE_LENGTH && Encrypted(p, c, r, plaintext, nonce).Done?
    ensures var e := Encrypted(p, c, r, plaintext, nonce).value;
            var end := Run(p, c, r, ops);
            Decrypted(p, c, end, e)
              == if !c.enableEncryption || e.keyId in end.keys then Done(plaintext) else EncryptionError
  {
    if c.enableEncryption {
      var key := ActiveKey(r).value;
      var e := Encrypted(p, c, r, plaintext, nonce).value;
      assert |"none"| == 4 && |"auto"| == 4;
      OneActiveKey(p, c, r, ops, used);
      KeysKeepTheirMaterial(p, c, r, ops, used, key.key);
      var end := Run(p, c, r, ops);
      if e.keyId in end.keys {
        OpeningUndoesSealing(p, end.keys[e.keyId], e, plaintext);
      }
    }
  }

  /** No cleanup of the run comes later than `deadline`, and nothing happens before `from`. */
  predicate Within(ops: seq<Op>, from: int, deadline: int) {
    forall i :: 0 <= i < |ops| ==> from <= ops[i].at && (ops[i].Cleanup? ==> ops[i].at <= deadline)
  }

  /** A key is retained for its whole life: through any run whose cleanups come before the rotation period
      is over, counted from its installation; and for ever when keys do not expire. */
  lemma {:induction false} KeysAreRetainedUntilTheyExpire(
    p: Primitives, c: SecurityConfig, r: Keyring, ops: seq<Op>, id: string, from: int)
    requires id in r.keys
    requires r.keys[id].expiresAt.Some? ==>
      c.keyRotationDays > 0 && r.keys[id].expiresAt.value >= from + c.keyRotationDays * MS_PER_DAY
    requires c.keyRotationDays > 0 ==> Within(ops, from, from + c.keyRotationDays * MS_PER_DAY)
    ensures id in Run(p, c, r, ops).keys
    decreases |ops|
  {
    if ops != [] {
      KeysAreRetainedUntilTheyExpire(p, c, Apply(p, c, r, ops[0]), ops[1..], id, from);
    }
  }

  // ----- from the first key on -----

  /** Every key these operations install. */
  function Installed(p: Primitives, ops: seq<Op>): set<Bytes> {
    set i | 0 <= i < |ops| && ops[i].Install? :: Derived(p, ops[i].master)
  }

  /** The master key of the last installation. */
  function LastMaster(ops: seq<Op>): Option<Bytes>
    decreases |ops|
  {
    if ops == [] then None
    else if ops[|ops| - 1].Install? then Some(ops[|ops| - 1].master)
    else LastMaster(ops[..|ops| - 1])
  }

  lemma {:induction false} RunConcat(p: Primitives, c: SecurityConfig, r: Keyring, a: seq<Op>, b: seq<Op>)
    ensures Run(p, c, r, a + b) == Run(p, c, Run(p, c, r, a), b)
    decreases |a|
  {
    if a == [] {
      assert a + b == b;
    } else {
      RunConcat(p, c, Apply(p, c, r, a[0]), a[1..], b);
      assert (a + b)[0] == a[0] && (a + b)[1..] == a[1..] + b;
    }
  }

  lemma RunSnoc(p: Primitives, c: SecurityConfig, r: Keyring, ops: seq<Op>)
    requires ops != []
    ensures Run(p, c, r, ops) == Apply(p, c, Run(p, c, r, ops[..|ops| - 1]), ops[|ops| - 1])
  {
    var front, last := ops[..|ops| - 1], ops[|ops| - 1];
    assert ops == front + [last];
    RunConcat(p, c, r, front, [last]);
    assert [last][1..] == [];
  }

  lemma UsesInstalled(p: Primitives, ops: seq<Op>)
    ensures Uses(p, ops, Installed(p, ops))
  {
  }

  lemma InvFromNoKeys(p: Primitives, c: SecurityConfig, ops: seq<Op>, used: set<Bytes>)
    requires Lawful(p) && Installed(p, ops) <= used
    ensures Inv(p, c, Run(p, c, NO_KEYS, ops), used) && Uses(p, ops, used)
  {
    UsesInstalled(p, ops);
    OneActiveKey(p, c, NO_KEYS, ops, used);
  }

  /** The active key is the one installed last, cleanups aside. */
  lemma {:induction false} ActiveKeyIsTheLatest(p: Primitives, c: SecurityConfig, ops: seq<Op>)
    requires Lawful(p)
    ensures var active, master := ActiveKey(Run(p, c, NO_KEYS, ops)), LastMaster(ops);
            && (active.Some? <==> master.Some?)
            && (master.Some? ==>
                  var key := if |master.value| == 32 then master.value else p.sha256(master.value);
                  active.value.key == key && active.value.id == p.fingerprint(key)
                  && active.value.algorithm == c.encryptionAlgorithm)
    decreases |ops|
  {
    if ops != [] {
      var front := ops[..|ops| - 1];
      ActiveKeyIsTheLatest(p, c, front);
      RunSnoc(p, c, NO_KEYS, ops);
      InvFromNoKeys(p, c, front, Installed(p, front));
      hide Run;
      hide Installed;
    }
  }

  /** When a service encrypts, exactly, and to what: with encryption off always, to the plaintext itself; with it on if
      and only if a key was ever installed and the configured algorithm is one of the two supported names, and then
      under the key installed last, a master key of 32 bytes being used as it is and any other hashed. */
  lemma EncryptsExactlyWhenAKeyIsInstalled(
    p: Primitives, c: SecurityConfig, ops: seq<Op>, plaintext: Bytes, nonce: Bytes)
    requires Lawful(p)
    ensures var e := Encrypted(p, c, Run(p, c, NO_KEYS, ops), plaintext, nonce);
            if !c.enableEncryption then e == Done(EncryptedData(plaintext, [], "none"))
            else
              && (e.Done? <==> (exists i :: 0 <= i < |ops| && ops[i].Install?)
                               && (c.encryptionAlgorithm == "secretbox" || c.encryptionAlgorithm == "aes-256-gcm"))
              && (e.Done? ==>
                    && LastMaster(ops).Some?
                    && var master := LastMaster(ops).value;
                       var key := if |master| == 32 then master else p.sha256(master);
                       var (ciphertext, tag) := p.seal(key, nonce, plaintext);
                       e.value == EncryptedData(ciphertext + tag, nonce, p.fingerprint(key)))
  {
    ActiveKeyIsTheLatest(p, c, ops);
    LastMasterIsInstalled(ops);
    hide Run;
  }

  lemma {:induction false} LastMasterIsInstalled(ops: seq<Op>)
    ensures LastMaster(ops).Some? <==> exists i :: 0 <= i < |ops| && ops[i].Install?
    decreases |ops|
  {
    if ops != [] {
      var front := ops[..|ops| - 1];
      LastMasterIsInstalled(front);
      if exists i :: 0 <= i < |ops| && ops[i].Install? {
        var i :| 0 <= i < |ops| && ops[i].Install?;
        assert i < |front| ==> front[i].Install?;
      }
      if LastMaster(front).Some? {
        var i :| 0 <= i < |front| && front[i].Install?;
        assert ops[i].Install?;
      }
    }
  }

  /** The last installation of the key with this id, or -1. */
  function LastInstallOf(p: Primitives, ops: seq<Op>, id: string): int
    decreases |ops|
  {
    if ops == [] then -1
    else
      var n := |ops| - 1;
      if ops[n].Install? && p.fingerprint(Derived(p, ops[n].master)) == id then n else LastInstallOf(p, ops[..n], id)
  }

  /** Operation j is a cleanup after the rotation period of the key installed by operation i, and another key was
      installed in between. */
  predicate Outlived(c: SecurityConfig, ops: seq<Op>, i: nat, j: nat)
    requires i < j < |ops|
  {
    && ops[j].Cleanup? && c.keyRotationDays > 0 && ops[j].at > ops[i].at + c.keyRotationDays * 86400000
    && exists k :: i < k < j && ops[k].Install?
  }

  predicate Retained(p: Primitives, c: SecurityConfig, ops: seq<Op>, id: string) {
    var i := LastInstallOf(p, ops, id);
    0 <= i < |ops| && forall j :: i < j < |ops| ==> !Outlived(c, ops, i, j)
  }

  predicate HeldAsInstalled(p: Primitives, c: SecurityConfig, r: Keyring, ops: seq<Op>, id: string) {
    var i := LastInstallOf(p, ops, id);
    && (id in r.keys <==> Retained(p, c, ops, id))
    && (id in r.keys ==>
          && r.keys[id].expiresAt == (if c.keyRotationDays > 0 then Some(ops[i].at + c.keyRotationDays * 86400000)
                                      else None)
          && (r.activeKeyId == Some(id) <==> forall k :: i < k < |ops| ==> !ops[k].Install?))
  }

  lemma {:induction false} LastInstallIsEarlier(p: Primitives, ops: seq<Op>, id: string)
    ensures -1 <= LastInstallOf(p, ops, id) < |ops|
    decreases |ops|
  {
    if ops != [] { LastInstallIsEarlier(p, ops[..|ops| - 1], id); }
  }

  lemma OneMoreOperation(p: Primitives, c: SecurityConfig, front: seq<Op>, op: Op, id: string)
    ensures var ops, i := front + [op], LastInstallOf(p, front, id);
            var installs := op.Install? && p.fingerprint(Derived(p, op.master)) == id;
            && LastInstallOf(p, ops, id) == (if installs then |front| else i)
            && (Retained(p, c, ops, id) <==>
                  installs || (Retained(p, c, front, id) && !Outlived(c, ops, i, |front|)))
  {
    var ops, i := front + [op], LastInstallOf(p, front, id);
    assert ops[..|front|] == front;
    LastInstallIsEarlier(p, front, id);
    if 0 <= i {
      forall j | i < j < |front| ensures Outlived(c, front, i, j) <==> Outlived(c, ops, i, j) {
        assert forall k :: i < k < j ==> front[k] == ops[k];
      }
    }
  }

  lemma OperationKeepsHeld(p: Primitives, c: SecurityConfig, r: Keyring, front: seq<Op>, op: Op, id: string,
      used: set<Bytes>)
    requires Inv(p, c, r, used) && HeldAsInstalled(p, c, r, front, id)
    ensures HeldAsInstalled(p, c, Apply(p, c, r, op), front + [op], id)
  {
    var ops, i := front + [op], LastInstallOf(p, front, id);
    LastInstallIsEarlier(p, front, id);
    OneMoreOperation(p, c, front, op, id);
    if id in r.keys {
      assert (forall k :: i < k < |front| ==> !front[k].Install?)
        <==> !exists k :: i < k < |front| && ops[k].Install?
      by {
        assert forall k :: 0 <= k < |front| ==> front[k] == ops[k];
      }
      assert (forall k :: i < k < |ops| ==> !ops[k].Install?)
        <==> !op.Install? && (forall k :: i < k < |front| ==> !front[k].Install?)
      by {
        assert forall k :: 0 <= k < |front| ==> front[k] == ops[k];
        assert ops[|front|] == op;
      }
    }
    hide LastInstallOf;
    hide Retained;
  }

  /** Which keys are held after a run, exactly: those whose last installation was not followed by a cleanup later than
      the rotation period and after another installation. */
  lemma {:induction false} KeysAreHeldExactlyUntilCleanedUp(p: Primitives, c: SecurityConfig, ops: seq<Op>, id: string)
    requires Lawful(p)
    ensures HeldAsInstalled(p, c, Run(p, c, NO_KEYS, ops), ops, id)
    decreases |ops|
  {
    if ops != [] {
      var front, last := ops[..|ops| - 1], ops[|ops| - 1];
      KeysAreHeldExactlyUntilCleanedUp(p, c, front, id);
      RunSnoc(p, c, NO_KEYS, ops);
      InvFromNoKeys(p, c, front, Installed(p, front));
      OperationKeepsHeld(p, c, Run(p, c, NO_KEYS, front), front, last, id, Installed(p, front));
      assert front + [last] == ops;
    }
  }

  /** Encryption survives rotation: over every run from the first key on, whatever encryption gave at some point
      decrypts to its plaintext at any later one, exactly as long as its key is held, told from the operations. */
  lemma CiphertextLivesExactlyAsLongAsItsKey(
    p: Primitives, c: SecurityConfig, before: seq<Op>, after: seq<Op>, plaintext: Bytes, nonce: Bytes)
    requires Lawful(p) && DistinctIds(p, Installed(p, before + after))
    requires |nonce| == 12
    requires c.encryptionAlgorithm == "secretbox" || c.encryptionAlgorithm == "aes-256-gcm"
    requires c.enableEncryption ==> exists i :: 0 <= i < |before| && before[i].Install?
    ensures var e := Encrypted(p, c, Run(p, c, NO_KEYS, before), plaintext, nonce);
            && e.Done?
            && Decrypted(p, c, Run(p, c, NO_KEYS, before + after), e.value)
                 == if !c.enableEncryption || Retained(p, c, before + after, e.value.keyId) then Done(plaintext)
                    else EncryptionError
  {
    var r, all := Run(p, c, NO_KEYS, before), before + after;
    EncryptsExactlyWhenAKeyIsInstalled(p, c, before, plaintext, nonce);
    var e := Encrypted(p, c, r, plaintext, nonce).value;
    var used := Installed(p, all);
    assert Installed(p, before) <= used by {
      forall i | 0 <= i < |before| && before[i].Install? ensures Derived(p, before[i].master) in used {
        assert all[i] == before[i];
      }
    }
    assert Uses(p, after, used) by {
      forall i | 0 <= i < |after| && after[i].Install? ensures Derived(p, after[i].master) in used {
        assert all[|before| + i] == after[i];
      }
    }
    InvFromNoKeys(p, c, before, used);
    RunConcat(p, c, NO_KEYS, before, after);
    DecryptsWhileKeyIsRetained(p, c, r, after, used, plaintext, nonce);
    KeysAreHeldExactlyUntilCleanedUp(p, c, all, e.keyId);
    hide Run;
    hide Decrypted;
    hide Installed;
    hide Retained;
  }

  /** What decrypts to what, exactly: with encryption on, and a key named, the key must be held, of a supported
      algorithm, the nonce 12 bytes, and the last 16 bytes of the ciphertext the tag under which that key opens the
      rest. The key id "auto" names the active key. */
  lemma DecryptsExactlyWhenItsTagOpens(
    p: Primitives, c: SecurityConfig, r: Keyring, used: set<Bytes>, e: EncryptedData, message: Bytes)
    requires Inv(p, c, r, used)
    ensures !c.enableEncryption || e.keyId == "none" ==> Decrypted(p, c, r, e) == Done(e.ciphertext)
    ensures c.enableEncryption && e.keyId != "none" ==>
      var id := if e.keyId == "auto" then r.activeKeyId else Some(e.keyId);
      (Decrypted(p, c, r, e) == Done(message) <==>
         && id.Some? && id.value in r.keys
         && (r.keys[id.value].algorithm == "secretbox" || r.keys[id.value].algorithm == "aes-256-gcm")
         && |e.nonce| == 12 && |e.ciphertext| >= 16
         && var body, tag := e.ciphertext[..|e.ciphertext| - 16], e.ciphertext[|e.ciphertext| - 16..];
            p.open(r.keys[id.value].key, e.nonce, body, tag) == Some(message))
  {
  }

  // ----- the Mongo frame -----

  /** The Mongo store keeps nonce and ciphertext in one string, without the key id. */
  function Frame(e: EncryptedData): Bytes {
    e.nonce + e.ciphertext
  }

  function ReadFrame(p: Primitives, c: SecurityConfig, r: Keyring, frame: Bytes): Outcome<Bytes> {
    if |frame| < NONCE_LENGTH then EncryptionError
    else Decrypted(p, c, r, EncryptedData(frame[NONCE_LENGTH..], frame[..NONCE_LENGTH], "auto"))
  }

  /** What reading a frame gives, exactly: with encryption off the text without its first 12 bytes, under the key
      that wrote it the plaintext, and after a rotation whatever the new key makes of it, although the old key
      may still be held. */
  lemma FrameReadsBackUnderItsKey(p: Primitives, c: SecurityConfig, r: Keyring, ops: seq<Op>, used: set<Bytes>,
      plaintext: Bytes, nonce: Bytes)
    requires Lawful(p) && Inv(p, c, r, used) && Uses(p, ops, used) && DistinctIds(p, used)
    requires |nonce| == NONCE_LENGTH && Encrypted(p, c, r, plaintext, nonce).Done?
    ensures var read := ReadFrame(p, c, Run(p, c, r, ops), Frame(Encrypted(p, c, r, plaintext, nonce).value));
            !c.enableEncryption ==>
              read == if |plaintext| < NONCE_LENGTH then EncryptionError else Done(plaintext[NONCE_LENGTH..])
    ensures var read := ReadFrame(p, c, Run(p, c, r, ops), Frame(Encrypted(p, c, r, plaintext, nonce).value));
            c.enableEncryption ==>
              && ActiveKey(Run(p, c, r, ops)).Some?
              && var key, active := ActiveKey(r).value, ActiveKey(Run(p, c, r, ops)).value;
                 read == if active.id == key.id then Done(plaintext)
                         else OrError(OpenedUnder(p, active.key, key.key, nonce, plaintext))
  {
    var e := Encrypted(p, c, r, plaintext, nonce).value;
    var frame := Frame(e);
    if c.enableEncryption {
      assert frame[NONCE_LENGTH..] == e.ciphertext && frame[..NONCE_LENGTH] == nonce;
      FrameUnderActiveKey(p, c, r, ops, used, plaintext, e);
    } else {
      assert frame == plaintext;
    }
  }

  /** A frame whose message no other installed key opens reads back as its plaintext if and only if encryption is
      on and the key that wrote it is still the active one. */
  lemma FrameRoundTripsExactlyUnderItsKey(p: Primitives, c: SecurityConfig, r: Keyring, ops: seq<Op>, used: set<Bytes>,
      plaintext: Bytes, nonce: Bytes)
    requires Lawful(p) && Inv(p, c, r, used) && Uses(p, ops, used) && DistinctIds(p, used)
    requires |nonce| == NONCE_LENGTH && Encrypted(p, c, r, plaintext, nonce).Done?
    requires c.enableEncryption ==> RefusedElsewhere(p, ActiveKey(r).value.key, nonce, plaintext, used)
    ensures var e := Encrypted(p, c, r, plaintext, nonce).value;
            var end := Run(p, c, r, ops);
            && (ReadFrame(p, c, end, Frame(e)) == Done(plaintext) <==>
                  c.enableEncryption && end.activeKeyId == Some(e.keyId))
            && (c.enableEncryption && end.activeKeyId != Some(e.keyId) ==>
                  ReadFrame(p, c, end, Frame(e)) == EncryptionError)
  {
    FrameReadsBackUnderItsKey(p, c, r, ops, used, plaintext, nonce);
    OneActiveKey(p, c, r, ops, used);
    hide Decrypted;
    hide OpenedUnder;
    if c.enableEncryption {
      var key, active := ActiveKey(r).value, ActiveKey(Run(p, c, r, ops)).value;
      assert active.key == key.key ==> active.id == key.id;
    }
  }

  lemma FrameUnderActiveKey(p: Primitives, c: SecurityConfig, r: Keyring, ops: seq<Op>, used: set<Bytes>,
      plaintext: Bytes, e: EncryptedData)
    requires Lawful(p) && Inv(p, c, r, used) && Uses(p, ops, used) && DistinctIds(p, used)
    requires c.enableEncryption && |e.nonce| == NONCE_LENGTH && Encrypted(p, c, r, plaintext, e.nonce) == Done(e)
    ensures ActiveKey(Run(p, c, r, ops)).Some?
    ensures var key, active := ActiveKey(r).value, ActiveKey(Run(p, c, r, ops)).value;
            Decrypted(p, c, Run(p, c, r, ops), e.(keyId := "auto"))
              == if active.id == key.id then Done(plaintext)
                 else OrError(OpenedUnder(p, active.key, key.key, e.nonce, plaintext))
  {
    var key := ActiveKey(r).value;
    OneActiveKey(p, c, r, ops, used);
    KeysKeepTheirMaterial(p, c, r, ops, used, key.key);
    var active := ActiveKey(Run(p, c, r, ops)).value;
    var auto := e.(keyId := "auto");
    if active.id == key.id {
      OpeningUndoesSealing(p, active, auto, plaintext);
    }
    OpeningUnderAnother(p, active, key, auto, plaintext);
    hide OpenWith;
    hide OpenedUnder;
    hide Run;
  }
}
