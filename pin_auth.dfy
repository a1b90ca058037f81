/** The device-local PIN credential store (lib/pin-auth.ts): three
    `localStorage` keys holding the hex digest of the PIN, an enabled flag
    and a backup of the primary session token. The browser's storage is the
    `map<string, string>` field of `CredentialStore`; the SHA-256 digest
    is a function the store is given. */
module PinAuth {
  import opened Common
  import opened JsString

  newtype byte = x: int | 0 <= x < 256

  /** The contents of `localStorage`: string keys to string values. */
  type Storage = map<string, string>

  /** A message digest from the UTF-8 encoding of a string to bytes. */
  type Digest = string -> seq<byte>

  const PinStorageKey: string := "vault_pin_hash"
  const PinEnabledKey: string := "vault_pin_enabled"
  const SessionStorageKey: string := "vault_session_backup"
  const PinFormatMessage: string := "PIN must be exactly 4 digits"

  /** What is assumed of the digest: SHA-256 yields 32 bytes for every
      input, and no two 4-digit PINs share a digest. */
  ghost predicate DigestAssumptions(digest: Digest) {
    && (forall s :: |digest(s)| == 32)
    && (forall p, q :: IsValidPin(p) && IsValidPin(q) && digest(p) == digest(q) ==> p == q)
  }

  /** The check `setupPin` makes: exactly four ASCII digits. */
  predicate IsValidPin(pin: string) {
    |pin| == 4 && IsDigits(pin)
  }

  // ---------------------------------------------------------------------
  // Lower-case hex encoding of the digest bytes

  predicate IsLowerHex(c: char) {
    '0' <= c <= '9' || 'a' <= c <= 'f'
  }

  function HexDigit(n: nat): (c: char)
    requires n < 16
    ensures IsLowerHex(c)
  {
    if n < 10 then ('0' as int + n) as char else ('a' as int + n - 10) as char
  }

  function HexValue(c: char): (n: nat)
    ensures n < 16
  {
    if '0' <= c <= '9' then c as int - '0' as int
    else if 'a' <= c <= 'f' then c as int - 'a' as int + 10
    else 0
  }

  /** `b.toString(16).padStart(2, "0")`. */
  function HexByte(b: byte): (r: string)
    ensures |r| == 2 && IsLowerHex(r[0]) && IsLowerHex(r[1])
  {
    [HexDigit(b as int / 16), HexDigit(b as int % 16)]
  }

  /** `bytes.map(b => b.toString(16).padStart(2, "0")).join("")`. */
  function HexEncode(bytes: seq<byte>): (r: string)
    ensures |r| == 2 * |bytes|
    ensures forall i :: 0 <= i < |r| ==> IsLowerHex(r[i])
  {
    if bytes == [] then "" else HexByte(bytes[0]) + HexEncode(bytes[1..])
  }

  /** Reads two hex characters per byte; the inverse of `HexEncode`. */
  function HexDecode(s: string): (r: seq<byte>)
    ensures |r| == |s| / 2
  {
    if |s| < 2 then [] else [(16 * HexValue(s[0]) + HexValue(s[1])) as byte] + HexDecode(s[2..])
  }

  lemma {:induction false} HexDecodeEncode(bytes: seq<byte>)
    ensures HexDecode(HexEncode(bytes)) == bytes
  {
    if bytes != [] {
      var b := bytes[0];
      var s := HexEncode(bytes);
      assert s[..2] == HexByte(b) && s[2..] == HexEncode(bytes[1..]);
      assert HexValue(HexDigit(b as int / 16)) == b as int / 16;
      assert HexValue(HexDigit(b as int % 16)) == b as int % 16;
      HexDecodeEncode(bytes[1..]);
    }
  }

  /** Distinct digests have distinct hex encodings. */
  lemma HexEncodeInjective(a: seq<byte>, b: seq<byte>)
    ensures HexEncode(a) == HexEncode(b) <==> a == b
  {
    HexDecodeEncode(a);
    HexDecodeEncode(b);
  }

  /** `hashPin`: the hex encoding of the digest of the PIN. */
  function HashPin(digest: Digest, pin: string): (r: string)
    ensures |r| == 2 * |digest(pin)|
  {
    HexEncode(digest(pin))
  }

  // ---------------------------------------------------------------------
  // The effect of each operation on the storage

  /** The storage after `setupPin(pin)`: unchanged when the PIN is
      rejected, otherwise the hash and the flag are written. */
  function SetupPinEffect(s: Storage, digest: Digest, pin: string): (r: Storage)
    ensures !IsValidPin(pin) ==> r == s
    ensures IsValidPin(pin) ==> r.Keys == s.Keys + {PinStorageKey, PinEnabledKey}
                                && r[PinStorageKey] == HashPin(digest, pin)
                                && r[PinEnabledKey] == "true"
    ensures forall k :: k in s && k != PinStorageKey && k != PinEnabledKey ==> k in r && r[k] == s[k]
  {
    if IsValidPin(pin) then s[PinStorageKey := HashPin(digest, pin)][PinEnabledKey := "true"] else s
  }

  function SetupPinOutcome(pin: string): (r: Outcome)
    ensures r == Pass <==> IsValidPin(pin)
    ensures r.Fail? ==> r.message == PinFormatMessage
  {
    if IsValidPin(pin) then Pass else Fail(PinFormatMessage)
  }

  /** `verifyPin(pin)`: a non-empty hash is stored and equals the hash of
      the candidate. The enabled flag plays no part. */
  predicate VerifyPinResult(s: Storage, digest: Digest, pin: string) {
    PinStorageKey in s && s[PinStorageKey] != "" && HashPin(digest, pin) == s[PinStorageKey]
  }

  /** `isPinEnabled()`: the flag holds the exact string "true". */
  predicate PinEnabled(s: Storage) {
    PinEnabledKey in s && s[PinEnabledKey] == "true"
  }

  /** `getSessionBackup()`. */
  function SessionBackup(s: Storage): Option<string> {
    if SessionStorageKey in s then Some(s[SessionStorageKey]) else None
  }

  /** `hasStoredSession()`. */
  predicate StoredSession(s: Storage) {
    PinEnabled(s) && SessionStorageKey in s
  }

  /** The storage after `disablePin()`: the three records are removed. */
  function Cleared(s: Storage): (r: Storage)
    ensures PinStorageKey !in r && PinEnabledKey !in r && SessionStorageKey !in r
    ensures forall k :: k in s && k != PinStorageKey && k != PinEnabledKey && k != SessionStorageKey ==>
      k in r && r[k] == s[k]
    ensures r.Keys <= s.Keys
  {
    s - {PinStorageKey, PinEnabledKey, SessionStorageKey}
  }

  // ---------------------------------------------------------------------
  // The store

  class CredentialStore {
    /** The browser's `localStorage` for this origin. */
    var storage: Storage
    /** `crypto.subtle.digest("SHA-256", ...)` applied to the encoded PIN. */
    const digest: Digest

    constructor (digest: Digest, storage: Storage)
      ensures this.digest == digest && this.storage == storage
    {
      this.digest := digest;
      this.storage := storage;
    }

    method SetupPin(pin: string) returns (outcome: Outcome)
      modifies this
      ensures outcome == SetupPinOutcome(pin)
      ensures storage == SetupPinEffect(old(storage), digest, pin)
    {
      if |pin| != 4 || !IsDigits(pin) {
        return Fail(PinFormatMessage);
      }
      var hashedPin := HashPin(digest, pin);
      storage := storage[PinStorageKey := hashedPin];
      storage := storage[PinEnabledKey := "true"];
      outcome := Pass;
    }

    method VerifyPin(pin: string) returns (valid: bool)
      ensures valid == VerifyPinResult(storage, digest, pin)
    {
      if PinStorageKey !in storage || storage[PinStorageKey] == "" {
        return false;
      }
      var storedHash := storage[PinStorageKey];
      var hashedPin := HashPin(digest, pin);
      valid := hashedPin == storedHash;
    }

    method IsPinEnabled() returns (enabled: bool)
      ensures enabled == PinEnabled(storage)
    {
      enabled := PinEnabledKey in storage && storage[PinEnabledKey] == "true";
    }

    method DisablePin()
      modifies this
      ensures storage == Cleared(old(storage))
    {
      storage := storage - {PinStorageKey};
      storage := storage - {PinEnabledKey};
      storage := storage - {SessionStorageKey};
    }

    method HasStoredSession() returns (stored: bool)
      ensures stored <==> PinEnabled(storage) && SessionBackup(storage) != None
    {
      var enabled := IsPinEnabled();
      stored := enabled && SessionStorageKey in storage;
    }

    method StoreSessionBackup(sessionData: string)
      modifies this
      ensures storage == old(storage)[SessionStorageKey := sessionData]
    {
      storage := storage[SessionStorageKey := sessionData];
    }

    method GetSessionBackup() returns (backup: Option<string>)
      ensures backup.Some? <==> SessionStorageKey in storage
      ensures backup.Some? ==> backup.value == storage[SessionStorageKey]
    {
      if SessionStorageKey in storage {
        backup := Some(storage[SessionStorageKey]);
      } else {
        backup := None;
      }
    }
  }

  // ---------------------------------------------------------------------
  // Properties of the store

  /** After a PIN is set up, that PIN and no other 4-digit PIN verifies. */
  lemma SetupThenVerify(s: Storage, digest: Digest, p: string, q: string)
    requires DigestAssumptions(digest)
    requires IsValidPin(p) && IsValidPin(q)
    ensures VerifyPinResult(SetupPinEffect(s, digest, p), digest, q) <==> p == q
  {
    HexEncodeInjective(digest(p), digest(q));
  }

  /** Without a stored hash nothing verifies, whatever the flag says. */
  lemma VerifyNeedsStoredHash(s: Storage, digest: Digest, pin: string)
    requires PinStorageKey !in s
    ensures !VerifyPinResult(s, digest, pin)
    ensures !VerifyPinResult(s[PinEnabledKey := "true"], digest, pin)
  {
  }

  /** Verification looks only at the hash: the enabled flag and the
      session backup make no difference to it. */
  lemma VerifyIgnoresFlagAndBackup(s: Storage, digest: Digest, pin: string, v: string)
    ensures VerifyPinResult(s[PinEnabledKey := v], digest, pin) == VerifyPinResult(s, digest, pin)
    ensures VerifyPinResult(s - {PinEnabledKey}, digest, pin) == VerifyPinResult(s, digest, pin)
    ensures VerifyPinResult(s[SessionStorageKey := v], digest, pin) == VerifyPinResult(s, digest, pin)
  {
  }

  /** A successful setup enables the PIN and leaves the session backup as
      it was, so it stores a session exactly when a backup was already
      there. */
  lemma SetupEnablesAndKeepsBackup(s: Storage, digest: Digest, pin: string)
    requires IsValidPin(pin)
    ensures PinEnabled(SetupPinEffect(s, digest, pin))
    ensures SessionBackup(SetupPinEffect(s, digest, pin)) == SessionBackup(s)
    ensures StoredSession(SetupPinEffect(s, digest, pin)) <==> SessionBackup(s).Some?
  {
  }

  /** `disablePin` leaves none of the three records and nothing that
      verifies; doing it twice is doing it once. */
  lemma ClearedForgetsEverything(s: Storage, digest: Digest, pin: string)
    ensures !PinEnabled(Cleared(s)) && SessionBackup(Cleared(s)) == None
    ensures !StoredSession(Cleared(s)) && !VerifyPinResult(Cleared(s), digest, pin)
    ensures Cleared(Cleared(s)) == Cleared(s)
  {
  }

  /** `hasStoredSession` is the conjunction of its two inputs: each of the
      four combinations of flag and backup gives the expected answer. */
  lemma StoredSessionTruthTable(s: Storage, t: string)
    ensures StoredSession(s) <==> PinEnabled(s) && SessionBackup(s).Some?
    ensures StoredSession(s[PinEnabledKey := "true"][SessionStorageKey := t])
    ensures !StoredSession((s - {PinEnabledKey})[SessionStorageKey := t])
    ensures !StoredSession(s[PinEnabledKey := "true"] - {SessionStorageKey})
    ensures !StoredSession(s - {PinEnabledKey, SessionStorageKey})
  {
  }

  /** Storing a backup then reading it yields the token; the hash and the
      flag are untouched. */
  lemma BackupRoundTrip(s: Storage, t: string)
    ensures SessionBackup(s[SessionStorageKey := t]) == Some(t)
    ensures PinEnabled(s[SessionStorageKey := t]) == PinEnabled(s)
    ensures (PinStorageKey in s[SessionStorageKey := t]) == (PinStorageKey in s)
    ensures PinStorageKey in s ==> s[SessionStorageKey := t][PinStorageKey] == s[PinStorageKey]
  {
  }

  /** The record invariant: an enabled PIN always has a hash stored. */
  ghost predicate Consistent(s: Storage) {
    PinEnabled(s) ==> PinStorageKey in s && s[PinStorageKey] != ""
  }

  /** Every write of the store keeps the record invariant. */
  lemma ConsistentPreserved(s: Storage, digest: Digest, pin: string, t: string)
    requires DigestAssumptions(digest)
    requires Consistent(s)
    ensures Consistent(SetupPinEffect(s, digest, pin))
    ensures Consistent(Cleared(s))
    ensures Consistent(s[SessionStorageKey := t])
  {
    assert |digest(pin)| == 32;
  }

  /** The digest assumptions can be met: a digest that spells out the four
      digits and pads with zeros is 32 bytes long and injective on PINs. */
  lemma DigestAssumptionsSatisfiable()
    ensures exists d :: DigestAssumptions(d)
  {
    var d: Digest := s => if IsValidPin(s) then DigitBytes(s) + Zeros(28) else Zeros(32);
    forall p, q | IsValidPin(p) && IsValidPin(q) && d(p) == d(q)
      ensures p == q
    {
      assert DigitBytes(p) == d(p)[..4] == d(q)[..4] == DigitBytes(q);
      forall i | 0 <= i < 4 ensures p[i] == q[i] {
        assert DigitBytes(p)[i] == DigitBytes(q)[i];
      }
    }
    assert DigestAssumptions(d);
  }

  function DigitBytes(pin: string): (r: seq<byte>)
    requires IsValidPin(pin)
    ensures |r| == 4
    ensures forall i :: 0 <= i < 4 ==> r[i] as int == pin[i] as int - '0' as int
  {
    seq(4, i requires 0 <= i < 4 => (pin[i] as int - '0' as int) as byte)
  }

  function Zeros(n: nat): (r: seq<byte>)
    ensures |r| == n
  {
    seq(n, i => 0)
  }
}
