// Encrypted secret strings (vault.go and backend/account/crypto.go).
//
// A stored secret is a string over an alphabet of plain characters and of two
// symbolic chunks: the base64 text of a nonce and the base64 text of an AES-GCM
// ciphertext. A ciphertext remembers the key, nonce and plaintext it was sealed
// with, and opens under that key and nonce only.
module Vault {
  import opened Common

  type Key = nat

  datatype Sym =
    | Ch(c: char)
    | Nonce64(n: nat)
    | Cipher64(key: Key, nonce: nat, plain: seq<Sym>)

  type Text = seq<Sym>

  datatype VaultError = BadFormat | CannotOpen | NoSyncKey

  const ENC_PREFIX: Text := [Ch('e'), Ch('n'), Ch('c'), Ch(':')]
  const SYNC_PREFIX: Text := [Ch('s'), Ch('y'), Ch('n'), Ch('c'), Ch(':')]

  predicate HasPrefix(t: Text, prefix: Text) {
    prefix <= t
  }

  function TrimPrefix(t: Text, prefix: Text): Text {
    if HasPrefix(t, prefix) then t[|prefix|..] else t
  }

  // The index of the first ':', or the length when there is none.
  function ColonIndex(t: Text): (i: nat)
    ensures i <= |t|
    ensures i < |t| ==> t[i] == Ch(':')
    ensures forall j :: 0 <= j < i ==> t[j] != Ch(':')
  {
    if t == [] || t[0] == Ch(':') then 0 else 1 + ColonIndex(t[1..])
  }

  function EncryptField(key: Key, plain: Text, nonce: nat): Text {
    [Nonce64(nonce), Ch(':'), Cipher64(key, nonce, plain)]
  }

  function DecryptField(key: Key, encoded: Text): Result<Text, VaultError> {
    var i := ColonIndex(encoded);
    if i == |encoded| then Err(BadFormat)
    else
      var nonce, ct := encoded[..i], encoded[i + 1..];
      if |nonce| != 1 || !nonce[0].Nonce64? || |ct| != 1 || !ct[0].Cipher64? then Err(BadFormat)
      else if ct[0].key != key || ct[0].nonce != nonce[0].n then Err(CannotOpen)
      else Ok(ct[0].plain)
  }

  // Text that base64 decoding accepts: nothing, or one symbolic chunk.
  predicate Decodes(t: Text) {
    t == [] || (|t| == 1 && !t[0].Ch?)
  }

  predicate LooksLikeEncryptedField(t: Text) {
    var i := ColonIndex(t);
    i < |t| && i == 1 && t[0].Nonce64? && Decodes(t[i + 1..])
  }

  function EncryptForSync(plain: Text, syncKey: Key, nonce: nat): Text {
    SYNC_PREFIX + EncryptField(syncKey, plain, nonce)
  }

  predicate IsSyncEncrypted(t: Text) {
    HasPrefix(t, SYNC_PREFIX)
  }

  // The plaintext under the first candidate that opens the chunk; absent keys
  // are skipped and the last failure is reported.
  function FirstOpening(inner: Text, keys: seq<Option<Key>>, lastErr: VaultError): Result<Text, VaultError> {
    if keys == [] then Err(lastErr)
    else if keys[0].None? then FirstOpening(inner, keys[1..], lastErr)
    else match DecryptField(keys[0].value, inner)
      case Ok(plain) => Ok(plain)
      case Err(e) => FirstOpening(inner, keys[1..], e)
  }

  function DecryptFromSync(encoded: Text, keys: seq<Option<Key>>): Result<Text, VaultError> {
    FirstOpening(TrimPrefix(encoded, SYNC_PREFIX), keys, NoSyncKey)
  }

  method DecryptFromSyncLoop(encoded: Text, keys: seq<Option<Key>>) returns (r: Result<Text, VaultError>)
    ensures r == DecryptFromSync(encoded, keys)
  {
    var inner := TrimPrefix(encoded, SYNC_PREFIX);
    var lastErr := NoSyncKey;
    var i := 0;
    while i < |keys|
      invariant 0 <= i <= |keys|
      invariant FirstOpening(inner, keys[i..], lastErr) == DecryptFromSync(encoded, keys)
    {
      if keys[i].Some? {
        var attempt := DecryptField(keys[i].value, inner);
        if attempt.Ok? {
          return attempt;
        }
        lastErr := attempt.error;
      }
      i := i + 1;
    }
    r := Err(lastErr);
  }

  function EncryptConnectionPassword(plain: Text, key: Key, nonce: nat): Text {
    if plain == [] then [] else ENC_PREFIX + EncryptField(key, plain, nonce)
  }

  function DecryptConnectionPassword(stored: Text, key: Key): Result<Text, VaultError> {
    if stored == [] then Ok([])
    else if HasPrefix(stored, ENC_PREFIX) then DecryptField(key, TrimPrefix(stored, ENC_PREFIX))
    else if LooksLikeEncryptedField(stored) then DecryptField(key, stored)
    else Ok(stored)
  }

  /****** What the format guarantees ******/

  lemma FieldRoundTrip(key: Key, plain: Text, nonce: nat, other: Key)
    ensures DecryptField(other, EncryptField(key, plain, nonce))
         == if other == key then Ok(plain) else Err(CannotOpen)
  {
    var t := EncryptField(key, plain, nonce);
    assert ColonIndex(t) == 1 by {
      assert ColonIndex(t) != 0 && t[1] == Ch(':');
    }
  }

  // Every value the vault prints reads back under the same key, the empty
  // secret included; no other key opens a non-empty one.
  lemma VaultRoundTrip(plain: Text, key: Key, nonce: nat, other: Key)
    ensures DecryptConnectionPassword(EncryptConnectionPassword(plain, key, nonce), other)
         == if plain == [] || other == key then Ok(plain) else Err(CannotOpen)
    ensures !IsSyncEncrypted(EncryptConnectionPassword(plain, key, nonce))
  {
    if plain != [] {
      var field := EncryptField(key, plain, nonce);
      var t := ENC_PREFIX + field;
      assert t[0] == Ch('e');
      assert TrimPrefix(t, ENC_PREFIX) == field;
      FieldRoundTrip(key, plain, nonce, other);
    }
  }

  /****** Forms ******/

  predicate Plain(t: Text) {
    forall s :: s in t ==> s.Ch?
  }

  lemma ColonAfterNonce(nonce: nat, rest: Text)
    ensures ColonIndex([Nonce64(nonce), Ch(':')] + rest) == 1
  {
    var t := [Nonce64(nonce), Ch(':')] + rest;
    assert t[0] == Nonce64(nonce) && t[1] == Ch(':');
    assert ColonIndex(t) != 0;
  }

  // Vault values begin with "enc:", sync values with "sync:", and after that comes
  // the nonce, a colon and the ciphertext.
  lemma PrintedForms(plain: Text, key: Key, nonce: nat)
    ensures plain != [] ==>
              EncryptConnectionPassword(plain, key, nonce)
              == [Ch('e'), Ch('n'), Ch('c'), Ch(':'), Nonce64(nonce), Ch(':'), Cipher64(key, nonce, plain)]
    ensures EncryptForSync(plain, key, nonce)
         == [Ch('s'), Ch('y'), Ch('n'), Ch('c'), Ch(':'), Nonce64(nonce), Ch(':'), Cipher64(key, nonce, plain)]
  {}

  // Values from before the prefix: a bare ciphertext opens under its key, and plain
  // text is itself, whatever the key. Anything else after a nonce is damaged.
  lemma OlderForms(plain: Text, key: Key, nonce: nat, other: Key, t: Text)
    ensures DecryptConnectionPassword(EncryptField(key, plain, nonce), other)
         == if other == key then Ok(plain) else Err(CannotOpen)
    ensures Plain(t) && !HasPrefix(t, [Ch('e'), Ch('n'), Ch('c'), Ch(':')])
            ==> DecryptConnectionPassword(t, key) == Ok(t)
    ensures DecryptConnectionPassword([Nonce64(nonce), Ch(':')], key) == Err(BadFormat)
  {
    var field := EncryptField(key, plain, nonce);
    ColonAfterNonce(nonce, [Cipher64(key, nonce, plain)]);
    assert field == [Nonce64(nonce), Ch(':')] + [Cipher64(key, nonce, plain)];
    assert field[2..] == [Cipher64(key, nonce, plain)] && field[0] == Nonce64(nonce);
    FieldRoundTrip(key, plain, nonce, other);
    if Plain(t) && t != [] {
      assert t[0] in t;
    }
    var cut := [Nonce64(nonce), Ch(':')];
    ColonAfterNonce(nonce, []);
    assert cut == cut + [] && cut[2..] == [] && cut[0] == Nonce64(nonce);
  }

  // A sync secret opens exactly when its key is among the candidates, at any
  // position, and then to what was sealed.
  lemma {:induction false} SyncRoundTrip(plain: Text, key: Key, nonce: nat, keys: seq<Option<Key>>)
    ensures IsSyncEncrypted(EncryptForSync(plain, key, nonce))
    ensures Some(key) in keys ==> DecryptFromSync(EncryptForSync(plain, key, nonce), keys) == Ok(plain)
    ensures Some(key) !in keys ==> DecryptFromSync(EncryptForSync(plain, key, nonce), keys).Err?
  {
    var field := EncryptField(key, plain, nonce);
    assert TrimPrefix(EncryptForSync(plain, key, nonce), SYNC_PREFIX) == field;
    OpeningByKey(plain, key, nonce, keys, NoSyncKey);
  }

  lemma {:induction false} OpeningByKey(plain: Text, key: Key, nonce: nat, keys: seq<Option<Key>>, lastErr: VaultError)
    ensures Some(key) in keys ==> FirstOpening(EncryptField(key, plain, nonce), keys, lastErr) == Ok(plain)
    ensures Some(key) !in keys ==> FirstOpening(EncryptField(key, plain, nonce), keys, lastErr).Err?
    decreases |keys|
  {
    if keys != [] {
      assert keys == [keys[0]] + keys[1..];
      if keys[0].None? {
        OpeningByKey(plain, key, nonce, keys[1..], lastErr);
      } else {
        FieldRoundTrip(key, plain, nonce, keys[0].value);
        OpeningByKey(plain, key, nonce, keys[1..], CannotOpen);
      }
    }
  }

  lemma SingleKey(inner: Text, key: Key)
    ensures FirstOpening(inner, [Some(key)], NoSyncKey) == DecryptField(key, inner)
  {}

  // Whatever opens was sealed under one key, so the outcome does not depend on
  // which candidate list containing that key is tried.
  lemma {:induction false} OpeningIsUnique(inner: Text, key: Key, keys: seq<Option<Key>>, lastErr: VaultError)
    requires DecryptField(key, inner).Ok?
    ensures Some(key) in keys ==> FirstOpening(inner, keys, lastErr) == DecryptField(key, inner)
    decreases |keys|
  {
    if keys != [] {
      assert keys == [keys[0]] + keys[1..];
      if keys[0].None? {
        OpeningIsUnique(inner, key, keys[1..], lastErr);
      } else if DecryptField(keys[0].value, inner).Err? {
        OpeningIsUnique(inner, key, keys[1..], DecryptField(keys[0].value, inner).error);
      }
    }
  }
}
