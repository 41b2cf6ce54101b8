// The hash of a connection is the same on every device of the account.
module HashStability {
  import opened Common
  import opened Vault
  import opened Models
  import opened Storage
  import opened Envelope

  /****** Forms a record takes ******/

  predicate TunnelForm(id: string, ts: seq<TunnelInfo>) {
    SortedByPort(ts) && forall t :: t in ts ==> t.id != "" && t.connectionID == id && !t.active
  }

  // A row as the database reads it back.
  predicate RowForm(r: Connection) {
    && r.syncSecretsHash == NoDigest && !r.passwordPending && r.id != ""
    && r.protocol != "" && ValidProtocol(r) && r.sshEnabled.Some?
    && r.tunnels.Some? && TunnelForm(r.id, r.tunnels.value)
  }

  lemma KeptTunnels(id: string, ts: seq<TunnelInfo>, uuid: (string, nat) -> string)
    requires TunnelForm(id, ts)
    ensures StoredTunnels(id, ts, uuid) == ts
  {
    assert seq(|ts|, i requires 0 <= i < |ts| =>
      ts[i].(id := if ts[i].id == "" then uuid(id, i) else ts[i].id, connectionID := id, active := false)) == ts;
    SortedIsFixed(ts);
  }

  // Writing a row back as it was read changes nothing.
  lemma WrittenBack(r: Connection, uuid: (string, nat) -> string)
    requires RowForm(r)
    ensures StoredRow(Some(r), r, uuid) == r
  {
    KeptTunnels(r.id, r.tunnels.value, uuid);
  }

  // Leaving VNC, RDP and tunnels out of a record keeps the stored ones: it is the
  // same as sending them back as they were read.
  lemma LeftOutIsKept(was: Connection, c: Connection, uuid: (string, nat) -> string)
    requires RowForm(was) && c.id == was.id
    ensures StoredRow(Some(was), c.(vnc := None, rdp := None, tunnels := None), uuid)
         == StoredRow(Some(was), c.(vnc := was.vnc, rdp := was.rdp, tunnels := was.tunnels), uuid)
  {
    KeptTunnels(was.id, was.tunnels.value, uuid);
  }

  // An upsert leaves a row in good form over any row that was.
  lemma StoredForm(was: Option<Connection>, c: Connection, uuid: (string, nat) -> string)
    requires c.id != "" && ValidProtocol(c) && (was.Some? ==> RowForm(was.value) && was.value.id == c.id)
    requires forall i :: uuid(c.id, i) != ""
    ensures RowForm(StoredRow(was, c, uuid))
  {
    if c.tunnels.Some? {
      var ts := c.tunnels.value;
      var filled := seq(|ts|, i requires 0 <= i < |ts| =>
        ts[i].(id := if ts[i].id == "" then uuid(c.id, i) else ts[i].id, connectionID := c.id, active := false));
      SortIsOrdered(filled);
      forall t | t in StoredTunnels(c.id, ts, uuid) ensures t.id != "" && t.connectionID == c.id && !t.active {
        assert t in multiset(SortByPort(filled));
        assert t in multiset(filled);
      }
    }
  }

  // Every secret of the row opens on this device; none waits for another key.
  predicate Opens(r: Connection, localKey: Key, syncKey: Key) {
    var opens := OpenFields(Secrets(Normalised(r)), localKey, syncKey);
    opens.Ok? && forall o :: o in opens.value ==> !o.pending
  }

  function Plaintexts(r: Connection, localKey: Key, syncKey: Key): seq<Secret>
    requires Opens(r, localKey, syncKey)
  {
    var opens := OpenFields(Secrets(Normalised(r)), localKey, syncKey).value;
    seq(|opens|, i requires 0 <= i < |opens| => opens[i].plain)
  }

  // A field as it travels: missing, empty, or sealed under the sync key.
  predicate WireSecret(s: Secret, syncKey: Key) {
    s.Some? && s.value != [] ==> IsSyncEncrypted(s.value) && DecryptFromSync(s.value, [Some(syncKey)]).Ok?
  }

  function WirePlain(s: Secret, syncKey: Key): Secret
    requires WireSecret(s, syncKey)
  {
    if s.None? || s.value == [] then None else Some(DecryptFromSync(s.value, [Some(syncKey)]).value)
  }

  // A connection as an up-to-date device uploads it.
  predicate WireForm(c: Connection, syncKey: Key) {
    && !c.passwordPending && c.id != ""
    && c.protocol != "" && ValidProtocol(c) && c.sshEnabled.Some? && c.vnc.Some? && c.rdp.Some?
    && c.tunnels.Some? && TunnelForm(c.id, c.tunnels.value)
    && (forall i :: 0 <= i < 4 ==> WireSecret(Secrets(c)[i], syncKey))
    && c.syncSecretsHash
       == Digest(syncKey, seq(4, i requires 0 <= i < 4 => WirePlain(Secrets(c)[i], syncKey)), None)
  }

  // The hash SyncNow computes for a stored row.
  function RowHash(r: Connection, localKey: Key, syncKey: Key): Connection {
    var opens := OpenFields(Secrets(Normalised(r)), localKey, syncKey);
    ConnectionHash(Normalised(r)).(syncSecretsHash :=
      if opens.Ok? then DigestOf(opens.value, syncKey) else NoDigest)
  }

  // The hash never sees a nonce.
  lemma PreparedHash(r: Connection, localKey: Key, syncKey: Key, e: Entropy)
    requires PrepareConnection(r, localKey, syncKey, e).Ok?
    ensures ConnectionHash(PrepareConnection(r, localKey, syncKey, e).value) == RowHash(r, localKey, syncKey)
  {
  }

  /****** One secret ******/

  // Sealing for upload keeps the plaintext, whatever form the field had.
  lemma SealedSecret(s: Secret, localKey: Key, syncKey: Key, nonce: nat)
    requires OpenField(s, localKey, syncKey).Ok? && !OpenField(s, localKey, syncKey).value.pending
    ensures var wire := ReencryptSecretForSync(s, localKey, syncKey, nonce);
            wire.Ok? && WireSecret(wire.value, syncKey)
            && WirePlain(wire.value, syncKey) == OpenField(s, localKey, syncKey).value.plain
  {
    if s.Some? && s.value != [] && !IsSyncEncrypted(s.value) {
      var plain := DecryptConnectionPassword(s.value, localKey).value;
      SyncRoundTrip(plain, syncKey, nonce, [Some(syncKey)]);
    }
  }

  // A candidate list holding the sync key at any position opens the field to
  // the same plaintext as the sync key alone.
  lemma AnyPosition(s: Text, syncKey: Key, keys: seq<Option<Key>>)
    requires DecryptFromSync(s, [Some(syncKey)]).Ok? && Some(syncKey) in keys
    ensures DecryptFromSync(s, keys) == DecryptFromSync(s, [Some(syncKey)])
  {
    var inner := TrimPrefix(s, SYNC_PREFIX);
    SingleKey(inner, syncKey);
    OpeningIsUnique(inner, syncKey, keys, NoSyncKey);
  }

  // A secret sent by one device reads back on another with the same plaintext,
  // for every candidate list that holds the sync key; without the key it is
  // kept untouched.
  lemma SecretTransport(s: Secret, localKey: Key, syncKey: Key, nonce: nat,
                        otherKey: Key, keys: seq<Option<Key>>, otherNonce: nat)
    requires s.Some? && s.value != [] && !IsSyncEncrypted(s.value)
    requires DecryptConnectionPassword(s.value, localKey).Ok?
    ensures var plain := DecryptConnectionPassword(s.value, localKey).value;
            var wire := ReencryptSecretForSync(s, localKey, syncKey, nonce).value;
            var stored := TranslateSyncSecret(wire, otherKey, keys, otherNonce);
            if Some(syncKey) in keys
            then stored.Some? && DecryptConnectionPassword(stored.value, otherKey) == Ok(plain)
            else stored == wire
  {
    var plain := DecryptConnectionPassword(s.value, localKey).value;
    SyncRoundTrip(plain, syncKey, nonce, keys);
    VaultRoundTrip(plain, otherKey, otherNonce, otherKey);
  }

  // What a translated field contributes to the digest on its new device: the
  // same plaintext, except that an empty one disappears.
  lemma TranslatedSecret(s: Secret, syncKey: Key, localKey: Key, keys: seq<Option<Key>>, nonce: nat)
    requires WireSecret(s, syncKey) && Some(syncKey) in keys
    ensures var plain := WirePlain(s, syncKey);
            OpenField(TranslateSyncSecret(s, localKey, keys, nonce), localKey, syncKey)
            == Ok(Opening(if plain == Some([]) then None else plain, false))
  {
    if s.Some? && s.value != [] {
      AnyPosition(s.value, syncKey, keys);
      VaultRoundTrip(WirePlain(s, syncKey).value, localKey, nonce, localKey);
    }
  }

  /****** One connection ******/

  lemma PreparedIsWire(r: Connection, localKey: Key, syncKey: Key, e: Entropy)
    requires RowForm(r) && Opens(r, localKey, syncKey)
    ensures PrepareConnection(r, localKey, syncKey, e).Ok?
    ensures var c := PrepareConnection(r, localKey, syncKey, e).value;
            WireForm(c, syncKey) && c.id == r.id
            && c.syncSecretsHash == Digest(syncKey, Plaintexts(r, localKey, syncKey), None)
  {
    var n := Normalised(r);
    var opens := OpenFields(Secrets(n), localKey, syncKey).value;
    var c := PrepareConnection(r, localKey, syncKey, e).value;
    var secrets := Sealed(Secrets(n), localKey, syncKey, i => e.nonce(r.id, i));
    assert Secrets(c) == secrets;
    forall i | 0 <= i < 4
      ensures WireSecret(secrets[i], syncKey) && WirePlain(secrets[i], syncKey) == opens[i].plain
    {
      assert opens[i] in opens;
      SealedSecret(Secrets(n)[i], localKey, syncKey, e.nonce(r.id, i));
    }
    assert Plaintexts(r, localKey, syncKey)
        == seq(4, i requires 0 <= i < 4 => WirePlain(Secrets(c)[i], syncKey));
  }

  function Kept(plains: seq<Secret>): seq<Secret> {
    seq(|plains|, i requires 0 <= i < |plains| => if plains[i] == Some([]) then None else plains[i])
  }

  // Storing a downloaded connection gives a row in good form whose hash differs
  // from the wire hash only in the plaintexts that were empty.
  lemma StoredWire(c: Connection, was: Option<Connection>, syncKey: Key, localKey: Key, keys: seq<Option<Key>>,
                   e: Entropy)
    requires WireForm(c, syncKey) && Some(syncKey) in keys
    ensures var r := StoredRow(was, TranslateConnection(c, localKey, keys, e), e.uuid);
            && RowForm(r) && Opens(r, localKey, syncKey) && r.id == c.id
            && Plaintexts(r, localKey, syncKey) == Kept(c.syncSecretsHash.secrets)
            && RowHash(r, localKey, syncKey)
               == ConnectionHash(c).(syncSecretsHash := Digest(syncKey, Kept(c.syncSecretsHash.secrets), None))
  {
    var t := TranslateConnection(c, localKey, keys, e);
    var r := StoredRow(was, t, e.uuid);
    KeptTunnels(c.id, c.tunnels.value, e.uuid);
    assert Normalised(r) == r;
    var secrets := Secrets(c);
    assert Secrets(r)
        == seq(4, i requires 0 <= i < 4 => TranslateSyncSecret(secrets[i], localKey, keys, e.nonce(c.id, i)));
    forall i | 0 <= i < 4
      ensures OpenField(Secrets(r)[i], localKey, syncKey)
           == Ok(Opening(Kept(c.syncSecretsHash.secrets)[i], false))
    {
      TranslatedSecret(secrets[i], syncKey, localKey, keys, e.nonce(c.id, i));
    }
    var opens := OpenFields(Secrets(r), localKey, syncKey).value;
    assert forall i :: 0 <= i < 4 ==> opens[i] == Opening(Kept(c.syncSecretsHash.secrets)[i], false);
    assert DigestOf(opens, syncKey).secrets == Kept(c.syncSecretsHash.secrets);
  }

  // No secret is sealed around the empty string.
  predicate NoEmptySecret(plains: seq<Secret>) {
    Some([]) !in plains
  }

  // Prepared on one device, stored on another under any vault key, nonces and
  // previous row, and prepared again there: the hash is the same if and only
  // if no secret of the connection encrypts the empty string.
  lemma HashStableAcrossDevices(r: Connection, keyA: Key, keyB: Key, syncKey: Key, keys: seq<Option<Key>>,
                                was: Option<Connection>, eA: Entropy, eB: Entropy, eC: Entropy)
    requires RowForm(r) && Opens(r, keyA, syncKey) && Some(syncKey) in keys
    ensures var sent := PrepareConnection(r, keyA, syncKey, eA);
            sent.Ok? &&
            var there := StoredRow(was, TranslateConnection(sent.value, keyB, keys, eB), eB.uuid);
            var again := PrepareConnection(there, keyB, syncKey, eC);
            again.Ok?
            && (ConnectionHash(again.value) == ConnectionHash(sent.value)
                <==> NoEmptySecret(Plaintexts(r, keyA, syncKey)))
  {
    PreparedIsWire(r, keyA, syncKey, eA);
    var sent := PrepareConnection(r, keyA, syncKey, eA).value;
    StoredWire(sent, was, syncKey, keyB, keys, eB);
    var there := StoredRow(was, TranslateConnection(sent, keyB, keys, eB), eB.uuid);
    PreparedIsWire(there, keyB, syncKey, eC);
    PreparedHash(there, keyB, syncKey, eC);
    var plains := Plaintexts(r, keyA, syncKey);
    KeptIffNonEmpty(plains);
    var again := PrepareConnection(there, keyB, syncKey, eC).value;
    DigestDecides(ConnectionHash(sent), ConnectionHash(again), syncKey, plains, Kept(plains));
  }

  lemma KeptIffNonEmpty(plains: seq<Secret>)
    ensures Kept(plains) == plains <==> NoEmptySecret(plains)
  {}

  lemma DigestDecides(a: Connection, b: Connection, key: Key, x: seq<Secret>, y: seq<Secret>)
    requires a.syncSecretsHash == Digest(key, x, None)
    requires b == a.(syncSecretsHash := Digest(key, y, None))
    ensures b == a <==> y == x
  {}

  // A row whose password seals the empty string.
  function EmptySecretRow(key: Key): Connection {
    Connection(NoDigest, "c", "ssh", Some(true), None, None, None, Some(ENC_PREFIX + EncryptField(key, [], 0)), None,
        false,
               Some([]), Details("", "", 22, "", "", None, None, None, None, false))
  }

  // Its hash does not survive the trip.
  lemma EmptySecretChangesHash(keyA: Key, keyB: Key, syncKey: Key, keys: seq<Option<Key>>,
                               was: Option<Connection>, eA: Entropy, eB: Entropy, eC: Entropy)
    requires Some(syncKey) in keys
    ensures var sent := PrepareConnection(EmptySecretRow(keyA), keyA, syncKey, eA);
            sent.Ok? &&
            var there := StoredRow(was, TranslateConnection(sent.value, keyB, keys, eB), eB.uuid);
            var again := PrepareConnection(there, keyB, syncKey, eC);
            again.Ok? && ConnectionHash(again.value) != ConnectionHash(sent.value)
  {
    EmptySecretOpens(keyA, syncKey);
    HashStableAcrossDevices(EmptySecretRow(keyA), keyA, keyB, syncKey, keys, was, eA, eB, eC);
  }

  lemma EmptySecretOpens(key: Key, syncKey: Key)
    ensures var r := EmptySecretRow(key);
            RowForm(r) && Opens(r, key, syncKey) && !NoEmptySecret(Plaintexts(r, key, syncKey))
  {
    var r := EmptySecretRow(key);
    var secrets := Secrets(Normalised(r));
    var sealed := r.password.value;
    assert secrets == [Some(sealed), None, None, None];
    assert TrimPrefix(sealed, ENC_PREFIX) == EncryptField(key, [], 0);
    FieldRoundTrip(key, [], 0, key);
    assert OpenField(secrets[0], key, syncKey) == Ok(Opening(Some([]), false));
    OpensAll(secrets, key, syncKey);
    assert Plaintexts(r, key, syncKey)[0] == Some([]);
  }

  lemma OpensAll(secrets: seq<Secret>, key: Key, syncKey: Key)
    requires forall s :: s in secrets ==> OpenField(s, key, syncKey).Ok? && !OpenField(s, key, syncKey).value.pending
    ensures OpenFields(secrets, key, syncKey).Ok?
    ensures forall o :: o in OpenFields(secrets, key, syncKey).value ==> !o.pending
  {
    var opens := OpenFields(secrets, key, syncKey);
    assert forall i :: 0 <= i < |secrets| ==> OpenField(secrets[i], key, syncKey).Ok?;
    if opens.Ok? {
      forall o | o in opens.value ensures !o.pending {
        var i :| 0 <= i < |opens.value| && opens.value[i] == o;
        assert secrets[i] in secrets;
      }
    }
  }
}
