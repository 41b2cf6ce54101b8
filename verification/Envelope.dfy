// Preparing connections for upload and translating downloaded ones
// (app_account.go): every secret moves between the local vault key and the
// account-wide sync key, and the hash must not notice.
module Envelope {
  import opened Common
  import opened Vault
  import opened Models
  import opened Storage

  // Randomness: nonces by connection id and field, ids for unnamed tunnels.
  datatype Entropy = Entropy(nonce: (string, nat) -> nat, uuid: (string, nat) -> string)

  type Secret = Option<Text>

  /****** Secret fields ******/

  // Password, passphrase, then the VNC and RDP passwords when configured.
  function Secrets(c: Connection): seq<Secret> {
    [c.password, c.passphrase]
    + (if c.vnc.Some? then [c.vnc.value.password] else [])
    + (if c.rdp.Some? then [c.rdp.value.password] else [])
  }

  function WithSecrets(c: Connection, s: seq<Secret>): Connection
    requires |s| == |Secrets(c)|
  {
    c.(password := s[0], passphrase := s[1],
       vnc := if c.vnc.Some? then Some(c.vnc.value.(password := s[2])) else None,
       rdp := if c.rdp.Some? then Some(c.rdp.value.(password := s[|s| - 1])) else None)
  }

  function ReencryptSecretForSync(secret: Secret, localKey: Key, syncKey: Key, nonce: nat): Result<Secret, VaultError> {
    if secret.None? || secret.value == [] then Ok(secret)
    else if IsSyncEncrypted(secret.value) then Ok(secret)
    else match DecryptConnectionPassword(secret.value, localKey)
      case Ok(plain) => Ok(Some(EncryptForSync(plain, syncKey, nonce)))
      case Err(e) => Err(e)
  }

  function TranslateSyncSecret(secret: Secret, localKey: Key, keys: seq<Option<Key>>, nonce: nat): Secret {
    if secret.None? || secret.value == [] then secret
    else if !IsSyncEncrypted(secret.value) then secret
    else match DecryptFromSync(secret.value, keys)
      case Ok(plain) => Some(EncryptConnectionPassword(plain, localKey, nonce))
      case Err(_) => secret
  }

  // The plaintext a field contributes to the digest: absent for a missing or
  // empty field; the envelope itself, marked pending, when it does not open.
  datatype Opening = Opening(plain: Secret, pending: bool)

  function OpenField(secret: Secret, localKey: Key, syncKey: Key): Result<Opening, VaultError> {
    if secret.None? || secret.value == [] then Ok(Opening(None, false))
    else if IsSyncEncrypted(secret.value) then
      match DecryptFromSync(secret.value, [Some(syncKey)])
      case Ok(plain) => Ok(Opening(Some(plain), false))
      case Err(_) => Ok(Opening(secret, true))
    else match DecryptConnectionPassword(secret.value, localKey)
      case Ok(plain) => Ok(Opening(Some(plain), false))
      case Err(e) => Err(e)
  }

  function OpenFields(secrets: seq<Secret>, localKey: Key, syncKey: Key): (r: Result<seq<Opening>, VaultError>)
    ensures r.Ok? ==> |r.value| == |secrets|
                      && forall i :: 0 <= i < |secrets| ==> OpenField(secrets[i], localKey, syncKey) == Ok(r.value[i])
    ensures r.Err? ==> exists i :: 0 <= i < |secrets| && OpenField(secrets[i], localKey, syncKey).Err?
  {
    if secrets == [] then Ok([])
    else
      var last := |secrets| - 1;
      match OpenFields(secrets[..last], localKey, syncKey)
      case Err(e) => Err(e)
      case Ok(before) =>
        match OpenField(secrets[last], localKey, syncKey)
        case Err(e) => Err(e)
        case Ok(o) => Ok(before + [o])
  }

  function DigestOf(opens: seq<Opening>, syncKey: Key): SecretsDigest {
    var plains := seq(|opens|, i requires 0 <= i < |opens| => opens[i].plain);
    var pending := seq(|opens|, i requires 0 <= i < |opens| => opens[i].pending);
    Digest(syncKey, plains, if true in pending then Some(pending) else None)
  }

  /****** Preparing and translating a connection ******/

  // Explicit access switches let storage clear accesses removed remotely.
  function Normalised(c: Connection): Connection {
    c.(sshEnabled := Some(HasSSH(c)),
       vnc := if c.vnc.Some? then c.vnc else Some(EMPTY_VNC),
       rdp := if c.rdp.Some? then c.rdp else Some(EMPTY_RDP))
  }

  function Sealed(secrets: seq<Secret>, localKey: Key, syncKey: Key, nonce: nat -> nat): seq<Secret>
    requires OpenFields(secrets, localKey, syncKey).Ok?
  {
    seq(|secrets|, i requires 0 <= i < |secrets| =>
      assert OpenField(secrets[i], localKey, syncKey).Ok?;
      ReencryptSecretForSync(secrets[i], localKey, syncKey, nonce(i)).value)
  }

  function PrepareConnection(c: Connection, localKey: Key, syncKey: Key, e: Entropy): Result<Connection, VaultError> {
    var n := Normalised(c);
    match OpenFields(Secrets(n), localKey, syncKey)
    case Err(err) => Err(err)
    case Ok(opens) =>
      var secrets := Sealed(Secrets(n), localKey, syncKey, i => e.nonce(c.id, i));
      Ok(WithSecrets(n, secrets).(syncSecretsHash := DigestOf(opens, syncKey)))
  }

  function TranslateConnection(c: Connection, localKey: Key, keys: seq<Option<Key>>, e: Entropy): Connection {
    var s := Secrets(c);
    WithSecrets(c, seq(|s|, i requires 0 <= i < |s| => TranslateSyncSecret(s[i], localKey, keys, e.nonce(c.id, i))))
  }

  // What older and partial records mean: no protocol is SSH, SSH is on when the
  // switch is or when there is none and the protocol is SSH, and a record without
  // VNC or RDP is uploaded with that access switched off and empty.
  lemma MissingMeans(c: Connection)
    ensures c.protocol == "" ==> ConnectionProtocol(c) == "ssh" && ValidProtocol(c)
    ensures c.protocol != "" ==> ConnectionProtocol(c) == c.protocol
    ensures ValidProtocol(c) <==> c.protocol in {"", "ssh", "vnc", "rdp", "novnc"}
    ensures Normalised(c).sshEnabled
         == match c.sshEnabled
            case Some(on) => Some(on)
            case None => Some(c.protocol == "" || c.protocol == "ssh")
    ensures c.vnc.Some? ==> Normalised(c).vnc == c.vnc
    ensures c.rdp.Some? ==> Normalised(c).rdp == c.rdp
    ensures c.vnc.None? ==>
              && Normalised(c).vnc.Some? && Normalised(c).vnc.value.password.None?
              && Normalised(c).vnc.value.settings == VNCSettings(None, false, 0, "", VNCReuse(false, false))
    ensures c.rdp.None? ==>
              && Normalised(c).rdp.Some? && Normalised(c).rdp.value.password.None?
              && Normalised(c).rdp.value.settings
                 == RDPSettings(false, false, false, "", 0, "", "", VNCReuse(false, false), "")
    ensures var n := Normalised(c); n == c.(sshEnabled := n.sshEnabled, vnc := n.vnc, rdp := n.rdp)
  {}

  // Every field sealed for upload carries the nonce drawn for it.
  lemma SealedUnderOwnNonce(c: Connection, localKey: Key, syncKey: Key, e: Entropy, i: nat)
    requires PrepareConnection(c, localKey, syncKey, e).Ok? && i < |Secrets(Normalised(c))|
    requires var s := Secrets(Normalised(c))[i]; s.Some? && s.value != [] && !IsSyncEncrypted(s.value)
    ensures var sealed := Secrets(PrepareConnection(c, localKey, syncKey, e).value);
            var plain := DecryptConnectionPassword(Secrets(Normalised(c))[i].value, localKey);
            i < |sealed| && plain.Ok? && sealed[i] == Some(EncryptForSync(plain.value, syncKey, e.nonce(c.id, i)))
  {
    var n := Normalised(c);
    var secrets := Sealed(Secrets(n), localKey, syncKey, k => e.nonce(c.id, k));
    SecretsWritten(n, secrets);
    var sealed := WithSecrets(n, secrets);
    assert Secrets(PrepareConnection(c, localKey, syncKey, e).value) == Secrets(sealed) == secrets;
    assert OpenField(Secrets(n)[i], localKey, syncKey).Ok?;
    assert secrets[i] == ReencryptSecretForSync(Secrets(n)[i], localKey, syncKey, e.nonce(c.id, i)).value;
    var s := Secrets(n)[i].value;
    assert DecryptConnectionPassword(s, localKey).Ok?;
    assert secrets[i] == Some(EncryptForSync(DecryptConnectionPassword(s, localKey).value, syncKey, e.nonce(c.id, i)));
  }

  // And so does every field sealed again for the local vault.
  lemma TranslatedUnderOwnNonce(c: Connection, localKey: Key, keys: seq<Option<Key>>, e: Entropy, i: nat)
    requires i < |Secrets(c)| && Secrets(c)[i].Some? && IsSyncEncrypted(Secrets(c)[i].value)
    requires DecryptFromSync(Secrets(c)[i].value, keys).Ok?
    ensures var translated := Secrets(TranslateConnection(c, localKey, keys, e));
            var plain := DecryptFromSync(Secrets(c)[i].value, keys).value;
            i < |translated| && translated[i] == Some(EncryptConnectionPassword(plain, localKey, e.nonce(c.id, i)))
  {
    var s := Secrets(c);
    SecretsWritten(c, seq(|s|, k requires 0 <= k < |s| => TranslateSyncSecret(s[k], localKey, keys, e.nonce(c.id, k))));
    assert s[i].value != [];
  }

  lemma SecretsWritten(c: Connection, s: seq<Secret>)
    requires |s| == |Secrets(c)|
    ensures Secrets(WithSecrets(c, s)) == s
  {}

  // A secret whose key is elsewhere travels as it is, and is marked so that it
  // cannot pass for a plaintext.
  lemma PendingTravels(secret: Text, localKey: Key, syncKey: Key, nonce: nat)
    requires IsSyncEncrypted(secret) && DecryptFromSync(secret, [Some(syncKey)]).Err?
    ensures ReencryptSecretForSync(Some(secret), localKey, syncKey, nonce) == Ok(Some(secret))
    ensures OpenField(Some(secret), localKey, syncKey) == Ok(Opening(Some(secret), true))
    ensures TranslateSyncSecret(Some(secret), localKey, [Some(syncKey)], nonce) == Some(secret)
  {
    assert secret != [];
  }

  // One secret field: its plaintext, or itself when it opens under no key here.
  method OpenSecret(field: Secret, localKey: Key, syncKey: Key) returns (r: Result<Opening, VaultError>)
    ensures r == OpenField(field, localKey, syncKey)
  {
    if field.None? || field.value == [] {
      return Ok(Opening(None, false));
    }
    if IsSyncEncrypted(field.value) {
      var value := DecryptFromSyncLoop(field.value, [Some(syncKey)]);
      return Ok(if value.Ok? then Opening(Some(value.value), false) else Opening(field, true));
    }
    var value := DecryptConnectionPassword(field.value, localKey);
    if value.Err? {
      return Err(value.error);
    }
    r := Ok(Opening(Some(value.value), false));
  }

  // The loop over a connection's secret fields.
  method PrepareFields(secrets: seq<Secret>, localKey: Key, syncKey: Key, nonce: nat -> nat)
    returns (r: Result<(seq<Secret>, SecretsDigest), VaultError>)
    ensures match OpenFields(secrets, localKey, syncKey)
            case Err(e) => r == Err(e)
            case Ok(opens) => r == Ok((Sealed(secrets, localKey, syncKey, nonce), DigestOf(opens, syncKey)))
  {
    var sealed: seq<Secret>, plains: seq<Secret>, pendings: seq<bool>, hasPending := [], [], [], false;
    ghost var opens: seq<Opening> := [];
    for i := 0 to |secrets|
      invariant |sealed| == |plains| == |pendings| == |opens| == i
      invariant OpenFields(secrets[..i], localKey, syncKey) == Ok(opens)
      invariant forall j :: 0 <= j < i ==> opens[j] == Opening(plains[j], pendings[j])
      invariant forall j :: 0 <= j < i ==>
        ReencryptSecretForSync(secrets[j], localKey, syncKey, nonce(j)) == Ok(sealed[j])
      invariant hasPending == (true in pendings)
    {
      assert secrets[..i + 1][..i] == secrets[..i];
      var field := secrets[i];
      var one := OpenSecret(field, localKey, syncKey);
      if one.Err? {
        FailedPrefix(secrets, i, localKey, syncKey);
        return Err(one.error);
      }
      plains, pendings, opens := plains + [one.value.plain], pendings + [one.value.pending], opens + [one.value];
      hasPending := hasPending || one.value.pending;
      var encrypted := ReencryptSecretForSync(field, localKey, syncKey, nonce(i));
      sealed := sealed + [encrypted.value];
    }
    assert secrets[..|secrets|] == secrets;
    assert plains == seq(|opens|, k requires 0 <= k < |opens| => opens[k].plain);
    assert pendings == seq(|opens|, k requires 0 <= k < |opens| => opens[k].pending);
    assert sealed == Sealed(secrets, localKey, syncKey, nonce);
    r := Ok((sealed, Digest(syncKey, plains, if hasPending then Some(pendings) else None)));
  }

  lemma {:induction false} FailedPrefix(secrets: seq<Secret>, i: nat, localKey: Key, syncKey: Key)
    requires i < |secrets| && OpenFields(secrets[..i], localKey, syncKey).Ok?
    requires OpenField(secrets[i], localKey, syncKey).Err?
    ensures OpenFields(secrets, localKey, syncKey) == Err(OpenField(secrets[i], localKey, syncKey).error)
    decreases |secrets|
  {
    var last := |secrets| - 1;
    if i < last {
      assert secrets[..last][..i] == secrets[..i];
      FailedPrefix(secrets[..last], i, localKey, syncKey);
    }
  }

  method Prepare(c: Connection, localKey: Key, syncKey: Key, e: Entropy) returns (r: Result<Connection, VaultError>)
    ensures r == PrepareConnection(c, localKey, syncKey, e)
  {
    var n := Normalised(c);
    var fields := PrepareFields(Secrets(n), localKey, syncKey, k => e.nonce(c.id, k));
    match fields
    case Err(err) => r := Err(err);
    case Ok((secrets, digest)) => r := Ok(WithSecrets(n, secrets).(syncSecretsHash := digest));
  }

  function Preparing(localKey: Key, syncKey: Key, e: Entropy): Connection -> Result<Connection, VaultError> {
    c => PrepareConnection(c, localKey, syncKey, e)
  }

  // Every connection prepared, or the failure of the first that is not.
  method ReencryptConnectionsForSync(connections: seq<Connection>, localKey: Key, syncKey: Key, e: Entropy)
    returns (r: Result<seq<Connection>, VaultError>)
    ensures r == Each(connections, Preparing(localKey, syncKey, e))
  {
    var result: seq<Connection> := [];
    hide PrepareConnection;
    ghost var prepare := Preparing(localKey, syncKey, e);
    for i := 0 to |connections|
      invariant Each(connections[..i], prepare) == Ok(result)
    {
      assert connections[..i + 1][..i] == connections[..i];
      var prepared := Prepare(connections[i], localKey, syncKey, e);
      assert prepare(connections[i]) == prepared;
      if prepared.Err? {
        EachFails(connections, prepare, i + 1);
        return Err(prepared.error);
      }
      result := result + [prepared.value];
    }
    assert connections[..|connections|] == connections;
    r := Ok(result);
  }
}
