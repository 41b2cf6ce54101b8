// Synced records (backend/models) and their hashes.
//
// A hash is modelled by the canonical record it digests: two hashes are equal
// exactly when the records are, once the ciphertext fields are erased.
module Models {
  import opened Common
  import opened Vault

  datatype VNCReuse = VNCReuse(user: bool, pass: bool)

  datatype NoVNCConfig = NoVNCConfig(enabled: bool, url: string)

  // Everything in an access configuration but its secret.
  datatype VNCSettings = VNCSettings(webSocket: Option<NoVNCConfig>, enabled: bool, port: int, username: string,
                                     reuse: VNCReuse)

  datatype VNCConfig = VNCConfig(settings: VNCSettings, password: Option<Text>)

  datatype RDPSettings = RDPSettings(allowUntrusted: bool, disableTLS: bool, enabled: bool, resolution: string,
                                     port: int,
                                     username: string, domain: string, reuse: VNCReuse, certificateFingerprint: string)

  datatype RDPConfig = RDPConfig(settings: RDPSettings, password: Option<Text>)

  datatype TunnelInfo = TunnelInfo(id: string, connectionID: string, localPort: int,
                                   remoteHost: string, remotePort: int, active: bool)

  // The keyed digest of the four plaintext secrets; `pending` is present when
  // some secret could not be opened.
  datatype SecretsDigest =
    | NoDigest
    | Digest(key: Key, secrets: seq<Option<Text>>, pending: Option<seq<bool>>)

  // Fields that synchronisation carries without looking at them.
  datatype Details = Details(name: string, host: string, port: int, username: string, authType: string,
                             privateKeyPath: Option<string>, color: Option<string>, jumpHostID: Option<string>,
                             sourceShareID: Option<string>, shareRevoked: bool)

  datatype Connection = Connection(
    syncSecretsHash: SecretsDigest, id: string, protocol: string, sshEnabled: Option<bool>,
    vnc: Option<VNCConfig>, rdp: Option<RDPConfig>, folderID: Option<string>,
    password: Option<Text>, passphrase: Option<Text>, passwordPending: bool,
    tunnels: Option<seq<TunnelInfo>>, details: Details)

  datatype Folder = Folder(id: string, name: string, parentID: Option<string>)

  const EMPTY_VNC := VNCConfig(VNCSettings(None, false, 0, "", VNCReuse(false, false)), None)
  const EMPTY_RDP := RDPConfig(RDPSettings(false, false, false, "", 0, "", "", VNCReuse(false, false), ""), None)

  function ConnectionProtocol(c: Connection): string {
    if c.protocol == "" then "ssh" else c.protocol
  }

  predicate ValidProtocol(c: Connection) {
    ConnectionProtocol(c) in {"ssh", "vnc", "rdp", "novnc"}
  }

  predicate HasSSH(c: Connection) {
    if c.sshEnabled.Some? then c.sshEnabled.value else ConnectionProtocol(c) == "ssh"
  }

  /****** Hashes ******/

  // Keys of the saved snapshot: "connection:<id>", "folder:<id>", and the bare
  // "<id>" that older versions wrote for connections.
  datatype ItemKey = ConnKey(id: string) | FolderKey(id: string) | LegacyKey(id: string)

  datatype Hash = ConnHash(connection: Connection) | FolderHash(folder: Folder)

  type Items = map<ItemKey, Hash>

  type SetHash = multiset<(ItemKey, Hash)>

  function ConnectionHash(c: Connection): Connection {
    c.(password := None, passphrase := None,
       vnc := if c.vnc.Some? then Some(c.vnc.value.(password := None)) else None,
       rdp := if c.rdp.Some? then Some(c.rdp.value.(password := None)) else None)
  }

  // What DeleteFolder does to the hash of a connection filed in the folder.
  function Unfiled(h: Hash): Hash {
    if h.ConnHash? then ConnHash(h.connection.(folderID := None)) else h
  }

  predicate FiledIn(h: Hash, folders: set<string>) {
    h.ConnHash? && h.connection.folderID.Some? && h.connection.folderID.value in folders
  }

  function Entries(items: Items): set<(ItemKey, Hash)> {
    set k | k in items :: (k, items[k])
  }

  // The set hash of a keyed set: its sorted entry list, so a multiset.
  function Fingerprint(items: Items): SetHash {
    multiset(Entries(items))
  }

  lemma FingerprintInjective(a: Items, b: Items)
    requires Fingerprint(a) == Fingerprint(b)
    ensures a == b
  {
    assert forall x :: x in Entries(a) <==> x in Fingerprint(a);
    assert forall x :: x in Entries(b) <==> x in Fingerprint(b);
    forall k | k in a ensures k in b && b[k] == a[k] {
      assert (k, a[k]) in Entries(b);
    }
    forall k | k in b ensures k in a {
      assert (k, b[k]) in Entries(a);
    }
  }

  // The server's description of the stored blob.
  datatype Meta = Meta(version: int, checksum: string)

  const NO_META := Meta(0, "")
}
