// What the hashes tell apart, and so which edits a sync sees.
module ChangeDetection {
  import opened Common
  import opened Vault
  import opened Models
  import opened Storage
  import opened Envelope
  import opened HashStability
  import opened SyncProtocol
  import opened Convergence
  import opened Merge
  import opened MergeView
  import opened SyncNow

  /****** Records ******/

  // The records agree in everything but the text of their secrets.
  predicate SameButSecrets(a: Connection, b: Connection) {
    |Secrets(a)| == |Secrets(b)| && WithSecrets(b, Secrets(a)) == a
  }

  // The hash of a record tells apart all that differs elsewhere.
  lemma HashTellsApart(a: Connection, b: Connection)
    ensures HashOf(a) == HashOf(b) <==> SameButSecrets(a, b)
  {
    if |Secrets(a)| == |Secrets(b)| && a.vnc.Some? == b.vnc.Some? {
      var s := Secrets(a);
      assert s[0] == a.password && s[1] == a.passphrase;
      assert a.vnc.Some? ==> s[2] == a.vnc.value.password;
      assert a.rdp.Some? ==> s[|s| - 1] == a.rdp.value.password;
    }
  }

  // An edit outlives a remote deletion unless it wrote nothing but other
  // ciphertexts.
  lemma EditOutlivesDeletion(s: ConnState, id: string, was: Connection, edited: Connection, cx: Context)
    requires !s.refused
    ensures VisitConnection(s, id, Some(edited), None, Some(HashOf(was)), cx)
         == if SameButSecrets(edited, was) then s.(rows := s.rows - {id}) else s.(merged := s.merged + [edited])
  {
    HashTellsApart(edited, was);
  }

  // A snapshot that keeps connections under their bare ids is still understood: a
  // connection deleted remotely and not touched here goes.
  lemma OldSnapshotDeletes(rows: Rows, id: string, c: Connection, cx: Context)
    ensures VisitConnections(ConnState(rows, [], false), [id], map[id := c], map[], map[LegacyKey(id) := HashOf(c)], cx)
         == ConnState(rows - {id}, [], false)
  {
    assert [id][..0] == [];
  }

  /****** Stored rows ******/

  lemma DigestTellsApart(x: seq<Opening>, y: seq<Opening>, key: Key)
    requires |x| == |y|
    ensures DigestOf(x, key) == DigestOf(y, key) <==> x == y
  {
    if DigestOf(x, key) == DigestOf(y, key) {
      var p := seq(|x|, i requires 0 <= i < |x| => x[i].pending);
      var q := seq(|y|, i requires 0 <= i < |y| => y[i].pending);
      forall i | 0 <= i < |x| ensures x[i] == y[i] {
        assert DigestOf(x, key).secrets[i] == x[i].plain && DigestOf(y, key).secrets[i] == y[i].plain;
        assert p[i] == x[i].pending && q[i] == y[i].pending;
      }
    }
  }

  // The hash of a stored row sees every field, and every secret through its
  // plaintext only; a secret that waits for its key counts as its own text.
  lemma RowHashTellsApart(a: Connection, b: Connection, localKey: Key, syncKey: Key)
    requires RowForm(a) && RowForm(b) && Preparable(a, localKey, syncKey) && Preparable(b, localKey, syncKey)
    ensures RowHash(a, localKey, syncKey) == RowHash(b, localKey, syncKey)
       <==> SameButSecrets(Normalised(a), Normalised(b))
            && OpenFields(Secrets(Normalised(a)), localKey, syncKey)
               == OpenFields(Secrets(Normalised(b)), localKey, syncKey)
  {
    var m, n := Normalised(a), Normalised(b);
    var x := OpenFields(Secrets(m), localKey, syncKey).value;
    var y := OpenFields(Secrets(n), localKey, syncKey).value;
    DigestTellsApart(x, y, syncKey);
    HashTellsApart(m, n);
    assert ConnectionHash(m).syncSecretsHash == NoDigest == ConnectionHash(n).syncSecretsHash;
    assert RowHash(a, localKey, syncKey) == ConnectionHash(m).(syncSecretsHash := DigestOf(x, syncKey));
    assert RowHash(b, localKey, syncKey) == ConnectionHash(n).(syncSecretsHash := DigestOf(y, syncKey));
    assert ConnectionHash(m) == RowHash(a, localKey, syncKey).(syncSecretsHash := NoDigest);
    assert ConnectionHash(n) == RowHash(b, localKey, syncKey).(syncSecretsHash := NoDigest);
  }

  // An edit that leaves every field as it was, and every plaintext.
  predicate OnlyResealed(was: Connection, edited: Connection, localKey: Key, syncKey: Key)
    requires RowGood(was, localKey, syncKey) && RowGood(edited, localKey, syncKey)
  {
    SameButSecrets(Normalised(edited), Normalised(was))
    && Plaintexts(edited, localKey, syncKey) == Plaintexts(was, localKey, syncKey)
  }

  lemma GoodRowsApart(was: Connection, edited: Connection, localKey: Key, syncKey: Key)
    requires RowGood(was, localKey, syncKey) && RowGood(edited, localKey, syncKey)
    ensures RowHash(edited, localKey, syncKey) == RowHash(was, localKey, syncKey)
       <==> OnlyResealed(was, edited, localKey, syncKey)
  {
    RowHashTellsApart(edited, was, localKey, syncKey);
    var x := OpenFields(Secrets(Normalised(edited)), localKey, syncKey).value;
    var y := OpenFields(Secrets(Normalised(was)), localKey, syncKey).value;
    if Plaintexts(edited, localKey, syncKey) == Plaintexts(was, localKey, syncKey) {
      forall i | 0 <= i < 4 ensures x[i] == y[i] {
        assert x[i] in x && y[i] in y;
        assert Plaintexts(edited, localKey, syncKey)[i] == x[i].plain;
        assert Plaintexts(was, localKey, syncKey)[i] == y[i].plain;
      }
    }
  }

  /****** Devices ******/

  // The records a device stores after one of them was edited.
  function Edited(rows: Rows, folders: Folders, id: string, edited: Connection, localKey: Key, syncKey: Key): Items {
    StoreItems(rows[id := edited], folders, localKey, syncKey)
  }

  lemma EditedItem(rows: Rows, folders: Folders, id: string, edited: Connection, localKey: Key, syncKey: Key)
    requires id in rows
    ensures Edited(rows, folders, id, edited, localKey, syncKey)
         == StoreItems(rows, folders, localKey, syncKey)[ConnKey(id) := ConnHash(RowHash(edited, localKey, syncKey))]
    ensures Lookup(StoreItems(rows, folders, localKey, syncKey), ConnKey(id))
         == Some(ConnHash(RowHash(rows[id], localKey, syncKey)))
  {
    hide RowHash;
    var k := ConnKey(id);
    var before := StoreItems(rows, folders, localKey, syncKey);
    var after := StoreItems(rows[id := edited], folders, localKey, syncKey);
    var h := ConnHash(RowHash(edited, localKey, syncKey));
    forall x ensures Lookup(after, x) == Lookup(before[k := h], x) {
      StoreItemsAt(rows, folders, localKey, syncKey, x);
      StoreItemsAt(rows[id := edited], folders, localKey, syncKey, x);
    }
    SameItems(after, before[k := h]);
    StoreItemsAt(rows, folders, localKey, syncKey, k);
  }

  lemma OneItem(items: Items, k: ItemKey, h: Hash)
    requires k in items
    ensures Fingerprint(items[k := h]) == Fingerprint(items) <==> items[k] == h
  {
    assert items[k := h][k] == h;
    if Fingerprint(items[k := h]) == Fingerprint(items) {
      FingerprintInjective(items[k := h], items);
    } else {
      assert items[k] == h ==> items[k := h] == items;
    }
  }

  // On a device whose set hash is that of its records, an edit makes the next
  // sync upload if and only if it is more than a new ciphertext.
  lemma EditIsSeen(d: Device, rows: Rows, folders: Folders, id: string, edited: Connection, localKey: Key, syncKey: Key)
    requires id in rows && RowGood(rows[id], localKey, syncKey) && RowGood(edited, localKey, syncKey)
    requires d.setHash == Some(Fingerprint(StoreItems(rows, folders, localKey, syncKey)))
    ensures Uploads(d.(store := Edited(rows, folders, id, edited, localKey, syncKey)))
       <==> !OnlyResealed(rows[id], edited, localKey, syncKey)
  {
    hide StoreItems, RowHash, RowGood, OnlyResealed, Fingerprint;
    GoodRowsApart(rows[id], edited, localKey, syncKey);
    EditedItem(rows, folders, id, edited, localKey, syncKey);
    OneItem(StoreItems(rows, folders, localKey, syncKey), ConnKey(id), ConnHash(RowHash(edited, localKey, syncKey)));
  }

  // And a completed call then puts the edited record on the server, where it
  // replaces the one that was synced before.
  lemma EditReachesServer(d: Device, server: Server, net: Network, rows: Rows, folders: Folders, id: string,
                          edited: Connection, localKey: Key, syncKey: Key, d': Device, server': Server)
    requires id in rows && RowGood(rows[id], localKey, syncKey) && RowGood(edited, localKey, syncKey)
    requires d.store == Edited(rows, folders, id, edited, localKey, syncKey) && DeviceInv(d, server)
    requires d.snapshot == StoreItems(rows, folders, localKey, syncKey)
    requires !OnlyResealed(rows[id], edited, localKey, syncKey)
    requires SyncedFrom(d, server, net, d', server', Done)
    ensures server'.Some? && server' != server
    ensures Lookup(ItemsOn(server'), ConnKey(id)) == Some(ConnHash(RowHash(edited, localKey, syncKey)))
            != Some(ConnHash(RowHash(rows[id], localKey, syncKey)))
  {
    var k := ConnKey(id);
    GoodRowsApart(rows[id], edited, localKey, syncKey);
    EditedItem(rows, folders, id, edited, localKey, syncKey);
    TurnServer(d, server, net.checksum, k);
    SyncOutcome(d, server, net.checksum);
    if d.setHash.Some? {
      EditIsSeen(d, rows, folders, id, edited, localKey, syncKey);
    }
  }
}
