// The set hash and the snapshot SyncNow saves (syncSetHash, saveSyncSnapshot).
module SetHash {
  import opened Common
  import opened Models
  import opened Storage
  import opened Merge
  import opened MergeMeaning
  import opened MergeView

  lemma EntryIn(items: Items, p: (ItemKey, Hash))
    ensures p in Entries(items) <==> p.0 in items && items[p.0] == p.1
  {}

  lemma FingerprintAdd(m: Items, k: ItemKey, h: Hash)
    requires k !in m
    ensures Fingerprint(m[k := h]) == Fingerprint(m) + multiset{(k, h)}
  {
    var more, all := Entries(m[k := h]), Entries(m) + {(k, h)};
    forall p: (ItemKey, Hash) ensures p in more <==> p in all {
      EntryIn(m[k := h], p);
      EntryIn(m, p);
    }
    assert more == all;
    EntryIn(m, (k, h));
  }

  lemma FingerprintJoin(a: Items, b: Items)
    requires a.Keys !! b.Keys
    ensures Fingerprint(a + b) == Fingerprint(a) + Fingerprint(b)
  {}

  lemma ConnectionAdded(connections: Rows, id: string, c: Connection)
    ensures ConnectionItems(connections[id := c]) == ConnectionItems(connections)[ConnKey(id) := HashOf(c)]
  {
  }

  lemma FolderAdded(folders: Folders, id: string, f: Folder)
    ensures FolderItems(folders[id := f]) == FolderItems(folders)[FolderKey(id) := FolderHash(f)]
  {
  }

  // The index of a list, one entry further.
  lemma IndexStep<T>(list: seq<T>, i: nat, id: T -> string)
    requires i < |list|
    ensures ByID(list[..i + 1], id)
         == if id(list[i]) == "" then ByID(list[..i], id) else ByID(list[..i], id)[id(list[i]) := list[i]]
    ensures DistinctIDs(list, id) ==> id(list[i]) !in ByID(list[..i], id)
  {
    assert list[..i + 1][..i] == list[..i];
    ByIDKeys(list[..i], id);
  }

  // The items of a list's index, one entry further.
  lemma ConnectionStep(list: seq<Connection>, i: nat)
    requires i < |list|
    ensures var before, after := ConnectionItems(ByID(list[..i], ConnID)), ConnectionItems(ByID(list[..i + 1], ConnID));
            var k, h := ConnKey(list[i].id), HashOf(list[i]);
            && after == (if list[i].id == "" then before else before[k := h])
            && (DistinctIDs(list, ConnID) ==>
                  Fingerprint(after)
                  == if list[i].id == "" then Fingerprint(before) else Fingerprint(before) + multiset{(k, h)})
  {
    IndexStep(list, i, ConnID);
    var before := ByID(list[..i], ConnID);
    ConnectionAdded(before, list[i].id, list[i]);
    if list[i].id !in before {
      FingerprintAdd(ConnectionItems(before), ConnKey(list[i].id), HashOf(list[i]));
    }
  }

  lemma FolderStep(list: seq<Folder>, i: nat)
    requires i < |list|
    ensures var before, after := FolderItems(ByID(list[..i], FolderID)), FolderItems(ByID(list[..i + 1], FolderID));
            var k, h := FolderKey(list[i].id), FolderHash(list[i]);
            && after == (if list[i].id == "" then before else before[k := h])
            && (DistinctIDs(list, FolderID) ==>
                  Fingerprint(after)
                  == if list[i].id == "" then Fingerprint(before) else Fingerprint(before) + multiset{(k, h)})
  {
    IndexStep(list, i, FolderID);
    var before := ByID(list[..i], FolderID);
    FolderAdded(before, list[i].id, list[i]);
    if list[i].id !in before {
      FingerprintAdd(FolderItems(before), FolderKey(list[i].id), FolderHash(list[i]));
    }
  }

  // What the loops of saveSyncSnapshot write.
  function RecordConnections(list: seq<Connection>): Items {
    if list == [] then map[]
    else
      var last := list[|list| - 1];
      var before := RecordConnections(list[..|list| - 1]);
      if last.id == "" then before else before[ConnKey(last.id) := HashOf(last)]
  }

  function RecordFolders(s: Items, list: seq<Folder>): Items {
    if list == [] then s
    else
      var last := list[|list| - 1];
      var before := RecordFolders(s, list[..|list| - 1]);
      if last.id == "" then before else before[FolderKey(last.id) := FolderHash(last)]
  }

  // The set held by two lists.
  function ItemsOf(connections: seq<Connection>, folders: seq<Folder>): Items {
    RecordFolders(RecordConnections(connections), folders)
  }

  // What the loop of syncSetHash collects.
  function ConnectionHashes(list: seq<Connection>): SetHash {
    if list == [] then multiset{}
    else
      var last := list[|list| - 1];
      ConnectionHashes(list[..|list| - 1])
      + (if last.id == "" then multiset{} else multiset{(ConnKey(last.id), HashOf(last))})
  }

  function FolderHashes(list: seq<Folder>): SetHash {
    if list == [] then multiset{}
    else
      var last := list[|list| - 1];
      FolderHashes(list[..|list| - 1])
      + (if last.id == "" then multiset{} else multiset{(FolderKey(last.id), FolderHash(last))})
  }

  function SetHashOf(connections: seq<Connection>, folders: seq<Folder>): SetHash {
    ConnectionHashes(connections) + FolderHashes(folders)
  }

  lemma {:induction false} ConnectionHashesMeaning(list: seq<Connection>)
    requires DistinctIDs(list, ConnID)
    ensures ConnectionHashes(list) == Fingerprint(ConnectionItems(ByID(list, ConnID)))
  {
    if list != [] {
      var n := |list| - 1;
      ConnectionHashesMeaning(list[..n]);
      ConnectionStep(list, n);
      assert list[..n + 1] == list;
    }
  }

  lemma {:induction false} FolderHashesMeaning(list: seq<Folder>)
    requires DistinctIDs(list, FolderID)
    ensures FolderHashes(list) == Fingerprint(FolderItems(ByID(list, FolderID)))
  {
    if list != [] {
      var n := |list| - 1;
      FolderHashesMeaning(list[..n]);
      FolderStep(list, n);
      assert list[..n + 1] == list;
    }
  }

  lemma {:induction false} RecordConnectionsMeaning(list: seq<Connection>)
    ensures RecordConnections(list) == ConnectionItems(ByID(list, ConnID))
  {
    if list != [] {
      var n := |list| - 1;
      RecordConnectionsMeaning(list[..n]);
      ConnectionStep(list, n);
      assert list[..n + 1] == list;
    }
  }

  lemma UpdateRight(s: Items, m: Items, k: ItemKey, h: Hash)
    ensures (s + m)[k := h] == s + m[k := h]
  {
  }

  lemma {:induction false} RecordFoldersMeaning(s: Items, list: seq<Folder>)
    ensures RecordFolders(s, list) == s + FolderItems(ByID(list, FolderID))
  {
    if list == [] {
      assert FolderItems(map[]) == map[];
    } else {
      var n := |list| - 1;
      var before := ByID(list[..n], FolderID);
      RecordFoldersMeaning(s, list[..n]);
      FolderAdded(before, list[n].id, list[n]);
      UpdateRight(s, FolderItems(before), FolderKey(list[n].id), FolderHash(list[n]));
    }
  }

  // It is the set their indexes hold.
  lemma ItemsOfMeaning(connections: seq<Connection>, folders: seq<Folder>)
    ensures ItemsOf(connections, folders) == WireItems(ByID(connections, ConnID), ByID(folders, FolderID))
  {
    RecordConnectionsMeaning(connections);
    RecordFoldersMeaning(RecordConnections(connections), folders);
  }

  // The set hash of two lists is the fingerprint of the set they hold.
  lemma SetHashMeaning(connections: seq<Connection>, folders: seq<Folder>)
    requires DistinctIDs(connections, ConnID) && DistinctIDs(folders, FolderID)
    ensures SetHashOf(connections, folders) == Fingerprint(ItemsOf(connections, folders))
  {
    ConnectionHashesMeaning(connections);
    FolderHashesMeaning(folders);
    ItemsOfMeaning(connections, folders);
    FingerprintJoin(ConnectionItems(ByID(connections, ConnID)), FolderItems(ByID(folders, FolderID)));
  }

  method SyncSetHash(connections: seq<Connection>, folders: seq<Folder>) returns (hash: SetHash)
    ensures hash == SetHashOf(connections, folders)
  {
    hash := multiset{};
    for i := 0 to |connections|
      invariant hash == ConnectionHashes(connections[..i])
    {
      assert connections[..i + 1][..i] == connections[..i];
      if connections[i].id != "" {
        hash := hash + multiset{(ConnKey(connections[i].id), HashOf(connections[i]))};
      }
    }
    assert connections[..|connections|] == connections;
    for i := 0 to |folders|
      invariant hash == ConnectionHashes(connections) + FolderHashes(folders[..i])
    {
      assert folders[..i + 1][..i] == folders[..i];
      if folders[i].id != "" {
        hash := hash + multiset{(FolderKey(folders[i].id), FolderHash(folders[i]))};
      }
    }
    assert folders[..|folders|] == folders;
  }

  method SyncSnapshot(connections: seq<Connection>, folders: seq<Folder>) returns (snapshot: Items)
    ensures snapshot == ItemsOf(connections, folders)
  {
    snapshot := map[];
    for i := 0 to |connections|
      invariant snapshot == RecordConnections(connections[..i])
    {
      assert connections[..i + 1][..i] == connections[..i];
      if connections[i].id != "" {
        snapshot := snapshot[ConnKey(connections[i].id) := HashOf(connections[i])];
      }
    }
    assert connections[..|connections|] == connections;
    for i := 0 to |folders|
      invariant snapshot == RecordFolders(RecordConnections(connections), folders[..i])
    {
      assert folders[..i + 1][..i] == folders[..i];
      if folders[i].id != "" {
        snapshot := snapshot[FolderKey(folders[i].id) := FolderHash(folders[i])];
      }
    }
    assert folders[..|folders|] == folders;
  }
}
