// The local database (backend/storage): connection rows, folder rows and the
// settings that synchronisation keeps.
module Storage {
  import opened Common
  import opened Models

  /****** Rows ******/

  predicate SortedByPort(ts: seq<TunnelInfo>) {
    forall i, j :: 0 <= i < j < |ts| ==> ts[i].localPort <= ts[j].localPort
  }

  // ORDER BY local_port, rows of equal port staying in insertion order.
  function InsertByPort(t: TunnelInfo, ts: seq<TunnelInfo>): seq<TunnelInfo> {
    if ts == [] || t.localPort <= ts[0].localPort then [t] + ts
    else [ts[0]] + InsertByPort(t, ts[1..])
  }

  function SortByPort(ts: seq<TunnelInfo>): seq<TunnelInfo> {
    if ts == [] then [] else InsertByPort(ts[0], SortByPort(ts[1..]))
  }

  lemma {:induction false} InsertAdds(t: TunnelInfo, ts: seq<TunnelInfo>)
    ensures multiset(InsertByPort(t, ts)) == multiset([t]) + multiset(ts)
  {
    if ts == [] || t.localPort <= ts[0].localPort {
      assert multiset([t] + ts) == multiset([t]) + multiset(ts);
    } else {
      InsertAdds(t, ts[1..]);
      assert ts == [ts[0]] + ts[1..];
    }
  }

  lemma {:induction false} InsertIsOrdered(t: TunnelInfo, ts: seq<TunnelInfo>)
    requires SortedByPort(ts)
    ensures SortedByPort(InsertByPort(t, ts))
  {
    if ts != [] && t.localPort > ts[0].localPort {
      var rest := InsertByPort(t, ts[1..]);
      InsertIsOrdered(t, ts[1..]);
      InsertAdds(t, ts[1..]);
      forall i | 0 <= i < |rest| ensures ts[0].localPort <= rest[i].localPort {
        assert rest[i] in multiset(rest);
        assert rest[i] == t || rest[i] in ts[1..];
      }
    }
  }

  // Reading back loses and invents no tunnel, and lists them by port.
  lemma {:induction false} SortIsOrdered(ts: seq<TunnelInfo>)
    ensures SortedByPort(SortByPort(ts))
    ensures multiset(SortByPort(ts)) == multiset(ts)
  {
    if ts != [] {
      SortIsOrdered(ts[1..]);
      InsertIsOrdered(ts[0], SortByPort(ts[1..]));
      InsertAdds(ts[0], SortByPort(ts[1..]));
      assert ts == [ts[0]] + ts[1..];
    }
  }

  lemma {:induction false} SortedIsFixed(ts: seq<TunnelInfo>)
    requires SortedByPort(ts)
    ensures SortByPort(ts) == ts
  {
    if ts != [] {
      SortedIsFixed(ts[1..]);
      assert ts == [ts[0]] + ts[1..];
    }
  }

  // replaceTunnels followed by a read: ids are filled in, the owner is
  // overwritten, and nothing is active.
  function StoredTunnels(id: string, ts: seq<TunnelInfo>, uuid: (string, nat) -> string): seq<TunnelInfo> {
    SortByPort(seq(|ts|, i requires 0 <= i < |ts| =>
      ts[i].(id := if ts[i].id == "" then uuid(id, i) else ts[i].id, connectionID := id, active := false)))
  }

  // A tunnel without an id gets the one drawn for it, and keeps where it leads.
  lemma FreshTunnel(id: string, ts: seq<TunnelInfo>, uuid: (string, nat) -> string, i: nat)
    requires i < |ts| && ts[i].id == ""
    ensures TunnelInfo(uuid(id, i), id, ts[i].localPort, ts[i].remoteHost, ts[i].remotePort, false)
            in StoredTunnels(id, ts, uuid)
  {
    var filled := seq(|ts|, k requires 0 <= k < |ts| =>
      ts[k].(id := if ts[k].id == "" then uuid(id, k) else ts[k].id, connectionID := id, active := false));
    SortIsOrdered(filled);
    assert filled[i] in multiset(filled);
    assert filled[i] in multiset(SortByPort(filled));
  }

  // The row read back after the first statement of upserting `c` over the row
  // `was`: absent VNC and RDP data keep what was stored, and so do the tunnels,
  // which have a table of their own.
  function WrittenRow(was: Option<Connection>, c: Connection): Connection {
    c.(syncSecretsHash := NoDigest,
       passwordPending := false,
       protocol := ConnectionProtocol(c),
       sshEnabled := Some(HasSSH(c)),
       vnc := if c.vnc.Some? || was.None? then c.vnc else was.value.vnc,
       rdp := if c.rdp.Some? || was.None? then c.rdp else was.value.rdp,
       tunnels := if was.Some? then was.value.tunnels else Some([]))
  }

  // And after the whole upsert: tunnels that come with the record replace the
  // stored ones.
  function StoredRow(was: Option<Connection>, c: Connection, uuid: (string, nat) -> string): Connection {
    var row := WrittenRow(was, c);
    if c.tunnels.Some? then row.(tunnels := Some(StoredTunnels(c.id, c.tunnels.value, uuid))) else row
  }

  type Rows = map<string, Connection>
  type Folders = map<string, Folder>

  // The first statement of deleting a connection deletes its tunnels.
  function Stripped(rows: Rows, id: string): Rows {
    if id in rows then rows[id := rows[id].(tunnels := Some([]))] else rows
  }

  // The first statement of deleting a folder clears the connections filed in it.
  function Unfile(rows: Rows, id: string): Rows {
    map x | x in rows :: if rows[x].folderID == Some(id) then rows[x].(folderID := None) else rows[x]
  }

  // Deleting a folder leaves no row filed in it, changes nothing else in the rows
  // that were, and does not touch the others.
  lemma NothingFiledIn(rows: Rows, id: string, x: string)
    requires x in rows
    ensures Unfile(rows, id).Keys == rows.Keys
    ensures var row := Unfile(rows, id)[x];
            && row.folderID != Some(id) && row.(folderID := rows[x].folderID) == rows[x]
            && (row == rows[x] <==> rows[x].folderID != Some(id))
  {}

  // How a write of a record ends.
  datatype Write = Written | BadProtocol | Broken

  class Database {
    // How many more statements on connections, tunnels and folders will work.
    var left: nat
    var connections: Rows
    var folders: Folders
    var snapshot: Items                 // connections_sync_snapshot
    var setHash: Option<SetHash>        // connections_local_set_hash
    var remoteMeta: Option<Meta>        // connections_remote_meta

    ghost predicate Valid()
      reads this
    {
      && (forall id :: id in connections ==> connections[id].id == id && id != "")
      && (forall id :: id in folders ==> folders[id].id == id && id != "")
    }

    method GetConnections() returns (r: seq<Connection>)
      requires Valid()
      ensures NoDuplicates(r)
      ensures forall c :: c in r <==> c.id in connections && connections[c.id] == c
    {
      r := [];
      var left := connections.Keys;
      while left != {}
        invariant left <= connections.Keys
        invariant NoDuplicates(r)
        invariant forall c :: c in r <==> c.id in connections && c.id !in left && connections[c.id] == c
        decreases left
      {
        var id :| id in left;
        r, left := r + [connections[id]], left - {id};
      }
    }

    method GetFolders() returns (r: seq<Folder>)
      requires Valid()
      ensures NoDuplicates(r)
      ensures forall f :: f in r <==> f.id in folders && folders[f.id] == f
    {
      r := [];
      var left := folders.Keys;
      while left != {}
        invariant left <= folders.Keys
        invariant NoDuplicates(r)
        invariant forall f :: f in r <==> f.id in folders && f.id !in left && folders[f.id] == f
        decreases left
      {
        var id :| id in left;
        r, left := r + [folders[id]], left - {id};
      }
    }

    method Statement() returns (ok: bool)
      modifies this`left
      ensures ok == (old(left) > 0) && left == if ok then old(left) - 1 else 0
    {
      ok := left > 0;
      if ok {
        left := left - 1;
      }
    }

    // The row first, then its tunnels.
    method UpsertConnection(c: Connection, uuid: (string, nat) -> string) returns (w: Write)
      modifies this`connections, this`left
      ensures w.BadProtocol? <==> !ValidProtocol(c)
      ensures w.Broken? ==> left == 0
      ensures var was := Lookup(old(connections), c.id);
              match w
              case Written => connections == old(connections)[c.id := StoredRow(was, c, uuid)]
              case BadProtocol => connections == old(connections)
              case Broken =>
                connections == old(connections) || connections == old(connections)[c.id := WrittenRow(was, c)]
    {
      if !ValidProtocol(c) {
        return BadProtocol;
      }
      var ok := Statement();
      if !ok {
        return Broken;
      }
      var was := Lookup(connections, c.id);
      connections := connections[c.id := WrittenRow(was, c)];
      if c.tunnels.None? {
        return Written;
      }
      ok := Statement();
      if !ok {
        return Broken;
      }
      connections := connections[c.id := StoredRow(was, c, uuid)];
      w := Written;
    }

    // The tunnels first, then the row.
    method DeleteConnection(id: string) returns (ok: bool)
      modifies this`connections, this`left
      ensures !ok ==> left == 0
      ensures if ok then connections == old(connections) - {id}
              else connections == old(connections) || connections == Stripped(old(connections), id)
    {
      ok := Statement();
      if !ok {
        return;
      }
      connections := Stripped(connections, id);
      ok := Statement();
      if ok {
        connections := connections - {id};
      }
    }

    method UpsertFolder(f: Folder) returns (ok: bool)
      modifies this`folders, this`left
      ensures !ok ==> left == 0
      ensures folders == if ok then old(folders)[f.id := f] else old(folders)
    {
      ok := Statement();
      if ok {
        folders := folders[f.id := f];
      }
    }

    // The connections filed in it first, then the folder.
    method DeleteFolder(id: string) returns (ok: bool)
      modifies this`folders, this`connections, this`left
      ensures !ok ==> left == 0
      ensures if ok then folders == old(folders) - {id} && connections == Unfile(old(connections), id)
              else folders == old(folders)
                   && (connections == old(connections) || connections == Unfile(old(connections), id))
    {
      ok := Statement();
      if !ok {
        return;
      }
      connections := Unfile(connections, id);
      ok := Statement();
      if ok {
        folders := folders - {id};
      }
    }
  }
}
