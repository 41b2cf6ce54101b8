// The list of printed hashes that syncSetHash sorts and digests (app_account.go).
//
// Elsewhere a set hash is the multiset of its entries. Here the entries are
// printed and sorted as the code does, and the two are shown to decide alike.
module SortedEntries {
  import opened Common
  import opened Models
  import opened Merge
  import opened SetHash

  /****** Strings in order ******/

  // Byte order, as sort.Strings uses it.
  predicate AtMost(a: string, b: string) {
    a == [] || (b != [] && (a[0] < b[0] || (a[0] == b[0] && AtMost(a[1..], b[1..]))))
  }

  lemma {:induction false} AtMostIsTotal(a: string, b: string)
    ensures AtMost(a, b) || AtMost(b, a)
    ensures AtMost(a, b) && AtMost(b, a) ==> a == b
  {
    if a != [] && b != [] {
      AtMostIsTotal(a[1..], b[1..]);
      assert a == [a[0]] + a[1..] && b == [b[0]] + b[1..];
    }
  }

  lemma {:induction false} AtMostIsTransitive(a: string, b: string, c: string)
    requires AtMost(a, b) && AtMost(b, c)
    ensures AtMost(a, c)
  {
    if a != [] && a[0] == b[0] == c[0] {
      AtMostIsTransitive(a[1..], b[1..], c[1..]);
    }
  }

  ghost predicate Ordered(s: seq<string>) {
    forall i, j :: 0 <= i < j < |s| ==> AtMost(s[i], s[j])
  }

  function Insert(x: string, s: seq<string>): seq<string> {
    if s == [] || AtMost(x, s[0]) then [x] + s else [s[0]] + Insert(x, s[1..])
  }

  function SortStrings(s: seq<string>): seq<string> {
    if s == [] then [] else Insert(s[0], SortStrings(s[1..]))
  }

  lemma AtMostAll(x: string, s: seq<string>)
    requires Ordered(s) && s != [] && AtMost(x, s[0])
    ensures Ordered([x] + s)
  {
    forall j | 0 <= j < |s| ensures AtMost(x, s[j]) {
      if j > 0 {
        AtMostIsTransitive(x, s[0], s[j]);
      }
    }
  }

  lemma OrderedFrom(x: string, s: seq<string>, rest: seq<string>)
    requires Ordered(s) && Ordered(rest) && s != [] && AtMost(s[0], x)
    requires multiset(rest) == multiset{x} + multiset(s[1..])
    ensures Ordered([s[0]] + rest)
  {
    forall j | 0 <= j < |rest| ensures AtMost(s[0], rest[j]) {
      assert rest[j] in multiset(rest);
      assert rest[j] == x || rest[j] in s[1..];
    }
  }

  lemma {:induction false} InsertKeeps(x: string, s: seq<string>)
    requires Ordered(s)
    ensures Ordered(Insert(x, s)) && multiset(Insert(x, s)) == multiset{x} + multiset(s)
  {
    if s != [] {
      assert s == [s[0]] + s[1..];
      if AtMost(x, s[0]) {
        AtMostAll(x, s);
      } else {
        InsertKeeps(x, s[1..]);
        AtMostIsTotal(x, s[0]);
        OrderedFrom(x, s, Insert(x, s[1..]));
      }
    }
  }

  lemma {:induction false} SortKeeps(s: seq<string>)
    ensures Ordered(SortStrings(s)) && multiset(SortStrings(s)) == multiset(s)
  {
    if s != [] {
      SortKeeps(s[1..]);
      InsertKeeps(s[0], SortStrings(s[1..]));
      assert s == [s[0]] + s[1..];
    }
  }

  lemma LeastFirst(a: seq<string>, b: seq<string>)
    requires Ordered(a) && Ordered(b) && multiset(a) == multiset(b) && a != []
    ensures b != [] && AtMost(b[0], a[0])
  {
    assert a[0] in multiset(b);
    var i :| 0 <= i < |b| && b[i] == a[0];
    AtMostIsReflexive(a[0]);
  }

  lemma WithoutFirst(a: seq<string>)
    requires a != []
    ensures multiset(a[1..]) == multiset(a) - multiset{a[0]}
  {
    assert a == [a[0]] + a[1..];
  }

  lemma SameFirst(a: seq<string>, b: seq<string>)
    requires Ordered(a) && Ordered(b) && multiset(a) == multiset(b) && a != []
    ensures b != [] && a[0] == b[0] && multiset(a[1..]) == multiset(b[1..])
  {
    LeastFirst(a, b);
    LeastFirst(b, a);
    AtMostIsTotal(a[0], b[0]);
    WithoutFirst(a);
    WithoutFirst(b);
  }

  // There is one order for the same strings.
  lemma {:induction false} OrderIsUnique(a: seq<string>, b: seq<string>)
    requires Ordered(a) && Ordered(b) && multiset(a) == multiset(b)
    ensures a == b
    decreases |a|
  {
    assert |multiset(a)| == |a| && |multiset(b)| == |b|;
    if a != [] {
      SameFirst(a, b);
      OrderIsUnique(a[1..], b[1..]);
      assert a == [a[0]] + a[1..] && b == [b[0]] + b[1..];
    }
  }

  lemma {:induction false} AtMostIsReflexive(a: string)
    ensures AtMost(a, a)
  {
    if a != [] {
      AtMostIsReflexive(a[1..]);
    }
  }

  lemma SortDecides(a: seq<string>, b: seq<string>)
    ensures SortStrings(a) == SortStrings(b) <==> multiset(a) == multiset(b)
  {
    SortKeeps(a);
    SortKeeps(b);
    if multiset(a) == multiset(b) {
      OrderIsUnique(SortStrings(a), SortStrings(b));
    }
  }

  /****** Printed entries ******/

  type Entry = (ItemKey, Hash)

  // Digests differ when the records do, and base64 has no colon.
  ghost predicate Digesting(digest: Hash -> string) {
    (forall a, b :: digest(a) == digest(b) ==> a == b) && forall h :: ':' !in digest(h)
  }

  function Prefix(k: ItemKey): string {
    match k
    case ConnKey(_) => "connection:"
    case FolderKey(_) => "folder:"
    case LegacyKey(_) => ""
  }

  function Printed(e: Entry, digest: Hash -> string): string {
    Prefix(e.0) + (e.0.id + (":" + digest(e.1)))
  }

  lemma ColonBefore(a: string, x: string, b: string, y: string)
    requires a + (":" + x) == b + (":" + y) && ':' !in x
    ensures |b| <= |a|
  {
    var left := a + (":" + x);
    assert forall i :: |a| < i < |left| ==> left[i] == x[i - |a| - 1] && x[i - |a| - 1] in x;
    assert (b + (":" + y))[|b|] == ':';
  }

  lemma LastColon(a: string, x: string, b: string, y: string)
    requires a + (":" + x) == b + (":" + y) && ':' !in x && ':' !in y
    ensures a == b && x == y
  {
    ColonBefore(a, x, b, y);
    ColonBefore(b, y, a, x);
    var left, right := a + (":" + x), b + (":" + y);
    assert a == left[..|a|] && b == right[..|a|];
    assert x == left[|a| + 1..] && y == right[|a| + 1..];
  }

  lemma PrintedDecides(a: Entry, b: Entry, digest: Hash -> string)
    requires Digesting(digest) && !a.0.LegacyKey? && !b.0.LegacyKey?
    ensures Printed(a, digest) == Printed(b, digest) <==> a == b
  {
    if Printed(a, digest) == Printed(b, digest) {
      assert Printed(a, digest)[0] == Prefix(a.0)[0] && Printed(b, digest)[0] == Prefix(b.0)[0];
      var n := |Prefix(a.0)|;
      assert Printed(a, digest)[n..] == a.0.id + (":" + digest(a.1));
      assert Printed(b, digest)[n..] == b.0.id + (":" + digest(b.1));
      LastColon(a.0.id, digest(a.1), b.0.id, digest(b.1));
    }
  }

  function PrintAll(entries: seq<Entry>, digest: Hash -> string): seq<string> {
    if entries == [] then []
    else PrintAll(entries[..|entries| - 1], digest) + [Printed(entries[|entries| - 1], digest)]
  }

  ghost predicate Current(entries: seq<Entry>) {
    forall e :: e in entries ==> !e.0.LegacyKey?
  }

  // Each entry is printed as often as it occurs.
  lemma {:induction false} PrintedAsOften(entries: seq<Entry>, e: Entry, digest: Hash -> string)
    requires Digesting(digest) && Current(entries) && !e.0.LegacyKey?
    ensures multiset(PrintAll(entries, digest))[Printed(e, digest)] == multiset(entries)[e]
  {
    if entries != [] {
      var n := |entries| - 1;
      assert entries == entries[..n] + [entries[n]];
      PrintedAsOften(entries[..n], e, digest);
      PrintedDecides(entries[n], e, digest);
    }
  }

  lemma {:induction false} PrintsAnEntry(entries: seq<Entry>, s: string, digest: Hash -> string) returns (e: Entry)
    requires s in PrintAll(entries, digest)
    ensures e in entries && Printed(e, digest) == s
  {
    var n := |entries| - 1;
    if s == Printed(entries[n], digest) {
      e := entries[n];
    } else {
      e := PrintsAnEntry(entries[..n], s, digest);
    }
  }

  lemma PrintingDecides(a: seq<Entry>, b: seq<Entry>, digest: Hash -> string)
    requires Digesting(digest) && Current(a) && Current(b)
    ensures multiset(PrintAll(a, digest)) == multiset(PrintAll(b, digest)) <==> multiset(a) == multiset(b)
  {
    var as_, bs := multiset(PrintAll(a, digest)), multiset(PrintAll(b, digest));
    if multiset(a) == multiset(b) {
      forall s ensures as_[s] == bs[s] {
        if s in PrintAll(a, digest) {
          var e := PrintsAnEntry(a, s, digest);
          PrintedAsOften(a, e, digest);
          PrintedAsOften(b, e, digest);
        } else if s in PrintAll(b, digest) {
          var e := PrintsAnEntry(b, s, digest);
          PrintedAsOften(a, e, digest);
          PrintedAsOften(b, e, digest);
        }
      }
    }
    if as_ == bs {
      forall e ensures multiset(a)[e] == multiset(b)[e] {
        if e in a || e in b {
          PrintedAsOften(a, e, digest);
          PrintedAsOften(b, e, digest);
        }
      }
    }
  }

  /****** The list of syncSetHash ******/

  function ConnectionEntries(list: seq<Connection>): seq<Entry> {
    if list == [] then []
    else
      var last := list[|list| - 1];
      ConnectionEntries(list[..|list| - 1]) + if last.id == "" then [] else [(ConnKey(last.id), HashOf(last))]
  }

  function FolderEntries(list: seq<Folder>): seq<Entry> {
    if list == [] then []
    else
      var last := list[|list| - 1];
      FolderEntries(list[..|list| - 1]) + if last.id == "" then [] else [(FolderKey(last.id), FolderHash(last))]
  }

  lemma {:induction false} ConnectionEntriesCount(list: seq<Connection>)
    ensures multiset(ConnectionEntries(list)) == ConnectionHashes(list) && Current(ConnectionEntries(list))
  {
    if list != [] {
      ConnectionEntriesCount(list[..|list| - 1]);
    }
  }

  lemma {:induction false} FolderEntriesCount(list: seq<Folder>)
    ensures multiset(FolderEntries(list)) == FolderHashes(list) && Current(FolderEntries(list))
  {
    if list != [] {
      FolderEntriesCount(list[..|list| - 1]);
    }
  }

  function SortedHashes(connections: seq<Connection>, folders: seq<Folder>, digest: Hash -> string): seq<string> {
    SortStrings(PrintAll(ConnectionEntries(connections) + FolderEntries(folders), digest))
  }

  // The sorted lists of two sets agree exactly when their set hashes do.
  lemma SortedHashesDecide(connections: seq<Connection>, folders: seq<Folder>,
                           connections': seq<Connection>, folders': seq<Folder>, digest: Hash -> string)
    requires Digesting(digest)
    ensures SortedHashes(connections, folders, digest) == SortedHashes(connections', folders', digest)
       <==> SetHashOf(connections, folders) == SetHashOf(connections', folders')
  {
    var a, b := ConnectionEntries(connections) + FolderEntries(folders),
        ConnectionEntries(connections') + FolderEntries(folders');
    ConnectionEntriesCount(connections);
    FolderEntriesCount(folders);
    ConnectionEntriesCount(connections');
    FolderEntriesCount(folders');
    PrintingDecides(a, b, digest);
    SortDecides(PrintAll(a, digest), PrintAll(b, digest));
  }

  lemma PrintAppend(entries: seq<Entry>, e: Entry, digest: Hash -> string)
    ensures PrintAll(entries + [e], digest) == PrintAll(entries, digest) + [Printed(e, digest)]
  {
    assert (entries + [e])[..|entries|] == entries;
  }

  lemma ConnectionEntriesStep(list: seq<Connection>, i: nat)
    requires i < |list|
    ensures var before := ConnectionEntries(list[..i]);
            ConnectionEntries(list[..i + 1])
            == if list[i].id == "" then before else before + [(ConnKey(list[i].id), HashOf(list[i]))]
  {
    assert list[..i + 1][..i] == list[..i];
  }

  lemma FolderEntriesStep(list: seq<Folder>, i: nat)
    requires i < |list|
    ensures var before := FolderEntries(list[..i]);
            FolderEntries(list[..i + 1])
            == if list[i].id == "" then before else before + [(FolderKey(list[i].id), FolderHash(list[i]))]
  {
    assert list[..i + 1][..i] == list[..i];
  }

  lemma PrintFolder(before: seq<Entry>, list: seq<Folder>, i: nat, digest: Hash -> string)
    requires i < |list|
    ensures var printed := PrintAll(before + FolderEntries(list[..i]), digest);
            PrintAll(before + FolderEntries(list[..i + 1]), digest)
            == if list[i].id == "" then printed
               else printed + [Printed((FolderKey(list[i].id), FolderHash(list[i])), digest)]
  {
    FolderEntriesStep(list, i);
    var shown, e := before + FolderEntries(list[..i]), (FolderKey(list[i].id), FolderHash(list[i]));
    PrintAppend(shown, e, digest);
    assert before + (FolderEntries(list[..i]) + [e]) == shown + [e];
  }

  // The loops collect the printed entries in list order, and the list is sorted.
  method CollectHashes(connections: seq<Connection>, folders: seq<Folder>, digest: Hash -> string)
    returns (hashes: seq<string>)
    ensures hashes == SortedHashes(connections, folders, digest)
  {
    hashes := [];
    for i := 0 to |connections|
      invariant hashes == PrintAll(ConnectionEntries(connections[..i]), digest)
    {
      ConnectionEntriesStep(connections, i);
      var c := connections[i];
      if c.id != "" {
        PrintAppend(ConnectionEntries(connections[..i]), (ConnKey(c.id), HashOf(c)), digest);
        hashes := hashes + [Printed((ConnKey(c.id), HashOf(c)), digest)];
      }
    }
    assert connections[..|connections|] == connections;
    var more := CollectFolders(folders, digest, ConnectionEntries(connections), hashes);
    hashes := SortStrings(more);
  }

  method CollectFolders(folders: seq<Folder>, digest: Hash -> string, ghost before: seq<Entry>, start: seq<string>)
    returns (hashes: seq<string>)
    requires start == PrintAll(before, digest)
    ensures hashes == PrintAll(before + FolderEntries(folders), digest)
  {
    hashes := start;
    assert before + [] == before;
    for i := 0 to |folders|
      invariant hashes == PrintAll(before + FolderEntries(folders[..i]), digest)
    {
      PrintFolder(before, folders, i, digest);
      var f := folders[i];
      if f.id != "" {
        hashes := hashes + [Printed((FolderKey(f.id), FolderHash(f)), digest)];
      }
    }
    assert folders[..|folders|] == folders;
  }
}
