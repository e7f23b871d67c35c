/** The `list` command. Without a grid token it lists the player's snapshot
    folder names as the directory enumerates them. With a token it resolves
    the folder, orders the files in it newest first by creation time (a
    stable ordering: files created at the same instant keep their
    enumeration order) and numbers them from 1. The player lookup and the
    directory reads are collaborators and come in as parameters. */
module Listing {
  import opened Optional
  import opened FolderSearch

  /** A snapshot file: its name, its creation time (in clock ticks) and
      its length in bytes. */
  datatype FileEntry = FileEntry(name: string, created: int, length: nat)

  /** One line of a grid listing: the backup number and the file. */
  datatype ListedFile = ListedFile(number: nat, file: FileEntry)

  datatype ListOutcome =
    | PlayerNotFound
    | GridNotFound
    | MalformedFolder(name: string)
    | Folders(names: seq<string>)
    | Snapshots(folder: string, entries: seq<ListedFile>)

  ghost predicate NewestFirst(s: seq<FileEntry>)
  {
    forall i, j :: 0 <= i < j < |s| ==> s[i].created >= s[j].created
  }

  /** The files of `s` created at time `t`, in their order in `s`. Two
      orderings of the same files that agree on every such subsequence
      differ only in how files with different times are interleaved. */
  function WithTime(s: seq<FileEntry>, t: int): seq<FileEntry>
  {
    if |s| == 0 then []
    else (if s[0].created == t then [s[0]] else []) + WithTime(s[1..], t)
  }

  lemma WithTimeCons(x: FileEntry, s: seq<FileEntry>, t: int)
    ensures WithTime([x] + s, t) == (if x.created == t then [x] else []) + WithTime(s, t)
  {
    assert ([x] + s)[1..] == s;
  }

  lemma ConsNewestFirst(x: FileEntry, s: seq<FileEntry>)
    requires NewestFirst(s)
    requires forall y :: y in s ==> x.created >= y.created
    ensures NewestFirst([x] + s)
  {
    var r := [x] + s;
    forall i, j | 0 <= i < j < |r|
      ensures r[i].created >= r[j].created
    {
      assert r[j] == s[j - 1];
      if i > 0 {
        assert r[i] == s[i - 1];
      }
    }
  }

  lemma NewestFirstTail(s: seq<FileEntry>)
    requires NewestFirst(s) && |s| > 0
    ensures NewestFirst(s[1..])
  {
    forall i, j | 0 <= i < j < |s| - 1
      ensures s[1..][i].created >= s[1..][j].created
    {
      assert s[1..][i] == s[i + 1] && s[1..][j] == s[j + 1];
    }
  }

  /** Places `f` in a newest-first sequence ahead of every file that is not
      newer than it. */
  function Insert(f: FileEntry, s: seq<FileEntry>): (r: seq<FileEntry>)
    ensures NewestFirst(s) ==> NewestFirst(r)
    ensures multiset(r) == multiset(s) + multiset{f}
  {
    if |s| == 0 || s[0].created <= f.created then
      var r := [f] + s;
      assert NewestFirst(s) ==> NewestFirst(r) by {
        if NewestFirst(s) {
          forall y | y in s
            ensures f.created >= y.created
          {
            var k :| 0 <= k < |s| && s[k] == y;
          }
          ConsNewestFirst(f, s);
        }
      }
      r
    else
      var rest := Insert(f, s[1..]);
      var r := [s[0]] + rest;
      assert s == [s[0]] + s[1..];
      assert NewestFirst(s) ==> NewestFirst(r) by {
        if NewestFirst(s) {
          NewestFirstTail(s);
          forall y | y in rest
            ensures s[0].created >= y.created
          {
            assert y in multiset(rest);
            if y != f {
              assert y in multiset(s[1..]);
              var k :| 0 <= k < |s[1..]| && s[1..][k] == y;
              assert s[k + 1] == y;
            }
          }
          ConsNewestFirst(s[0], rest);
        }
      }
      r
  }

  /** Insertion adds `f` at the head of the files with its time, leaving
      every other time's files in their order. */
  lemma {:induction false} InsertWithTime(f: FileEntry, s: seq<FileEntry>, t: int)
    ensures WithTime(Insert(f, s), t) == (if f.created == t then [f] else []) + WithTime(s, t)
    decreases |s|
  {
    if |s| == 0 || s[0].created <= f.created {
      WithTimeCons(f, s, t);
    } else {
      var rest := Insert(f, s[1..]);
      assert Insert(f, s) == [s[0]] + rest;
      InsertWithTime(f, s[1..], t);
      WithTimeCons(s[0], rest, t);
      assert s == [s[0]] + s[1..];
      WithTimeCons(s[0], s[1..], t);
      if f.created == t {
        assert WithTime(Insert(f, s), t) == WithTime(rest, t);
        assert WithTime(s, t) == WithTime(s[1..], t);
      } else if s[0].created == t {
        assert WithTime(rest, t) == WithTime(s[1..], t);
      } else {
        assert WithTime(Insert(f, s), t) == WithTime(rest, t);
        assert WithTime(s, t) == WithTime(s[1..], t);
      }
    }
  }

  /** The ordering `OrderByDescending` applies to a folder's files: newest
      first, keeping enumeration order among files with equal times. */
  function SortNewestFirst(s: seq<FileEntry>): (r: seq<FileEntry>)
    ensures NewestFirst(r)
    ensures multiset(r) == multiset(s)
  {
    if |s| == 0 then []
    else
      assert s == [s[0]] + s[1..];
      Insert(s[0], SortNewestFirst(s[1..]))
  }

  /** Stability: sorting keeps, for every creation time, the enumeration
      order of the files with that time. */
  lemma {:induction false} SortKeepsOrderWithinTime(s: seq<FileEntry>, t: int)
    ensures WithTime(SortNewestFirst(s), t) == WithTime(s, t)
    decreases |s|
  {
    if |s| > 0 {
      SortKeepsOrderWithinTime(s[1..], t);
      InsertWithTime(s[0], SortNewestFirst(s[1..]), t);
      WithTimeCons(s[0], s[1..], t);
      assert s == [s[0]] + s[1..];
    }
  }

  /** The newest file of a newest-first sequence is at least as new as any
      time that occurs in it. */
  lemma {:induction false} NewestHeadBound(s: seq<FileEntry>, t: int)
    requires NewestFirst(s) && WithTime(s, t) != []
    ensures |s| > 0 && s[0].created >= t
    decreases |s|
  {
    if s[0].created != t {
      assert WithTime(s, t) == WithTime(s[1..], t);
      NewestHeadBound(s[1..], t);
    }
  }

  /** Newest-first order together with the per-time enumeration order pins
      the result down completely: no other arrangement of the files has
      both properties. */
  lemma {:induction false} NewestFirstIsUnique(a: seq<FileEntry>, b: seq<FileEntry>)
    requires NewestFirst(a) && NewestFirst(b)
    requires forall t :: WithTime(a, t) == WithTime(b, t)
    ensures a == b
    decreases |a| + |b|
  {
    if |a| > 0 {
      assert WithTime(a, a[0].created) != [];
    }
    if |b| > 0 {
      assert WithTime(b, b[0].created) != [];
    }
    if |a| > 0 && |b| > 0 {
      var ta := a[0].created;
      var tb := b[0].created;
      assert WithTime(a, ta)[0] == a[0];
      assert WithTime(b, tb)[0] == b[0];
      NewestHeadBound(b, ta);
      NewestHeadBound(a, tb);
      assert ta == tb;
      assert a[0] == b[0];
      forall t
        ensures WithTime(a[1..], t) == WithTime(b[1..], t)
      {
        assert WithTime(a, t) == WithTime(b, t);
        WithTimeCons(a[0], a[1..], t);
        WithTimeCons(b[0], b[1..], t);
        assert a == [a[0]] + a[1..];
        assert b == [b[0]] + b[1..];
        var head := if a[0].created == t then [a[0]] else [];
        assert head + WithTime(a[1..], t) == head + WithTime(b[1..], t);
        assert (head + WithTime(a[1..], t))[|head|..] == WithTime(a[1..], t);
        assert (head + WithTime(b[1..], t))[|head|..] == WithTime(b[1..], t);
      }
      NewestFirstIsUnique(a[1..], b[1..]);
      assert a == [a[0]] + a[1..];
      assert b == [b[0]] + b[1..];
    }
  }

  /** The listing counter: entries numbered consecutively from `start`. */
  function NumberFrom(s: seq<FileEntry>, start: nat): (r: seq<ListedFile>)
    ensures |r| == |s|
    ensures forall i :: 0 <= i < |r| ==> r[i].number == start + i && r[i].file == s[i]
  {
    if |s| == 0 then []
    else [ListedFile(start, s[0])] + NumberFrom(s[1..], start + 1)
  }

  function Files(entries: seq<ListedFile>): (r: seq<FileEntry>)
    ensures |r| == |entries|
    ensures forall i :: 0 <= i < |r| ==> r[i] == entries[i].file
  {
    seq(|entries|, i requires 0 <= i < |entries| => entries[i].file)
  }

  /** The `list` command. `player` is the lookup's answer (the identity
      id), `foldersOf` the player's folder names in enumeration order and
      `filesOf` the files of one of that player's folders. */
  function List(player: Option<int>, token: Option<string>,
                foldersOf: int -> seq<string>, filesOf: (int, string) -> seq<FileEntry>): (r: ListOutcome)
    ensures r.PlayerNotFound? <==> player.None?
    ensures player.Some? && token.None? ==> r == Folders(foldersOf(player.value))
    ensures player.Some? && token.Some? ==>
              var search := FindFolderName(foldersOf(player.value), token.value);
              && (r.GridNotFound? <==> search.NotFound?)
              && (r.MalformedFolder? <==> search.MalformedName?)
              && (r.Snapshots? <==> search.Found?)
              && (search.Found? ==> r == Snapshots(search.name, r.entries))
              && (search.MalformedName? ==> r == MalformedFolder(search.name))
    ensures r.Snapshots? ==>
              && r.folder in foldersOf(player.value)
              && var files := filesOf(player.value, r.folder);
                 && (forall i :: 0 <= i < |r.entries| ==> r.entries[i].number == i + 1)
                 && NewestFirst(Files(r.entries))
                 && multiset(Files(r.entries)) == multiset(files)
                 && (forall t :: WithTime(Files(r.entries), t) == WithTime(files, t))
  {
    match player
    case None => PlayerNotFound
    case Some(id) =>
      var dirs := foldersOf(id);
      match token
      case None => Folders(dirs)
      case Some(tok) =>
        match FindFolderName(dirs, tok)
        case NotFound => GridNotFound
        case MalformedName(name) => MalformedFolder(name)
        case Found(folder, _) =>
          var sorted := SortNewestFirst(filesOf(id, folder));
          var entries := NumberFrom(sorted, 1);
          assert Files(entries) == sorted;
          assert forall t :: WithTime(sorted, t) == WithTime(filesOf(id, folder), t) by {
            forall t
              ensures WithTime(sorted, t) == WithTime(filesOf(id, folder), t)
            {
              SortKeepsOrderWithinTime(filesOf(id, folder), t);
            }
          }
          Snapshots(folder, entries)
  }
}
