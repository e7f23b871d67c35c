/** Snapshot folders are named `<gridName>_<entityId>`. The `list` command
    recovers the two parts by cutting the name at its LAST underscore, so a
    grid name may itself contain underscores but an entity id may not. */
module FolderNames {
  import opened Optional

  /** The two halves of a snapshot folder name. */
  datatype FolderName = FolderName(gridName: string, entityId: string)

  /** The folder name that the backup layout writes for a grid. */
  function Join(f: FolderName): string
  {
    f.gridName + "_" + f.entityId
  }

  /** Position of the last `c` in `s`, or -1 when `s` holds no `c`: the
      result convention of `String.LastIndexOf`. */
  function LastIndexOf(s: string, c: char): (r: int)
    ensures -1 <= r < |s|
    ensures r >= 0 ==> s[r] == c
    ensures forall j :: r < j < |s| ==> s[j] != c
  {
    if |s| == 0 then -1
    else if s[|s| - 1] == c then |s| - 1
    else LastIndexOf(s[..|s| - 1], c)
  }

  /** Cuts a folder name at its last underscore. A name without any
      underscore has no such cut: there `LastIndexOf` gives -1 and the
      following `Substring(0, -1)` throws, which is `None` here. */
  function Split(name: string): (r: Option<FolderName>)
    ensures r.None? <==> '_' !in name
    ensures r.Some? ==> Join(r.value) == name && '_' !in r.value.entityId
  {
    var i := LastIndexOf(name, '_');
    if i < 0 then None
    else
      var f := FolderName(name[..i], name[i + 1..]);
      assert name == name[..i] + [name[i]] + name[i + 1..];
      Some(f)
  }

  /** Splitting undoes joining: every name written as `grid + "_" + id`
      with an underscore-free id is read back as exactly that grid name and
      id, however many underscores the grid name holds. */
  lemma SplitJoin(f: FolderName)
    requires '_' !in f.entityId
    ensures Split(Join(f)) == Some(f)
  {
    var name := Join(f);
    var g := |f.gridName|;
    assert name[g] == '_';
    var i := LastIndexOf(name, '_');
    assert i >= g;
    assert i == g by {
      assert forall j :: g < j < |name| ==> name[j] == f.entityId[j - g - 1];
    }
    assert name[..g] == f.gridName;
    assert name[g + 1..] == f.entityId;
  }
}
