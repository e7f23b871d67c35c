/** Resolving the `list` command's grid token against the player's snapshot
    folders. Folders are visited in directory enumeration order; each one is
    cut at its last underscore, then the token is compared with the entity
    id as text and, failing that, used as a glob pattern on the grid name.
    The first folder that passes either test is the answer. */
module FolderSearch {
  import opened Optional
  import opened FolderNames
  import opened Glob

  /** Which of the two tests picked the folder. */
  datatype MatchRule = ByEntityId | ByGridName

  /** What one folder says about a token: go on to the next folder, stop
      with a match, or stop because its name cannot be cut. */
  datatype Verdict = Skip | Hit(rule: MatchRule) | Unsplittable

  /** Result of the search. `MalformedName` stands for the exception the
      source raises on a folder name without an underscore; it ends the
      search like a match does. */
  datatype Search = Found(name: string, rule: MatchRule) | NotFound | MalformedName(name: string)

  function Examine(name: string, token: string): Verdict
  {
    match Split(name)
    case None => Unsplittable
    case Some(f) =>
      if f.entityId == token then Hit(ByEntityId)
      else if GlobMatch(token, f.gridName) then Hit(ByGridName)
      else Skip
  }

  /** The search result that a folder with a deciding verdict produces. */
  function Outcome(name: string, v: Verdict): Search
  {
    match v
    case Hit(rule) => Found(name, rule)
    case Unsplittable => MalformedName(name)
    case Skip => NotFound
  }

  /** Folder `i` is the first one whose verdict is not `Skip`. */
  ghost predicate DecidedAt(dirs: seq<string>, token: string, i: int)
  {
    && 0 <= i < |dirs|
    && !Examine(dirs[i], token).Skip?
    && forall j :: 0 <= j < i ==> Examine(dirs[j], token).Skip?
  }

  function FindFolderName(dirs: seq<string>, token: string): (r: Search)
    ensures r.Found? ==> r.name in dirs
    ensures r.NotFound? <==> forall i :: 0 <= i < |dirs| ==> Examine(dirs[i], token).Skip?
    ensures !r.NotFound? ==>
              exists i :: DecidedAt(dirs, token, i) && r == Outcome(dirs[i], Examine(dirs[i], token))
  {
    if |dirs| == 0 then NotFound
    else
      var v := Examine(dirs[0], token);
      if v.Skip? then
        var r := FindFolderName(dirs[1..], token);
        assert forall i :: 0 < i < |dirs| ==> dirs[i] == dirs[1..][i - 1];
        r
      else
        assert DecidedAt(dirs, token, 0);
        Outcome(dirs[0], v)
  }

  /** The answer is fixed by the first folder that does not skip: a later
      folder never overrides it, whatever test it would pass. */
  lemma {:induction false} FirstDecidingFolderWins(dirs: seq<string>, token: string, i: int)
    requires DecidedAt(dirs, token, i)
    ensures FindFolderName(dirs, token) == Outcome(dirs[i], Examine(dirs[i], token))
    decreases i
  {
    if i > 0 {
      assert Examine(dirs[0], token).Skip?;
      assert forall j :: 0 <= j < i - 1 ==> dirs[1..][j] == dirs[j + 1];
      assert DecidedAt(dirs[1..], token, i - 1);
      FirstDecidingFolderWins(dirs[1..], token, i - 1);
    }
  }

  /** When every folder name can be cut, the search comes back empty exactly
      when no folder passes either the entity-id test or the pattern test. */
  lemma NotFoundIffNoFolderPasses(dirs: seq<string>, token: string)
    requires forall i :: 0 <= i < |dirs| ==> '_' in dirs[i]
    ensures FindFolderName(dirs, token).NotFound? <==>
              forall i :: 0 <= i < |dirs| ==>
                var f := Split(dirs[i]).value;
                f.entityId != token && !GlobMatch(token, f.gridName)
  {
  }

  /** Within one folder the entity-id test comes first: a folder whose id
      equals the token is reported as matched by id even when its grid
      name would match the token as a pattern as well. */
  lemma EntityIdTestComesFirst(g: string, token: string)
    requires '_' !in token
    ensures Examine(Join(FolderName(g, token)), token) == Hit(ByEntityId)
  {
    SplitJoin(FolderName(g, token));
  }

  /** Across folders, order of enumeration beats the kind of test: a pattern
      match on an earlier folder wins over an exact id match on a later one. */
  lemma EarlierPatternBeatsLaterId(dirs: seq<string>, token: string, i: int, k: int)
    requires DecidedAt(dirs, token, i) && Examine(dirs[i], token) == Hit(ByGridName)
    requires i < k < |dirs| && Examine(dirs[k], token) == Hit(ByEntityId)
    ensures FindFolderName(dirs, token) == Found(dirs[i], ByGridName)
  {
    FirstDecidingFolderWins(dirs, token, i);
  }

  /** The entity-id test compares text and parses nothing, and a token with
      no wildcards is a literal grid name: such a token selects a folder
      only by being its exact id or its exact grid name, so `042` does not
      find `Ship_42`. */
  lemma LiteralTokenIsExact(name: string, token: string)
    requires '_' in name && NoWildcards(token)
    ensures var f := Split(name).value;
            Examine(name, token).Hit? <==> token == f.entityId || token == f.gridName
  {
    LiteralPatternMatchesOnlyItself(token, Split(name).value.gridName);
  }

  /** A folder that cannot be cut stops the search when it comes before any
      match, even if a later folder would match. */
  lemma MalformedNameAborts(dirs: seq<string>, token: string, i: int)
    requires 0 <= i < |dirs| && '_' !in dirs[i]
    requires forall j :: 0 <= j < i ==> Examine(dirs[j], token).Skip?
    ensures FindFolderName(dirs, token) == MalformedName(dirs[i])
  {
    FirstDecidingFolderWins(dirs, token, i);
  }
}
