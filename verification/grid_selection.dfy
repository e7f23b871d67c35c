/** The `save` command: pick the grids to export and the identity to file
    them under. The grid resolver is a collaborator whose code is not part
    of this model; it is passed in as a function from the command's token
    and viewpoint to its answer, where `None` stands for its `null`
    ("several grids match"). */
module GridSelection {
  import opened Optional

  /** A grid as far as `save` looks at it: its id, its block count and its
      owner list, main owner first. */
  datatype Grid = Grid(entityId: int, blocksCount: int, bigOwners: seq<int>)

  /** Who issued the command: the server console, or an in-game player
      whose character may or may not exist (its entity id when it does). */
  datatype Caller = Console | InGame(character: Option<int>)

  datatype SaveOutcome =
    | NeedGridName             // console caller gave no grid token
    | NoCharacter              // in-game caller without a character gave no token
    | MultipleGrids            // the resolver could not tell grids apart
    | NoGrids                  // the resolver found nothing
    | NoOwnership(biggest: Grid)
    | Export(ownerId: int, biggest: Grid, grids: seq<Grid>)

  /** `k` is the grid the selection loop settles on: a largest one, and the
      first among equals. */
  ghost predicate IsFirstMaximum(grids: seq<Grid>, k: int)
  {
    && 0 <= k < |grids|
    && (forall j :: 0 <= j < |grids| ==> grids[j].blocksCount <= grids[k].blocksCount)
    && (forall j :: 0 <= j < k ==> grids[j].blocksCount < grids[k].blocksCount)
  }

  /** The selection loop of `save`: starting from no grid, a grid replaces
      the current choice only when its block count is strictly larger. */
  method SelectBiggest(grids: seq<Grid>) returns (best: Option<nat>)
    ensures best.None? <==> |grids| == 0
    ensures best.Some? ==> IsFirstMaximum(grids, best.value)
  {
    best := None;
    var i := 0;
    while i < |grids|
      invariant 0 <= i <= |grids|
      invariant best.None? <==> i == 0
      invariant best.Some? ==> IsFirstMaximum(grids[..i], best.value)
    {
      if best.None? || grids[best.value].blocksCount < grids[i].blocksCount {
        best := Some(i);
      }
      i := i + 1;
    }
    assert grids[..i] == grids;
  }

  /** Only one index can be the first maximum, so the loop's choice is the
      one fixed by the block counts alone. */
  lemma FirstMaximumIsUnique(grids: seq<Grid>, k1: int, k2: int)
    requires IsFirstMaximum(grids, k1) && IsFirstMaximum(grids, k2)
    ensures k1 == k2
  {
    assert grids[k1].blocksCount == grids[k2].blocksCount;
  }

  /** The character the resolver looks from: only consulted when no token
      is given, and only for an in-game caller. */
  function Viewpoint(token: Option<string>, caller: Caller): Option<int>
  {
    if token.None? && caller.InGame? then caller.character else None
  }

  /** The decision part of `save`, up to the call that exports the grids.
      The checks run in the source's order: a missing token first needs an
      in-game caller with a character; then the resolver's "ambiguous" and
      "nothing" answers are reported before any selection; then the biggest
      grid must have an owner. */
  method Save(token: Option<string>, caller: Caller,
              resolve: (Option<string>, Option<int>) -> Option<seq<Grid>>)
    returns (r: SaveOutcome)
    ensures r.NeedGridName? <==> token.None? && caller.Console?
    ensures r.NoCharacter? <==> token.None? && caller.InGame? && caller.character.None?
    ensures (token.Some? || Viewpoint(token, caller).Some?) ==>
              var found := resolve(token, Viewpoint(token, caller));
              && (r.MultipleGrids? <==> found.None?)
              && (r.NoGrids? <==> found == Some([]))
              && (found.Some? && found.value != [] ==> r.NoOwnership? || r.Export?)
    ensures r.NoOwnership? ==>
              exists k :: IsFirstMaximum(resolve(token, Viewpoint(token, caller)).value, k)
                && r.biggest == resolve(token, Viewpoint(token, caller)).value[k]
                && r.biggest.bigOwners == []
    ensures r.Export? ==>
              && resolve(token, Viewpoint(token, caller)) == Some(r.grids)
              && (exists k :: IsFirstMaximum(r.grids, k) && r.biggest == r.grids[k])
              && |r.biggest.bigOwners| > 0
              && r.ownerId == r.biggest.bigOwners[0]
  {
    if token.None? {
      if caller.Console? {
        return NeedGridName;
      }
      if caller.character.None? {
        return NoCharacter;
      }
    }
    var found := resolve(token, Viewpoint(token, caller));
    if found.None? {
      return MultipleGrids;
    }
    var grids := found.value;
    if |grids| == 0 {
      return NoGrids;
    }
    var best := SelectBiggest(grids);
    var biggest := grids[best.value];
    if |biggest.bigOwners| == 0 {
      return NoOwnership(biggest);
    }
    return Export(biggest.bigOwners[0], biggest, grids);
  }

  /** The replies `save` sends, word for word. */
  const NeedGridNameText := "You need to enter a Grid name where the grid will be spawned at."
  const NoCharacterText := "Player has no character to spawn the grid close to!"
  const MultipleGridsText := "Multiple grids found. Try to rename them first or try a different subgrid for identification!"
  const NoGridsText := "No grids found. Check your viewing angle or try the correct name!"
  const NoOwnershipText := "Grid has no ownership!"

  /** The owner id and grid list handed to the export. */
  datatype Handover = Handover(ownerId: int, grids: seq<Grid>)

  /** What a run of `save` shows from outside: the replies sent before the
      export, the export request if one is made, and whether it throws. */
  datatype Run = Run(replies: seq<string>, handover: Option<Handover>, throws: bool)

  /** The replies that go with an outcome of the corrected flow. */
  function Replies(r: SaveOutcome): seq<string>
  {
    match r
    case NeedGridName => [NeedGridNameText]
    case NoCharacter => [NoCharacterText]
    case MultipleGrids => [MultipleGridsText]
    case NoGrids => [NoGridsText]
    case NoOwnership(_) => [NoOwnershipText]
    case Export(_, _, _) => []
  }

  function HandoverOf(r: SaveOutcome): Option<Handover>
  {
    if r.Export? then Some(Handover(r.ownerId, r.grids)) else None
  }

  /** `save` as written. After the ownership message there is no return, so
      the code goes on to read the first owner of an empty list, which
      throws. (The "Grid incompatible!" branch before it needs a null grid
      and is not reachable with grid records.) */
  method SaveAsWritten(token: Option<string>, caller: Caller,
                       resolve: (Option<string>, Option<int>) -> Option<seq<Grid>>)
    returns (w: Run)
    ensures token.None? && caller.Console? ==> w == Run([NeedGridNameText], None, false)
    ensures token.None? && caller.InGame? && caller.character.None? ==>
              w == Run([NoCharacterText], None, false)
    ensures (token.Some? || Viewpoint(token, caller).Some?) ==>
              var found := resolve(token, Viewpoint(token, caller));
              && (found.None? ==> w == Run([MultipleGridsText], None, false))
              && (found == Some([]) ==> w == Run([NoGridsText], None, false))
              && (found.Some? && found.value != [] ==>
                    exists k :: IsFirstMaximum(found.value, k) &&
                      var owners := found.value[k].bigOwners;
                      if owners == [] then w == Run([NoOwnershipText], None, true)
                      else w == Run([], Some(Handover(owners[0], found.value)), false))
  {
    var replies := [];
    if token.None? {
      if caller.Console? {
        return Run([NeedGridNameText], None, false);
      }
      if caller.character.None? {
        return Run([NoCharacterText], None, false);
      }
    }
    var found := resolve(token, Viewpoint(token, caller));
    if found.None? {
      return Run([MultipleGridsText], None, false);
    }
    var grids := found.value;
    if |grids| == 0 {
      return Run([NoGridsText], None, false);
    }
    var best := SelectBiggest(grids);
    var biggest := grids[best.value];
    if |biggest.bigOwners| == 0 {
      replies := replies + [NoOwnershipText];
    }
    // Reading `BigOwners[0]` of an empty list throws.
    if |biggest.bigOwners| == 0 {
      return Run(replies, None, true);
    }
    return Run(replies, Some(Handover(biggest.bigOwners[0], grids)), false);
  }

  /** The missing return is the only difference: on every input the code as
      written and the corrected flow send the same replies and make the same
      export request, except that where the corrected flow stops on an
      ownerless grid, the code as written sends the message and then throws. */
  method CorrectedDiffersOnlyOnOwnerless(token: Option<string>, caller: Caller,
                                         resolve: (Option<string>, Option<int>) -> Option<seq<Grid>>)
    returns (r: SaveOutcome, w: Run)
    ensures w.replies == Replies(r)
    ensures w.handover == HandoverOf(r)
    ensures w.throws <==> r.NoOwnership?
  {
    r := Save(token, caller, resolve);
    w := SaveAsWritten(token, caller, resolve);
    if r.NoOwnership? || r.Export? {
      var grids := resolve(token, Viewpoint(token, caller)).value;
      ghost var k1 :| IsFirstMaximum(grids, k1) && r.biggest == grids[k1];
      ghost var k2 :| IsFirstMaximum(grids, k2) &&
        var owners := grids[k2].bigOwners;
        if owners == [] then w == Run([NoOwnershipText], None, true)
        else w == Run([], Some(Handover(owners[0], grids)), false);
      FirstMaximumIsUnique(grids, k1, k2);
    }
  }
}
