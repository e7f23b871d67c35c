# Grid backup commands: selection and matching rules

A Dafny model of the decision logic in the operator commands of a grid
backup plugin for a space-building game server. Backups of a player's grids
live in one folder per grid, named `<gridName>_<entityId>`, each folder
holding one file per snapshot. The model covers:

- **Folder-name splitting** (`FolderNames`): a folder name is cut at its
  last underscore into grid name and entity id; a name without an
  underscore has no cut.
- **Glob matching** (`Glob`): the grid token of the `list` command is a
  pattern where `?` is one character, `*` is any run of characters, every
  other character is literal, and the match covers the whole grid name.
- **Folder search** (`FolderSearch`): the first folder, in directory
  enumeration order, whose entity id equals the token as text or whose grid
  name matches the token as a pattern.
- **Biggest-grid selection and the `save` outcome** (`GridSelection`): the
  grid with the strictly largest block count, the first one on a tie, and
  the classification of the resolver's answer into "ambiguous", "nothing
  found", "no owner" and "export under this owner".
- **Backup listing** (`Listing`): folder names as enumerated, or one
  folder's files ordered newest first by creation time, stably, and
  numbered from 1.

The collaborators the commands call, namely the player lookup, the grid
resolver and the directory reads, are parameters of the model: the
player lookup's answer is an `Option<int>`, the grid resolver is a
function from token and viewpoint to `Option<seq<Grid>>` (`None` for its
`null`), and the directories are functions from identity id (and folder
name) to sequences of names or file records.

Two behaviours of the code worth noting:

- The entity-id test compares text; it does not parse numbers. The token
  `042` does not select folder `Ship_42`.
- A folder name without an underscore is not skipped. The code's
  `Substring(0, -1)` throws and ends the search. The model returns
  `MalformedName` (search) / `MalformedFolder` (listing) when such a folder
  is reached before any match.

## Model

| member | source | states |
|---|---|---|
| FolderNames.LastIndexOf | BackupCommands.cs:99 | the result is -1 or an index of the character, and no later position holds it |
| FolderNames.Split | BackupCommands.cs:98-102 | there is no cut exactly when the name holds no underscore; otherwise grid name, `_` and entity id rejoin to the name, and the entity id holds no underscore |
| FolderNames.SplitJoin | BackupCommands.cs:98-102 | every name built as grid name + `_` + underscore-free id splits back into exactly that grid name and id, even when the grid name holds underscores |
| Glob.GlobMatchIsGlobSpec | BackupCommands.cs:118-120 | the matcher agrees, for every pattern and text, with a reference semantics where `*` stands for some prefix of any length and `?` for one character |
| Glob.LiteralPatternMatchesOnlyItself | BackupCommands.cs:118-120 | a pattern without `?` or `*` matches exactly the identical text: other characters, `.` included, are literal and the match is anchored |
| Glob.MatchLength | BackupCommands.cs:118-120 | a matched text is at least as long as the pattern's non-`*` characters, and exactly as long as the pattern when it holds no `*` |
| Glob.QuestionMarkMatchesOneCharacter | BackupCommands.cs:119 | the pattern `?` matches exactly the one-character texts |
| Glob.StarMatchesAnyRun | BackupCommands.cs:119 | the pattern `*` matches every text, the empty one included |
| Glob.StarBetweenLiterals | BackupCommands.cs:111-120 | `a*b` with literal `a`, `b` matches exactly the texts that start with `a` and end with `b` without overlap |
| FolderSearch.FindFolderName | BackupCommands.cs:94-116 | a found name is one of the folders; nothing is found exactly when every folder is skipped; otherwise the result is what the first non-skipped folder decides |
| FolderSearch.FirstDecidingFolderWins | BackupCommands.cs:96-113 | the first folder that does not skip fixes the result; no later folder changes it |
| FolderSearch.NotFoundIffNoFolderPasses | BackupCommands.cs:94-116 | with well-formed names, nothing is found exactly when no folder passes the entity-id test or the pattern test |
| FolderSearch.EntityIdTestComesFirst | BackupCommands.cs:108-112 | a folder whose id text equals the token is decided by the id test, whatever its grid name and even if that name would match the token as a pattern too |
| FolderSearch.EarlierPatternBeatsLaterId | BackupCommands.cs:96-113 | an earlier folder matching by pattern wins over a later folder matching by exact id |
| FolderSearch.LiteralTokenIsExact | BackupCommands.cs:108-111 | a token without wildcards selects a folder only as its exact id text or its exact grid name |
| FolderSearch.MalformedNameAborts | BackupCommands.cs:98-102 | a folder without an underscore reached before any match ends the search with an error |
| GridSelection.SelectBiggest | BackupCommands.cs:169-173 | there is no choice only for an empty list; otherwise the choice has the largest block count and every earlier grid is strictly smaller |
| GridSelection.FirstMaximumIsUnique | BackupCommands.cs:169-173 | only one index is a first maximum, so the block counts alone fix the selection |
| GridSelection.Save | BackupCommands.cs:136-185 | a missing token needs an in-game caller with a character; the resolver's null means ambiguous and its empty list means nothing found, both before selection; otherwise the biggest grid is reported as ownerless or exported under its first owner |
| GridSelection.SaveAsWritten | BackupCommands.cs:136-183 | the code as written: each early check sends its reply and stops; past selection, an ownerless first-maximum grid gets "Grid has no ownership!" and then the read of its first owner throws; otherwise the first owner and the grid list are handed to the export |
| GridSelection.CorrectedDiffersOnlyOnOwnerless | BackupCommands.cs:136-183 | on every input the code as written and the corrected flow send the same replies and make the same export request; they differ only where the corrected flow stops on an ownerless grid and the code as written throws |
| Listing.Insert | BackupCommands.cs:69 | inserting into a newest-first sequence keeps it newest first and adds exactly the one file |
| Listing.InsertWithTime | BackupCommands.cs:69 | an inserted file goes ahead of the files with the same time; files with other times keep their order |
| Listing.SortNewestFirst | BackupCommands.cs:69 | the ordered files are newest first and are a permutation of the folder's files |
| Listing.SortKeepsOrderWithinTime | BackupCommands.cs:69 | the ordering is stable: files with equal creation times keep their enumeration order |
| Listing.NewestFirstIsUnique | BackupCommands.cs:69 | newest-first order plus stability leave exactly one possible arrangement |
| Listing.NumberFrom | BackupCommands.cs:71-73 | the entries are numbered consecutively from the start value, in order |
| Listing.List | BackupCommands.cs:30-74 | an unknown player is reported; without a token the folder names come back unchanged in enumeration order; with a token the search result decides: nothing found is reported, a malformed name is reported with the name the search stopped on, and the folder the search returned has its files are listed newest first, stably, as a permutation numbered from 1 |

## Findings

| source | as written | input that shows it | evidently intended | confidence | as-written member | corrected member |
|---|---|---|---|---|---|---|
| BackupCommands.cs:179-183 | after reporting "Grid has no ownership!" the command goes on to read `BigOwners[0]` | a resolved grid list whose biggest grid has an empty `BigOwners` list | stop after the message and export nothing | high; not executed | GridSelection.SaveAsWritten | GridSelection.Save |

## Left out

- `Restore`: the command only looks the player up and then does nothing (BackupCommands.cs:122-132).
- `Run`: it only forwards to the plugin's manual-start entry point, whose run-state logic is not part of this model (BackupCommands.cs:191-205).
- The export itself (`BackupQueue.BackupSignleGridStatic`) and the "Export Complete!"/"Export Failed!" reply: `Save` stops at the `Export` outcome, which carries the owner id and the grids that would be handed to it.
- The grid resolver (`GridFinder.FindGridList`) and the player lookup (`PlayerUtils.GetIdentityByNameOrId`): not part of this model; their answers are parameters.
- Path construction (`CreatePath`, `CreatePathForPlayer`, `Path.Combine`) and all directory access: folders and files are given as sequences of names and records.
- Reply text and routing (console reply or in-game dialog, the "Backed up Grids for Player" headers) and logging: these are output only and affect no decision.
- The size column `(Length/1024.0).ToString("#,##0.00")`: floating point and culture-dependent formatting; file lengths are kept in the records but not formatted.
- .NET regular-expression details: `.` not matching a newline and `$` matching before a final newline. Names are taken to contain no newline, and under that assumption the escaped, anchored expression is the glob semantics modelled here.
- The "Grid incompatible!" branch (BackupCommands.cs:175-177): grids are modelled as non-null records, so the selection loop always picks one, which `SelectBiggest` proves. The source reaches this branch only on a list of null grids, where it also falls through, to a null dereference at line 180.
- Text encoding and comparison: names are sequences of Unicode scalar values compared ordinally. The source works on UTF-16 strings, where the `.` that stands for `?` consumes one UTF-16 code unit, and its `LastIndexOf("_")` is a culture-sensitive search. The model agrees with the source for names made of Basic Multilingual Plane characters on which the culture-sensitive search finds the same underscore as an ordinal one; a character outside that plane (token `?` against a grid name made of the single character U+1F600) is one character here and two code units there.
