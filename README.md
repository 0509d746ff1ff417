# World explorer core, modelled in Dafny

This project models the logic of a tile-exploration game. The player
walks a character over a world of square tiles, picks up crystals and
precious stones, and hands them in at beacons whose light holds back the
darkness. Staying in the dark too long ends the game.

The model has these parts:

- `wrappers.dfy` (`Wrappers`): the `Option` type.
- `constants.dfy` (`Constants`): the tables of `tools/tools_constants.py`.
  Tiles become a closed datatype `Tile` whose `Code` is the source's string.
  The capability table `DICT_TILES_MOVEMENT` is kept as written, keyed by
  `Option<string>`, and tied to the typed `Capabilities` function by a lemma.
  So are `DICT_TREASURE_STONES`, `DICT_ORIENTATIONS`,
  `DICT_DISPLAY_ORIENTATIONS` and `DICT_TILES_TEXTURE`. `MyCollection` is a
  class with the found-stones record and the high score as fields.
- `map_gen.dfy` (`MapGen`): the room generator and connectivity check of
  `tools/tools_map.py`. A room is a `seq<seq<Tile>>` indexed `grid[y][x]`,
  as the generator writes it. The random draws are oracle parameters:
  `dirs(k)` is the k-th drawn direction, `crystalAt(p)` the crystal draw of
  cell p, and `stoneAt(p)` the stone drawn for cell p, if any. Each loop of
  the source is a method proved against a specification function: `Walk`
  and `Trail` for the digger, `Paint` for its writes, `LaidOut` and
  `Anchors` for the room before digging, and `Joinable` for the search.
- `grid_map.dfy` (`WorldGrid`): the sparse world map `GridMap`, a class
  whose `tiles` map and `offsetList` are updated in place.
- `explorer_rules.dfy` (`ExplorerRules`): the pure rules of the explorer
  screen. These are the four-way facing, the eight-way sprite, the key
  table lookups, and the list operations behind the pressed-key list.
- `explorer.dfy` (`Explorer`): `WorldExplorerScreen` as a class with the
  screen's game fields. It covers movement, interaction, the beacon, the
  darkness counter, the game-over timer, the key lists, and building and
  expanding the world. Room generation and the axis draw of the beacon
  direction are oracles (`Randomness`). The methods are specified against
  value snapshots of the screen: `CharacterState` (position, facing,
  darkness counters, frame), `BagState` (score, bag, radius, collection)
  and `WorldState` (beacon, map, generator). Functions and predicates on
  them state each step: `Moved`, `Darkened` and `Tick` for the character,
  `FadedBag` and `FadedWorld` for the fade, `PickedUp`, `HandedIn` and
  `Interacted` for a released key, and `Relocated` and `Expanded` for a
  new beacon and the growth of the world.
- `map_text.dfy` (`MapText`): `grid_to_string` and `load_grid_map`. The
  Python string built-ins they use (`readlines`, `replace`, `split`) are
  written out on `seq<char>`. A lemma proves that loading the text of a
  room gives back the codes of its rows.

Some quirks of the source are kept as written:

- `are_points_joinable` reads `grid[x][y]`, while the generator writes
  `grid[y][x]`. So the search runs on the transposed room.
  `MapGen.AllSidesJoinedTransposed` shows this is harmless for the beacon
  check: the transpose maps the centre onto itself and swaps the side
  midpoints among themselves.
- `dig_ways` never adds the cells it digs to the anchor list. Each walk
  only avoids the original anchors.
- `add_submap` returns a `ValueError` value instead of raising it. It is
  `WorldGrid.AddResult.SizeMismatch`, and nothing is written.
- The screen starts with `character_orientation == "bottom"`, which is a
  key of `DICT_ORIENTATIONS`, not a value. `get_next_tile` would fail on
  it, so `GetNextTile` answers `None` there. Every tick sets the facing
  before any interaction, so the interaction code never sees it.
- A released interact key acts on the tile under the character first,
  and only then on the faced tile.

## Model

| member | source | states |
|---|---|---|
| `Constants.CapabilitiesTable` | tools/tools_constants.py:235-263 | the capability list of every tile, and of the absent tile, is its `DICT_TILES_MOVEMENT` entry |
| `Constants.TilesMovementKeys` | tools/tools_constants.py:235-263 | the capability table has entries for exactly the absent tile and the codes of the tiles |
| `Constants.StonesMoveAndInteract` | tools/tools_constants.py:186-208 | every one of the 21 stone codes maps to `[INTERACT, MOVE]` in the capability table |
| `Constants.MoveAndStopExclusive` | tools/tools_constants.py:235-263 | no capability list contains both `MOVE` and `STOP` |
| `Constants.TreasureStonesNamed` | tools/tools_constants.py:186-208 | each stone's code is a key of `DICT_TREASURE_STONES`, naming that stone |
| `Constants.TreasureStonesOnlyStones` | tools/tools_constants.py:186-208 | every key of `DICT_TREASURE_STONES` is the code of some stone |
| `Constants.StoneOfCode` | tools/tools_constants.py:186-208 | a stone code decodes to the stone with that code |
| `Constants.TileOfCode` | tools/tools_constants.py:235-263 | a key of the capability table decodes to the tile with that code |
| `Constants.MovementKeyIsStone` | tools/tools_constants.py:235-263 | past the five single-letter codes, the capability keys are stone codes |
| `Constants.TextureCodesDisjoint` | tools/tools_constants.py:177-208 | the single-letter texture codes are not stone codes, and no tile is coded as the blank `"O"` |
| `Constants.TextureKeysNotStones` | tools/tools_constants.py:177-208 | the keys of `DICT_TILES_TEXTURE` and `DICT_TREASURE_STONES` are disjoint |
| `Constants.CodeInjective` | tools/tools_constants.py:177-208 | distinct tiles have distinct codes |
| `Constants.DirValueTable` | tools/tools_constants.py:217-222 | each direction's value is its name's entry in `DICT_ORIENTATIONS` |
| `Constants.OrientationsDistinct` | tools/tools_constants.py:217-222 | `DICT_ORIENTATIONS` has the four direction names as keys and four distinct values |
| `Constants.DisplayOrientationsKeys` | tools/tools_constants.py:223-232 | `DICT_DISPLAY_ORIENTATIONS` has exactly the four cardinals and left_/right_ combined with bottom/top |
| `Constants.KeepMax` | tools/tools_constants.py:152-156 | the kept score is at least both scores and equal to one of them |
| `Constants.MyCollection.FindNewStone` | tools/tools_constants.py:147-150 | the stone's name is marked found; every other entry and the high score are unchanged |
| `Constants.MyCollection.UpdateHighScore` | tools/tools_constants.py:152-156 | the high score becomes the max of old and new, unchanged when the score is not higher; the collection is unchanged |
| `MapGen.SetAt` | tools/tools_map.py:48 | writing one cell changes that cell and no other |
| `MapGen.RoomsEqual` | tools/tools_map.py:62-69 | two rooms agreeing on every cell are equal |
| `MapGen.GetPositionFromDirection` | tools/tools_map.py:17-25 | the position moves one step, to a 4-neighbour |
| `MapGen.DirectionsAreNeighbours` | tools/tools_map.py:17-25 | the four directions reach exactly the four neighbours, distinct directions reach distinct cells, and the opposite direction steps back |
| `MapGen.CheckPositionValid` | tools/tools_map.py:31-38 | true iff the position is not an anchor and both coordinates lie in [0, MAP_SIZE) |
| `MapGen.TryStep` | tools/tools_map.py:43-51 | one step uses at most NUMBER_TRIALS draws, all of them when it is rejected |
| `MapGen.TryStepOutcome` | tools/tools_map.py:43-51 | an accepted step is the first valid drawn neighbour, and every earlier draw was invalid; a rejected step saw NUMBER_TRIALS invalid draws |
| `MapGen.Walk` | tools/tools_map.py:42-53 | a walk from one anchor takes at most `number_cases_digger` steps and at most NUMBER_TRIALS draws per step |
| `MapGen.WalkCells` | tools/tools_map.py:42-53 | each accepted cell is a 4-neighbour of the previous walk position and is in bounds and not an anchor |
| `MapGen.WalkAbandonsOnlyAfterRejections` | tools/tools_map.py:44-53 | a walk ends early only after NUMBER_TRIALS consecutive rejected draws from its last position |
| `MapGen.TrailBounds` | tools/tools_map.py:40-54 | `dig_ways` makes at most `len(list_elements) * number_cases_digger` writes |
| `MapGen.TrailCells` | tools/tools_map.py:40-54 | every cell `dig_ways` writes is in bounds and not an anchor |
| `MapGen.PaintAt` | tools/tools_map.py:48 | after the writes a cell is ground if it was written and as before otherwise |
| `MapGen.PaintSnoc` | tools/tools_map.py:48 | one more write sets one more cell to ground |
| `MapGen.PaintAppend` | tools/tools_map.py:41-53 | writing two trails in turn is writing their concatenation |
| `MapGen.PaintNothing` | tools/tools_map.py:41-53 | digging with an empty trail leaves the room as it was |
| `MapGen.DigOnlyCarvesGround` | tools/tools_map.py:40-54 | digging only writes `"G"` into non-anchor cells; every anchor keeps its tile |
| `MapGen.DrawStep` | tools/tools_map.py:43-51 | the trial loop returns the step the specification function describes |
| `MapGen.WalkResumes` | tools/tools_map.py:42-53 | a walk is its first step followed by the rest of the walk from the new position |
| `MapGen.DigStep` | tools/tools_map.py:42-53 | one step of the walk loop keeps the digger's invariant or ends the walk |
| `MapGen.DigFrom` | tools/tools_map.py:42-53 | the walk from one anchor writes ground exactly on its walk's cells |
| `MapGen.DigWays` | tools/tools_map.py:40-54 | `dig_ways` writes ground exactly on the concatenated walks of all anchors; the anchor list is never changed |
| `MapGen.GetNeighbors` | tools/tools_map.py:176-191 | at most 4 distinct 4-neighbours, all in bounds for an in-bounds cell, and every in-bounds neighbour is included |
| `MapGen.PathSnoc` | tools/tools_map.py:169-172 | a path extended by a passable neighbour is a path |
| `MapGen.ClosedSetHoldsPaths` | tools/tools_map.py:164-174 | a set closed under passable neighbours holds every cell reachable from a member |
| `MapGen.Cells` | tools/tools_map.py:152-153 | the set of all cells of the grid |
| `MapGen.VisitNeighbors` | tools/tools_map.py:168-172 | the inner loop enqueues each passable unvisited neighbour once, marking it visited, with a path to it |
| `MapGen.DistinctAppend` | tools/tools_map.py:169-172 | appending fresh distinct cells keeps the queue duplicate-free |
| `MapGen.SearchStep` | tools/tools_map.py:164-172 | one dequeue keeps the search invariant and closes one more cell of the finite grid |
| `MapGen.ArePointsJoinable` | tools/tools_map.py:151-174 | true iff a 4-connected chain from A to B exists whose cells after A read `'G'` or `'C'` as `grid[x][y]`; true when A == B |
| `MapGen.ClosedSetHoldsPathsIfJoinable` | tools/tools_map.py:164-174 | an emptied queue proves B unreachable |
| `MapGen.CrystalCells` | tools/tools_map.py:75-79 | the crystal anchors are in-room cells before the scan point whose draw was a crystal |
| `MapGen.ChosenSnoc` | tools/tools_map.py:82-91 | placing a new, uncollected stone at the scan point extends the chosen placements |
| `MapGen.ChosenLater` | tools/tools_map.py:82-91 | the chosen-placements property holds at later scan points |
| `MapGen.StoneDrawsChosen` | tools/tools_map.py:82-91 | each placed stone was drawn for its cell, was not in the list or already placed, and is not collected |
| `MapGen.ChosenStep` | tools/tools_map.py:82-91 | the chosen-placements property holds one cell further |
| `MapGen.StoneOn` | tools/tools_map.py:89 | the stone placed on a cell, if any placement names the cell |
| `MapGen.Positions` | tools/tools_map.py:90 | the cells of the placements, in order |
| `MapGen.StonesOf` | tools/tools_map.py:91 | the stones of the placements, in order |
| `MapGen.FillRocks` | tools/tools_map.py:62-69 | a MAP_SIZE by MAP_SIZE grid of `"R"` |
| `MapGen.PlaceCrystalAt` | tools/tools_map.py:77-79 | one cell of the crystal scan keeps the scan invariant |
| `MapGen.PlaceCrystals` | tools/tools_map.py:75-79 | drawn cells become `"C"` and are appended as anchors in scan order; the rest is unchanged |
| `MapGen.CrystalRowDone` | tools/tools_map.py:75-76 | a finished row continues into the next one |
| `MapGen.StoneDrawsNext` | tools/tools_map.py:84-91 | a cell's draw is placed iff it is drawn, not yet listed or placed, and not collected |
| `MapGen.ScanStateSnoc` | tools/tools_map.py:89-91 | placing a stone writes the cell and appends it to the anchors and the stone list |
| `MapGen.PlaceStonesRow` | tools/tools_map.py:83-91 | one row of the stone scan keeps the scan invariant |
| `MapGen.PlaceStoneAt` | tools/tools_map.py:84-91 | one cell of the stone scan keeps the scan invariant |
| `MapGen.PlaceStones` | tools/tools_map.py:82-91 | the scan writes and appends exactly the chosen stones |
| `MapGen.PlaceSides` | tools/tools_map.py:94-102 | the four side midpoints become `"G"` and are appended as anchors |
| `MapGen.PlaceBeacon` | tools/tools_map.py:104-123 | centre `"B"`, west `"C"`, other neighbours `"G"`; the anchors gain the centre if absent and the west cell; four (beacon, side) pairs |
| `MapGen.FreeBeaconSides` | tools/tools_map.py:115-117 | the cells east and west of the beacon are set and the west cell becomes an anchor |
| `MapGen.FreeBeaconRows` | tools/tools_map.py:118-123 | the rows above and below the beacon are cleared to ground |
| `MapGen.SwapAll` | tools/tools_map.py:170 | a path with every cell's coordinates swapped |
| `MapGen.JoinableTransposed` | tools/tools_map.py:170 | joinable as the search reads the room iff joinable in the room with both ends swapped |
| `MapGen.PathTransposed` | tools/tools_map.py:170 | a search path swaps into a path of the room |
| `MapGen.RoomPathTransposed` | tools/tools_map.py:170 | a path of the room swaps into a search path |
| `MapGen.SidesSwap` | tools/tools_map.py:94-99 | swapping maps the centre onto itself and the side midpoints onto one another |
| `MapGen.AllSidesJoinedTransposed` | tools/tools_map.py:138-145 | the beacon joined to all sides by the search iff joined to all sides in the room itself |
| `MapGen.LaidOut` | tools/tools_map.py:62-123 | the room before digging, cell by cell |
| `MapGen.LayoutOfPhases` | tools/tools_map.py:62-123 | the placement phases in turn build exactly the laid-out room |
| `MapGen.LayOutRoom` | tools/tools_map.py:62-123 | the room before digging, its anchors, the extended stone list and the joinable pairs (four with a beacon, none without) |
| `MapGen.AllJoinable` | tools/tools_map.py:138-145 | true iff there are pairs and every pair is joinable |
| `MapGen.DigRound` | tools/tools_map.py:129-145 | one round digs the laid-out room along `Trail` from the cursor (`Paint`), hands on where the draws stopped, and reports joinable exactly for a beacon room whose pairs all join |
| `MapGen.DigUntilJoined` | tools/tools_map.py:126-147 | without a beacon one pass of NUMBER_CASES_DIGGER steps from the cursor; with one, the result is exactly `RetryFrom`: each round digs from where the last one stopped with walks one step longer, the first round whose pairs all join is returned with its digger and start, and `isDone` is false only when all `maxRounds` rounds failed |
| `MapGen.CreateNewMap` | tools/tools_map.py:56-148 | the stone list is extended by the placed stones; the room is the laid-out grid dug by the returned round; with a beacon the result is `RetryFrom` of the laid-out room, and a returned room joins the beacon to all four side midpoints |
| `MapGen.RetryFromStep` | tools/tools_map.py:129-147 | one round of the retry: a room whose pairs all join is the result, otherwise the retry goes on from the draws left with walks one step longer |
| `MapGen.RetryFromFound` | tools/tools_map.py:129-147 | a returned round is one of the budget's rounds, its room is the laid-out room dug from its start with its walk length, and its pairs all join |
| `MapGen.RetryFromFirst` | tools/tools_map.py:129-147 | the retry returns the first round that joins: every shorter budget that stops before it finds nothing |
| `MapGen.RetryFromNone` | tools/tools_map.py:129-147 | when the whole budget fails, every smaller budget fails too |
| `MapGen.RetryBeaconJoined` | tools/tools_map.py:126-147 | a beacon room the retry returns joins the beacon to every side midpoint, as the search reads the room and in the room itself |
| `MapGen.DugRoom` | tools/tools_map.py:56-148 | a generated room has MAP_SIZE rows of MAP_SIZE cells |
| `MapGen.SidesOutsideBeaconBlock` | tools/tools_map.py:94-123 | the side midpoints lie in the room and outside the beacon's 3 by 3 block |
| `MapGen.DugRoomKeepsSides` | tools/tools_map.py:94-102 | the four side midpoints of a generated room are `"G"` |
| `MapGen.DugRoomKeepsBeacon` | tools/tools_map.py:104-123 | in a beacon room the centre stays `"B"`, the west cell `"C"` and the rest of the block `"G"` |
| `MapGen.DugRoomOnlyCarves` | tools/tools_map.py:40-54 | every cell of a generated room that is not ground holds its laid-out tile |
| `MapGen.DugRoomStone` | tools/tools_map.py:82-91 | a stone in a generated room was placed on that cell |
| `MapGen.LayoutStone` | tools/tools_map.py:82-91 | a laid-out stone comes from a placement on that cell |
| `MapGen.PlacementIndex` | tools/tools_map.py:89-91 | a placed stone has an index in the stone list |
| `MapGen.GeneratedStonesAreNew` | tools/tools_map.py:84-91 | a stone in a generated room was drawn there, was not in the list and is not collected |
| `MapGen.GeneratedStonesAreUnique` | tools/tools_map.py:86-91 | no stone appears on two cells of a generated room |
| `MapGen.AppendRow` | tools/tools_map.py:199-201 | appends each code of the row followed by a space, then a line break |
| `MapGen.GridToString` | tools/tools_map.py:193-203 | the room's text, one line per row |
| `WorldGrid.GridMap.constructor` | tools/tools_world_explorer.py:120-123 | an empty map with no size and no offsets |
| `WorldGrid.GridMap.AddSubmap` | tools/tools_world_explorer.py:125-141 | the first room fixes the size; a room of another size returns the error with nothing changed; otherwise the offset is appended and `tiles[(i+ox*w, j+oy*h)] = grid[h-1-j][i]`, other keys unchanged |
| `WorldGrid.GridMap.WriteRow` | tools/tools_world_explorer.py:139-141 | one inner loop writes one row of the block |
| `WorldGrid.GridMap.GetTexture` | tools/tools_world_explorer.py:143-146 | `"O"` for a never-written cell, the stored code otherwise |
| `WorldGrid.GridMap.GetTileType` | tools/tools_world_explorer.py:151-154 | `None` for a never-written cell, the stored tile otherwise |
| `WorldGrid.GridMap.ReplaceTexture` | tools/tools_world_explorer.py:148-149 | overwrites exactly one key |
| `WorldGrid.GridMap.SetTileType` | tools/tools_world_explorer.py:156-157 | overwrites exactly one key |
| `WorldGrid.TextureAgreesWithTileType` | tools/tools_world_explorer.py:143-154 | the texture is blank iff there is no tile, and is the tile's code otherwise |
| `WorldGrid.StitchedReadsBack` | tools/tools_world_explorer.py:139-141 | cell (i, j) of a stitched block reads row h-1-j, column i of the room; the bottom row is the room's last row |
| `WorldGrid.BlockOfOffset` | tools/tools_world_explorer.py:132-135 | a cell lies in an offset's block iff its floor division by the size is that offset |
| `WorldGrid.DivOfBlock` | tools/tools_world_explorer.py:132-135 | `k*n <= x < k*n + n` iff `x // n == k` |
| `WorldGrid.MulLess` | tools/tools_world_explorer.py:132-135 | a larger block index starts past the end of a smaller one |
| `WorldGrid.DistinctOffsetsDisjoint` | tools/tools_world_explorer.py:132-141 | rooms stitched at distinct offsets never share a cell |
| `WorldGrid.StitchKeepsOtherRooms` | tools/tools_world_explorer.py:132-141 | stitching a room elsewhere keeps every tile of another room |
| `ExplorerRules.Facing` | tools/tools_world_explorer.py:653-662 | the facing points along the movement on its dominant axis; ties go vertical and no movement faces down |
| `ExplorerRules.DisplayOrientationSprite` | tools/tools_world_explorer.py:603-620 | the display orientation is a key of `DICT_DISPLAY_ORIENTATIONS`, heading along the components above 0.25 |
| `ExplorerRules.DisplayConcatenations` | tools/tools_world_explorer.py:605-615 | the prefixes and suffixes build the combined names |
| `ExplorerRules.DisplayTrims` | tools/tools_world_explorer.py:617-618 | dropping the underscore of `left_`/`right_` gives `left`/`right` |
| `ExplorerRules.TrimLast` | tools/tools_world_explorer.py:617-618 | removing the one trailing underscore of a word gives the word |
| `ExplorerRules.HeadingInjective` | tools/tools_constants.py:223-232 | the eight display orientations have eight distinct headings |
| `ExplorerRules.LowerChar` | tools/tools_world_explorer.py:1155 | an ASCII capital becomes its small letter, and every other character is kept (ASCII-only, see Left out) |
| `ExplorerRules.Lower` | tools/tools_world_explorer.py:1155 | every character is mapped by `LowerChar`, and the length is kept |
| `ExplorerRules.KeyHitsNames` | tools/tools_world_explorer.py:1153-1163 | one key hits exactly the table names bound to it once lower-cased, at most one hit per name listed |
| `ExplorerRules.HitsNames` | tools/tools_world_explorer.py:1153-1163 | a name is hit iff it is in the table and some held key, lower-cased, is bound to it |
| `ExplorerRules.Axis` | tools/tools_world_explorer.py:1153-1163 | an axis is -1, 0 or 1 |
| `ExplorerRules.AxisHit` | tools/tools_world_explorer.py:1153-1163 | an axis moves iff one of its names was hit, in the direction of a name that was hit |
| `ExplorerRules.AxisOfAppend` | tools/tools_world_explorer.py:1153-1163 | a later key overrides an earlier one on the same axis |
| `ExplorerRules.Normalise` | tools/tools_world_explorer.py:1164-1166 | the signs of the axes are kept; a straight movement is unchanged; both components of a diagonal have magnitude 1/SQUARE_TWO |
| `ExplorerRules.RemoveFirst` | tools/tools_world_explorer.py:1115-1116 | `list.remove` drops one occurrence of a present element and keeps an absent one's list |
| `ExplorerRules.RemoveFirstNoDuplicates` | tools/tools_world_explorer.py:1115-1116 | on a duplicate-free list the key is gone, the rest kept, and the list stays duplicate-free |
| `ExplorerRules.NoDuplicatesCount` | tools/tools_world_explorer.py:1113-1116 | in a duplicate-free list an element occurs at most once |
| `ExplorerRules.DuplicateCount` | tools/tools_world_explorer.py:1113-1116 | two equal elements occur at least twice |
| `Explorer.FacedCell` | tools/tools_world_explorer.py:770-802 | the cardinal neighbour in the facing's direction, and none for a value outside `DICT_ORIENTATIONS` |
| `Explorer.BeaconDirection` | tools/tools_world_explorer.py:393-396 | one of the eight neighbouring offsets, along x exactly when the draw says so |
| `Explorer.RingIndexAt` | tools/tools_world_explorer.py:430-433 | the k-th ring offset scanned lies in the ring at place k, and only the fifth is the centre |
| `Explorer.ExpansionRooms` | tools/tools_world_explorer.py:430-438 | the rooms filled are ring rooms, never the centre or a beacon room, at most one per position scanned |
| `Explorer.ExpansionCovers` | tools/tools_world_explorer.py:430-438 | every ring room but the centre is filled or was a beacon room |
| `Explorer.ExpansionDistinct` | tools/tools_world_explorer.py:430-438 | no ring room is filled twice |
| `Explorer.ExpansionKeeps` | tools/tools_world_explorer.py:430-438 | rewriting only the expansion's rooms keeps the centre room and every beacon room |
| `Explorer.ExpansionHas` | tools/tools_world_explorer.py:424-438 | the neighbour in the drawn direction is filled by the expansion unless it was already a beacon room |
| `Explorer.RoomCellShows` | tools/tools_world_explorer.py:139-141 | a room stitched at an offset shows its cell p at `RoomCell(offset, p)` |
| `Explorer.BeaconBlockBuilt` | tools/tools_world_explorer.py:404-412 | a beacon room stitched at an offset lays out its beacon block there |
| `Explorer.BeaconBlockKept` | tools/tools_world_explorer.py:404-412 | rewriting other rooms keeps a beacon block |
| `Explorer.RoomCellInRoom` | tools/tools_world_explorer.py:139-141 | the cells a room stitched at an offset shows lie in that offset's room |
| `Explorer.WrittenThen` | tools/tools_world_explorer.py:404-438 | rewriting some rooms and then others rewrites only their union, and fills all of them when each step filled its own |
| `Explorer.StartCells` | tools/tools_world_explorer.py:287-335 | the start beacon (5, 4.5) lies on the first room's beacon cell and the start position (4.5, 5.5) in its beacon block |
| `Explorer.OutsideRadiusIsDistance` | tools/tools_world_explorer.py:729-732 | comparing squared distances is comparing `sqrt` distances: out of the light iff the distance exceeds the radius (as at 750) |
| `Explorer.Stride` | tools/tools_world_explorer.py:674-692 | diagonal if the target and a straight target allow MOVE, else x, else y, else no move; each coordinate stays or moves by SPEED times its movement, and a move lands on a MOVE tile |
| `Explorer.TickKeepsCharacterOnFloor` | tools/tools_world_explorer.py:1187-1224 | a tick counts one frame, leaves the character still or on a MOVE tile of the faded map, keeps a finished game finished, and in the light resets the dark counter |
| `Explorer.RelocatedLightsCell` | tools/tools_world_explorer.py:941-959 | after a relocation the light is centred on the faced cell, which stays `"b"` when its room is kept by the expansion |
| `Explorer.WorldExplorerScreen.GetNextTile` | tools/tools_world_explorer.py:770-802 | the faced cell of the floored position and its tile, for a facing in `DICT_ORIENTATIONS` |
| `Explorer.WorldExplorerScreen.UpdateListKeydown` | tools/tools_world_explorer.py:1096-1116 | keydown appends only an absent key, keyup removes a present one; the list stays duplicate-free and other keys are unaffected |
| `Explorer.WorldExplorerScreen.UpdateOnKeyUp` | tools/tools_world_explorer.py:1077-1116 | a bound key is appended to the released list; the held list is `list.remove` of the key when present, else unchanged, and stays duplicate-free |
| `Explorer.WorldExplorerScreen.GetMovementsKeyboard` | tools/tools_world_explorer.py:1134-1167 | the movement is the normalised last-hit axis of the held keys |
| `Explorer.WorldExplorerScreen.ApplyKey` | tools/tools_world_explorer.py:1154-1163 | one held key sets each axis its bound actions name, in table order |
| `Explorer.WorldExplorerScreen.UpdateCharOnMapPosition` | tools/tools_world_explorer.py:634-693 | the character becomes `Moved` of the old one: facing and sprite follow the movement and the position is `Stride`; it stays or lands on a MOVE tile |
| `Explorer.WorldExplorerScreen.NextPosition` | tools/tools_world_explorer.py:674-692 | the diagonal, x-only, y-only or no step of the collision test is exactly `Stride` on the map |
| `Explorer.WorldExplorerScreen.constructor` | tools/tools_world_explorer.py:219-344 | the first game: the settings kept as given; scheduled and running, timer and frame count 0, not in the dark, beacon life 10, radius 3, the base fading rate, empty names and key lists; start position (4.5, 5.5), unlit beacon at (5, 4.5) on the first room's `"B"`, the character in the first room's beacon block, score 0, empty bag, facing `"bottom"`, beacon history [(0, 0)], and the nine first rooms with the first room's beacon block |
| `Explorer.WorldExplorerScreen.AddRoom` | tools/tools_world_explorer.py:404-412 | only the room at its offset may be rewritten; unless generation stalled, the generated room is stitched there (`Stitched`), every cell of that room holds a tile, the offset is appended, and a beacon room shows its beacon block |
| `Explorer.WorldExplorerScreen.StitchRoom` | tools/tools_world_explorer.py:398-412 | a generated room is always accepted: the offset is appended, its block holds the room (`Stitched`), every cell of its room holds a tile, and no other room changes |
| `Explorer.WorldExplorerScreen.BuildGridMap` | tools/tools_world_explorer.py:391-412 | one axis draw; only the centre room and its eight neighbours are written; unless generation stalled they are appended in order, each is filled, and the beacon blocks stand in the first room and in the room in the drawn direction |
| `Explorer.WorldExplorerScreen.AddNeighbours` | tools/tools_world_explorer.py:404-412 | only the eight neighbours are written; unless generation stalled they are appended in order, each is filled, and the neighbour in the beacon direction shows its beacon block |
| `Explorer.WorldExplorerScreen.ExpandGridMap` | tools/tools_world_explorer.py:414-440 | `Expanded`: nothing around the first room; otherwise one axis draw and the new beacon room recorded; only the ring's `Expansion` rooms are rewritten, so every other room, the centre and the beacon rooms among them, keeps its tiles; unless stalled those rooms are appended and filled, and a new beacon room shows its beacon block; the light is untouched |
| `Explorer.WorldExplorerScreen.ExpandRing` | tools/tools_world_explorer.py:430-438 | after the nine ring positions, scanned column by column, only the `Expansion` rooms are rewritten and, unless stalled, they are appended and filled, with the beacon block in the beacon room (`RingScanned`) |
| `Explorer.WorldExplorerScreen.ExpandColumn` | tools/tools_world_explorer.py:431-438 | one column of the ring extends `RingScanned` by three positions |
| `Explorer.WorldExplorerScreen.ExpandCell` | tools/tools_world_explorer.py:432-438 | one ring position gets a room unless it is the centre or a beacon room, extending `RingScanned` by one position: no other room changes, and the beacon block stands once its room is filled |
| `Explorer.WorldExplorerScreen.RelocateBeacon` | tools/tools_world_explorer.py:927-951 | score +5, faster fading, full intensity, the old beacon cell becomes `"R"` and the faced cell `"b"`, which the light centres on |
| `Explorer.WorldExplorerScreen.StartNewBeacon` | tools/tools_world_explorer.py:927-959 | score +5 and `Relocated`: faster fading, full intensity, old beacon cell `"R"`, faced cell `"b"` as the light's centre, then `Expanded` around the centre room |
| `Explorer.WorldExplorerScreen.PickUp` | tools/tools_world_explorer.py:836-925 | `PickedUp`: below MAX_CRYSTALS `[0]` +1, `[1]` +1 only for a crystal, the cell becomes `"G"`, the first free slot is named by the code; a full bag changes nothing; nothing else changes |
| `Explorer.WorldExplorerScreen.Deposit` | tools/tools_world_explorer.py:867-894 | `HandedIn`: score +`[1]`, radius widened from START_BEACON_CASES at an unlit beacon, bag emptied and stones recorded; an unlit beacon with a non-empty bag also gives +5 and is `Relocated`; otherwise the world is unchanged |
| `Explorer.WorldExplorerScreen.LightBeacon` | tools/tools_world_explorer.py:867-894 | at an unlit beacon with a non-empty bag: score +`[1]`+5, radius widened, bag emptied, stones recorded and the beacon `Relocated` |
| `Explorer.WorldExplorerScreen.HandInBag` | tools/tools_world_explorer.py:867-888 | the bag part of a deposit: score, light radius, counters reset and collection updated |
| `Explorer.WorldExplorerScreen.RecordFound` | tools/tools_world_explorer.py:884-888 | a stone slot marks its stone found; a crystal or empty slot changes nothing |
| `Explorer.WorldExplorerScreen.Target` | tools/tools_world_explorer.py:817-833 | only the interact key acts; the current tile if interactive, else the faced tile if interactive, else nothing |
| `Explorer.WorldExplorerScreen.InteractOnce` | tools/tools_world_explorer.py:817-923 | `Interacted`: no target changes nothing; a beacon target is `HandedIn`, a crystal or stone target `PickedUp` |
| `Explorer.WorldExplorerScreen.InteractWithEnvironment` | tools/tools_world_explorer.py:804-925 | the released list is emptied and the score never drops; with no interact key released nothing changes, and with exactly one the effect is `InteractOnce`'s |
| `Explorer.WorldExplorerScreen.ReleaseKeys` | tools/tools_world_explorer.py:817-925 | after the released keys in turn, the effect is none when no interact key was among them and `Interacted` from the start when one was |
| `Explorer.WorldExplorerScreen.ReleaseKey` | tools/tools_world_explorer.py:817-925 | one turn of the loop keeps that account of the interact keys seen |
| `Explorer.WorldExplorerScreen.ManageInDarkness` | tools/tools_world_explorer.py:748-768 | the character becomes `Darkened`: the counter +1 outside the light, 0 inside; past MAX_TIME_IN_DARK*FPS the radius is 0 and the game over; the world is unchanged |
| `Explorer.WorldExplorerScreen.GameOver` | tools/tools_world_explorer.py:734-746 | the timer grows by 1; during the freeze nothing else changes; past GAME_OVER_FREEZE_TIME*FPS the high score is kept-max updated with the score, a fresh empty map replaces the old one and the tick is unscheduled, the rest of the bag and world unchanged |
| `Explorer.WorldExplorerScreen.Update` | tools/tools_world_explorer.py:1173-1227 | the held keys are kept; an unscheduled screen changes nothing; a finished game keeps the character and the released keys and runs the game-over timer, with the bag and world unchanged during the freeze and, past it, only the high score updated and the map emptied; a running tick keeps the timer, gives the character `Tick` of the held keys' movement, empties the released list, and without an interact key the bag and world are only faded |
| `Explorer.WorldExplorerScreen.Play` | tools/tools_world_explorer.py:1187-1227 | the character after the tick is `Tick` of the old state and the held keys' movement; the released list is emptied; with no interact key released the bag is `FadedBag` and the world `FadedWorld` |
| `Explorer.WorldExplorerScreen.MoveInDarkness` | tools/tools_world_explorer.py:1187-1224 | the character becomes `Tick` of the old state, the bag `FadedBag` and the world `FadedWorld` |
| `Explorer.WorldExplorerScreen.Advance` | tools/tools_world_explorer.py:1187-1221 | the frame is counted, the world becomes `FadedWorld`, the radius `FadedRadius`, and the character `Moved` on the faded map by the held keys' movement |
| `Explorer.WorldExplorerScreen.Step` | tools/tools_world_explorer.py:1196-1221 | for a given movement: the frame counted, the world `FadedWorld`, the radius `FadedRadius`, the character `Moved` on the faded map |
| `Explorer.WorldExplorerScreen.FadeBeacon` | tools/tools_world_explorer.py:1198-1206 | the world becomes `FadedWorld` (life minus rate, cell `"R"` below zero) and the radius `FadedRadius` (0 below zero) |
| `Explorer.MoveBeaconTile` | tools/tools_world_explorer.py:941-951 | the old beacon cell becomes `"R"`, then the new one `"b"` |
| `Explorer.GenerateRoom` | tools/tools_world_explorer.py:401-412 | the stone list only grows, by uncollected stones, and stays duplicate-free; a room has the generator's size |
| `Explorer.PlacedStonesNew` | tools/tools_map.py:86-91 | the stones a scan places are new and distinct, so the list stays duplicate-free |
| `Explorer.Found` | tools/tools_world_explorer.py:884-888 | a stone code marks its stone's name found; any other slot leaves the collection |
| `Explorer.InteractiveTiles` | tools/tools_world_explorer.py:817-832 | the interactive tiles are exactly the crystal, both beacons and the stones |
| `Explorer.RingAt` | tools/tools_world_explorer.py:430-433 | the ring's k-th position and its centre |
| `Explorer.BeaconCellFloor` | tools/tools_world_explorer.py:941-947 | a beacon recorded half a tile up lies in its own cell, so the next relocation clears exactly it |
| `Explorer.OrientedValues` | tools/tools_constants.py:217-222 | the facings are exactly the values of `DICT_ORIENTATIONS` |
| `Explorer.AxisSnoc` | tools/tools_world_explorer.py:1156-1163 | a last hit of an axis name sets the axis; other names leave it |
| `Explorer.AxisStep` | tools/tools_world_explorer.py:1154-1155 | one more table entry extends a key's hits by that entry when its key matches |
| `MapText.ReadLines` | tools/tools_world_explorer.py:1263-1264 | no lines exactly for an empty text |
| `MapText.ReadLinesConcat` | tools/tools_world_explorer.py:1263-1264 | the lines read concatenate back to the text |
| `MapText.ReadLinesBreaks` | tools/tools_world_explorer.py:1263-1264 | every line but the last ends in its line break, and no line has another |
| `MapText.ReadLinesAppend` | tools/tools_world_explorer.py:1263-1264 | reading a text cut after a line break reads its two parts in turn |
| `MapText.ReadOneLine` | tools/tools_world_explorer.py:1263-1264 | one line with its break reads as that line |
| `MapText.RemoveChar` | tools/tools_world_explorer.py:1271-1274 | `replace(c, "")` leaves no `c` and no longer text |
| `MapText.RemoveAbsentChar` | tools/tools_world_explorer.py:1271 | removing an absent character changes nothing |
| `MapText.ReplaceDoubleSpaces` | tools/tools_world_explorer.py:1277 | one pass of `replace("  ", " ")` keeps the non-space characters and never lengthens |
| `MapText.ReplaceDoubleSpacesKeeps` | tools/tools_world_explorer.py:1277 | a text without double spaces is unchanged |
| `MapText.Split` | tools/tools_world_explorer.py:1288 | `split(sep)` gives at least one piece |
| `MapText.SplitWithout` | tools/tools_world_explorer.py:1288 | a text without the separator splits into itself |
| `MapText.SplitAppend` | tools/tools_world_explorer.py:1288 | splitting across a separator splits the two sides |
| `MapText.SplitJoin` | tools/tools_world_explorer.py:1288 | splitting joined words gives the words back |
| `MapText.JoinSplit` | tools/tools_world_explorer.py:1288 | joining the pieces of `split(sep)` with `sep` gives the text back |
| `MapText.LineTiles` | tools/tools_world_explorer.py:1277-1288 | a non-blank line gives at least one word, none holding a space, with the same non-space characters as the line |
| `MapText.ParseLine` | tools/tools_world_explorer.py:1269-1288 | a line gives no row iff it is blank once its breaks are removed, else one row |
| `MapText.ParseLinesRows` | tools/tools_world_explorer.py:1262-1291 | at most one row per line read, each a non-empty list of space-free words |
| `MapText.LoadGridMap` | tools/tools_world_explorer.py:1247-1291 | blank lines skipped, breaks removed, one double-space pass, one trailing and one leading space stripped, then split on spaces |
| `MapText.CodeIsWord` | tools/tools_constants.py:177-208 | every tile code is a non-empty word without spaces or line breaks |
| `MapText.Codes` | tools/tools_map.py:200 | the codes of a row, cell by cell |
| `MapText.RowTextJoins` | tools/tools_map.py:199-201 | a row's text is its codes joined by spaces plus a trailing space |
| `MapText.RowTextShape` | tools/tools_map.py:199-201 | a row's text has no line break and no double space, and neither starts nor ends its last code with a space |
| `MapText.RowRoundTrip` | tools/tools_world_explorer.py:1269-1291 | the loader reads a written row back as its codes |
| `MapText.LineTilesOfWords` | tools/tools_world_explorer.py:1277-1288 | a line of words joined by single spaces, with a trailing space, parses into those words |
| `MapText.RemoveCharAppend` | tools/tools_world_explorer.py:1271-1274 | removing a character distributes over concatenation |
| `MapText.NonSpaceSurvives` | tools/tools_world_explorer.py:1274 | a line with a non-space character is not blank |
| `MapText.RowCodes` | tools/tools_map.py:198-201 | the codes of every row |
| `MapText.RowsRoundTrip` | tools/tools_world_explorer.py:1247-1291 | loading the text of the rows gives the codes of the rows |
| `MapText.ReadLinesEndsInBreak` | tools/tools_map.py:201 | the text of the rows is empty or ends in a line break |
| `MapText.GridTextRoundTrip` | tools/tools_map.py:193-203 | `load_grid_map` of `grid_to_string` of a room gives back one row of codes per room row |

## Left out

- Rendering: Kivy widgets, textures and atlases, the crystal slot images and their opacity, the pixel geometry of the map, character and darkness circle, and the window-size handling. They are UI state with no game rule.
- `compute_min_max_display_values` and `get_char_grid_pos` only size the visible window of textures, so they are UI.
- Sound and music: every mixer call, the proximity sounds (`search_near_crystal`, `search_near_off_beacon`, `manage_near_*_sound`) and the random water drops. They are audio output only.
- The tutorial script (`display_tutorial`), clock scheduling, keyboard and joystick binding, and the mobile controls. `Update` takes the map-centre cell as a parameter, and the `scheduled` field stands for the clock registration.
- JSON persistence. `MyCollection` keeps its record and high score in memory, and the key bindings are constructor parameters.
- Randomness: every `rd.random`, `rd.choice` and `rd.randint` is an oracle parameter. Nothing is claimed about distributions. The crystal and stone probabilities are therefore not modelled.
- `compute_distance_with_beacon`: `sqrt` is avoided by comparing squared distances on reals.
- Floating point: positions, speeds and `SQUARE_TWO` are exact reals, so rounding of Python floats is not modelled.
- `MapGen.CreateNewMap`: the source retries beacon rooms without a cap. The model stops after `maxRounds` rounds and returns `None`. A stalled screen then generates no more rooms.
- `MapGen.ArePointsJoinable`: requires the start cell inside the grid and the rows no shorter than the first. The generator only calls it with the room centre.
- `Explorer.WorldExplorerScreen.InteractWithEnvironment`: requires a facing in `DICT_ORIENTATIONS`. The source would fail in `get_next_tile` on the start value `"bottom"`, and every tick sets the facing before interacting.
- `ExplorerRules.LowerChar`: maps only the ASCII capitals `A`-`Z`. Python's `str.lower` also lower-cases non-ASCII capitals (`'É'` becomes `'é'`). Unicode case tables are not modelled, and the key names the game binds are ASCII letters and words.
- `ExplorerRules.Lower`: inherits `LowerChar`'s ASCII-only case mapping.
- `WorldGrid.GridMap.AddSubmap`: requires a non-empty grid whose rows are no shorter than the first (`IsSubmap`). On `[]` or a shorter row the source raises `IndexError`; the model does not return that error. The game only stitches generated rooms, which are square.
- `MapGen.GridToString`: requires a non-empty grid with rows no shorter than the first (`Indexable`). The source raises `IndexError` at tools/tools_map.py:195 otherwise, and it is only called on generated rooms.
- `MapGen.CreateNewMap`, `Explorer.GenerateRoom` and `Explorer.WorldExplorerScreen.constructor`: require the collection to hold an entry for every stone. The source reads `my_collection.dict_collection[...]` at tools/tools_map.py:85-87 and would raise `KeyError` on a missing name. The collection is loaded from the settings file, and the model assumes that file names every stone.
- `Explorer.WorldExplorerScreen.constructor`: models `__init__` followed by `init_screen`, that is, the first game only. When `init_screen` runs again on the same screen for a new game, the source keeps `score`, `number_crystals`, `beacon_life` and `character_orientation` from the previous game, because only `__init__` sets them (tools/tools_world_explorer.py:234-239). That carry-over is not modelled.
- `Explorer.WorldExplorerScreen.InteractWithEnvironment`, `Explorer.WorldExplorerScreen.Play` and `Explorer.WorldExplorerScreen.Update`: with two or more interact keys released in one tick, the contracts state only that the released list is emptied, the invariants hold and the score does not drop. The effect of a second interaction from the state the first left is not stated.
- `Explorer.WorldExplorerScreen.Play` and `Explorer.WorldExplorerScreen.Update`: the bag and the world after a tick in which the interact key was released are stated by `InteractWithEnvironment`'s contract from the state after the move. They are not restated as one formula of the state before the tick.
- `main.py`, `screens/settings.py`, `tools_dev.py` and `tools/tools_effect.py` are not part of this model. They hold screen navigation, key-rebinding UI, image building and the darkness drawing, none of which has game rules.
