/**
 * The explorer screen's per-tick game state: the character's position and
 * facing on the stitched world map, the bag of carried crystals, the
 * score, the beacon and its light, the time spent in the dark, and the
 * pressed keys. Widgets, textures, sounds and the screen geometry are not
 * part of this model.
 */
module Explorer {
  import opened Wrappers
  import opened Constants
  import opened MapGen
  import opened WorldGrid
  import opened ExplorerRules

  /** The random draws behind one generated room. */
  datatype RoomDraws = RoomDraws(crystalAt: Pos -> bool, stoneAt: Pos -> Option<Stone>, dirs: nat -> Dir)

  /** Everything random the screen consumes, as oracles indexed by draw number. */
  datatype Randomness = Randomness(rooms: nat -> RoomDraws, axes: nat -> bool)

  datatype KeyAction = KeyDown | KeyUp

  /** The rooms `build_grid_map` adds around the first one, in its order. */
  const NEIGHBOUR_OFFSETS: seq<Cell> := [(0, 1), (0, -1), (1, 0), (-1, 0), (1, 1), (-1, -1), (1, -1), (-1, 1)]

  /** The 3×3 ring of room offsets `expand_grid_map` scans, `i` outer and `j` inner, both from -1 to 1. */
  const RING: seq<Cell> := [(-1, -1), (-1, 0), (-1, 1), (0, -1), (0, 0), (0, 1), (1, -1), (1, 0), (1, 1)]

  /** The cell holding a point of the map. */
  function Floor(x: real, y: real): Cell
  {
    (x.Floor, y.Floor)
  }

  /** The room offset of the room holding a cell (Python's `//` by a positive size). */
  function RoomOf(p: Cell): Cell
  {
    (p.0 / MAP_SIZE, p.1 / MAP_SIZE)
  }

  /** A tile the interact key acts on: its capabilities include `INTERACT`, or it is a precious stone. */
  predicate Interactive(t: Option<Tile>)
  {
    Interact in Capabilities(t) || (t.Some? && Code(t.value) in DICT_TREASURE_STONES)
  }

  /** The names a carried crystal can have: none yet, a crystal, or a precious stone code. */
  predicate CarriedName(n: string)
  {
    n == "" || n == "C" || n in DICT_TREASURE_STONES
  }

  /**
   * The cell `get_next_tile` looks at from `cell`: one step in the
   * direction whose `DICT_ORIENTATIONS` value is `orientation`. For any
   * other value the source's lookup fails, which is `None` here.
   */
  function FacedCell(cell: Cell, orientation: string): (r: Option<Cell>)
    ensures r.Some? <==> Oriented(orientation)
    ensures forall d: Dir :: orientation == DirValue(d) ==> r == Some(GetPositionFromDirection(d, cell))
  {
    if orientation == DirValue(Top) then Some((cell.0, cell.1 + 1))
    else if orientation == DirValue(Bottom) then Some((cell.0, cell.1 - 1))
    else if orientation == DirValue(Left) then Some((cell.0 - 1, cell.1))
    else if orientation == DirValue(Right) then Some((cell.0 + 1, cell.1))
    else None
  }

  /** A facing the character can have: one of the four values of `DICT_ORIENTATIONS`. */
  predicate Oriented(orientation: string)
  {
    orientation == DirValue(Top) || orientation == DirValue(Bottom) || orientation == DirValue(Left) || orientation == DirValue(Right)
  }

  /**
   * The beacon room's direction: along x or along y as the draw says,
   * towards the side chosen once for the whole game.
   */
  function BeaconDirection(alongX: bool, xChange: int, yChange: int): (d: Cell)
    requires xChange == 1 || xChange == -1
    requires yChange == 1 || yChange == -1
    ensures d in NEIGHBOUR_OFFSETS && (d.0 == 0 <==> !alongX) && (d.1 == 0 <==> alongX)
  {
    var xy := if alongX then 1 else 0;
    (xy * xChange, (1 - xy) * yChange)
  }

  /** The offsets `expand_grid_map` fills around `centre`, among the first `k` of the ring: not the centre, not a beacon room. */
  function Expansion(centre: Cell, history: seq<Cell>, k: nat): (offsets: seq<Cell>)
    requires k <= |RING|
  {
    if k == 0 then []
    else
      var o := (centre.0 + RING[k - 1].0, centre.1 + RING[k - 1].1);
      Expansion(centre, history, k - 1) + (if k - 1 != 4 && o !in history then [o] else [])
  }

  /** Whether `d` is the offset of a room of the 3×3 ring, centre included. */
  predicate InRing(d: Cell)
  {
    -1 <= d.0 <= 1 && -1 <= d.1 <= 1
  }

  /** The place of the ring offset `d` in `expand_grid_map`'s scan, column by column. */
  function RingIndex(d: Cell): int
  {
    3 * (d.0 + 1) + (d.1 + 1)
  }

  /** The `i`-th offset scanned is the ring offset whose place is `i`; the fifth is the centre. */
  lemma RingIndexAt(i: nat)
    requires i < |RING|
    ensures InRing(RING[i]) && RingIndex(RING[i]) == i
    ensures RING[i] == (0, 0) <==> i == 4
  {
    assert RING[i] in RING;
  }

  /**
   * The offsets `expand_grid_map` fills are rooms of the ring around
   * `centre`, never the centre itself and never a beacon room, each one
   * scanned among the first `k`, at most one per ring position scanned.
   */
  lemma {:induction false} ExpansionRooms(centre: Cell, history: seq<Cell>, k: nat)
    requires k <= |RING|
    ensures var offsets := Expansion(centre, history, k);
      && |offsets| <= k
      && forall o | o in offsets ::
           && o != centre && o !in history
           && InRing((o.0 - centre.0, o.1 - centre.1)) && RingIndex((o.0 - centre.0, o.1 - centre.1)) < k
  {
    if k > 0 {
      ExpansionRooms(centre, history, k - 1);
      RingIndexAt(k - 1);
    }
  }

  /** Every ring room among the first `k` scanned, except the centre, is filled or was a beacon room. */
  lemma {:induction false} ExpansionCovers(centre: Cell, history: seq<Cell>, k: nat)
    requires k <= |RING|
    ensures var offsets := Expansion(centre, history, k);
      forall i | 0 <= i < k && i != 4 :: (centre.0 + RING[i].0, centre.1 + RING[i].1) in history + offsets
  {
    if k > 0 {
      ExpansionCovers(centre, history, k - 1);
    }
  }

  /** Rewriting only the expansion's rooms keeps the centre room and every beacon room. */
  lemma ExpansionKeeps(tiles: map<Cell, Tile>, before: map<Cell, Tile>, centre: Cell, history: seq<Cell>)
    requires OnlyRoomsWritten(tiles, before, Expansion(centre, history, |RING|))
    ensures KeepsRooms(tiles, before, history + [centre])
  {
    ExpansionRooms(centre, history, |RING|);
  }

  /** The neighbour of `centre` in direction `d` is filled by the expansion unless it was a beacon room. */
  lemma ExpansionHas(centre: Cell, history: seq<Cell>, d: Cell)
    requires d in NEIGHBOUR_OFFSETS
    ensures (centre.0 + d.0, centre.1 + d.1) !in history ==> (centre.0 + d.0, centre.1 + d.1) in Expansion(centre, history, |RING|)
  {
    ExpansionCovers(centre, history, |RING|);
    RingAt(d.0, d.1);
  }

  /** No ring room is filled twice. */
  lemma {:induction false} ExpansionDistinct(centre: Cell, history: seq<Cell>, k: nat)
    requires k <= |RING|
    ensures NoDuplicates(Expansion(centre, history, k))
  {
    if k > 0 {
      ExpansionDistinct(centre, history, k - 1);
      ExpansionRooms(centre, history, k - 1);
      RingIndexAt(k - 1);
      var before := Expansion(centre, history, k - 1);
      var o := (centre.0 + RING[k - 1].0, centre.1 + RING[k - 1].1);
      assert RingIndex((o.0 - centre.0, o.1 - centre.1)) == k - 1;
      assert o !in before;
      var all := Expansion(centre, history, k);
      forall i, j | 0 <= i < j < |all|
        ensures all[i] != all[j]
      {
        if j >= |before| {
          assert all[i] in before;
        }
      }
    }
  }

  /** The sum of squared differences against the radius squared: the light circle does not reach the character. */
  predicate OutsideRadius(x: real, y: real, beacon: (real, real), radius: real)
  {
    (x - beacon.0) * (x - beacon.0) + (y - beacon.1) * (y - beacon.1) > radius * radius
  }

  /**
   * Comparing squares is comparing distances: with the beacon `distance`
   * away, the character is out of a light of radius `radius` exactly
   * when the distance exceeds the radius.
   */
  lemma OutsideRadiusIsDistance(x: real, y: real, beacon: (real, real), radius: real, distance: real)
    requires radius >= 0.0 && distance >= 0.0
    requires distance * distance == (x - beacon.0) * (x - beacon.0) + (y - beacon.1) * (y - beacon.1)
    ensures OutsideRadius(x, y, beacon, radius) <==> distance > radius
  {
    var sum, gap := distance + radius, distance - radius;
    assert distance * distance - radius * radius == gap * sum;
    if distance > radius {
      assert gap > 0.0 && sum > 0.0;
      assert gap * sum > 0.0;
      assert distance * distance > radius * radius;
      assert OutsideRadius(x, y, beacon, radius);
    } else {
      assert gap <= 0.0 && sum >= 0.0;
      assert gap * sum <= 0.0;
    }
  }

  /** The tile of `tiles` at `p`, as `get_tile_type` reads it. */
  function TileAt(tiles: map<Cell, Tile>, p: Cell): Option<Tile>
  {
    if p in tiles then Some(tiles[p]) else None
  }

  /** A crystal or a stone picked up names its bag slot by a name the bag can carry. */
  lemma PickedNameCarried(tile: Tile)
    requires tile == Crystal || tile.Stone?
    ensures CarriedName(Code(tile))
  {
    if tile.Stone? {
      TreasureStonesNamed(tile.stone);
    }
  }

  /**
   * Where `update_char_on_map_position` puts the character at `(x, y)`
   * moving by `(xMovement, yMovement)` on the map `tiles`: diagonally if
   * the target cell and one of the two straight targets let it in, else
   * along x alone, else along y alone, else nowhere. It never enters a
   * tile without `MOVE`.
   */
  function Stride(tiles: map<Cell, Tile>, x: real, y: real, xMovement: real, yMovement: real): (r: (real, real))
    ensures r == (x, y) || Move in Capabilities(TileAt(tiles, Floor(r.0, r.1)))
    ensures (r.0 == x || r.0 == x + SPEED * xMovement) && (r.1 == y || r.1 == y + SPEED * yMovement)
  {
    var xTo, yTo := x + SPEED * xMovement, y + SPEED * yMovement;
    var nextXY := Move in Capabilities(TileAt(tiles, Floor(xTo, yTo)));
    var nextX := Move in Capabilities(TileAt(tiles, Floor(xTo, y)));
    var nextY := Move in Capabilities(TileAt(tiles, Floor(x, yTo)));
    if nextXY && (nextX || nextY) then (xTo, yTo)
    else if nextX then (xTo, y)
    else if nextY then (x, yTo)
    else (x, y)
  }

  /** The map once the beacon recorded at `beacon` has faded to `life`: below zero its cell is rock. */
  function FadedTiles(tiles: map<Cell, Tile>, beacon: (real, real), life: real): map<Cell, Tile>
  {
    if life < 0.0 then tiles[Floor(beacon.0, beacon.1) := Rock] else tiles
  }

  /** The light circle's radius once the beacon has faded to `life`: below zero the light is out. */
  function FadedRadius(radius: real, life: real): real
  {
    if life < 0.0 then 0.0 else radius
  }

  /** The world cell where a room stitched at room offset `offset`, its rows inverted, shows the room's cell `p`. */
  function RoomCell(offset: Cell, p: Pos): Cell
  {
    (offset.0 * MAP_SIZE + p.0, offset.1 * MAP_SIZE + MAP_SIZE - 1 - p.1)
  }

  /** The world cell where the first room, stitched at offset (0, 0), shows the room's cell `p`. */
  function WorldCell(p: Pos): Cell
  {
    RoomCell((0, 0), p)
  }

  /**
   * The room at `offset` shows a beacon block as the world map holds it:
   * the unlit beacon, the crystal west of it and ground around.
   */
  ghost predicate BeaconBlockAt(tiles: map<Cell, Tile>, offset: Cell)
  {
    forall p | InBeaconBlock(p) :: RoomCell(offset, p) in tiles && tiles[RoomCell(offset, p)] == BeaconBlockTile(p)
  }

  /** The first room's beacon block as the world map shows it. */
  ghost predicate FirstBeaconBlock(tiles: map<Cell, Tile>)
  {
    BeaconBlockAt(tiles, (0, 0))
  }

  /**
   * `tiles` is `before` with at most the rooms `rooms` rewritten: every
   * cell of another room keeps its tile, and no cell is added outside them.
   */
  ghost predicate OnlyRoomsWritten(tiles: map<Cell, Tile>, before: map<Cell, Tile>, rooms: seq<Cell>)
  {
    && (forall p | p in before && RoomOf(p) !in rooms :: p in tiles && tiles[p] == before[p])
    && (forall p | p in tiles :: p in before || RoomOf(p) in rooms)
  }

  /** Every cell of each room of `rooms` holds a tile. */
  ghost predicate RoomsFilled(tiles: map<Cell, Tile>, rooms: seq<Cell>)
  {
    forall p | RoomOf(p) in rooms :: p in tiles
  }

  /** `tiles` agrees with `expected` on every cell of `expected` whose room is one of `rooms`. */
  ghost predicate KeepsRooms(tiles: map<Cell, Tile>, expected: map<Cell, Tile>, rooms: seq<Cell>)
  {
    forall p | p in expected && RoomOf(p) in rooms :: p in tiles && tiles[p] == expected[p]
  }

  /** The bag, the score, the light's radius and the collection: what handing in and picking up change. */
  datatype BagState = BagState(
    score: int, numberCrystals: seq<int>, crystal1Name: string, crystal2Name: string, darknessRadius: real,
    dictCollection: map<string, bool>, highScore: int)

  /** The beacon, the map and the generator's state: what relighting and picking up change. */
  datatype WorldState = WorldState(
    rateDiminutionLight: real, beaconLife: real, beaconPosition: (real, real), tiles: map<Cell, Tile>, offsetList: seq<Cell>,
    beaconMapHistory: seq<Cell>, axisDraws: nat, roomDraws: nat, listPreciousStones: seq<Stone>, stalled: bool)

  /** The character and the darkness counters: what a tick's move and darkness check change. */
  datatype CharacterState = CharacterState(
    x: real, y: real, characterOrientation: string, displayOrientation: string,
    inDarkness: bool, inDarknessCount: int, isGameOver: bool, countFrame: int)

  /**
   * `update_char_on_map_position` on the character `t0` over the map
   * `tiles`: it faces the movement, shows the matching sprite and strides.
   */
  function Moved(t0: CharacterState, tiles: map<Cell, Tile>, movement: (real, real)): CharacterState
  {
    var position := Stride(tiles, t0.x, t0.y, movement.0, movement.1);
    t0.(x := position.0, y := position.1, characterOrientation := DirValue(Facing(movement.0, movement.1)),
        displayOrientation := DisplayOrientation(movement.0, movement.1))
  }

  /**
   * `manage_in_darkness` on the character `t` with the light centred on
   * `beacon` with radius `radius`: out of the light the counter of ticks in
   * the dark grows and the game ends past `MAX_TIME_IN_DARK` seconds; in
   * the light the counter is reset.
   */
  function Darkened(t: CharacterState, beacon: (real, real), radius: real): CharacterState
  {
    var dark := OutsideRadius(t.x, t.y, beacon, radius);
    var count := if dark then t.inDarknessCount + 1 else 0;
    t.(inDarkness := dark, inDarknessCount := count, isGameOver := t.isGameOver || count > MAX_TIME_IN_DARK * FPS)
  }

  /**
   * The character after the move and darkness check of a tick from `t0`,
   * with the bag `b0` and the world `w0`, the held keys giving `movement`:
   * the frame is counted, the character moves on the map once the beacon
   * has faded and the darkness is checked against the faded light.
   */
  function Tick(t0: CharacterState, b0: BagState, w0: WorldState, movement: (real, real)): CharacterState
  {
    var w := FadedWorld(w0);
    Darkened(Moved(t0.(countFrame := t0.countFrame + 1), w.tiles, movement), w0.beaconPosition,
             FadedRadius(b0.darknessRadius, w.beaconLife))
  }

  /**
   * A tick never puts the character on a tile that does not let it in: it
   * stays, or lands on a walkable tile of the faded map. The frame count
   * grows by one, a finished game stays finished, and in the light the
   * counter of ticks in the dark is back to zero.
   */
  lemma TickKeepsCharacterOnFloor(t0: CharacterState, b0: BagState, w0: WorldState, movement: (real, real))
    ensures var t := Tick(t0, b0, w0, movement);
      && ((t.x, t.y) == (t0.x, t0.y) || Move in Capabilities(TileAt(FadedWorld(w0).tiles, Floor(t.x, t.y))))
      && t.countFrame == t0.countFrame + 1
      && (t0.isGameOver ==> t.isGameOver)
      && (!t.inDarkness ==> t.inDarknessCount == 0)
  {
    var w := FadedWorld(w0);
    var moved := Moved(t0.(countFrame := t0.countFrame + 1), w.tiles, movement);
    var position := Stride(w.tiles, t0.x, t0.y, movement.0, movement.1);
    assert (moved.x, moved.y) == position;
    assert position == (t0.x, t0.y) || Move in Capabilities(TileAt(w.tiles, Floor(position.0, position.1)));
  }

  /** The bag after a tick's fade and darkness check, the character ending in `t`: only the light's radius changes. */
  function FadedBag(b0: BagState, w0: WorldState, t: CharacterState): BagState
  {
    var life := w0.beaconLife - w0.rateDiminutionLight;
    b0.(darknessRadius := if t.inDarknessCount > MAX_TIME_IN_DARK * FPS then 0.0 else FadedRadius(b0.darknessRadius, life))
  }

  /** The world after a tick's fade: the beacon has lost a step of life, and its cell is rock once that life is below zero. */
  function FadedWorld(w0: WorldState): WorldState
  {
    var life := w0.beaconLife - w0.rateDiminutionLight;
    w0.(beaconLife := life, tiles := FadedTiles(w0.tiles, w0.beaconPosition, life))
  }

  /**
   * `expand_grid_map` around `centre` from `s0`, with `d` the direction of
   * the new beacon room: nothing changes around the first room; elsewhere
   * the beacon room is recorded, only the ring rooms that are neither the
   * centre nor a beacon room are rewritten (so the centre room and every
   * beacon room keep their tiles), and unless the generator stalled those
   * rooms are appended to the offsets, each is filled, and the new beacon
   * room, when it was not one before, shows its beacon block. The light is
   * not touched.
   */
  ghost predicate Expanded(s: WorldState, s0: WorldState, centre: Cell, d: Cell)
  {
    && s.rateDiminutionLight == s0.rateDiminutionLight && s.beaconLife == s0.beaconLife
    && s.beaconPosition == s0.beaconPosition
    && KeepsRooms(s.tiles, s0.tiles, s0.beaconMapHistory + [RoomOf(centre)])
    && (RoomOf(centre) == (0, 0) ==> s == s0)
    && (RoomOf(centre) != (0, 0) ==>
         && s.axisDraws == s0.axisDraws + 1
         && s.beaconMapHistory == s0.beaconMapHistory + [(RoomOf(centre).0 + d.0, RoomOf(centre).1 + d.1)]
         && (s0.stalled ==> s.stalled)
         && OnlyRoomsWritten(s.tiles, s0.tiles, Expansion(RoomOf(centre), s0.beaconMapHistory, |RING|))
         && (!s.stalled ==>
               && s.offsetList == s0.offsetList + Expansion(RoomOf(centre), s0.beaconMapHistory, |RING|)
               && RoomsFilled(s.tiles, Expansion(RoomOf(centre), s0.beaconMapHistory, |RING|)))
         && (!s.stalled && (RoomOf(centre).0 + d.0, RoomOf(centre).1 + d.1) !in s0.beaconMapHistory ==>
               BeaconBlockAt(s.tiles, (RoomOf(centre).0 + d.0, RoomOf(centre).1 + d.1))))
  }

  /**
   * `start_new_beacon` from `s0`, the score aside: the light is reset and
   * fades faster, the old beacon's cell is rock and `cell` a lit beacon,
   * and then the world is expanded around `centre` in direction `d`.
   */
  ghost predicate Relocated(s: WorldState, s0: WorldState, centre: Cell, cell: Option<Cell>, d: Cell)
  {
    && cell.Some?
    && Expanded(s, s0.(rateDiminutionLight := s0.rateDiminutionLight + RATE_DIMINUTION_LIGHT_AUGMENTATION,
                      beaconLife := MAX_INTENSITY as real,
                      beaconPosition := (cell.value.0 as real, cell.value.1 as real + 0.5),
                      tiles := s0.tiles[Floor(s0.beaconPosition.0, s0.beaconPosition.1) := Rock][cell.value := BeaconOn]),
                centre, d)
  }

  /**
   * The bag handed in at a beacon `tile`: the counted crystals go to the
   * score and widen the light (from its start radius at an unlit beacon);
   * a non-empty bag is emptied and its stones recorded as found, and an
   * unlit beacon with a non-empty bag is relit at `cell`, the world
   * expanding around `centre` in direction `d`. Anything else stays.
   */
  ghost predicate HandedIn(b: BagState, b0: BagState, s: WorldState, s0: WorldState,
                           tile: Tile, centre: Cell, cell: Option<Cell>, d: Cell)
    requires |b0.numberCrystals| == 2 && CarriedName(b0.crystal1Name) && CarriedName(b0.crystal2Name)
  {
    var lit := tile == BeaconOff && b0.numberCrystals[0] != 0;
    && b.score == b0.score + b0.numberCrystals[1] + (if lit then 5 else 0)
    && b.darknessRadius ==
         (if tile == BeaconOff && b0.numberCrystals[1] != 0 then START_BEACON_CASES as real else b0.darknessRadius)
         + b0.numberCrystals[1] as real * RATE_AUGMENTATION_LIGHT_DISPLAY
    && b.numberCrystals == (if b0.numberCrystals[0] != 0 then [0, 0] else b0.numberCrystals)
    && b.dictCollection ==
         (if b0.numberCrystals[0] != 0 then Found(Found(b0.dictCollection, b0.crystal1Name), b0.crystal2Name)
          else b0.dictCollection)
    && b.highScore == b0.highScore && b.crystal1Name == b0.crystal1Name && b.crystal2Name == b0.crystal2Name
    && (lit ==> Relocated(s, s0, centre, cell, d))
    && (!lit ==> s == s0)
  }

  /**
   * A crystal or stone `tile` at `position` picked up: if the bag has room
   * it counts one more (one more crystal too for a crystal), the cell turns
   * to ground and the stone's code names the slot it fills; a full bag
   * changes nothing.
   */
  ghost predicate PickedUp(b: BagState, b0: BagState, s: WorldState, s0: WorldState, tile: Tile, position: Cell)
    requires |b0.numberCrystals| == 2
  {
    var room := b0.numberCrystals[0] < MAX_CRYSTALS;
    && b.score == b0.score && b.darknessRadius == b0.darknessRadius
    && b.dictCollection == b0.dictCollection && b.highScore == b0.highScore
    && b.numberCrystals == (if room then [b0.numberCrystals[0] + 1, b0.numberCrystals[1] + (if tile == Crystal then 1 else 0)]
                            else b0.numberCrystals)
    && s == s0.(tiles := if room then s0.tiles[position := Ground] else s0.tiles)
    && (if room && b0.numberCrystals[0] == 0 then b.crystal1Name == Code(tile) && b.crystal2Name == b0.crystal2Name
        else if room then b.crystal2Name == Code(tile) && b.crystal1Name == b0.crystal1Name
        else b.crystal1Name == b0.crystal1Name && b.crystal2Name == b0.crystal2Name)
  }

  /** One released key from `b0` and `s0`, as its `target` decides: nothing without a target, else a hand-in or a pick-up. */
  ghost predicate Interacted(b: BagState, b0: BagState, s: WorldState, s0: WorldState,
                             target: Option<(Tile, Cell)>, centre: Cell, cell: Option<Cell>, d: Cell)
    requires |b0.numberCrystals| == 2 && CarriedName(b0.crystal1Name) && CarriedName(b0.crystal2Name)
  {
    match target
    case None => b == b0 && s == s0
    case Some((tile, position)) =>
      if tile == BeaconOff || tile == BeaconOn then HandedIn(b, b0, s, s0, tile, centre, cell, d)
      else PickedUp(b, b0, s, s0, tile, position)
  }

  /**
   * After `seen` interact keys were released from `b0`, `w0`, where the
   * interact key had `target`: none changed anything, or one had its effect.
   */
  ghost predicate Released(seen: nat, b: BagState, b0: BagState, w: WorldState, w0: WorldState,
                           target: Option<(Tile, Cell)>, centre: Cell, cell: Option<Cell>, d: Cell)
    requires |b0.numberCrystals| == 2 && CarriedName(b0.crystal1Name) && CarriedName(b0.crystal2Name)
  {
    && (seen == 0 ==> b == b0 && w == w0)
    && (seen == 1 ==> Interacted(b, b0, w, w0, target, centre, cell, d))
  }

  /** The start cells of a new game: the beacon on the first room's centre, the character inside its beacon block. */
  lemma StartCells()
    ensures Floor(5.0, 4.5) == WorldCell(CENTER)
    ensures Floor(4.5, 5.5) == WorldCell((4, 4)) && InBeaconBlock((4, 4))
  {
  }

  class WorldExplorerScreen {
    var gridMap: GridMap
    /** The player's collection of found stones and the high score. */
    const collection: MyCollection
    const rng: Randomness
    /** How many digging rounds a beacon room may take before generation gives up. */
    const maxRounds: nat
    const beaconXChange: int
    const beaconYChange: int
    /** The key settings: the action names in table order, and the key bound to each. */
    const keyNames: seq<string>
    const dictKeys: map<string, string>

    var roomDraws: nat
    var axisDraws: nat
    /** Set when room generation ran out of digging rounds; the source would loop for ever there. */
    var stalled: bool
    /** Whether the tick is still scheduled; the end of the game-over freeze unschedules it. */
    var scheduled: bool

    var xCharOnMap: real
    var yCharOnMap: real
    var characterOrientation: string
    var displayOrientation: string
    var score: int
    var numberCrystals: seq<int>
    var crystal1Name: string
    var crystal2Name: string
    var beaconLife: real
    var rateDiminutionLight: real
    var beaconPosition: (real, real)
    var darknessRadius: real
    var inDarkness: bool
    var inDarknessCount: int
    var isGameOver: bool
    var gameOverTimer: int
    var countFrame: int
    var listKeydown: seq<string>
    var listKeyup: seq<string>
    var beaconMapHistory: seq<Cell>
    var listPreciousStones: seq<Stone>

    /** The map accepts rooms of the generator's size. */
    ghost predicate GridValid()
      reads this`gridMap, gridMap
    {
      gridMap.Valid() && (gridMap.mapSize.None? || gridMap.mapSize == Some((MAP_SIZE, MAP_SIZE)))
    }

    /** The collection has an entry for every stone, as the room generator reads it. */
    ghost predicate CollectionValid()
      reads collection
    {
      forall s: Stone :: StoneName(s) in collection.dictCollection
    }

    /** The settings fixed for the whole game. */
    ghost predicate SettingsValid()
    {
      && maxRounds > 0
      && (beaconXChange == 1 || beaconXChange == -1) && (beaconYChange == 1 || beaconYChange == -1)
      && INTERACT in dictKeys && (forall n :: n in dictKeys <==> n in keyNames) && NoDuplicates(keyNames)
    }

    /** The bag: no more crystals than it holds, no more counted crystals than carried, named slots. */
    ghost predicate BagValid()
      reads this`numberCrystals, this`crystal1Name, this`crystal2Name
    {
      && |numberCrystals| == 2 && 0 <= numberCrystals[1] <= numberCrystals[0] <= MAX_CRYSTALS
      && CarriedName(crystal1Name) && CarriedName(crystal2Name)
    }

    ghost predicate CountersValid()
      reads this`listKeydown, this`darknessRadius, this`inDarknessCount, this`gameOverTimer
    {
      && NoDuplicates(listKeydown)
      && darknessRadius >= 0.0
      && inDarknessCount >= 0 && gameOverTimer >= 0
    }

    ghost predicate Valid()
      reads this`gridMap, gridMap, collection, this`numberCrystals, this`crystal1Name, this`crystal2Name
      reads this`listKeydown, this`darknessRadius, this`inDarknessCount, this`gameOverTimer, this`listPreciousStones
    {
      GridValid() && CollectionValid() && SettingsValid() && BagValid() && CountersValid() && NoDuplicates(listPreciousStones)
    }

    /**
     * The state a new game starts in, the map aside: running and scheduled,
     * no frame counted, in the light with a full beacon of radius 3, the
     * bag's slots unnamed and no key held or released.
     */
    ghost predicate Started()
      reads this`scheduled, this`isGameOver, this`gameOverTimer, this`countFrame, this`inDarkness
      reads this`inDarknessCount, this`beaconLife, this`darknessRadius, this`rateDiminutionLight
      reads this`crystal1Name, this`crystal2Name, this`listKeydown, this`listKeyup
    {
      && scheduled && !isGameOver && gameOverTimer == 0 && countFrame == 0
      && !inDarkness && inDarknessCount == 0
      && beaconLife == 10.0 && darknessRadius == 3.0 && rateDiminutionLight == RATE_DIMINUTION_LIGHT
      && crystal1Name == "" && crystal2Name == "" && listKeydown == [] && listKeyup == []
    }

    /**
     * Where a new game places things: the character in the cell south-west
     * of the beacon, whose cell centre is recorded half a cell up, the
     * character facing a direction no tile is faced in, and an empty bag,
     * a zero score and the first room as the only beacon room.
     */
    ghost predicate Placed()
      reads this`xCharOnMap, this`yCharOnMap, this`beaconPosition, this`characterOrientation
      reads this`score, this`numberCrystals, this`beaconMapHistory
    {
      && (xCharOnMap, yCharOnMap) == (4.5, 5.5) && beaconPosition == (5.0, 4.5)
      && characterOrientation == "bottom"
      && score == 0 && numberCrystals == [0, 0] && beaconMapHistory == [(0, 0)]
    }

    /** The tile under the character and the one it faces, as `get_next_tile` reads them. */
    function GetNextTile(): (r: Option<(Option<Tile>, Cell)>)
      reads this`xCharOnMap, this`yCharOnMap, this`characterOrientation, this`gridMap, gridMap`tiles
      ensures r.Some? <==> Oriented(characterOrientation)
      ensures r.Some? ==> r.value.1 == FacedCell(Floor(xCharOnMap, yCharOnMap), characterOrientation).value
      ensures r.Some? ==> r.value.0 == gridMap.GetTileType(r.value.1)
    {
      var cell := FacedCell(Floor(xCharOnMap, yCharOnMap), characterOrientation);
      if cell.None? then None else Some((gridMap.GetTileType(cell.value), cell.value))
    }

    /**
     * `update_list_keydown`: a key goes down once (appended only if absent)
     * and comes up once (removed if present).
     */
    method UpdateListKeydown(action: KeyAction, key: string)
      requires NoDuplicates(listKeydown)
      modifies this`listKeydown
      ensures listKeydown == (
        if action == KeyDown && key !in old(listKeydown) then old(listKeydown) + [key]
        else if action == KeyUp && key in old(listKeydown) then RemoveFirst(old(listKeydown), key)
        else old(listKeydown))
      ensures NoDuplicates(listKeydown)
      ensures action == KeyDown ==> key in listKeydown
      ensures action == KeyUp ==> key !in listKeydown
      ensures forall k | k != key :: k in listKeydown <==> k in old(listKeydown)
    {
      if action == KeyDown && key !in listKeydown {
        listKeydown := listKeydown + [key];
      }
      if action == KeyUp && key in listKeydown {
        RemoveFirstNoDuplicates(listKeydown, key);
        listKeydown := RemoveFirst(listKeydown, key);
      }
    }

    /** A key released is queued for interaction when some action is bound to it, and is no longer held. */
    method UpdateOnKeyUp(key: string)
      requires NoDuplicates(listKeydown)
      modifies this`listKeyup, this`listKeydown
      ensures listKeyup == old(listKeyup) + (if key in dictKeys.Values then [key] else [])
      ensures listKeydown == if key in old(listKeydown) then RemoveFirst(old(listKeydown), key) else old(listKeydown)
      ensures NoDuplicates(listKeydown) && key !in listKeydown
      ensures forall k | k != key :: k in listKeydown <==> k in old(listKeydown)
    {
      if key in dictKeys.Values {
        listKeyup := listKeyup + [key];
      }
      UpdateListKeydown(KeyUp, key);
    }

    /** The movement the held keys `held` give, as `get_movements_keyboard` computes it. */
    function Movement(held: seq<string>): (real, real)
      requires forall n | n in keyNames :: n in dictKeys
    {
      Normalise(Axis(Hits(held, keyNames, dictKeys), "right", "left"), Axis(Hits(held, keyNames, dictKeys), "top", "bottom"))
    }

    /**
     * `get_movements_keyboard`: each held key sets its axis to +1 or -1,
     * a later key overriding an earlier one, and a diagonal is scaled
     * down by `SQUARE_TWO`.
     */
    method GetMovementsKeyboard() returns (xMovement: real, yMovement: real)
      requires forall n | n in keyNames :: n in dictKeys
      ensures (xMovement, yMovement) == Normalise(
        Axis(Hits(listKeydown, keyNames, dictKeys), "right", "left"),
        Axis(Hits(listKeydown, keyNames, dictKeys), "top", "bottom"))
    {
      var x, y := 0, 0;
      for k := 0 to |listKeydown|
        invariant x == Axis(Hits(listKeydown[..k], keyNames, dictKeys), "right", "left")
        invariant y == Axis(Hits(listKeydown[..k], keyNames, dictKeys), "top", "bottom")
      {
        ghost var before := Hits(listKeydown[..k], keyNames, dictKeys);
        x, y := ApplyKey(listKeydown[k], x, y, before);
        assert listKeydown[..k + 1][..k] == listKeydown[..k];
      }
      assert listKeydown[..|listKeydown|] == listKeydown;
      xMovement, yMovement := Normalise(x, y).0, Normalise(x, y).1;
    }

    /** One held key: every action bound to it sets its axis, in the order of the key table. */
    method ApplyKey(key: string, x0: int, y0: int, ghost before: seq<string>) returns (x: int, y: int)
      requires forall n | n in keyNames :: n in dictKeys
      requires x0 == Axis(before, "right", "left") && y0 == Axis(before, "top", "bottom")
      ensures x == Axis(before + KeyHits(key, keyNames, dictKeys), "right", "left")
      ensures y == Axis(before + KeyHits(key, keyNames, dictKeys), "top", "bottom")
    {
      x, y := x0, y0;
      assert before + KeyHits(key, keyNames[..0], dictKeys) == before;
      for m := 0 to |keyNames|
        invariant x == Axis(before + KeyHits(key, keyNames[..m], dictKeys), "right", "left")
        invariant y == Axis(before + KeyHits(key, keyNames[..m], dictKeys), "top", "bottom")
      {
        var movement := keyNames[m];
        ghost var hits := before + KeyHits(key, keyNames[..m], dictKeys);
        AxisStep(before, key, keyNames, m, dictKeys);
        if Lower(key) == dictKeys[movement] {
          assert before + KeyHits(key, keyNames[..m + 1], dictKeys) == hits + [movement];
          AxisSnoc(hits, movement, "right", "left");
          AxisSnoc(hits, movement, "top", "bottom");
          if movement == "top" {
            y := 1;
          }
          if movement == "bottom" {
            y := -1;
          }
          if movement == "right" {
            x := 1;
          }
          if movement == "left" {
            x := -1;
          }
        } else {
          assert before + KeyHits(key, keyNames[..m + 1], dictKeys) == hits;
        }
      }
      assert keyNames[..|keyNames|] == keyNames;
    }

    /**
     * `update_char_on_map_position`: faces the movement, picks the sprite,
     * then moves by `SPEED` times the movement: diagonally if the target
     * cell lets the character in and one of the two straight targets does,
     * else along x alone, else along y alone, else not at all. Whenever the
     * character moves, it lands on a tile that lets it in.
     */
    method UpdateCharOnMapPosition(xMovement: real, yMovement: real)
      modifies this`xCharOnMap, this`yCharOnMap, this`characterOrientation, this`displayOrientation
      ensures Character() == Moved(old(Character()), gridMap.tiles, (xMovement, yMovement))
      ensures Oriented(characterOrientation)
      ensures (xCharOnMap, yCharOnMap) == (old(xCharOnMap), old(yCharOnMap))
        || Move in Capabilities(gridMap.GetTileType(Floor(xCharOnMap, yCharOnMap)))
    {
      var facing := Facing(xMovement, yMovement);
      characterOrientation := DirValue(facing);
      displayOrientation := DisplayOrientation(xMovement, yMovement);
      xCharOnMap, yCharOnMap := NextPosition(xCharOnMap, yCharOnMap, xMovement, yMovement);
    }

    /**
     * The move of `update_char_on_map_position` from (x, y): diagonally if
     * the target cell lets the character in and one of the two straight
     * targets does, else along x alone, else along y alone, else no move.
     */
    method NextPosition(x: real, y: real, xMovement: real, yMovement: real) returns (xTo: real, yTo: real)
      ensures (xTo, yTo) == Stride(gridMap.tiles, x, y, xMovement, yMovement)
    {
      var xExtremity := x + SPEED * xMovement;
      var yExtremity := y + SPEED * yMovement;
      var nextXY := Capabilities(gridMap.GetTileType(Floor(xExtremity, yExtremity)));
      var nextX := Capabilities(gridMap.GetTileType(Floor(xExtremity, y)));
      var nextY := Capabilities(gridMap.GetTileType(Floor(x, yExtremity)));
      xTo, yTo := x, y;
      if Move in nextXY && (Move in nextX || Move in nextY) {
        xTo, yTo := xExtremity, yExtremity;
      } else if Move in nextX {
        xTo := xExtremity;
      } else if Move in nextY {
        yTo := yExtremity;
      }
    }

    constructor (rng: Randomness, maxRounds: nat, beaconXChange: int, beaconYChange: int,
                 keyNames: seq<string>, dictKeys: map<string, string>, collection: MyCollection)
      requires maxRounds > 0
      requires (beaconXChange == 1 || beaconXChange == -1) && (beaconYChange == 1 || beaconYChange == -1)
      requires INTERACT in dictKeys && (forall n :: n in dictKeys <==> n in keyNames) && NoDuplicates(keyNames)
      requires forall s: Stone :: StoneName(s) in collection.dictCollection
      ensures Valid() && fresh(gridMap)
      ensures this.collection == collection && this.rng == rng && this.maxRounds == maxRounds
      ensures this.keyNames == keyNames && this.dictKeys == dictKeys
      ensures this.beaconXChange == beaconXChange && this.beaconYChange == beaconYChange
      ensures Started() && axisDraws == 1
      ensures !stalled ==> gridMap.offsetList == [(0, 0)] + NEIGHBOUR_OFFSETS
      ensures Placed() && GetNextTile() == None
      ensures !stalled ==> FirstBeaconBlock(gridMap.tiles)
      ensures !stalled ==> gridMap.GetTileType(Floor(beaconPosition.0, beaconPosition.1)) == Some(BeaconOff)
      ensures !stalled ==> gridMap.GetTileType(Floor(xCharOnMap, yCharOnMap)) == Some(Ground)
    {
      this.collection := collection;
      this.rng := rng;
      this.maxRounds := maxRounds;
      this.beaconXChange := beaconXChange;
      this.beaconYChange := beaconYChange;
      this.keyNames := keyNames;
      this.dictKeys := dictKeys;
      gridMap := new GridMap();
      roomDraws, axisDraws, stalled, scheduled := 0, 0, false, true;
      characterOrientation, displayOrientation := "bottom", "bottom";
      score := 0;
      numberCrystals := [0, 0];
      crystal1Name, crystal2Name := "", "";
      beaconLife := 10.0;
      rateDiminutionLight := RATE_DIMINUTION_LIGHT;
      darknessRadius := 3.0;
      inDarkness, inDarknessCount := false, 0;
      isGameOver, gameOverTimer := false, 0;
      countFrame := 0;
      listKeydown, listKeyup := [], [];
      listPreciousStones := [];
      xCharOnMap := MAP_SIZE as real / 2.0 + 0.5 - 1.0;
      yCharOnMap := MAP_SIZE as real / 2.0 + 0.5;
      beaconPosition := ((MAP_SIZE / 2) as real, (MAP_SIZE / 2) as real - 0.5);
      beaconMapHistory := [(0, 0)];
      new;
      assert Started() && Placed();
      BuildGridMap();
      if !stalled {
        StartCells();
      }
    }

    /**
     * Generates the next room with the next draws, threading the list of
     * placed stones, and stitches it in at `offset`. Once generation has
     * run out of digging rounds, nothing more is generated.
     */
    method AddRoom(offset: Cell, hasBeacon: bool) returns (ghost room: Option<Grid>)
      requires Valid()
      modifies this`roomDraws, this`listPreciousStones, this`stalled, gridMap
      ensures Valid()
      ensures room.Some? ==> IsRoom(room.value)
      ensures !stalled ==>
        && room.Some? && IsRoom(room.value)
        && Stitched(gridMap.tiles, old(gridMap.tiles), room.value, offset.0 * MAP_SIZE, offset.1 * MAP_SIZE)
      ensures room.Some? && hasBeacon ==> forall p | InBeaconBlock(p) :: At(room.value, p) == BeaconBlockTile(p)
      ensures old(stalled) ==> stalled && roomDraws == old(roomDraws) && listPreciousStones == old(listPreciousStones)
      ensures !stalled ==> gridMap.offsetList == old(gridMap.offsetList) + [offset]
      ensures !stalled ==> RoomWritten(gridMap.tiles, old(gridMap.tiles), offset)
      ensures !stalled && hasBeacon ==> BeaconBlockAt(gridMap.tiles, offset)
      ensures stalled ==> gridMap.tiles == old(gridMap.tiles) && gridMap.offsetList == old(gridMap.offsetList)
      ensures OnlyRoomsWritten(gridMap.tiles, old(gridMap.tiles), [offset])
    {
      room := None;
      if !stalled {
        var generated, stones := GenerateRoom(listPreciousStones, hasBeacon, collection.dictCollection, rng.rooms(roomDraws), maxRounds);
        room := generated;
        roomDraws := roomDraws + 1;
        listPreciousStones := stones;
        if generated.None? {
          stalled := true;
        } else {
          StitchRoom(generated.value, offset);
          if hasBeacon {
            BeaconBlockBuilt(gridMap.tiles, old(gridMap.tiles), generated.value, offset);
          }
        }
      }
    }

    /** `add_submap` of a generated room: always accepted, it writes its block and nothing else. */
    method StitchRoom(room: Grid, offset: Cell)
      requires GridValid() && IsRoom(room)
      modifies gridMap
      ensures GridValid()
      ensures gridMap.offsetList == old(gridMap.offsetList) + [offset]
      ensures Stitched(gridMap.tiles, old(gridMap.tiles), room, offset.0 * MAP_SIZE, offset.1 * MAP_SIZE)
      ensures RoomWritten(gridMap.tiles, old(gridMap.tiles), offset)
    {
      var added := gridMap.AddSubmap(room, offset);
      assert |room[0]| == MAP_SIZE;
      forall p: Cell
        ensures InBlock(p, MAP_SIZE, MAP_SIZE, offset.0 * MAP_SIZE, offset.1 * MAP_SIZE) <==> RoomOf(p) == offset
      {
        BlockOfOffset(p, MAP_SIZE, MAP_SIZE, offset);
      }
    }

    /**
     * `build_grid_map`: the first room, with a beacon, at offset (0, 0), then
     * its eight neighbours, the one in the drawn beacon direction with a
     * beacon too. Only those nine rooms are written; unless generation
     * stalled, each is filled and both beacon blocks stand.
     */
    method BuildGridMap()
      requires Valid()
      modifies this`axisDraws, this`roomDraws, this`listPreciousStones, this`stalled, gridMap
      ensures Valid() && axisDraws == old(axisDraws) + 1
      ensures OnlyRoomsWritten(gridMap.tiles, old(gridMap.tiles), [(0, 0)] + NEIGHBOUR_OFFSETS)
      ensures !stalled ==>
        && gridMap.offsetList == old(gridMap.offsetList) + [(0, 0)] + NEIGHBOUR_OFFSETS
        && RoomsFilled(gridMap.tiles, [(0, 0)] + NEIGHBOUR_OFFSETS)
        && FirstBeaconBlock(gridMap.tiles)
        && BeaconBlockAt(gridMap.tiles, BeaconDirection(rng.axes(old(axisDraws)), beaconXChange, beaconYChange))
    {
      var beaconDirection := BeaconDirection(rng.axes(axisDraws), beaconXChange, beaconYChange);
      axisDraws := axisDraws + 1;
      listPreciousStones := [];
      ghost var first := AddRoom((0, 0), true);
      ghost var mid := gridMap.tiles;
      AddNeighbours(beaconDirection);
      WrittenThen(gridMap.tiles, mid, old(gridMap.tiles), [(0, 0)], NEIGHBOUR_OFFSETS);
      if !stalled {
        BeaconBlockKept(gridMap.tiles, mid, (0, 0), NEIGHBOUR_OFFSETS);
      }
    }

    /**
     * The eight neighbours of the first room, in order, the one at
     * `beaconDirection` with a beacon: only those rooms are written, and
     * unless generation stalled each is filled and the beacon block stands.
     */
    method AddNeighbours(beaconDirection: Cell)
      requires Valid()
      modifies this`roomDraws, this`listPreciousStones, this`stalled, gridMap
      ensures Valid()
      ensures old(stalled) ==> stalled
      ensures OnlyRoomsWritten(gridMap.tiles, old(gridMap.tiles), NEIGHBOUR_OFFSETS)
      ensures !stalled ==>
        && gridMap.offsetList == old(gridMap.offsetList) + NEIGHBOUR_OFFSETS
        && RoomsFilled(gridMap.tiles, NEIGHBOUR_OFFSETS)
        && (beaconDirection in NEIGHBOUR_OFFSETS ==> BeaconBlockAt(gridMap.tiles, beaconDirection))
    {
      for k := 0 to |NEIGHBOUR_OFFSETS|
        invariant Valid() && (old(stalled) ==> stalled)
        invariant OnlyRoomsWritten(gridMap.tiles, old(gridMap.tiles), NEIGHBOUR_OFFSETS[..k])
        invariant !stalled ==>
          && gridMap.offsetList == old(gridMap.offsetList) + NEIGHBOUR_OFFSETS[..k]
          && RoomsFilled(gridMap.tiles, NEIGHBOUR_OFFSETS[..k])
          && (beaconDirection in NEIGHBOUR_OFFSETS[..k] ==> BeaconBlockAt(gridMap.tiles, beaconDirection))
      {
        var position := NEIGHBOUR_OFFSETS[k];
        ghost var before := gridMap.tiles;
        ghost var room := AddRoom(position, position == beaconDirection);
        WrittenThen(gridMap.tiles, before, old(gridMap.tiles), NEIGHBOUR_OFFSETS[..k], [position]);
        if !stalled && beaconDirection in NEIGHBOUR_OFFSETS[..k] && position != beaconDirection {
          BeaconBlockKept(gridMap.tiles, before, beaconDirection, [position]);
        }
        assert NEIGHBOUR_OFFSETS[..k + 1] == NEIGHBOUR_OFFSETS[..k] + [position];
      }
      assert NEIGHBOUR_OFFSETS[..|NEIGHBOUR_OFFSETS|] == NEIGHBOUR_OFFSETS;
    }

    /**
     * The map after the first `k` positions of the ring around `gridOffset`
     * were scanned from the tiles `base` and offsets `baseOffsets`: only the
     * rooms filled so far were rewritten; unless generation stalled, they
     * were appended to the offsets and every cell of theirs holds a tile,
     * and the room `withBeacon`, once filled, shows its beacon block.
     */
    ghost predicate RingScanned(gridOffset: Cell, withBeacon: Cell, base: map<Cell, Tile>, baseOffsets: seq<Cell>, k: nat)
      requires k <= |RING|
      reads this`stalled, this`gridMap, gridMap`tiles, gridMap`offsetList, this`beaconMapHistory
    {
      var rooms := Expansion(gridOffset, beaconMapHistory, k);
      && OnlyRoomsWritten(gridMap.tiles, base, rooms)
      && (!stalled ==> gridMap.offsetList == baseOffsets + rooms && RoomsFilled(gridMap.tiles, rooms))
      && (!stalled && withBeacon in rooms ==> BeaconBlockAt(gridMap.tiles, withBeacon))
    }

    /**
     * `expand_grid_map`: around the room holding `centre` (unless it is the
     * first room), fills every other room of the 3×3 ring that never held a
     * beacon with a new room, the one in the drawn direction with a beacon,
     * and records that beacon room. No other room changes.
     */
    method ExpandGridMap(centre: Cell)
      requires Valid()
      modifies this`axisDraws, this`roomDraws, this`listPreciousStones, this`stalled, this`beaconMapHistory, gridMap
      ensures Valid()
      ensures Expanded(World(), old(World()), centre, BeaconDirection(rng.axes(old(axisDraws)), beaconXChange, beaconYChange))
    {
      var gridOffset := RoomOf(centre);
      if gridOffset == (0, 0) {
        return;
      }
      var d := BeaconDirection(rng.axes(axisDraws), beaconXChange, beaconYChange);
      axisDraws := axisDraws + 1;
      var withBeacon := (gridOffset.0 + d.0, gridOffset.1 + d.1);
      ExpandRing(gridOffset, withBeacon);
      ExpansionKeeps(gridMap.tiles, old(gridMap.tiles), gridOffset, beaconMapHistory);
      ExpansionHas(gridOffset, beaconMapHistory, d);
      beaconMapHistory := beaconMapHistory + [withBeacon];
    }

    /** The nine rooms of the ring around `gridOffset`, column by column. */
    method ExpandRing(gridOffset: Cell, withBeacon: Cell)
      requires Valid()
      modifies this`roomDraws, this`listPreciousStones, this`stalled, gridMap
      ensures Valid()
      ensures old(stalled) ==> stalled
      ensures RingScanned(gridOffset, withBeacon, old(gridMap.tiles), old(gridMap.offsetList), |RING|)
    {
      assert old(gridMap.offsetList) + [] == old(gridMap.offsetList);
      for i := -1 to 2
        invariant Valid()
        invariant old(stalled) ==> stalled
        invariant RingScanned(gridOffset, withBeacon, old(gridMap.tiles), old(gridMap.offsetList), 3 * (i + 1))
      {
        ExpandColumn(gridOffset, i, withBeacon, old(gridMap.tiles), old(gridMap.offsetList));
      }
    }

    /** One column `i` of the ring: rooms `(i, -1)`, `(i, 0)`, `(i, 1)` around `gridOffset`. */
    method ExpandColumn(gridOffset: Cell, i: int, withBeacon: Cell, ghost base: map<Cell, Tile>, ghost baseOffsets: seq<Cell>)
      requires Valid() && -1 <= i <= 1
      requires RingScanned(gridOffset, withBeacon, base, baseOffsets, 3 * (i + 1))
      modifies this`roomDraws, this`listPreciousStones, this`stalled, gridMap
      ensures Valid()
      ensures old(stalled) ==> stalled
      ensures RingScanned(gridOffset, withBeacon, base, baseOffsets, 3 * (i + 1) + 3)
    {
      for j := -1 to 2
        invariant Valid()
        invariant old(stalled) ==> stalled
        invariant RingScanned(gridOffset, withBeacon, base, baseOffsets, 3 * (i + 1) + (j + 1))
      {
        ExpandCell(gridOffset, i, j, withBeacon, base, baseOffsets);
      }
    }

    /** Room `(i, j)` of the ring: a new room unless it is the centre or a beacon room, with a beacon if it is `withBeacon`. */
    method ExpandCell(gridOffset: Cell, i: int, j: int, withBeacon: Cell, ghost base: map<Cell, Tile>, ghost baseOffsets: seq<Cell>)
      requires Valid() && -1 <= i <= 1 && -1 <= j <= 1
      requires RingScanned(gridOffset, withBeacon, base, baseOffsets, 3 * (i + 1) + (j + 1))
      modifies this`roomDraws, this`listPreciousStones, this`stalled, gridMap
      ensures Valid()
      ensures old(stalled) ==> stalled
      ensures RingScanned(gridOffset, withBeacon, base, baseOffsets, 3 * (i + 1) + (j + 1) + 1)
    {
      var offset := (gridOffset.0 + i, gridOffset.1 + j);
      var hasBeacon := offset == withBeacon;
      RingAt(i, j);
      ghost var rooms := Expansion(gridOffset, beaconMapHistory, 3 * (i + 1) + (j + 1));
      ghost var next := Expansion(gridOffset, beaconMapHistory, 3 * (i + 1) + (j + 1) + 1);
      if (i, j) != (0, 0) && offset !in beaconMapHistory {
        assert next == rooms + [offset];
        ghost var before := gridMap.tiles;
        ghost var offsets := gridMap.offsetList;
        ghost var room := AddRoom(offset, hasBeacon);
        WrittenThen(gridMap.tiles, before, base, rooms, [offset]);
        if !stalled {
          assert gridMap.offsetList == baseOffsets + rooms + [offset];
          if withBeacon in rooms && !hasBeacon {
            BeaconBlockKept(gridMap.tiles, before, withBeacon, [offset]);
          }
        }
      } else {
        assert next == rooms + [] == rooms;
      }
    }

    /**
     * The grid part of `start_new_beacon`: 5 points, a faster fading light
     * at full intensity, the old beacon's cell turned to rock and the faced
     * cell into a lit beacon, which becomes the light's centre.
     */
    method RelocateBeacon()
      requires Valid() && Oriented(characterOrientation)
      modifies this`score, this`rateDiminutionLight, this`beaconLife, this`beaconPosition, gridMap
      ensures Valid()
      ensures
        var cell := FacedCell(Floor(xCharOnMap, yCharOnMap), characterOrientation).value;
        && score == old(score) + 5
        && rateDiminutionLight == old(rateDiminutionLight) + RATE_DIMINUTION_LIGHT_AUGMENTATION
        && beaconLife == MAX_INTENSITY as real
        && beaconPosition == (cell.0 as real, cell.1 as real + 0.5)
        && Floor(beaconPosition.0, beaconPosition.1) == cell
        && gridMap.tiles == old(gridMap.tiles)[Floor(old(beaconPosition).0, old(beaconPosition).1) := Rock][cell := BeaconOn]
      ensures gridMap.offsetList == old(gridMap.offsetList) && gridMap.mapSize == old(gridMap.mapSize)
    {
      score := score + 5;
      rateDiminutionLight := rateDiminutionLight + RATE_DIMINUTION_LIGHT_AUGMENTATION;
      var cell := FacedCell(Floor(xCharOnMap, yCharOnMap), characterOrientation).value;
      beaconLife := MAX_INTENSITY as real;
      MoveBeaconTile(gridMap, Floor(beaconPosition.0, beaconPosition.1), cell);
      beaconPosition := (cell.0 as real, cell.1 as real + 0.5);
      BeaconCellFloor(cell);
    }

    /** `start_new_beacon`: relocates the beacon, then expands the world around `centre`. */
    method StartNewBeacon(centre: Cell)
      requires Valid() && Oriented(characterOrientation)
      modifies this`score, this`rateDiminutionLight, this`beaconLife, this`beaconPosition
      modifies this`axisDraws, this`roomDraws, this`listPreciousStones, this`stalled, this`beaconMapHistory, gridMap
      ensures Valid()
      ensures score == old(score) + 5
      ensures Relit(centre)
    {
      ghost var s0 := World();
      ghost var cell := FacedCell(Floor(xCharOnMap, yCharOnMap), characterOrientation).value;
      RelocateBeacon();
      assert World() == s0.(rateDiminutionLight := s0.rateDiminutionLight + RATE_DIMINUTION_LIGHT_AUGMENTATION,
                            beaconLife := MAX_INTENSITY as real, beaconPosition := (cell.0 as real, cell.1 as real + 0.5),
                            tiles := s0.tiles[Floor(s0.beaconPosition.0, s0.beaconPosition.1) := Rock][cell := BeaconOn]);
      ExpandGridMap(centre);
    }

    /**
     * Puts a crystal or precious stone in the bag, if the bag has room:
     * the carried count grows by one, the crystal count too for a crystal,
     * the tile becomes ground and the stone's code names the bag slot.
     */
    method PickUp(position: Cell, tile: Tile)
      requires Valid() && (tile == Crystal || tile.Stone?)
      modifies this`numberCrystals, this`crystal1Name, this`crystal2Name, gridMap
      ensures Valid()
      ensures gridMap.mapSize == old(gridMap.mapSize)
      ensures PickedUp(Bag(), old(Bag()), World(), old(World()), tile, position)
    {
      if numberCrystals[0] < MAX_CRYSTALS {
        numberCrystals := numberCrystals[0 := numberCrystals[0] + 1];
        if tile == Crystal {
          numberCrystals := numberCrystals[1 := numberCrystals[1] + 1];
        }
        PickedNameCarried(tile);
        gridMap.ReplaceTexture(position, Ground);
        if numberCrystals[0] == 1 {
          crystal1Name := Code(tile);
        } else {
          crystal2Name := Code(tile);
        }
      }
    }

    /**
     * Hands the bag in at a beacon: the crystals count to the score and
     * widen the light (reset to its start radius first at an unlit beacon);
     * a non-empty bag is emptied, its stones recorded as found, and an
     * unlit beacon is lit by moving the beacon there.
     */
    method Deposit(tile: Tile, centre: Cell)
      requires Valid() && (tile == BeaconOff || tile == BeaconOn) && Oriented(characterOrientation)
      modifies this`score, this`darknessRadius, this`numberCrystals, collection
      modifies this`rateDiminutionLight, this`beaconLife, this`beaconPosition
      modifies this`axisDraws, this`roomDraws, this`listPreciousStones, this`stalled, this`beaconMapHistory, gridMap
      ensures Valid()
      ensures HandedIn(Bag(), old(Bag()), World(), old(World()), tile, centre,
                       old(FacedCell(Floor(xCharOnMap, yCharOnMap), characterOrientation)),
                       BeaconDirection(rng.axes(old(axisDraws)), beaconXChange, beaconYChange))
    {
      if tile == BeaconOff && numberCrystals[0] != 0 {
        LightBeacon(centre);
      } else {
        HandInBag(tile == BeaconOff);
      }
    }

    /** A non-empty bag handed in at an unlit beacon, which is then relit. */
    method LightBeacon(centre: Cell)
      requires Valid() && Oriented(characterOrientation) && numberCrystals[0] != 0
      modifies this`score, this`darknessRadius, this`numberCrystals, collection
      modifies this`rateDiminutionLight, this`beaconLife, this`beaconPosition
      modifies this`axisDraws, this`roomDraws, this`listPreciousStones, this`stalled, this`beaconMapHistory, gridMap
      ensures Valid()
      ensures score == old(score) + old(numberCrystals[1]) + 5
      ensures darknessRadius ==
        (if old(numberCrystals[1]) != 0 then START_BEACON_CASES as real else old(darknessRadius))
        + old(numberCrystals[1]) as real * RATE_AUGMENTATION_LIGHT_DISPLAY
      ensures numberCrystals == [0, 0]
      ensures collection.dictCollection == Found(Found(old(collection.dictCollection), crystal1Name), crystal2Name)
      ensures collection.highScore == old(collection.highScore)
      ensures Relit(centre)
    {
      HandInBag(true);
      StartNewBeacon(centre);
    }

    /** The bag part of a deposit, at an unlit beacon if `unlit`. */
    method HandInBag(unlit: bool)
      requires Valid()
      modifies this`score, this`darknessRadius, this`numberCrystals, collection
      ensures Valid()
      ensures score == old(score) + old(numberCrystals[1])
      ensures darknessRadius ==
        (if unlit && old(numberCrystals[1]) != 0 then START_BEACON_CASES as real else old(darknessRadius))
        + old(numberCrystals[1]) as real * RATE_AUGMENTATION_LIGHT_DISPLAY
      ensures numberCrystals == if old(numberCrystals[0]) != 0 then [0, 0] else old(numberCrystals)
      ensures collection.dictCollection ==
        if old(numberCrystals[0]) != 0 then Found(Found(old(collection.dictCollection), crystal1Name), crystal2Name)
        else old(collection.dictCollection)
      ensures collection.highScore == old(collection.highScore)
    {
      if unlit && numberCrystals[1] != 0 {
        darknessRadius := START_BEACON_CASES as real;
      }
      score := score + numberCrystals[1];
      darknessRadius := darknessRadius + numberCrystals[1] as real * RATE_AUGMENTATION_LIGHT_DISPLAY;
      if numberCrystals[0] != 0 {
        numberCrystals := [0, 0];
        RecordFound(crystal1Name);
        RecordFound(crystal2Name);
      }
    }

    /** A precious stone handed in is marked found in the collection; a crystal or an empty slot changes nothing. */
    method RecordFound(name: string)
      requires CarriedName(name) && CollectionValid()
      modifies collection
      ensures CollectionValid()
      ensures collection.dictCollection == Found(old(collection.dictCollection), name)
      ensures collection.highScore == old(collection.highScore)
    {
      if name != "C" && name != "" {
        collection.FindNewStone(name);
      }
    }

    /**
     * The tile a released key acts on and its cell: only the interact key
     * acts, on the tile under the character if it is interactive, else on
     * the faced tile if that one is.
     */
    function Target(key: string): (r: Option<(Tile, Cell)>)
      reads this`xCharOnMap, this`yCharOnMap, this`characterOrientation, this`gridMap, gridMap`tiles
      requires INTERACT in dictKeys && Oriented(characterOrientation)
      ensures r.Some? ==> key == dictKeys[INTERACT] && gridMap.GetTileType(r.value.1) == Some(r.value.0)
      ensures r.Some? ==> Interactive(Some(r.value.0))
      ensures r.Some? ==>
        (r.value.1 == Floor(xCharOnMap, yCharOnMap) || r.value.1 == FacedCell(Floor(xCharOnMap, yCharOnMap), characterOrientation).value)
      ensures key == dictKeys[INTERACT] && Interactive(gridMap.GetTileType(Floor(xCharOnMap, yCharOnMap))) ==>
        r.Some? && r.value.1 == Floor(xCharOnMap, yCharOnMap)
      ensures r.None? <==>
        (|| key != dictKeys[INTERACT]
         || (!Interactive(gridMap.GetTileType(Floor(xCharOnMap, yCharOnMap)))
             && !Interactive(gridMap.GetTileType(FacedCell(Floor(xCharOnMap, yCharOnMap), characterOrientation).value))))
    {
      var here := Floor(xCharOnMap, yCharOnMap);
      var tile := gridMap.GetTileType(here);
      if key == dictKeys[INTERACT] && Interactive(tile) then Some((tile.value, here))
      else
        var next := GetNextTile().value;
        if key == dictKeys[INTERACT] && Interactive(next.0) then Some((next.0.value, next.1)) else None
    }

    /** The bag, the score, the light's radius and the collection. */
    function Bag(): BagState
      reads this`score, this`numberCrystals, this`crystal1Name, this`crystal2Name, this`darknessRadius, collection
    {
      BagState(score, numberCrystals, crystal1Name, crystal2Name, darknessRadius, collection.dictCollection, collection.highScore)
    }

    /** The beacon, the map and the generator's state. */
    function World(): WorldState
      reads this`rateDiminutionLight, this`beaconLife, this`beaconPosition, this`gridMap, gridMap`tiles, gridMap`offsetList
      reads this`beaconMapHistory, this`axisDraws, this`roomDraws, this`listPreciousStones, this`stalled
    {
      WorldState(rateDiminutionLight, beaconLife, beaconPosition, gridMap.tiles, gridMap.offsetList,
                 beaconMapHistory, axisDraws, roomDraws, listPreciousStones, stalled)
    }

    /** The character and the darkness counters. */
    function Character(): CharacterState
      reads this`xCharOnMap, this`yCharOnMap, this`characterOrientation, this`displayOrientation
      reads this`inDarkness, this`inDarknessCount, this`isGameOver, this`countFrame
    {
      CharacterState(xCharOnMap, yCharOnMap, characterOrientation, displayOrientation,
                     inDarkness, inDarknessCount, isGameOver, countFrame)
    }

    /** Nothing an interaction may change has changed. */
    twostate predicate Untouched()
      reads this, gridMap, collection
    {
      Bag() == old(Bag()) && World() == old(World())
    }

    /** `start_new_beacon`'s effect on the state, the score aside, with `centre` the room it expands around. */
    twostate predicate Relit(centre: Cell)
      requires SettingsValid()
      reads this, gridMap, collection
    {
      Relocated(World(), old(World()), centre, old(FacedCell(Floor(xCharOnMap, yCharOnMap), characterOrientation)),
                BeaconDirection(rng.axes(old(axisDraws)), beaconXChange, beaconYChange))
    }

    /** The effect of one released `key`, as its target decides. */
    twostate predicate InteractedOnce(key: string, centre: Cell)
      requires SettingsValid() && old(Oriented(characterOrientation) && BagValid())
      reads this, gridMap, collection
    {
      Interacted(Bag(), old(Bag()), World(), old(World()), old(Target(key)), centre, old(FacedCell(Floor(xCharOnMap, yCharOnMap), characterOrientation)),
                 BeaconDirection(rng.axes(old(axisDraws)), beaconXChange, beaconYChange))
    }

    /**
     * One released key: picks up the crystal or stone it targets, or hands
     * the bag in at the beacon it targets; anything else changes nothing.
     */
    method InteractOnce(key: string, centre: Cell)
      requires Valid() && Oriented(characterOrientation)
      modifies this`score, this`darknessRadius, this`numberCrystals, this`crystal1Name, this`crystal2Name, collection
      modifies this`rateDiminutionLight, this`beaconLife, this`beaconPosition
      modifies this`axisDraws, this`roomDraws, this`listPreciousStones, this`stalled, this`beaconMapHistory, gridMap
      ensures Valid() && score >= old(score)
      ensures InteractedOnce(key, centre)
    {
      var target := Target(key);
      if target.Some? {
        var (tile, position) := target.value;
        InteractiveTiles(Some(tile));
        if tile == BeaconOff || tile == BeaconOn {
          Deposit(tile, centre);
        } else {
          PickUp(position, tile);
        }
      }
    }

    /**
     * `interact_with_environment`: every released key in turn, then the
     * list of released keys is emptied. Released without the interact key,
     * nothing changes; released once with it, the effect is that of the
     * interact key alone.
     */
    method InteractWithEnvironment(centre: Cell)
      requires Valid() && Oriented(characterOrientation)
      modifies this`listKeyup
      modifies this`score, this`darknessRadius, this`numberCrystals, this`crystal1Name, this`crystal2Name, collection
      modifies this`rateDiminutionLight, this`beaconLife, this`beaconPosition
      modifies this`axisDraws, this`roomDraws, this`listPreciousStones, this`stalled, this`beaconMapHistory, gridMap
      ensures Valid() && listKeyup == []
      ensures score >= old(score)
      ensures multiset(old(listKeyup))[dictKeys[INTERACT]] == 0 ==> Untouched()
      ensures multiset(old(listKeyup))[dictKeys[INTERACT]] == 1 ==> InteractedOnce(dictKeys[INTERACT], centre)
    {
      ghost var interact := dictKeys[INTERACT];
      ghost var b0, w0 := Bag(), World();
      ghost var target := Target(interact);
      ghost var cell := FacedCell(Floor(xCharOnMap, yCharOnMap), characterOrientation);
      ghost var d := BeaconDirection(rng.axes(axisDraws), beaconXChange, beaconYChange);
      ReleaseKeys(listKeyup, centre, b0, w0, target, cell, d);
      listKeyup := [];
    }

    /**
     * The loop of `interact_with_environment`: every key of `keys` in turn,
     * from the state `b0`, `w0` where the interact key had `target` and
     * faced `cell`.
     */
    method ReleaseKeys(keys: seq<string>, centre: Cell, ghost b0: BagState, ghost w0: WorldState,
                       ghost target: Option<(Tile, Cell)>, ghost cell: Option<Cell>, ghost d: Cell)
      requires Valid() && Oriented(characterOrientation)
      requires d == BeaconDirection(rng.axes(w0.axisDraws), beaconXChange, beaconYChange)
      requires cell == FacedCell(Floor(xCharOnMap, yCharOnMap), characterOrientation)
      requires Bag() == b0 && World() == w0 && Target(dictKeys[INTERACT]) == target
      modifies this`score, this`darknessRadius, this`numberCrystals, this`crystal1Name, this`crystal2Name, collection
      modifies this`rateDiminutionLight, this`beaconLife, this`beaconPosition
      modifies this`axisDraws, this`roomDraws, this`listPreciousStones, this`stalled, this`beaconMapHistory, gridMap
      ensures Valid() && score >= old(score)
      ensures Released(multiset(keys)[dictKeys[INTERACT]], Bag(), b0, World(), w0, target, centre, cell, d)
    {
      ghost var interact := dictKeys[INTERACT];
      for k := 0 to |keys|
        invariant Valid() && score >= old(score)
        invariant Released(multiset(keys[..k])[interact], Bag(), b0, World(), w0, target, centre, cell, d)
        invariant multiset(keys[..k])[interact] == 0 ==> Target(interact) == target
      {
        CountStep(keys, k, interact);
        ReleaseKey(keys[k], centre, multiset(keys[..k])[interact], b0, w0, target, cell, d);
      }
      PrefixWhole(keys);
    }

    /**
     * One turn of `interact_with_environment`'s loop, `seen` counting the
     * interact keys released before `key`: the effect so far stays that of
     * at most one interact key, from the state `b0`, `w0` where that key
     * had `target` and faced `cell`.
     */
    method ReleaseKey(key: string, centre: Cell, ghost seen: nat, ghost b0: BagState, ghost w0: WorldState,
                      ghost target: Option<(Tile, Cell)>, ghost cell: Option<Cell>, ghost d: Cell)
      requires Valid() && Oriented(characterOrientation)
      requires d == BeaconDirection(rng.axes(w0.axisDraws), beaconXChange, beaconYChange)
      requires cell == FacedCell(Floor(xCharOnMap, yCharOnMap), characterOrientation)
      requires |b0.numberCrystals| == 2 && CarriedName(b0.crystal1Name) && CarriedName(b0.crystal2Name)
      requires Released(seen, Bag(), b0, World(), w0, target, centre, cell, d)
      requires seen == 0 ==> Target(dictKeys[INTERACT]) == target
      modifies this`score, this`darknessRadius, this`numberCrystals, this`crystal1Name, this`crystal2Name, collection
      modifies this`rateDiminutionLight, this`beaconLife, this`beaconPosition
      modifies this`axisDraws, this`roomDraws, this`listPreciousStones, this`stalled, this`beaconMapHistory, gridMap
      ensures Valid() && score >= old(score)
      ensures Released(seen + (if key == dictKeys[INTERACT] then 1 else 0), Bag(), b0, World(), w0, target, centre, cell, d)
      ensures seen + (if key == dictKeys[INTERACT] then 1 else 0) == 0 ==> Target(dictKeys[INTERACT]) == target
    {
      InteractOnce(key, centre);
    }

    /**
     * `manage_in_darkness`: out of the light circle the counter of ticks in
     * the dark grows by one, and past `MAX_TIME_IN_DARK * FPS` ticks the
     * light goes out and the game is over; in the light the counter is reset.
     */
    method ManageInDarkness()
      requires Valid()
      modifies this`inDarkness, this`inDarknessCount, this`darknessRadius, this`isGameOver
      ensures Valid()
      ensures Character() == Darkened(old(Character()), beaconPosition, old(darknessRadius))
      ensures Bag() == old(Bag()).(darknessRadius :=
        if inDarknessCount > MAX_TIME_IN_DARK * FPS then 0.0 else old(darknessRadius))
      ensures World() == old(World())
    {
      if OutsideRadius(xCharOnMap, yCharOnMap, beaconPosition, darknessRadius) {
        inDarkness := true;
        inDarknessCount := inDarknessCount + 1;
        if inDarknessCount > MAX_TIME_IN_DARK * FPS {
          darknessRadius := 0.0;
          isGameOver := true;
        }
      } else {
        inDarkness := false;
        inDarknessCount := 0;
      }
    }

    /**
     * `game_over`: the game stays frozen for `GAME_OVER_FREEZE_TIME * FPS`
     * ticks; on the next one the high score is updated, the map cleared and
     * the tick unscheduled.
     */
    method GameOver()
      requires Valid()
      modifies this`gameOverTimer, this`gridMap, this`scheduled, collection
      ensures Valid()
      ensures gameOverTimer == old(gameOverTimer) + 1
      ensures gameOverTimer > GAME_OVER_FREEZE_TIME * FPS ==>
        && Bag() == old(Bag()).(highScore := KeepMax(old(collection.highScore), score))
        && fresh(gridMap) && World() == old(World()).(tiles := map[], offsetList := []) && !scheduled
      ensures gameOverTimer <= GAME_OVER_FREEZE_TIME * FPS ==>
        Bag() == old(Bag()) && gridMap == old(gridMap) && World() == old(World()) && scheduled == old(scheduled)
    {
      gameOverTimer := gameOverTimer + 1;
      if gameOverTimer > GAME_OVER_FREEZE_TIME * FPS {
        collection.UpdateHighScore(score);
        scheduled := false;
        gridMap := new GridMap();
      }
    }

    /**
     * `update`, one tick: a finished game only runs its game-over timer;
     * otherwise the held keys give the movement, the beacon fades, the
     * character moves, the darkness is checked and the released keys act.
     */
    method Update(centre: Cell)
      requires Valid()
      modifies this`countFrame, this`beaconLife, this`darknessRadius, gridMap
      modifies this`xCharOnMap, this`yCharOnMap, this`characterOrientation, this`displayOrientation
      modifies this`inDarkness, this`inDarknessCount, this`isGameOver, this`listKeyup
      modifies this`score, this`numberCrystals, this`crystal1Name, this`crystal2Name, collection
      modifies this`rateDiminutionLight, this`beaconPosition
      modifies this`axisDraws, this`roomDraws, this`listPreciousStones, this`stalled, this`beaconMapHistory
      modifies this`gameOverTimer, this`scheduled, this`gridMap
      ensures Valid() && listKeydown == old(listKeydown)
      ensures !old(scheduled) ==>
        && Bag() == old(Bag()) && World() == old(World()) && Character() == old(Character())
        && listKeyup == old(listKeyup) && gameOverTimer == old(gameOverTimer) && !scheduled
      ensures old(scheduled) && old(isGameOver) ==>
        && Character() == old(Character()) && listKeyup == old(listKeyup)
        && gameOverTimer == old(gameOverTimer) + 1
        && (gameOverTimer <= GAME_OVER_FREEZE_TIME * FPS ==> Bag() == old(Bag()) && World() == old(World()) && scheduled)
        && (gameOverTimer > GAME_OVER_FREEZE_TIME * FPS ==>
              && Bag() == old(Bag()).(highScore := KeepMax(old(collection.highScore), old(score)))
              && World() == old(World()).(tiles := map[], offsetList := [])
              && !scheduled)
      ensures old(scheduled) && !old(isGameOver) ==>
        && listKeyup == [] && score >= old(score) && gameOverTimer == old(gameOverTimer) && scheduled
        && Character() == Tick(old(Character()), old(Bag()), old(World()), Movement(listKeydown))
        && (multiset(old(listKeyup))[dictKeys[INTERACT]] == 0 ==>
              Bag() == FadedBag(old(Bag()), old(World()), Character()) && World() == FadedWorld(old(World())))
    {
      if !scheduled {
        return;
      }
      if isGameOver {
        GameOver();
        return;
      }
      Play(centre);
    }

    /**
     * A tick of a game still running: the character moves by the held keys
     * on the faded map, the darkness is checked from where it stands, and
     * the released keys act. With no interaction key released, the bag and
     * the world change only by the fade and the darkness.
     */
    method Play(centre: Cell)
      requires Valid()
      modifies this`countFrame, this`beaconLife, this`darknessRadius, gridMap
      modifies this`xCharOnMap, this`yCharOnMap, this`characterOrientation, this`displayOrientation
      modifies this`inDarkness, this`inDarknessCount, this`isGameOver, this`listKeyup
      modifies this`score, this`numberCrystals, this`crystal1Name, this`crystal2Name, collection
      modifies this`rateDiminutionLight, this`beaconPosition
      modifies this`axisDraws, this`roomDraws, this`listPreciousStones, this`stalled, this`beaconMapHistory
      ensures Valid() && listKeyup == [] && score >= old(score)
      ensures Character() == Tick(old(Character()), old(Bag()), old(World()), Movement(listKeydown))
      ensures multiset(old(listKeyup))[dictKeys[INTERACT]] == 0 ==>
        Bag() == FadedBag(old(Bag()), old(World()), Character()) && World() == FadedWorld(old(World()))
    {
      ghost var keys := listKeyup;
      ghost var t0, b0, w0 := Character(), Bag(), World();
      MoveInDarkness();
      ghost var t1, b1, w1 := Character(), Bag(), World();
      assert t1 == Tick(t0, b0, w0, Movement(listKeydown));
      assert b1 == FadedBag(b0, w0, t1) && w1 == FadedWorld(w0);
      InteractWithEnvironment(centre);
      assert Character() == t1;
      assert multiset(keys)[dictKeys[INTERACT]] == 0 ==> Bag() == b1 && World() == w1;
    }

    /**
     * The part of a tick before the released keys act: the frame is
     * counted, the beacon fades, the character moves and the darkness is
     * checked from where it stands.
     */
    method MoveInDarkness()
      requires Valid()
      modifies this`countFrame, this`beaconLife, this`darknessRadius, gridMap
      modifies this`xCharOnMap, this`yCharOnMap, this`characterOrientation, this`displayOrientation
      modifies this`inDarkness, this`inDarknessCount, this`isGameOver
      ensures Valid() && Oriented(characterOrientation)
      ensures Character() == Tick(old(Character()), old(Bag()), old(World()), Movement(listKeydown))
      ensures Bag() == FadedBag(old(Bag()), old(World()), Character()) && World() == FadedWorld(old(World()))
    {
      ghost var t0, b0, w0 := Character(), Bag(), World();
      ghost var faded := FadedWorld(w0);
      Advance();
      ghost var t1 := Character();
      assert t1 == Moved(t0.(countFrame := t0.countFrame + 1), faded.tiles, Movement(listKeydown));
      assert darknessRadius == FadedRadius(b0.darknessRadius, faded.beaconLife) && beaconPosition == w0.beaconPosition;
      ManageInDarkness();
      assert Character() == Darkened(t1, w0.beaconPosition, FadedRadius(b0.darknessRadius, faded.beaconLife));
    }

    /**
     * The first half of a tick: the frame is counted, the beacon fades (its
     * cell turning to rock once its life is below zero) and the character
     * faces and moves by the held keys on the faded map.
     */
    method Advance()
      requires Valid()
      modifies this`countFrame, this`beaconLife, this`darknessRadius, gridMap
      modifies this`xCharOnMap, this`yCharOnMap, this`characterOrientation, this`displayOrientation
      ensures Valid() && Oriented(characterOrientation)
      ensures Character() ==
        Moved(old(Character()).(countFrame := old(countFrame) + 1), FadedWorld(old(World())).tiles, Movement(listKeydown))
      ensures Bag() == old(Bag()).(darknessRadius := FadedRadius(old(darknessRadius), beaconLife))
      ensures World() == FadedWorld(old(World()))
    {
      var xMovement, yMovement := GetMovementsKeyboard();
      Step(xMovement, yMovement);
    }

    /** The tick's frame count, fade and move for a movement already read from the keys. */
    method Step(xMovement: real, yMovement: real)
      requires Valid()
      modifies this`countFrame, this`beaconLife, this`darknessRadius, gridMap
      modifies this`xCharOnMap, this`yCharOnMap, this`characterOrientation, this`displayOrientation
      ensures Valid() && Oriented(characterOrientation)
      ensures Character() ==
        Moved(old(Character()).(countFrame := old(countFrame) + 1), FadedWorld(old(World())).tiles, (xMovement, yMovement))
      ensures Bag() == old(Bag()).(darknessRadius := FadedRadius(old(darknessRadius), beaconLife))
      ensures World() == FadedWorld(old(World()))
    {
      ghost var t0, w0 := Character(), World();
      countFrame := countFrame + 1;
      FadeBeacon();
      ghost var t1, b1, w1 := Character(), Bag(), World();
      assert t1 == t0.(countFrame := t0.countFrame + 1) && w1 == FadedWorld(w0);
      UpdateCharOnMapPosition(xMovement, yMovement);
      assert Bag() == b1 && World() == w1;
    }

    /** The beacon loses `rateDiminutionLight` of life; below zero its cell turns to rock and the light goes out. */
    method FadeBeacon()
      requires Valid()
      modifies this`beaconLife, this`darknessRadius, gridMap
      ensures Valid()
      ensures Bag() == old(Bag()).(darknessRadius := FadedRadius(old(darknessRadius), beaconLife))
      ensures World() == FadedWorld(old(World()))
    {
      beaconLife := beaconLife - rateDiminutionLight;
      if beaconLife < 0.0 {
        gridMap.SetTileType(Floor(beaconPosition.0, beaconPosition.1), Rock);
        darknessRadius := 0.0;
      }
    }
  }

  /** The old beacon's cell turns to rock, then the new one to a lit beacon; the map's rooms stay as they are. */
  method MoveBeaconTile(g: GridMap, from: Cell, to: Cell)
    requires g.Valid()
    modifies g
    ensures g.Valid() && g.tiles == old(g.tiles)[from := Rock][to := BeaconOn]
    ensures g.offsetList == old(g.offsetList) && g.mapSize == old(g.mapSize)
  {
    g.SetTileType(from, Rock);
    g.SetTileType(to, BeaconOn);
  }

  /**
   * One call of the room generator with one set of draws: the stones it
   * places are appended, each one not yet collected and not yet placed,
   * and a room it returns has the generator's size.
   */
  method GenerateRoom(listPreciousStones: seq<Stone>, hasBeacon: bool, collection: map<string, bool>,
                      draws: RoomDraws, maxRounds: nat)
    returns (room: Option<Grid>, stones: seq<Stone>)
    requires forall s: Stone :: StoneName(s) in collection
    requires maxRounds > 0
    ensures listPreciousStones <= stones
    ensures forall k | |listPreciousStones| <= k < |stones| :: !collection[StoneName(stones[k])]
    ensures NoDuplicates(listPreciousStones) ==> NoDuplicates(stones)
    ensures room.Some? ==> IsRoom(room.value)
    ensures !hasBeacon ==> room.Some?
    ensures hasBeacon && room.Some? ==> forall p | InBeaconBlock(p) :: At(room.value, p) == BeaconBlockTile(p)
    ensures hasBeacon && room.Some? ==> forall k | 0 <= k < |SIDES| :: RoomJoinable(room.value, CENTER, SIDES[k])
  {
    var next;
    ghost var chosen, digger, digStart;
    room, stones, next, chosen, digger, digStart := CreateNewMap(listPreciousStones, hasBeacon,
      collection, draws.crystalAt, draws.stoneAt, draws.dirs, 0, maxRounds);
    StoneDrawsChosen(draws.stoneAt, collection, listPreciousStones, MAP_SIZE, 0);
    PlacedStonesNew(listPreciousStones, chosen, draws.stoneAt, collection);
    if hasBeacon && room.Some? {
      DugRoomKeepsBeacon(draws.crystalAt, chosen, digger, draws.dirs, digStart);
    }
  }

  /** A room stitched at room offset `offset` shows its cell `p` at `RoomCell(offset, p)`. */
  lemma RoomCellShows(tiles: map<Cell, Tile>, before: map<Cell, Tile>, room: Grid, offset: Cell, p: Pos)
    requires IsRoom(room) && InRoom(p) && Stitched(tiles, before, room, offset.0 * MAP_SIZE, offset.1 * MAP_SIZE)
    ensures RoomCell(offset, p) in tiles && tiles[RoomCell(offset, p)] == At(room, p)
  {
    assert InBlock(RoomCell(offset, p), MAP_SIZE, MAP_SIZE, offset.0 * MAP_SIZE, offset.1 * MAP_SIZE);
  }

  /** A beacon room stitched at `offset` lays out its beacon block there. */
  lemma BeaconBlockBuilt(tiles: map<Cell, Tile>, before: map<Cell, Tile>, room: Grid, offset: Cell)
    requires IsRoom(room) && Stitched(tiles, before, room, offset.0 * MAP_SIZE, offset.1 * MAP_SIZE)
    requires forall p | InBeaconBlock(p) :: At(room, p) == BeaconBlockTile(p)
    ensures BeaconBlockAt(tiles, offset)
  {
    forall p | InBeaconBlock(p)
      ensures RoomCell(offset, p) in tiles && tiles[RoomCell(offset, p)] == BeaconBlockTile(p)
    {
      RoomCellShows(tiles, before, room, offset, p);
    }
  }

  /** Rewriting rooms other than `offset` keeps the beacon block at `offset`. */
  lemma BeaconBlockKept(tiles: map<Cell, Tile>, before: map<Cell, Tile>, offset: Cell, rooms: seq<Cell>)
    requires BeaconBlockAt(before, offset) && offset !in rooms
    requires OnlyRoomsWritten(tiles, before, rooms)
    ensures BeaconBlockAt(tiles, offset)
  {
    forall p | InBeaconBlock(p)
      ensures RoomCell(offset, p) in tiles && tiles[RoomCell(offset, p)] == BeaconBlockTile(p)
    {
      RoomCellInRoom(offset, p);
    }
  }

  /** A cell of a room stitched at `offset` lies in room `offset`. */
  lemma RoomCellInRoom(offset: Cell, p: Pos)
    requires InRoom(p)
    ensures RoomOf(RoomCell(offset, p)) == offset
  {
    DivOfBlock(RoomCell(offset, p).0, MAP_SIZE, offset.0);
    DivOfBlock(RoomCell(offset, p).1, MAP_SIZE, offset.1);
  }

  /** Rewriting the rooms `rooms` over `base` and then the rooms `more` rewrites the rooms `rooms + more`. */
  lemma WrittenThen(tiles: map<Cell, Tile>, mid: map<Cell, Tile>, base: map<Cell, Tile>, rooms: seq<Cell>, more: seq<Cell>)
    requires OnlyRoomsWritten(mid, base, rooms) && OnlyRoomsWritten(tiles, mid, more)
    ensures OnlyRoomsWritten(tiles, base, rooms + more)
    ensures RoomsFilled(mid, rooms) && RoomsFilled(tiles, more) ==> RoomsFilled(tiles, rooms + more)
  {
  }

  /** Counting `x` in a prefix one element longer. */
  lemma CountStep<T>(s: seq<T>, k: nat, x: T)
    requires k < |s|
    ensures multiset(s[..k + 1])[x] == multiset(s[..k])[x] + if s[k] == x then 1 else 0
  {
    assert s[..k + 1] == s[..k] + [s[k]];
  }

  lemma PrefixWhole<T>(s: seq<T>)
    ensures s[..|s|] == s && s[..0] == []
  {
  }

  /** Stones the scan places are new and pairwise distinct, so a list without duplicates keeps none. */
  lemma PlacedStonesNew(stones: seq<Stone>, placed: seq<(Pos, Stone)>, stoneAt: Pos -> Option<Stone>,
                        collection: map<string, bool>)
    requires forall s: Stone :: StoneName(s) in collection
    requires ChosenDraws(placed, stoneAt, collection, stones, MAP_SIZE, 0)
    ensures var all := stones + StonesOf(placed);
      && stones <= all
      && (forall k | |stones| <= k < |all| :: !collection[StoneName(all[k])])
      && (NoDuplicates(stones) ==> NoDuplicates(all))
  {
    var all := stones + StonesOf(placed);
    forall k | |stones| <= k < |all|
      ensures all[k] == placed[k - |stones|].1
    {
    }
    if NoDuplicates(stones) {
      forall i, j | 0 <= i < j < |all|
        ensures all[i] != all[j]
      {
        if j >= |stones| && i < |stones| {
          assert all[i] in stones;
        }
      }
    }
  }

  /** The cells written by stitching a room in at room offset `offset`, whatever the room: all of its room and no other. */
  ghost predicate RoomWritten(tiles: map<Cell, Tile>, before: map<Cell, Tile>, offset: Cell)
  {
    OnlyRoomsWritten(tiles, before, [offset]) && RoomsFilled(tiles, [offset])
  }

  /** The collection after handing in a bag slot named `name`: a precious stone is marked found. */
  function Found(collection: map<string, bool>, name: string): (r: map<string, bool>)
    requires CarriedName(name)
    ensures name in DICT_TREASURE_STONES ==> r == collection[DICT_TREASURE_STONES[name] := true]
    ensures name !in DICT_TREASURE_STONES ==> r == collection
  {
    if name != "C" && name != "" then collection[DICT_TREASURE_STONES[name] := true] else collection
  }

  /** The interactive tiles are the crystal, both beacons and the precious stones. */
  lemma InteractiveTiles(t: Option<Tile>)
    ensures Interactive(t) <==> t.Some? && t.value != Ground && t.value != Rock
  {
    TextureCodesDisjoint();
    if t.Some? && t.value.Stone? {
      TreasureStonesNamed(t.value.stone);
    }
  }

  /** The `k`-th offset of the ring is `(i, j)` for `k == 3 * (i + 1) + (j + 1)`; the fifth is the centre. */
  lemma RingAt(i: int, j: int)
    requires -1 <= i <= 1 && -1 <= j <= 1
    ensures RING[3 * (i + 1) + (j + 1)] == (i, j)
    ensures 3 * (i + 1) + (j + 1) == 4 <==> (i, j) == (0, 0)
  {
  }

  /**
   * After `start_new_beacon` the light is centred on the faced cell, which
   * shows a lit beacon whenever it lies in the centre room or in a room
   * that held a beacon, the rooms the expansion leaves as they were.
   */
  lemma RelocatedLightsCell(s: WorldState, s0: WorldState, centre: Cell, cell: Option<Cell>, d: Cell)
    requires Relocated(s, s0, centre, cell, d)
    ensures Floor(s.beaconPosition.0, s.beaconPosition.1) == cell.value
    ensures RoomOf(cell.value) in s0.beaconMapHistory + [RoomOf(centre)] ==>
      cell.value in s.tiles && s.tiles[cell.value] == BeaconOn
  {
    BeaconCellFloor(cell.value);
  }

  /** A beacon recorded at `(x, y + 0.5)` lies in cell `(x, y)`, so the next relocation clears exactly it. */
  lemma BeaconCellFloor(cell: Cell)
    ensures Floor(cell.0 as real, cell.1 as real + 0.5) == cell
  {
  }

  /** The facings are exactly the values of `DICT_ORIENTATIONS`. */
  lemma OrientedValues(orientation: string)
    ensures Oriented(orientation) <==> orientation in DICT_ORIENTATIONS.Values
  {
    if orientation in DICT_ORIENTATIONS.Values {
      var k :| k in DICT_ORIENTATIONS && DICT_ORIENTATIONS[k] == orientation;
    }
    if Oriented(orientation) {
      var d := if orientation == DirValue(Top) then Top else if orientation == DirValue(Bottom) then Bottom
        else if orientation == DirValue(Left) then Left else Right;
      DirValueTable(d);
    }
  }

  /** A last hit of one of an axis's names sets the axis; any other leaves it as it was. */
  lemma AxisSnoc(hits: seq<string>, n: string, positive: string, negative: string)
    ensures Axis(hits + [n], positive, negative) ==
      if n == positive then 1 else if n == negative then -1 else Axis(hits, positive, negative)
  {
    assert (hits + [n])[..|hits|] == hits;
  }

  /** One more name of the key table extends the hits of a key by that name, if its key matches. */
  lemma AxisStep(before: seq<string>, key: string, names: seq<string>, m: nat, keys: map<string, string>)
    requires m < |names| && forall n | n in names :: n in keys
    ensures KeyHits(key, names[..m + 1], keys) ==
      KeyHits(key, names[..m], keys) + (if Lower(key) == keys[names[m]] then [names[m]] else [])
  {
    assert names[..m + 1][..m] == names[..m];
  }
}
