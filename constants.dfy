/**
 * The constant tables and the persistent collection of the game
 * (tools/tools_constants.py): tile codes, the tile capability table,
 * the orientation tables, the precious stones, and `MyCollection`.
 */
module Constants {
  import opened Wrappers

  // Timing, movement and light parameters.
  const FPS: int := 30
  const SPEED: real := 0.08
  /** The decimal value of the double `math.sqrt(2)`; floating point rounding is not modelled. */
  const SQUARE_TWO: real := 1.4142135623730951
  const MAX_TIME_IN_DARK: int := 10
  const GAME_OVER_FREEZE_TIME: int := 2
  const MAX_CRYSTALS: int := 2
  const RATE_DIMINUTION_LIGHT: real := 0.02
  const RATE_DIMINUTION_LIGHT_AUGMENTATION: real := 0.0025
  const RATE_AUGMENTATION_LIGHT_DISPLAY: real := 1.0
  const START_BEACON_CASES: int := 3
  const MAX_INTENSITY: int := 100

  // Map generation parameters (the two probabilities become oracles).
  const MAP_SIZE: int := 10
  const NUMBER_CASES_DIGGER: nat := 4
  const NUMBER_TRIALS: nat := 6

  /** The name under which the interaction key is bound. */
  const INTERACT: string := "INTERACT"

  /** The 21 precious stones of `DICT_TREASURE_STONES`. */
  datatype Stone =
    | Agate | Amber | Amethyst | Aventurine | Azurite | Citrine | Diamond
    | Emerald | Fluorine | Garnet | Jade | LapisLazuli | Malachite | Obsidian
    | Onyx | Opal | RoseQuartz | Ruby | Sapphire | TigerEye | Turquoise

  /** The two-letter code of a stone, as stored in a map. */
  function StoneCode(s: Stone): string
  {
    match s
    case Agate => "Ag"       case Amber => "Am"      case Amethyst => "Ay"
    case Aventurine => "Av"  case Azurite => "Az"    case Citrine => "Ci"
    case Diamond => "Di"     case Emerald => "Em"    case Fluorine => "Fl"
    case Garnet => "Ga"      case Jade => "Ja"       case LapisLazuli => "Ll"
    case Malachite => "Ma"   case Obsidian => "Ob"   case Onyx => "On"
    case Opal => "Op"        case RoseQuartz => "Qu" case Ruby => "Ru"
    case Sapphire => "Sa"    case TigerEye => "Ti"   case Turquoise => "Tu"
  }

  /** The display name of a stone, the key of the collection record. */
  function StoneName(s: Stone): string
  {
    match s
    case Agate => "Agate"            case Amber => "Amber"
    case Amethyst => "Amethyst"      case Aventurine => "Aventurine"
    case Azurite => "Azurite"        case Citrine => "Citrine"
    case Diamond => "Diamond"        case Emerald => "Emerald"
    case Fluorine => "Fluorine"      case Garnet => "Garnet"
    case Jade => "Jade"              case LapisLazuli => "Lapis lazuli"
    case Malachite => "Malachite"    case Obsidian => "Obsidian"
    case Onyx => "Onyx"              case Opal => "Opal"
    case RoseQuartz => "Rose quartz" case Ruby => "Ruby"
    case Sapphire => "Sapphire"      case TigerEye => "Tiger eye"
    case Turquoise => "Turquoise"
  }

  /** `DICT_TREASURE_STONES`: stone code to stone name. */
  const DICT_TREASURE_STONES: map<string, string> := map[
    "Ag" := "Agate", "Am" := "Amber", "Ay" := "Amethyst", "Av" := "Aventurine",
    "Az" := "Azurite", "Ci" := "Citrine", "Di" := "Diamond", "Em" := "Emerald",
    "Fl" := "Fluorine", "Ga" := "Garnet", "Ja" := "Jade", "Ll" := "Lapis lazuli",
    "Ma" := "Malachite", "Ob" := "Obsidian", "On" := "Onyx", "Op" := "Opal",
    "Qu" := "Rose quartz", "Ru" := "Ruby", "Sa" := "Sapphire", "Ti" := "Tiger eye",
    "Tu" := "Turquoise"]

  /**
   * A tile of the world. `BeaconOff` is the unlit beacon "B" that the
   * generator places; `BeaconOn` is the lit beacon "b".
   */
  datatype Tile = Ground | Rock | Crystal | BeaconOff | BeaconOn | Stone(stone: Stone)

  /** The code under which a tile is stored and drawn. */
  function Code(t: Tile): string
  {
    match t
    case Ground => "G"
    case Rock => "R"
    case Crystal => "C"
    case BeaconOff => "B"
    case BeaconOn => "b"
    case Stone(s) => StoneCode(s)
  }

  /** `DICT_TILES_TEXTURE`: the single-letter codes that have textures, "O" being the blank one. */
  const DICT_TILES_TEXTURE: map<string, seq<string>> := map[
    "G" := ["ground"], "R" := ["rock1", "rock2", "rock3"], "C" := ["crystal"],
    "b" := ["beacon"], "B" := ["beacon_off"], "O" := ["blank"]]

  /** The texture code drawn where no tile was ever written. */
  const BLANK: string := "O"

  datatype Capability = Move | Stop | Interact

  /** `DICT_TILES_MOVEMENT` as written: keyed by a code, `None` standing for an absent tile. */
  const DICT_TILES_MOVEMENT: map<Option<string>, seq<Capability>> := map[
    Some("G") := [Move], Some("C") := [Interact, Move], Some("R") := [Stop],
    Some("B") := [Interact, Stop], Some("b") := [Interact, Stop], None := [Stop],
    Some("Ag") := [Interact, Move], Some("Am") := [Interact, Move],
    Some("Ay") := [Interact, Move], Some("Av") := [Interact, Move],
    Some("Az") := [Interact, Move], Some("Ci") := [Interact, Move],
    Some("Di") := [Interact, Move], Some("Em") := [Interact, Move],
    Some("Fl") := [Interact, Move], Some("Ga") := [Interact, Move],
    Some("Ja") := [Interact, Move], Some("Ll") := [Interact, Move],
    Some("Ma") := [Interact, Move], Some("Ob") := [Interact, Move],
    Some("On") := [Interact, Move], Some("Op") := [Interact, Move],
    Some("Qu") := [Interact, Move], Some("Ru") := [Interact, Move],
    Some("Sa") := [Interact, Move], Some("Ti") := [Interact, Move],
    Some("Tu") := [Interact, Move]]

  /** The capability list of a tile, `None` being an absent tile. */
  function Capabilities(t: Option<Tile>): (caps: seq<Capability>)
  {
    match t
    case None => [Stop]
    case Some(Ground) => [Move]
    case Some(Rock) => [Stop]
    case Some(Crystal) => [Interact, Move]
    case Some(BeaconOff) => [Interact, Stop]
    case Some(BeaconOn) => [Interact, Stop]
    case Some(Stone(_)) => [Interact, Move]
  }

  /** The capability list is the `DICT_TILES_MOVEMENT` entry of the tile's code, `None` for an absent tile. */
  lemma CapabilitiesTable(t: Option<Tile>)
    ensures var key := if t.Some? then Some(Code(t.value)) else None;
      key in DICT_TILES_MOVEMENT && Capabilities(t) == DICT_TILES_MOVEMENT[key]
  {
  }

  /** The four facing directions, the keys of `DICT_ORIENTATIONS`. */
  datatype Dir = Top | Bottom | Right | Left

  function DirName(d: Dir): string
  {
    match d
    case Top => "top"
    case Bottom => "bottom"
    case Right => "right"
    case Left => "left"
  }

  /** `DICT_ORIENTATIONS`: direction name to the sprite side it shows. */
  const DICT_ORIENTATIONS: map<string, string> := map[
    "top" := "back", "bottom" := "front", "right" := "right", "left" := "left"]

  /** The value a direction stands for in the game, `DICT_ORIENTATIONS[name]`. */
  function DirValue(d: Dir): (v: string)
  {
    match d
    case Top => "back"
    case Bottom => "front"
    case Right => "right"
    case Left => "left"
  }

  /** A direction's value is its name's entry in `DICT_ORIENTATIONS`. */
  lemma DirValueTable(d: Dir)
    ensures DirName(d) in DICT_ORIENTATIONS && DirValue(d) == DICT_ORIENTATIONS[DirName(d)]
  {
  }

  /** `DICT_DISPLAY_ORIENTATIONS`: the eight sprite orientations. */
  const DICT_DISPLAY_ORIENTATIONS: map<string, string> := map[
    "top" := "back", "bottom" := "front", "right" := "right", "left" := "left",
    "left_bottom" := "left_front", "right_bottom" := "right_front",
    "left_top" := "left_back", "right_top" := "right_back"]

  /** Every stone code is a key of `DICT_TREASURE_STONES`, naming that stone. */
  lemma TreasureStonesNamed(s: Stone)
    ensures StoneCode(s) in DICT_TREASURE_STONES && DICT_TREASURE_STONES[StoneCode(s)] == StoneName(s)
  {
  }

  /** `DICT_TREASURE_STONES` has no key other than the stone codes. */
  lemma TreasureStonesOnlyStones(c: string)
    requires c in DICT_TREASURE_STONES
    ensures exists s: Stone :: StoneCode(s) == c
  {
    assert StoneCode(StoneOfCode(c)) == c;
  }

  /** The stone a key of `DICT_TREASURE_STONES` codes for. */
  function StoneOfCode(c: string): (s: Stone)
    requires c in DICT_TREASURE_STONES
    ensures StoneCode(s) == c
  {
    if c == "Ag" then Agate else if c == "Am" then Amber else if c == "Ay" then Amethyst
    else if c == "Av" then Aventurine else if c == "Az" then Azurite else if c == "Ci" then Citrine
    else if c == "Di" then Diamond else if c == "Em" then Emerald else if c == "Fl" then Fluorine
    else if c == "Ga" then Garnet else if c == "Ja" then Jade else if c == "Ll" then LapisLazuli
    else if c == "Ma" then Malachite else if c == "Ob" then Obsidian else if c == "On" then Onyx
    else if c == "Op" then Opal else if c == "Qu" then RoseQuartz else if c == "Ru" then Ruby
    else if c == "Sa" then Sapphire else if c == "Ti" then TigerEye else Turquoise
  }

  /** Every precious stone code moves and interacts like a crystal. */
  lemma StonesMoveAndInteract()
    ensures forall c :: c in DICT_TREASURE_STONES ==>
      Some(c) in DICT_TILES_MOVEMENT && DICT_TILES_MOVEMENT[Some(c)] == [Interact, Move]
  {
  }

  /** No capability list allows both moving onto a tile and being stopped by it. */
  lemma MoveAndStopExclusive()
    ensures forall k :: k in DICT_TILES_MOVEMENT ==>
      !(Move in DICT_TILES_MOVEMENT[k] && Stop in DICT_TILES_MOVEMENT[k])
  {
  }

  /** The tile a key of the capability table codes for. */
  function TileOfCode(c: string): (t: Tile)
    requires Some(c) in DICT_TILES_MOVEMENT
    ensures Code(t) == c
  {
    if c == "G" then Ground else if c == "R" then Rock else if c == "C" then Crystal
    else if c == "B" then BeaconOff else if c == "b" then BeaconOn
    else
      MovementKeyIsStone(c);
      Stone(StoneOfCode(c))
  }

  /** Past the five single-letter codes, the keys of the capability table are precious stone codes. */
  lemma MovementKeyIsStone(c: string)
    requires Some(c) in DICT_TILES_MOVEMENT && c != "G" && c != "R" && c != "C" && c != "B" && c != "b"
    ensures c in DICT_TREASURE_STONES
  {
    var codes := ["Ag", "Am", "Ay", "Av", "Az", "Ci", "Di", "Em", "Fl", "Ga", "Ja", "Ll",
                  "Ma", "Ob", "On", "Op", "Qu", "Ru", "Sa", "Ti", "Tu"];
    assert c in codes;
  }

  /** The capability table has an entry for exactly the absent tile and the code of every tile. */
  lemma TilesMovementKeys(k: Option<string>)
    ensures k in DICT_TILES_MOVEMENT <==> k == None || exists t: Tile :: k == Some(Code(t))
  {
    if k in DICT_TILES_MOVEMENT && k != None {
      assert k == Some(Code(TileOfCode(k.value)));
    }
  }

  /** The single-letter texture codes, blank included, are not stone codes, and no tile is coded as blank. */
  lemma TextureCodesDisjoint()
    ensures DICT_TILES_TEXTURE.Keys !! DICT_TREASURE_STONES.Keys
    ensures forall t: Tile :: Code(t) != BLANK
  {
    TextureKeysNotStones();
  }

  /** No texture code is a precious stone code. */
  lemma TextureKeysNotStones()
    ensures DICT_TILES_TEXTURE.Keys !! DICT_TREASURE_STONES.Keys
  {
  }

  /** Distinct tiles have distinct codes. */
  lemma CodeInjective(a: Tile, b: Tile)
    ensures Code(a) == Code(b) ==> a == b
  {
  }

  /** `DICT_ORIENTATIONS` has the four direction names as keys and maps them to four distinct values. */
  lemma OrientationsDistinct()
    ensures DICT_ORIENTATIONS.Keys == set d: Dir :: DirName(d)
    ensures forall d, e :: DirValue(d) == DirValue(e) ==> d == e
  {
    forall k | k in DICT_ORIENTATIONS
      ensures k in set d: Dir :: DirName(d)
    {
      var d := if k == "top" then Top else if k == "bottom" then Bottom else if k == "right" then Right else Left;
      assert DirName(d) == k;
    }
  }

  /** `DICT_DISPLAY_ORIENTATIONS` has exactly the four cardinals and their left/right combinations with bottom/top. */
  lemma DisplayOrientationsKeys()
    ensures DICT_DISPLAY_ORIENTATIONS.Keys ==
      {"top", "bottom", "right", "left", "left_bottom", "right_bottom", "left_top", "right_top"}
  {
  }

  /** The best score kept by keep-max updates. */
  function KeepMax(highScore: int, score: int): (r: int)
    ensures r >= highScore && r >= score
    ensures r == highScore || r == score
  {
    if highScore < score then score else highScore
  }

  /**
   * `MyCollection`: which stones the player has found (keyed by stone name)
   * and the high score. Writing the record back to disk is not modelled.
   */
  class MyCollection {
    var dictCollection: map<string, bool>
    var highScore: int

    constructor (collection: map<string, bool>, highScore: int)
      ensures dictCollection == collection && this.highScore == highScore
    {
      dictCollection := collection;
      this.highScore := highScore;
    }

    /** Marks the stone with the given code as found; nothing else changes. */
    method FindNewStone(code: string)
      requires code in DICT_TREASURE_STONES
      modifies this
      ensures dictCollection == old(dictCollection)[DICT_TREASURE_STONES[code] := true]
      ensures highScore == old(highScore)
    {
      dictCollection := dictCollection[DICT_TREASURE_STONES[code] := true];
    }

    /** Keeps the better of the recorded high score and `score`. */
    method UpdateHighScore(score: int)
      modifies this
      ensures highScore == KeepMax(old(highScore), score)
      ensures score <= old(highScore) ==> highScore == old(highScore)
      ensures dictCollection == old(dictCollection)
    {
      if highScore < score {
        highScore := score;
      }
    }
  }
}
