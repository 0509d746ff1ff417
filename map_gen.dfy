/**
 * Room generation (tools/tools_map.py). A room is a MAP_SIZE x MAP_SIZE grid
 * of tiles that the generator indexes as `grid[y][x]`. Passages are carved by
 * bounded random walks that start from anchor cells; a room with a beacon is
 * carved again, one step longer each time, until a breadth-first search joins
 * the beacon to the four side midpoints.
 *
 * The random draws are oracles: `dirs(k)` is the k-th direction drawn by
 * `choose_random_direction`, `crystalAt(p)` the crystal draw of cell p and
 * `stoneAt(p)` the precious stone drawn for cell p, if any.
 */
module MapGen {
  import opened Wrappers
  import opened Constants

  type Pos = (int, int)
  type Grid = seq<seq<Tile>>

  predicate IsRoom(g: Grid)
  {
    |g| == MAP_SIZE && forall y | 0 <= y < |g| :: |g[y]| == MAP_SIZE
  }

  /** A generated room. */
  type Room = g: Grid | IsRoom(g) witness seq(MAP_SIZE, _ => seq(MAP_SIZE, _ => Rock))

  predicate InRoom(p: Pos)
  {
    0 <= p.0 < MAP_SIZE && 0 <= p.1 < MAP_SIZE
  }

  /** The cell at position (x, y) as the generator reads it, `grid[y][x]`. */
  function At(g: Grid, p: Pos): Tile
    requires IsRoom(g) && InRoom(p)
  {
    g[p.1][p.0]
  }

  /** The room with the cell at `p` replaced by `t`. */
  function SetAt(g: Grid, p: Pos, t: Tile): (r: Grid)
    requires IsRoom(g) && InRoom(p)
    ensures IsRoom(r) && At(r, p) == t
    ensures forall q | InRoom(q) && q != p :: At(r, q) == At(g, q)
  {
    g[p.1 := g[p.1][p.0 := t]]
  }

  /** Two rooms that agree on every cell are equal. */
  lemma RoomsEqual(a: Grid, b: Grid)
    requires IsRoom(a) && IsRoom(b)
    requires forall q | InRoom(q) :: At(a, q) == At(b, q)
    ensures a == b
  {
    forall y | 0 <= y < MAP_SIZE
      ensures a[y] == b[y]
    {
      forall x | 0 <= x < MAP_SIZE
        ensures a[y][x] == b[y][x]
      {
        assert At(a, (x, y)) == At(b, (x, y));
      }
    }
  }

  /** Positions one step apart along one axis. */
  predicate Adjacent(p: Pos, q: Pos)
  {
    || (q.1 == p.1 && (q.0 == p.0 + 1 || q.0 == p.0 - 1))
    || (q.0 == p.0 && (q.1 == p.1 + 1 || q.1 == p.1 - 1))
  }

  /** One step from `p` in direction `d`; the y axis grows towards the top. */
  function GetPositionFromDirection(d: Dir, p: Pos): (r: Pos)
    ensures Adjacent(p, r)
  {
    match d
    case Top => (p.0, p.1 + 1)
    case Bottom => (p.0, p.1 - 1)
    case Right => (p.0 + 1, p.1)
    case Left => (p.0 - 1, p.1)
  }

  function Opposite(d: Dir): Dir
  {
    match d
    case Top => Bottom
    case Bottom => Top
    case Right => Left
    case Left => Right
  }

  /**
   * The four directions reach the four neighbours of a position, each
   * exactly once, and the opposite direction steps back.
   */
  lemma DirectionsAreNeighbours(p: Pos, q: Pos)
    ensures Adjacent(p, q) <==> exists d :: GetPositionFromDirection(d, p) == q
    ensures forall d, e :: GetPositionFromDirection(d, p) == GetPositionFromDirection(e, p) ==> d == e
    ensures forall d :: GetPositionFromDirection(Opposite(d), GetPositionFromDirection(d, p)) == p
  {
    if Adjacent(p, q) {
      var d :=
        if q.1 == p.1 + 1 then Top else if q.1 == p.1 - 1 then Bottom
        else if q.0 == p.0 + 1 then Right else Left;
      assert GetPositionFromDirection(d, p) == q;
    }
  }

  /** A carving step may land on `p`: inside the room and not an anchor. */
  function CheckPositionValid(p: Pos, elements: seq<Pos>): (valid: bool)
    ensures valid <==> p !in elements && InRoom(p)
  {
    if p in elements then false
    else if p.0 < 0 || p.0 >= MAP_SIZE then false
    else if p.1 < 0 || p.1 >= MAP_SIZE then false
    else true
  }

  /** The outcome of up to NUMBER_TRIALS direction draws for one carving step. */
  datatype Attempt = Accepted(pos: Pos, next: nat) | Rejected(next: nat)

  /**
   * Draws directions from `dirs(cursor)` on, at most `trials` of them, and
   * accepts the first that leads from `pos` to a valid cell.
   */
  function TryStep(pos: Pos, elements: seq<Pos>, dirs: nat -> Dir, cursor: nat, trials: nat): (r: Attempt)
    ensures r.Accepted? ==> cursor < r.next <= cursor + trials
    ensures r.Rejected? ==> r.next == cursor + trials
    decreases trials
  {
    if trials == 0 then Rejected(cursor)
    else
      var newPosition := GetPositionFromDirection(dirs(cursor), pos);
      if CheckPositionValid(newPosition, elements) then Accepted(newPosition, cursor + 1)
      else TryStep(pos, elements, dirs, cursor + 1, trials - 1)
  }

  /**
   * An accepted step is the first valid cell among the draws, one step away;
   * a rejected step consumed all its draws and none of them was valid.
   */
  lemma {:induction false} TryStepOutcome(pos: Pos, elements: seq<Pos>, dirs: nat -> Dir, cursor: nat, trials: nat)
    ensures var r := TryStep(pos, elements, dirs, cursor, trials);
      && (r.Accepted? ==>
           && Adjacent(pos, r.pos) && CheckPositionValid(r.pos, elements)
           && cursor < r.next <= cursor + trials
           && r.pos == GetPositionFromDirection(dirs(r.next - 1), pos)
           && forall k | cursor <= k < r.next - 1 ::
                !CheckPositionValid(GetPositionFromDirection(dirs(k), pos), elements))
      && (r.Rejected? ==>
           && r.next == cursor + trials
           && forall k | cursor <= k < cursor + trials ::
                !CheckPositionValid(GetPositionFromDirection(dirs(k), pos), elements))
    decreases trials
  {
    if trials > 0 && !CheckPositionValid(GetPositionFromDirection(dirs(cursor), pos), elements) {
      TryStepOutcome(pos, elements, dirs, cursor + 1, trials - 1);
    }
  }

  /** Every position of `w` is a neighbour of the one before it, the first one of `start`. */
  predicate IsChainFrom(start: Pos, w: seq<Pos>)
  {
    forall k | 0 <= k < |w| :: Adjacent(if k == 0 then start else w[k - 1], w[k])
  }

  /** The last position reached by a walk from `start`. */
  function LastOf(start: Pos, w: seq<Pos>): Pos
  {
    if w == [] then start else w[|w| - 1]
  }

  /**
   * The cells carved by the walk of one anchor: up to `steps` accepted
   * steps, abandoned at the first step whose NUMBER_TRIALS draws are all
   * rejected; with the cursor after the last draw.
   */
  function Walk(pos: Pos, elements: seq<Pos>, dirs: nat -> Dir, cursor: nat, steps: nat): (r: (seq<Pos>, nat))
    ensures |r.0| <= steps
    ensures cursor + |r.0| <= r.1 <= cursor + steps * NUMBER_TRIALS
    decreases steps
  {
    if steps == 0 then ([], cursor)
    else
      match TryStep(pos, elements, dirs, cursor, NUMBER_TRIALS)
      case Rejected(next) => ([], next)
      case Accepted(newPosition, next) =>
        var rest := Walk(newPosition, elements, dirs, next, steps - 1);
        assert (steps - 1) * NUMBER_TRIALS + NUMBER_TRIALS == steps * NUMBER_TRIALS;
        ([newPosition] + rest.0, rest.1)
  }

  /** A walk moves one cell at a time, and only onto valid cells. */
  lemma {:induction false} WalkCells(pos: Pos, elements: seq<Pos>, dirs: nat -> Dir, cursor: nat, steps: nat)
    ensures IsChainFrom(pos, Walk(pos, elements, dirs, cursor, steps).0)
    ensures forall q | q in Walk(pos, elements, dirs, cursor, steps).0 :: CheckPositionValid(q, elements)
    decreases steps
  {
    if steps > 0 {
      TryStepOutcome(pos, elements, dirs, cursor, NUMBER_TRIALS);
      match TryStep(pos, elements, dirs, cursor, NUMBER_TRIALS)
      case Rejected(next) =>
      case Accepted(newPosition, next) =>
        WalkCells(newPosition, elements, dirs, next, steps - 1);
    }
  }

  /**
   * A walk stops short of `steps` only after NUMBER_TRIALS consecutive
   * draws, the last ones it made, were all rejected from its last cell.
   */
  lemma {:induction false} WalkAbandonsOnlyAfterRejections(pos: Pos, elements: seq<Pos>, dirs: nat -> Dir, cursor: nat, steps: nat)
    requires |Walk(pos, elements, dirs, cursor, steps).0| < steps
    ensures var (w, next) := Walk(pos, elements, dirs, cursor, steps);
      && next >= NUMBER_TRIALS
      && forall k | next - NUMBER_TRIALS <= k < next ::
           !CheckPositionValid(GetPositionFromDirection(dirs(k), LastOf(pos, w)), elements)
    decreases steps
  {
    match TryStep(pos, elements, dirs, cursor, NUMBER_TRIALS)
    case Rejected(next) =>
      TryStepOutcome(pos, elements, dirs, cursor, NUMBER_TRIALS);
    case Accepted(newPosition, next) =>
      var rest := Walk(newPosition, elements, dirs, next, steps - 1);
      WalkAbandonsOnlyAfterRejections(newPosition, elements, dirs, next, steps - 1);
      assert LastOf(pos, [newPosition] + rest.0) == LastOf(newPosition, rest.0);
  }

  /**
   * The cells carved by `dig_ways` from the anchors `elements[i..]`, walk
   * after walk, each walk `ncd` steps long at most; with the final cursor.
   * Validity is always checked against the whole, never extended, list.
   */
  function Trail(elements: seq<Pos>, i: nat, ncd: nat, dirs: nat -> Dir, cursor: nat): (r: (seq<Pos>, nat))
    requires i <= |elements|
    decreases |elements| - i
  {
    if i == |elements| then ([], cursor)
    else
      var walk := Walk(elements[i], elements, dirs, cursor, ncd);
      var rest := Trail(elements, i + 1, ncd, dirs, walk.1);
      (walk.0 + rest.0, rest.1)
  }

  /**
   * Each anchor's walk carves at most `ncd` cells and draws at most
   * NUMBER_TRIALS directions per step; the cursor only moves forward.
   */
  lemma {:induction false} TrailBounds(elements: seq<Pos>, i: nat, ncd: nat, dirs: nat -> Dir, cursor: nat)
    requires i <= |elements|
    ensures var r := Trail(elements, i, ncd, dirs, cursor);
      && |r.0| <= (|elements| - i) * ncd
      && cursor <= r.1 <= cursor + (|elements| - i) * ncd * NUMBER_TRIALS
    decreases |elements| - i
  {
    if i < |elements| {
      var walk := Walk(elements[i], elements, dirs, cursor, ncd);
      TrailBounds(elements, i + 1, ncd, dirs, walk.1);
      assert (|elements| - i) * ncd == ncd + (|elements| - (i + 1)) * ncd;
      assert (|elements| - i) * ncd * NUMBER_TRIALS == ncd * NUMBER_TRIALS + (|elements| - (i + 1)) * ncd * NUMBER_TRIALS;
    }
  }

  /** Every cell carved by `dig_ways` is valid with respect to the anchors. */
  lemma {:induction false} TrailCells(elements: seq<Pos>, i: nat, ncd: nat, dirs: nat -> Dir, cursor: nat)
    requires i <= |elements|
    ensures forall q | q in Trail(elements, i, ncd, dirs, cursor).0 :: CheckPositionValid(q, elements)
    decreases |elements| - i
  {
    if i < |elements| {
      var walk := Walk(elements[i], elements, dirs, cursor, ncd);
      WalkCells(elements[i], elements, dirs, cursor, ncd);
      TrailCells(elements, i + 1, ncd, dirs, walk.1);
    }
  }

  /**
   * The room with every cell of `trail` turned to ground. As every write of
   * the digger is ground, the order of the writes does not matter: a cell
   * is ground when the trail passes it and keeps its tile otherwise.
   * `DigWays` writes the cells one at a time, in the trail's order.
   */
  function Paint(g: Grid, trail: seq<Pos>): (r: Grid)
    requires IsRoom(g)
    ensures IsRoom(r)
  {
    seq(MAP_SIZE, y requires 0 <= y < MAP_SIZE =>
      seq(MAP_SIZE, x requires 0 <= x < MAP_SIZE => if (x, y) in trail then Ground else g[y][x]))
  }

  /** After painting, exactly the cells of the trail are ground; the others are unchanged. */
  lemma PaintAt(g: Grid, trail: seq<Pos>, p: Pos)
    requires IsRoom(g) && InRoom(p)
    ensures At(Paint(g, trail), p) == if p in trail then Ground else At(g, p)
  {
  }

  /** Painting an empty trail leaves the room as it is. */
  lemma PaintNothing(g: Grid)
    requires IsRoom(g)
    ensures Paint(g, []) == g
  {
    forall p | InRoom(p) ensures At(Paint(g, []), p) == At(g, p) {
      PaintAt(g, [], p);
    }
    RoomsEqual(Paint(g, []), g);
  }

  /** Painting a trail and then one more cell is painting the longer trail. */
  lemma PaintSnoc(g: Grid, trail: seq<Pos>, q: Pos)
    requires IsRoom(g) && InRoom(q)
    ensures Paint(g, trail + [q]) == SetAt(Paint(g, trail), q, Ground)
  {
    forall p | InRoom(p)
      ensures At(Paint(g, trail + [q]), p) == At(SetAt(Paint(g, trail), q, Ground), p)
    {
      PaintAt(g, trail + [q], p);
      PaintAt(g, trail, p);
    }
    RoomsEqual(Paint(g, trail + [q]), SetAt(Paint(g, trail), q, Ground));
  }

  lemma SeqAssoc<T>(a: seq<T>, b: seq<T>, c: seq<T>)
    ensures a + b + c == a + (b + c)
  {
  }

  /**
   * What digging does to a room: it only ever writes ground, and only into
   * cells inside the room that are not anchors.
   */
  lemma DigOnlyCarvesGround(elements: seq<Pos>, grid: Grid, ncd: nat, dirs: nat -> Dir, cursor: nat)
    requires IsRoom(grid)
    ensures var trail := Trail(elements, 0, ncd, dirs, cursor).0;
      var g := Paint(grid, trail);
      && (forall p | InRoom(p) :: At(g, p) == At(grid, p) || (At(g, p) == Ground && p !in elements))
      && (forall p | p in elements && InRoom(p) :: At(g, p) == At(grid, p))
  {
    var trail := Trail(elements, 0, ncd, dirs, cursor).0;
    TrailCells(elements, 0, ncd, dirs, cursor);
    forall p | InRoom(p)
      ensures At(Paint(grid, trail), p) == if p in trail then Ground else At(grid, p)
    {
      PaintAt(grid, trail, p);
    }
  }

  /**
   * One carving step of `dig_ways`: up to NUMBER_TRIALS direction draws from
   * `position`, stopping at the first that leads to a valid cell.
   */
  method DrawStep(position: Pos, elements: seq<Pos>, dirs: nat -> Dir, cursor: nat) returns (r: Attempt)
    ensures r == TryStep(position, elements, dirs, cursor, NUMBER_TRIALS)
  {
    var counterTrials := 0;
    r := Rejected(cursor);
    while counterTrials < NUMBER_TRIALS
      invariant counterTrials <= NUMBER_TRIALS && r == Rejected(cursor + counterTrials)
      invariant TryStep(position, elements, dirs, r.next, NUMBER_TRIALS - counterTrials)
             == TryStep(position, elements, dirs, cursor, NUMBER_TRIALS)
    {
      var direction := dirs(r.next);
      var newPosition := GetPositionFromDirection(direction, position);
      if CheckPositionValid(newPosition, elements) {
        r := Accepted(newPosition, r.next + 1);
        break;
      }
      r := Rejected(r.next + 1);
      counterTrials := counterTrials + 1;
    }
  }


  /** Painting two trails one after the other is painting their concatenation. */
  lemma {:induction false} PaintAppend(g: Grid, a: seq<Pos>, b: seq<Pos>)
    requires IsRoom(g)
    ensures Paint(Paint(g, a), b) == Paint(g, a + b)
  {
    forall p | InRoom(p)
      ensures At(Paint(Paint(g, a), b), p) == At(Paint(g, a + b), p)
    {
      PaintAt(Paint(g, a), b, p);
      PaintAt(g, a, p);
      PaintAt(g, a + b, p);
    }
    RoomsEqual(Paint(Paint(g, a), b), Paint(g, a + b));
  }

  /**
   * The walk of one anchor in `dig_ways`: up to `ncd` accepted steps, the
   * walk ending early at a step whose draws were all rejected.
   */
  /** One step of a walk that still has `n` steps to go, seen from the walk as a whole. */
  lemma WalkResumes(position: Pos, elements: seq<Pos>, dirs: nat -> Dir, cursor: nat, n: nat,
                    walked: seq<Pos>, whole: (seq<Pos>, nat))
    requires 0 < n
    requires walked + Walk(position, elements, dirs, cursor, n).0 == whole.0
    requires Walk(position, elements, dirs, cursor, n).1 == whole.1
    ensures match TryStep(position, elements, dirs, cursor, NUMBER_TRIALS)
      case Rejected(next) => walked == whole.0 && next == whole.1
      case Accepted(p, next) =>
        && (walked + [p]) + Walk(p, elements, dirs, next, n - 1).0 == whole.0
        && Walk(p, elements, dirs, next, n - 1).1 == whole.1
  {
    match TryStep(position, elements, dirs, cursor, NUMBER_TRIALS)
    case Rejected(next) =>
      assert walked + [] == walked;
    case Accepted(p, next) =>
      SeqAssoc(walked, [p], Walk(p, elements, dirs, next, n - 1).0);
  }

  /** What DigFrom knows with `n` steps of the walk still to go. */
  ghost predicate DigState(grid: Grid, g: Grid, walked: seq<Pos>, position: Pos, next: nat,
                           elements: seq<Pos>, dirs: nat -> Dir, n: nat, whole: (seq<Pos>, nat))
  {
    && IsRoom(grid) && IsRoom(g) && g == Paint(grid, walked)
    && walked + Walk(position, elements, dirs, next, n).0 == whole.0
    && Walk(position, elements, dirs, next, n).1 == whole.1
  }

  /** One iteration of DigFrom's loop: draw a step and, when accepted, dig it. */
  method DigStep(grid: Grid, g0: Grid, ghost walked0: seq<Pos>, position0: Pos, next0: nat,
                 elements: seq<Pos>, dirs: nat -> Dir, n: nat, ghost whole: (seq<Pos>, nat))
    returns (stop: bool, g: Grid, ghost walked: seq<Pos>, position: Pos, next: nat)
    requires 0 < n && DigState(grid, g0, walked0, position0, next0, elements, dirs, n, whole)
    ensures stop ==> g == Paint(grid, whole.0) && next == whole.1
    ensures !stop ==> DigState(grid, g, walked, position, next, elements, dirs, n - 1, whole)
  {
    var step := DrawStep(position0, elements, dirs, next0);
    WalkResumes(position0, elements, dirs, next0, n, walked0, whole);
    next := step.next;
    if step.Rejected? {
      return true, g0, walked0, position0, next;
    }
    position := step.pos;
    PaintSnoc(grid, walked0, position);
    g := SetAt(g0, position, Ground);
    walked := walked0 + [position];
    stop := false;
  }

  method DigFrom(anchor: Pos, elements: seq<Pos>, grid: Grid, ncd: nat, dirs: nat -> Dir, cursor: nat)
    returns (g: Grid, next: nat)
    requires IsRoom(grid)
    ensures g == Paint(grid, Walk(anchor, elements, dirs, cursor, ncd).0)
    ensures next == Walk(anchor, elements, dirs, cursor, ncd).1
  {
    g, next := grid, cursor;
    var position := anchor;
    ghost var walked: seq<Pos> := [];
    ghost var whole := Walk(anchor, elements, dirs, cursor, ncd);
    PaintNothing(grid);
    for counter := 0 to ncd
      invariant DigState(grid, g, walked, position, next, elements, dirs, ncd - counter, whole)
    {
      var stop;
      stop, g, walked, position, next := DigStep(grid, g, walked, position, next, elements, dirs, ncd - counter, whole);
      if stop {
        return;
      }
    }
    assert walked + [] == walked;
  }

  /**
   * `dig_ways`: walks from every anchor in turn and writes ground on every
   * accepted cell. It only ever writes ground, only into cells inside the
   * room that are not anchors (DigOnlyCarvesGround), and never extends
   * `elements`.
   */
  method DigWays(elements: seq<Pos>, grid: Grid, ncd: nat, dirs: nat -> Dir, cursor: nat)
    returns (g: Grid, next: nat)
    requires IsRoom(grid)
    ensures g == Paint(grid, Trail(elements, 0, ncd, dirs, cursor).0)
    ensures next == Trail(elements, 0, ncd, dirs, cursor).1
  {
    g, next := grid, cursor;
    ghost var carved: seq<Pos> := [];
    PaintNothing(grid);
    for i := 0 to |elements|
      invariant IsRoom(g) && g == Paint(grid, carved)
      invariant carved + Trail(elements, i, ncd, dirs, next).0 == Trail(elements, 0, ncd, dirs, cursor).0
      invariant Trail(elements, i, ncd, dirs, next).1 == Trail(elements, 0, ncd, dirs, cursor).1
    {
      ghost var walkStart := next;
      ghost var walked := Walk(elements[i], elements, dirs, walkStart, ncd).0;
      g, next := DigFrom(elements[i], elements, g, ncd, dirs, next);
      PaintAppend(grid, carved, walked);
      ghost var rest := Trail(elements, i + 1, ncd, dirs, next).0;
      assert Trail(elements, i, ncd, dirs, walkStart).0 == walked + rest;
      SeqAssoc(carved, walked, rest);
      carved := carved + walked;
    }
    assert carved + [] == carved;
  }

  /*
   * Connectivity. `are_points_joinable` works on any grid whose first row is
   * no longer than the others, and reads it as `grid[x][y]`, where x ranges
   * over the rows and y over the columns.
   */

  /** Every cell `grid[x][y]` with x < |grid| and y < |grid[0]| exists. */
  predicate Indexable(g: Grid)
  {
    |g| > 0 && forall x | 0 <= x < |g| :: |g[x]| >= |g[0]|
  }

  predicate InGrid(p: Pos, rows: int, cols: int)
  {
    0 <= p.0 < rows && 0 <= p.1 < cols
  }

  /**
   * The neighbours of (x, y) in the order up, down, left, right, each kept
   * when its changed coordinate is within bounds.
   */
  function GetNeighbors(x: int, y: int, rows: int, cols: int): (r: seq<Pos>)
    ensures |r| <= 4
    ensures forall k | 0 <= k < |r| :: Adjacent((x, y), r[k])
    ensures forall i, j | 0 <= i < j < |r| :: r[i] != r[j]
    ensures InGrid((x, y), rows, cols) ==> forall k | 0 <= k < |r| :: InGrid(r[k], rows, cols)
    ensures InGrid((x, y), rows, cols) ==>
      forall q | InGrid(q, rows, cols) && Adjacent((x, y), q) :: q in r
  {
    (if x - 1 >= 0 then [(x - 1, y)] else [])
    + (if x + 1 < rows then [(x + 1, y)] else [])
    + (if y - 1 >= 0 then [(x, y - 1)] else [])
    + (if y + 1 < cols then [(x, y + 1)] else [])
  }

  /** A cell the search may enter: inside the grid and ground or crystal, read as `grid[x][y]`. */
  predicate Passable(g: Grid, p: Pos)
    requires Indexable(g)
  {
    InGrid(p, |g|, |g[0]|) && (g[p.0][p.1] == Ground || g[p.0][p.1] == Crystal)
  }

  /** A chain of neighbouring cells from `a` to `b` whose cells after `a` are all passable. */
  predicate IsPath(g: Grid, a: Pos, b: Pos, path: seq<Pos>)
    requires Indexable(g)
  {
    && |path| > 0 && path[0] == a && path[|path| - 1] == b
    && forall k | 0 < k < |path| :: Adjacent(path[k - 1], path[k]) && Passable(g, path[k])
  }

  ghost predicate Joinable(g: Grid, a: Pos, b: Pos)
    requires Indexable(g)
  {
    exists path :: IsPath(g, a, b, path)
  }

  /** A path extended by one passable neighbour of its end is a path. */
  lemma PathSnoc(g: Grid, a: Pos, b: Pos, path: seq<Pos>, c: Pos)
    requires Indexable(g) && IsPath(g, a, b, path)
    requires Adjacent(b, c) && Passable(g, c)
    ensures IsPath(g, a, c, path + [c])
  {
  }

  /**
   * A set that holds `a` and every passable neighbour of each of its cells
   * holds every cell reachable from `a`.
   */
  lemma {:induction false} ClosedSetHoldsPaths(g: Grid, a: Pos, b: Pos, path: seq<Pos>, closed: set<Pos>)
    requires Indexable(g) && IsPath(g, a, b, path)
    requires a in closed
    requires forall p, q | p in closed && Adjacent(p, q) && Passable(g, q) :: q in closed
    ensures b in closed
    decreases |path|
  {
    if |path| > 1 {
      var prefix := path[..|path| - 1];
      assert IsPath(g, a, prefix[|prefix| - 1], prefix);
      ClosedSetHoldsPaths(g, a, prefix[|prefix| - 1], prefix, closed);
    }
  }

  /** All cells of a grid with the given numbers of rows and columns. */
  function Cells(rows: nat, cols: nat): (s: set<Pos>)
    ensures forall p :: p in s <==> InGrid(p, rows, cols)
  {
    set x, y | 0 <= x < rows && 0 <= y < cols :: (x, y)
  }

  /**
   * The inner loop of `are_points_joinable`: queues and marks every passable
   * neighbour of the dequeued cell (x, y) not yet visited, in neighbour order.
   */
  method VisitNeighbors(grid: Grid, pointA: Pos, x: int, y: int, queue: seq<Pos>, visited: set<Pos>,
                        ghost paths: map<Pos, seq<Pos>>)
    returns (queue': seq<Pos>, visited': set<Pos>, ghost paths': map<Pos, seq<Pos>>, ghost added: seq<Pos>)
    requires Indexable(grid) && (x, y) in visited
    requires forall p | p in visited :: InGrid(p, |grid|, |grid[0]|)
    requires forall p | p in visited :: p in paths && IsPath(grid, pointA, p, paths[p])
    ensures queue' == queue + added
    ensures forall p :: p in visited' <==> p in visited || p in added
    ensures forall i, j | 0 <= i < j < |added| :: added[i] != added[j]
    ensures forall p | p in added :: p !in visited
    ensures forall p | p in visited' :: InGrid(p, |grid|, |grid[0]|)
    ensures forall q | Adjacent((x, y), q) && Passable(grid, q) :: q in visited'
    ensures forall p | p in visited' :: p in paths' && IsPath(grid, pointA, p, paths'[p])
  {
    var neighbors := GetNeighbors(x, y, |grid|, |grid[0]|);
    queue', visited', paths', added := queue, visited, paths, [];
    for k := 0 to |neighbors|
      invariant queue' == queue + added
      invariant forall p :: p in visited' <==> p in visited || p in added
      invariant forall i, j | 0 <= i < j < |added| :: added[i] != added[j]
      invariant forall p | p in added :: p !in visited
      invariant forall p | p in visited' :: InGrid(p, |grid|, |grid[0]|)
      invariant forall q | q in neighbors[..k] && Passable(grid, q) :: q in visited'
      invariant forall p | p in visited' :: p in paths' && IsPath(grid, pointA, p, paths'[p])
    {
      var (nx, ny) := neighbors[k];
      if (nx, ny) !in visited' && (grid[nx][ny] == Ground || grid[nx][ny] == Crystal) {
        PathSnoc(grid, pointA, (x, y), paths'[(x, y)], (nx, ny));
        paths' := paths'[(nx, ny) := paths'[(x, y)] + [(nx, ny)]];
        queue' := queue' + [(nx, ny)];
        visited' := visited' + {(nx, ny)};
        added := added + [(nx, ny)];
      }
    }
    assert neighbors[..|neighbors|] == neighbors;
  }

  /** Two duplicate-free sequences with no common element concatenate to a duplicate-free one. */
  lemma DistinctAppend<T>(a: seq<T>, b: seq<T>)
    requires forall i, j | 0 <= i < j < |a| :: a[i] != a[j]
    requires forall i, j | 0 <= i < j < |b| :: b[i] != b[j]
    requires forall p | p in b :: p !in a
    ensures forall i, j | 0 <= i < j < |a + b| :: (a + b)[i] != (a + b)[j]
  {
    forall i, j | 0 <= i < j < |a + b|
      ensures (a + b)[i] != (a + b)[j]
    {
      if j >= |a| && i < |a| {
        assert (a + b)[j] in b;
      }
    }
  }

  /**
   * What the search keeps true between two dequeues: `visited` holds the
   * cells already expanded (`done`) and those still queued, once each; each
   * visited cell is reached by a path from `pointA`; every passable
   * neighbour of an expanded cell is visited; `pointB` was never expanded.
   */
  ghost predicate SearchState(grid: Grid, pointA: Pos, pointB: Pos, queue: seq<Pos>, visited: set<Pos>,
                              done: set<Pos>, paths: map<Pos, seq<Pos>>)
    requires Indexable(grid)
  {
    && (forall p | p in visited :: InGrid(p, |grid|, |grid[0]|))
    && (forall p :: p in visited <==> p in done || p in queue)
    && (forall i, j | 0 <= i < j < |queue| :: queue[i] != queue[j])
    && (forall p | p in queue :: p !in done)
    && pointA in visited && pointB !in done
    && (forall p, q | p in done && Adjacent(p, q) && Passable(grid, q) :: q in visited)
    && (forall p | p in visited :: p in paths && IsPath(grid, pointA, p, paths[p]))
  }

  /** Expanding the head of the queue, when it is not `pointB`, keeps the search state. */
  lemma SearchStep(grid: Grid, pointA: Pos, pointB: Pos, queue: seq<Pos>, visited: set<Pos>,
                   done: set<Pos>, paths: map<Pos, seq<Pos>>,
                   queue': seq<Pos>, visited': set<Pos>, paths': map<Pos, seq<Pos>>, added: seq<Pos>)
    requires Indexable(grid) && SearchState(grid, pointA, pointB, queue, visited, done, paths)
    requires queue != [] && queue[0] != pointB
    requires queue' == queue[1..] + added
    requires forall p :: p in visited' <==> p in visited || p in added
    requires forall i, j | 0 <= i < j < |added| :: added[i] != added[j]
    requires forall p | p in added :: p !in visited
    requires forall p | p in visited' :: InGrid(p, |grid|, |grid[0]|)
    requires forall q | Adjacent(queue[0], q) && Passable(grid, q) :: q in visited'
    requires forall p | p in visited' :: p in paths' && IsPath(grid, pointA, p, paths'[p])
    ensures queue[0] in Cells(|grid|, |grid[0]|) - done
    ensures SearchState(grid, pointA, pointB, queue', visited', done + {queue[0]}, paths')
  {
    DistinctAppend(queue[1..], added);
  }

  /**
   * `are_points_joinable`: breadth-first search from `pointA`. It answers
   * true exactly when `pointB` is `pointA` or is reached through passable
   * cells read as `grid[x][y]`; each cell is queued at most once.
   */
  method ArePointsJoinable(grid: Grid, pointA: Pos, pointB: Pos) returns (joinable: bool)
    requires Indexable(grid) && InGrid(pointA, |grid|, |grid[0]|)
    ensures joinable <==> Joinable(grid, pointA, pointB)
  {
    var rows := |grid|;
    var cols := |grid[0]|;
    var queue := [pointA];
    var visited := {pointA};
    ghost var done: set<Pos> := {};
    ghost var paths: map<Pos, seq<Pos>> := map[pointA := [pointA]];
    while queue != []
      invariant SearchState(grid, pointA, pointB, queue, visited, done, paths)
      decreases |Cells(rows, cols) - done|
    {
      var (x, y) := queue[0];
      ghost var (queue0, visited0, paths0) := (queue, visited, paths);
      queue := queue[1..];
      if x == pointB.0 && y == pointB.1 {
        return true;
      }
      ghost var added;
      queue, visited, paths, added := VisitNeighbors(grid, pointA, x, y, queue, visited, paths);
      SearchStep(grid, pointA, pointB, queue0, visited0, done, paths0, queue, visited, paths, added);
      done := done + {(x, y)};
    }
    ClosedSetHoldsPathsIfJoinable(grid, pointA, pointB, done);
    return false;
  }

  /** A set closed under passable neighbours that holds `a` but not `b` shows `b` is not joinable. */
  lemma ClosedSetHoldsPathsIfJoinable(g: Grid, a: Pos, b: Pos, closed: set<Pos>)
    requires Indexable(g) && a in closed && b !in closed
    requires forall p, q | p in closed && Adjacent(p, q) && Passable(g, q) :: q in closed
    ensures !Joinable(g, a, b)
  {
    if Joinable(g, a, b) {
      var path :| IsPath(g, a, b, path);
      ClosedSetHoldsPaths(g, a, b, path, closed);
    }
  }

  /*
   * The room generator `create_new_map`. Cells are visited row by row
   * (y outer, x inner), and every random draw comes from an oracle.
   */

  /** Cell `p` comes before cell (x, y) in the generator's row-by-row scan. */
  predicate Before(p: Pos, y: int, x: int)
  {
    p.1 < y || (p.1 == y && p.0 < x)
  }

  /** The cells before (x, y) in scan order that draw a crystal, in scan order. */
  function CrystalCells(crystalAt: Pos -> bool, y: int, x: int): (r: seq<Pos>)
    requires 0 <= y <= MAP_SIZE && 0 <= x <= MAP_SIZE && (y < MAP_SIZE || x == 0)
    ensures forall k | 0 <= k < |r| :: InRoom(r[k]) && Before(r[k], y, x) && crystalAt(r[k])
    decreases y, x
  {
    if x == 0 then (if y == 0 then [] else CrystalCells(crystalAt, y - 1, MAP_SIZE))
    else CrystalCells(crystalAt, y, x - 1) + (if crystalAt((x - 1, y)) then [(x - 1, y)] else [])
  }

  /**
   * The stones placed by the scan before (x, y), each with its cell. A
   * cell's drawn stone is placed when it is neither among `stones`, the
   * codes used before this room, nor among those placed earlier in the
   * scan, and the player has not collected it yet. Placed stones are new,
   * uncollected and pairwise distinct, and their cells follow scan order.
   */
  function StoneDraws(stoneAt: Pos -> Option<Stone>, collection: map<string, bool>, stones: seq<Stone>,
                      y: int, x: int): (r: seq<(Pos, Stone)>)
    requires forall s: Stone :: StoneName(s) in collection
    requires 0 <= y <= MAP_SIZE && 0 <= x <= MAP_SIZE && (y < MAP_SIZE || x == 0)
    decreases y, x
  {
    if x == 0 then (if y == 0 then [] else StoneDraws(stoneAt, collection, stones, y - 1, MAP_SIZE))
    else
      var before := StoneDraws(stoneAt, collection, stones, y, x - 1);
      match stoneAt((x - 1, y))
      case Some(s) =>
        if s !in stones + StonesOf(before) && !collection[StoneName(s)] then before + [((x - 1, y), s)]
        else before
      case None => before
  }

  /**
   * Placements `r` made by a scan before (x, y): placed stones are new,
   * uncollected and pairwise distinct, each is the one drawn on its cell,
   * and their cells follow scan order.
   */
  ghost predicate ChosenDraws(r: seq<(Pos, Stone)>, stoneAt: Pos -> Option<Stone>, collection: map<string, bool>,
                              stones: seq<Stone>, y: int, x: int)
    requires forall s: Stone :: StoneName(s) in collection
  {
    && (forall k | 0 <= k < |r| ::
          && InRoom(r[k].0) && Before(r[k].0, y, x) && stoneAt(r[k].0) == Some(r[k].1)
          && r[k].1 !in stones && !collection[StoneName(r[k].1)])
    && (forall i, j | 0 <= i < j < |r| :: r[i].1 != r[j].1 && Before(r[i].0, r[j].0.1, r[j].0.0))
  }

  /** A new stone drawn on the next cell of the scan extends the placements. */
  lemma ChosenSnoc(before: seq<(Pos, Stone)>, stoneAt: Pos -> Option<Stone>, collection: map<string, bool>,
                   stones: seq<Stone>, y: int, x: int, s: Stone)
    requires forall s: Stone :: StoneName(s) in collection
    requires 0 <= y < MAP_SIZE && 0 < x <= MAP_SIZE
    requires ChosenDraws(before, stoneAt, collection, stones, y, x - 1)
    requires stoneAt((x - 1, y)) == Some(s) && s !in stones + StonesOf(before) && !collection[StoneName(s)]
    ensures ChosenDraws(before + [((x - 1, y), s)], stoneAt, collection, stones, y, x)
  {
    var r := before + [((x - 1, y), s)];
    forall k | 0 <= k < |r|
      ensures && InRoom(r[k].0) && Before(r[k].0, y, x) && stoneAt(r[k].0) == Some(r[k].1)
              && r[k].1 !in stones && !collection[StoneName(r[k].1)]
    {
      if k < |before| {
        assert r[k] == before[k];
      }
    }
    forall i, j | 0 <= i < j < |r|
      ensures r[i].1 != r[j].1 && Before(r[i].0, r[j].0.1, r[j].0.0)
    {
      assert r[i] == before[i];
      if j == |before| {
        assert r[i].1 == StonesOf(before)[i];
      } else {
        assert r[j] == before[j];
      }
    }
  }

  /** Placements made before a scan position were made before any later one. */
  lemma ChosenLater(r: seq<(Pos, Stone)>, stoneAt: Pos -> Option<Stone>, collection: map<string, bool>,
                    stones: seq<Stone>, y: int, x: int, y': int, x': int)
    requires forall s: Stone :: StoneName(s) in collection
    requires ChosenDraws(r, stoneAt, collection, stones, y, x)
    requires y < y' || (y == y' && x <= x')
    ensures ChosenDraws(r, stoneAt, collection, stones, y', x')
  {
  }

  lemma {:induction false} StoneDrawsChosen(stoneAt: Pos -> Option<Stone>, collection: map<string, bool>,
                                            stones: seq<Stone>, y: int, x: int)
    requires forall s: Stone :: StoneName(s) in collection
    requires 0 <= y <= MAP_SIZE && 0 <= x <= MAP_SIZE && (y < MAP_SIZE || x == 0)
    ensures ChosenDraws(StoneDraws(stoneAt, collection, stones, y, x), stoneAt, collection, stones, y, x)
    decreases y, x
  {
    if x == 0 {
      if y != 0 {
        StoneDrawsChosen(stoneAt, collection, stones, y - 1, MAP_SIZE);
        ChosenLater(StoneDraws(stoneAt, collection, stones, y - 1, MAP_SIZE), stoneAt, collection, stones,
                    y - 1, MAP_SIZE, y, 0);
      }
    } else {
      StoneDrawsChosen(stoneAt, collection, stones, y, x - 1);
      ChosenStep(stoneAt, collection, stones, y, x);
    }
  }

  /** One cell of the scan keeps the placements chosen. */
  lemma ChosenStep(stoneAt: Pos -> Option<Stone>, collection: map<string, bool>, stones: seq<Stone>, y: int, x: int)
    requires forall s: Stone :: StoneName(s) in collection
    requires 0 <= y < MAP_SIZE && 0 < x <= MAP_SIZE
    requires ChosenDraws(StoneDraws(stoneAt, collection, stones, y, x - 1), stoneAt, collection, stones, y, x - 1)
    ensures ChosenDraws(StoneDraws(stoneAt, collection, stones, y, x), stoneAt, collection, stones, y, x)
  {
    var before := StoneDraws(stoneAt, collection, stones, y, x - 1);
    var draw := stoneAt((x - 1, y));
    if draw.Some? && draw.value !in stones + StonesOf(before) && !collection[StoneName(draw.value)] {
      ChosenSnoc(before, stoneAt, collection, stones, y, x, draw.value);
    } else {
      ChosenLater(before, stoneAt, collection, stones, y, x - 1, y, x);
    }
  }

  /** The stone last placed on cell `p`, if any. */
  function StoneOn(placements: seq<(Pos, Stone)>, p: Pos): (r: Option<Stone>)
    ensures r.Some? <==> exists k | 0 <= k < |placements| :: placements[k].0 == p
    ensures r.Some? ==> (p, r.value) in placements
  {
    if placements == [] then None
    else if placements[|placements| - 1].0 == p then Some(placements[|placements| - 1].1)
    else StoneOn(placements[..|placements| - 1], p)
  }

  /** A room with the given stone placements written over it. */
  function Placed(g: Grid, placements: seq<(Pos, Stone)>, p: Pos): Tile
    requires IsRoom(g) && InRoom(p)
  {
    match StoneOn(placements, p)
    case Some(s) => Stone(s)
    case None => At(g, p)
  }

  function Positions(placements: seq<(Pos, Stone)>): (r: seq<Pos>)
    ensures |r| == |placements| && forall k | 0 <= k < |r| :: r[k] == placements[k].0
  {
    if placements == [] then [] else Positions(placements[..|placements| - 1]) + [placements[|placements| - 1].0]
  }

  function StonesOf(placements: seq<(Pos, Stone)>): (r: seq<Stone>)
    ensures |r| == |placements| && forall k | 0 <= k < |r| :: r[k] == placements[k].1
  {
    if placements == [] then [] else StonesOf(placements[..|placements| - 1]) + [placements[|placements| - 1].1]
  }

  /** The room of rocks the generator starts from. */
  method FillRocks() returns (g: Grid)
    ensures IsRoom(g) && forall p | InRoom(p) :: At(g, p) == Rock
  {
    g := [];
    for counterY := 0 to MAP_SIZE
      invariant |g| == counterY && forall y | 0 <= y < counterY :: g[y] == seq(MAP_SIZE, _ => Rock)
    {
      var listY := [];
      for counterX := 0 to MAP_SIZE
        invariant listY == seq(counterX, _ => Rock)
      {
        listY := listY + [Rock];
      }
      g := g + [listY];
    }
  }

  /** The crystal scan has reached (x, y): the cells before it are placed and recorded. */
  ghost predicate CrystalState(grid: Grid, crystalAt: Pos -> bool, g: Grid, elements: seq<Pos>, y: int, x: int)
  {
    && IsRoom(grid) && IsRoom(g)
    && 0 <= y <= MAP_SIZE && 0 <= x <= MAP_SIZE && (y < MAP_SIZE || x == 0)
    && elements == CrystalCells(crystalAt, y, x)
    && forall p | InRoom(p) :: At(g, p) == if Before(p, y, x) && crystalAt(p) then Crystal else At(grid, p)
  }

  /** One cell of the crystal scan. */
  method PlaceCrystalAt(grid: Grid, crystalAt: Pos -> bool, g0: Grid, elements0: seq<Pos>, y: int, x: int)
    returns (g: Grid, elements: seq<Pos>)
    requires 0 <= y < MAP_SIZE && 0 <= x < MAP_SIZE && CrystalState(grid, crystalAt, g0, elements0, y, x)
    ensures CrystalState(grid, crystalAt, g, elements, y, x + 1)
  {
    g, elements := g0, elements0;
    if crystalAt((x, y)) {
      g := SetAt(g, (x, y), Crystal);
      elements := elements + [(x, y)];
    }
  }

  /** Crystal placement: every cell that draws a crystal becomes one and is recorded, in scan order. */
  method PlaceCrystals(grid: Grid, crystalAt: Pos -> bool) returns (g: Grid, elements: seq<Pos>)
    requires IsRoom(grid)
    ensures IsRoom(g) && elements == CrystalCells(crystalAt, MAP_SIZE, 0)
    ensures forall p | InRoom(p) :: At(g, p) == if crystalAt(p) then Crystal else At(grid, p)
  {
    g, elements := grid, [];
    for counterY := 0 to MAP_SIZE
      invariant CrystalState(grid, crystalAt, g, elements, counterY, 0)
    {
      for counterX := 0 to MAP_SIZE
        invariant CrystalState(grid, crystalAt, g, elements, counterY, counterX)
      {
        g, elements := PlaceCrystalAt(grid, crystalAt, g, elements, counterY, counterX);
      }
      CrystalRowDone(grid, crystalAt, g, elements, counterY);
    }
  }

  /** The end of a row of the crystal scan is the start of the next. */
  lemma CrystalRowDone(grid: Grid, crystalAt: Pos -> bool, g: Grid, elements: seq<Pos>, y: int)
    requires 0 <= y < MAP_SIZE && CrystalState(grid, crystalAt, g, elements, y, MAP_SIZE)
    ensures CrystalState(grid, crystalAt, g, elements, y + 1, 0)
  {
    forall p | InRoom(p)
      ensures Before(p, y, MAP_SIZE) == Before(p, y + 1, 0)
    {
    }
  }

  /** One more cell of the stone scan: its drawn stone is placed or not. */
  lemma StoneDrawsNext(stoneAt: Pos -> Option<Stone>, collection: map<string, bool>, stones: seq<Stone>, y: int, x: int)
    requires forall s: Stone :: StoneName(s) in collection
    requires 0 <= y < MAP_SIZE && 0 <= x < MAP_SIZE
    ensures var done := StoneDraws(stoneAt, collection, stones, y, x);
      var draw := stoneAt((x, y));
      StoneDraws(stoneAt, collection, stones, y, x + 1) ==
        if draw.Some? && draw.value !in stones + StonesOf(done) && !collection[StoneName(draw.value)]
        then done + [((x, y), draw.value)] else done
  {
  }

  /**
   * The scan so far has made the placements `done`: the room `g` is `grid`
   * with them written over it, and their cells and codes are recorded.
   */
  ghost predicate ScanState(grid: Grid, g: Grid, elements: seq<Pos>, elements': seq<Pos>,
                            stones: seq<Stone>, stones': seq<Stone>, done: seq<(Pos, Stone)>)
  {
    && IsRoom(grid) && IsRoom(g)
    && elements' == elements + Positions(done) && stones' == stones + StonesOf(done)
    && forall p | InRoom(p) :: At(g, p) == Placed(grid, done, p)
  }

  /** Placing one more stone keeps the scan state. */
  lemma ScanStateSnoc(grid: Grid, g: Grid, elements: seq<Pos>, elements': seq<Pos>,
                      stones: seq<Stone>, stones': seq<Stone>, done: seq<(Pos, Stone)>, p: Pos, s: Stone)
    requires ScanState(grid, g, elements, elements', stones, stones', done) && InRoom(p)
    ensures ScanState(grid, SetAt(g, p, Stone(s)), elements, elements' + [p], stones, stones' + [s], done + [(p, s)])
  {
    var done' := done + [(p, s)];
    assert done'[..|done|] == done;
    assert Positions(done') == Positions(done) + [p];
    assert StonesOf(done') == StonesOf(done) + [s];
    forall q | InRoom(q)
      ensures At(SetAt(g, p, Stone(s)), q) == Placed(grid, done', q)
    {
      assert StoneOn(done', q) == if q == p then Some(s) else StoneOn(done, q);
    }
  }

  /** One row of the stone scan. */
  method PlaceStonesRow(grid: Grid, g0: Grid, elements: seq<Pos>, elements0: seq<Pos>, stones: seq<Stone>,
                        stones0: seq<Stone>, collection: map<string, bool>, stoneAt: Pos -> Option<Stone>, counterY: int)
    returns (g: Grid, elements': seq<Pos>, stones': seq<Stone>)
    requires forall s: Stone :: StoneName(s) in collection
    requires 0 <= counterY < MAP_SIZE
    requires ScanState(grid, g0, elements, elements0, stones, stones0, StoneDraws(stoneAt, collection, stones, counterY, 0))
    ensures ScanState(grid, g, elements, elements', stones, stones', StoneDraws(stoneAt, collection, stones, counterY, MAP_SIZE))
  {
    g, elements', stones' := g0, elements0, stones0;
    for counterX := 0 to MAP_SIZE
      invariant ScanState(grid, g, elements, elements', stones, stones', StoneDraws(stoneAt, collection, stones, counterY, counterX))
    {
      g, elements', stones' := PlaceStoneAt(grid, g, elements, elements', stones, stones', collection, stoneAt, counterY, counterX);
    }
  }

  /** Cell `(counterX, counterY)` of the scan: its drawn stone is placed if it is new and not collected. */
  method PlaceStoneAt(grid: Grid, g0: Grid, elements: seq<Pos>, elements0: seq<Pos>, stones: seq<Stone>,
                      stones0: seq<Stone>, collection: map<string, bool>, stoneAt: Pos -> Option<Stone>, counterY: int, counterX: int)
    returns (g: Grid, elements': seq<Pos>, stones': seq<Stone>)
    requires forall s: Stone :: StoneName(s) in collection
    requires 0 <= counterY < MAP_SIZE && 0 <= counterX < MAP_SIZE
    requires ScanState(grid, g0, elements, elements0, stones, stones0, StoneDraws(stoneAt, collection, stones, counterY, counterX))
    ensures ScanState(grid, g, elements, elements', stones, stones', StoneDraws(stoneAt, collection, stones, counterY, counterX + 1))
  {
    g, elements', stones' := g0, elements0, stones0;
    ghost var done := StoneDraws(stoneAt, collection, stones, counterY, counterX);
    StoneDrawsNext(stoneAt, collection, stones, counterY, counterX);
    var p := (counterX, counterY);
    var draw := stoneAt(p);
    if draw.Some? && draw.value !in stones' && !collection[StoneName(draw.value)] {
      var preciousStone := draw.value;
      ScanStateSnoc(grid, g, elements, elements', stones, stones', done, p, preciousStone);
      g := SetAt(g, p, Stone(preciousStone));
      elements' := elements' + [p];
      stones' := stones' + [preciousStone];
    }
  }

  /**
   * Stone placement: the scan places the stones `StoneDraws` selects, records
   * their cells after `elements` and their codes after `stones`.
   */
  method PlaceStones(grid: Grid, elements: seq<Pos>, stones: seq<Stone>, collection: map<string, bool>,
                     stoneAt: Pos -> Option<Stone>)
    returns (g: Grid, elements': seq<Pos>, stones': seq<Stone>)
    requires IsRoom(grid) && forall s: Stone :: StoneName(s) in collection
    ensures ScanState(grid, g, elements, elements', stones, stones', StoneDraws(stoneAt, collection, stones, MAP_SIZE, 0))
  {
    g, elements', stones' := grid, elements, stones;
    assert Positions([]) == [] && StonesOf([]) == [];
    for counterY := 0 to MAP_SIZE
      invariant ScanState(grid, g, elements, elements', stones, stones', StoneDraws(stoneAt, collection, stones, counterY, 0))
    {
      g, elements', stones' := PlaceStonesRow(grid, g, elements, elements', stones, stones', collection, stoneAt, counterY);
    }
  }

  /** The four side midpoints, in the order the generator lists them. */
  const SIDES: seq<Pos> := [(MAP_SIZE / 2, 0), (MAP_SIZE / 2, MAP_SIZE - 1), (0, MAP_SIZE / 2), (MAP_SIZE - 1, MAP_SIZE / 2)]
  /** The beacon cell at the centre of a room. */
  const CENTER: Pos := (MAP_SIZE / 2, MAP_SIZE / 2)
  /** The cell west of the beacon, which holds a crystal. */
  const WEST: Pos := (MAP_SIZE / 2 - 1, MAP_SIZE / 2)
  /** The pairs a beacon room must join: the beacon with each side midpoint, in order. */
  const BEACON_PAIRS: seq<(Pos, Pos)> := [(CENTER, SIDES[0]), (CENTER, SIDES[1]), (CENTER, SIDES[2]), (CENTER, SIDES[3])]

  /** The beacon pairs start at the centre, which lies in the room, and end at the sides in order. */
  lemma BeaconPairsFromCenter()
    ensures |BEACON_PAIRS| == |SIDES|
    ensures forall k | 0 <= k < |BEACON_PAIRS| :: BEACON_PAIRS[k] == (CENTER, SIDES[k]) && InRoom(BEACON_PAIRS[k].0)
  {
  }

  /** The 3 x 3 block around the beacon. */
  predicate InBeaconBlock(p: Pos)
  {
    CENTER.0 - 1 <= p.0 <= CENTER.0 + 1 && CENTER.1 - 1 <= p.1 <= CENTER.1 + 1
  }

  /** The tile the generator puts on each cell of the beacon block. */
  function BeaconBlockTile(p: Pos): Tile
  {
    if p == CENTER then BeaconOff else if p == WEST then Crystal else Ground
  }

  /** The side midpoints become ground and anchors. */
  method PlaceSides(grid: Grid, elements: seq<Pos>) returns (g: Grid, elements': seq<Pos>)
    requires IsRoom(grid)
    ensures IsRoom(g) && elements' == elements + SIDES
    ensures forall p | InRoom(p) :: At(g, p) == if p in SIDES then Ground else At(grid, p)
  {
    g, elements' := grid, elements;
    for k := 0 to |SIDES|
      invariant IsRoom(g) && elements' == elements + SIDES[..k]
      invariant forall p | InRoom(p) :: At(g, p) == if p in SIDES[..k] then Ground else At(grid, p)
    {
      var position := SIDES[k];
      assert SIDES[..k + 1] == SIDES[..k] + [position];
      elements' := elements' + [position];
      g := SetAt(g, position, Ground);
    }
    assert SIDES[..|SIDES|] == SIDES;
  }

  /**
   * The beacon: the centre becomes an unlit beacon and an anchor (added only
   * when not yet one), the cell west of it a crystal anchor, and the seven
   * other cells around it ground. The pairs to join are the beacon with
   * each side midpoint.
   */
  method PlaceBeacon(grid: Grid, elements: seq<Pos>)
    returns (g: Grid, elements': seq<Pos>, listJoinableElements: seq<(Pos, Pos)>)
    requires IsRoom(grid)
    ensures IsRoom(g)
    ensures elements' == elements + (if CENTER in elements then [] else [CENTER]) + [WEST]
    ensures forall p | InRoom(p) :: At(g, p) == if InBeaconBlock(p) then BeaconBlockTile(p) else At(grid, p)
    ensures listJoinableElements == BEACON_PAIRS
  {
    var beaconPosition := CENTER;
    listJoinableElements := [];
    g := SetAt(grid, beaconPosition, BeaconOff);
    elements' := elements;
    if beaconPosition !in elements' {
      elements' := elements' + [beaconPosition];
    }
    for k := 0 to |SIDES|
      invariant listJoinableElements == BEACON_PAIRS[..k]
    {
      assert BEACON_PAIRS[..k + 1] == BEACON_PAIRS[..k] + [(beaconPosition, SIDES[k])];
      listJoinableElements := listJoinableElements + [(beaconPosition, SIDES[k])];
    }
    assert BEACON_PAIRS[..|SIDES|] == BEACON_PAIRS;
    g, elements' := FreeBeaconSides(g, elements');
    g := FreeBeaconRows(g);
  }

  /** The beacon's east neighbour becomes ground, its west neighbour a crystal anchor. */
  method FreeBeaconSides(grid: Grid, elements: seq<Pos>) returns (g: Grid, elements': seq<Pos>)
    requires IsRoom(grid)
    ensures IsRoom(g) && elements' == elements + [WEST]
    ensures forall p | InRoom(p) ::
      At(g, p) == if InBeaconBlock(p) && p.1 == CENTER.1 && p != CENTER then BeaconBlockTile(p) else At(grid, p)
  {
    g := SetAt(grid, (MAP_SIZE / 2 + 1, MAP_SIZE / 2), Ground);
    g := SetAt(g, (MAP_SIZE / 2 - 1, MAP_SIZE / 2), Crystal);
    elements' := elements + [(MAP_SIZE / 2 - 1, MAP_SIZE / 2)];
  }

  /** The six cells above and below the beacon's row become ground. */
  method FreeBeaconRows(grid: Grid) returns (g: Grid)
    requires IsRoom(grid)
    ensures IsRoom(g)
    ensures forall p | InRoom(p) :: At(g, p) == if InBeaconBlock(p) && p.1 != CENTER.1 then Ground else At(grid, p)
  {
    g := SetAt(grid, (MAP_SIZE / 2 + 1, MAP_SIZE / 2 + 1), Ground);
    g := SetAt(g, (MAP_SIZE / 2 + 1, MAP_SIZE / 2 - 1), Ground);
    g := SetAt(g, (MAP_SIZE / 2 - 1, MAP_SIZE / 2 + 1), Ground);
    g := SetAt(g, (MAP_SIZE / 2 - 1, MAP_SIZE / 2 - 1), Ground);
    g := SetAt(g, (MAP_SIZE / 2, MAP_SIZE / 2 + 1), Ground);
    g := SetAt(g, (MAP_SIZE / 2, MAP_SIZE / 2 - 1), Ground);
  }

  /*
   * The search reads the room transposed. A path it finds from (x, y) is,
   * cell by cell swapped, a path of the room from (y, x); as the four side
   * midpoints swap onto one another and the centre onto itself, checking
   * the beacon against all four sides checks the room itself.
   */

  function Swap(p: Pos): Pos
  {
    (p.1, p.0)
  }

  function SwapAll(path: seq<Pos>): (r: seq<Pos>)
    ensures |r| == |path| && forall k | 0 <= k < |path| :: r[k] == Swap(path[k])
  {
    seq(|path|, k requires 0 <= k < |path| => Swap(path[k]))
  }

  /** A cell of the room the player can walk through as the room is laid out: ground or crystal. */
  predicate Walkable(g: Grid, p: Pos)
    requires IsRoom(g)
  {
    InRoom(p) && (At(g, p) == Ground || At(g, p) == Crystal)
  }

  predicate IsRoomPath(g: Grid, a: Pos, b: Pos, path: seq<Pos>)
    requires IsRoom(g)
  {
    && |path| > 0 && path[0] == a && path[|path| - 1] == b
    && forall k | 0 < k < |path| :: Adjacent(path[k - 1], path[k]) && Walkable(g, path[k])
  }

  ghost predicate RoomJoinable(g: Grid, a: Pos, b: Pos)
    requires IsRoom(g)
  {
    exists path :: IsRoomPath(g, a, b, path)
  }

  /** Joinable as the search reads the room is joinable in the room with both ends swapped. */
  lemma JoinableTransposed(g: Grid, a: Pos, b: Pos)
    requires IsRoom(g)
    ensures Joinable(g, a, b) <==> RoomJoinable(g, Swap(a), Swap(b))
  {
    if Joinable(g, a, b) {
      var path :| IsPath(g, a, b, path);
      PathTransposed(g, a, b, path);
    }
    if RoomJoinable(g, Swap(a), Swap(b)) {
      var path :| IsRoomPath(g, Swap(a), Swap(b), path);
      RoomPathTransposed(g, a, b, path);
    }
  }

  lemma PathTransposed(g: Grid, a: Pos, b: Pos, path: seq<Pos>)
    requires IsRoom(g) && IsPath(g, a, b, path)
    ensures IsRoomPath(g, Swap(a), Swap(b), SwapAll(path))
  {
  }

  lemma RoomPathTransposed(g: Grid, a: Pos, b: Pos, path: seq<Pos>)
    requires IsRoom(g) && IsRoomPath(g, Swap(a), Swap(b), path)
    ensures IsPath(g, a, b, SwapAll(path))
  {
  }

  /** Swapping maps the side midpoints onto one another. */
  lemma SidesSwap()
    ensures Swap(CENTER) == CENTER
    ensures Swap(SIDES[0]) == SIDES[2] && Swap(SIDES[1]) == SIDES[3]
    ensures Swap(SIDES[2]) == SIDES[0] && Swap(SIDES[3]) == SIDES[1]
  {
  }

  /**
   * The beacon joined to all four sides as the search reads the room is the
   * beacon joined to all four sides in the room itself.
   */
  lemma AllSidesJoinedTransposed(g: Grid)
    requires IsRoom(g)
    ensures (forall k | 0 <= k < |SIDES| :: Joinable(g, CENTER, SIDES[k]))
        <==> (forall k | 0 <= k < |SIDES| :: RoomJoinable(g, CENTER, SIDES[k]))
  {
    SidesSwap();
    forall k | 0 <= k < |SIDES|
      ensures Joinable(g, CENTER, SIDES[k]) <==> RoomJoinable(g, CENTER, Swap(SIDES[k]))
    {
      JoinableTransposed(g, CENTER, SIDES[k]);
    }
  }

  /** The tile the generator lays on cell `p` before any digging. */
  function Layout(crystalAt: Pos -> bool, draws: seq<(Pos, Stone)>, hasBeacon: bool, p: Pos): Tile
  {
    if hasBeacon && InBeaconBlock(p) then BeaconBlockTile(p)
    else if p in SIDES then Ground
    else match StoneOn(draws, p)
      case Some(s) => Stone(s)
      case None => if crystalAt(p) then Crystal else Rock
  }

  /** The room before any digging. */
  function LaidOut(crystalAt: Pos -> bool, draws: seq<(Pos, Stone)>, hasBeacon: bool): (g: Grid)
    ensures IsRoom(g) && forall p | InRoom(p) :: At(g, p) == Layout(crystalAt, draws, hasBeacon, p)
  {
    seq(MAP_SIZE, y => seq(MAP_SIZE, x => Layout(crystalAt, draws, hasBeacon, (x, y))))
  }

  /**
   * The anchors digging starts from, in the order they are recorded:
   * crystals, stones, side midpoints, then the beacon (unless already an
   * anchor) and the crystal west of it.
   */
  function Anchors(crystalAt: Pos -> bool, draws: seq<(Pos, Stone)>, hasBeacon: bool): seq<Pos>
  {
    var scanned := CrystalCells(crystalAt, MAP_SIZE, 0) + Positions(draws) + SIDES;
    if hasBeacon then scanned + (if CENTER in scanned then [] else [CENTER]) + [WEST] else scanned
  }

  /** The phases of the layout, cell by cell, compose to `LaidOut`. */
  lemma LayoutOfPhases(crystalAt: Pos -> bool, draws: seq<(Pos, Stone)>, hasBeacon: bool,
                       rocks: Grid, withCrystals: Grid, withStones: Grid, withSides: Grid, grid: Grid)
    requires IsRoom(rocks) && IsRoom(withCrystals) && IsRoom(withStones) && IsRoom(withSides) && IsRoom(grid)
    requires forall p | InRoom(p) :: At(rocks, p) == Rock
    requires forall p | InRoom(p) :: At(withCrystals, p) == if crystalAt(p) then Crystal else At(rocks, p)
    requires forall p | InRoom(p) :: At(withStones, p) == Placed(withCrystals, draws, p)
    requires forall p | InRoom(p) :: At(withSides, p) == if p in SIDES then Ground else At(withStones, p)
    requires forall p | InRoom(p) ::
      At(grid, p) == if hasBeacon && InBeaconBlock(p) then BeaconBlockTile(p) else At(withSides, p)
    ensures grid == LaidOut(crystalAt, draws, hasBeacon)
  {
    var laidOut := LaidOut(crystalAt, draws, hasBeacon);
    forall p | InRoom(p)
      ensures At(grid, p) == At(laidOut, p)
    {
      assert At(withStones, p) == Placed(withCrystals, draws, p);
    }
    RoomsEqual(grid, laidOut);
  }

  /**
   * Everything `create_new_map` does before digging: rocks, crystals,
   * stones, side midpoints and, when asked, the beacon.
   */
  method LayOutRoom(listPreciousStones: seq<Stone>, hasBeacon: bool, collection: map<string, bool>,
                    crystalAt: Pos -> bool, stoneAt: Pos -> Option<Stone>)
    returns (grid: Grid, listElements: seq<Pos>, stones: seq<Stone>, listJoinableElements: seq<(Pos, Pos)>)
    requires forall s: Stone :: StoneName(s) in collection
    ensures var draws := StoneDraws(stoneAt, collection, listPreciousStones, MAP_SIZE, 0);
      && grid == LaidOut(crystalAt, draws, hasBeacon)
      && listElements == Anchors(crystalAt, draws, hasBeacon)
      && stones == listPreciousStones + StonesOf(draws)
    ensures listJoinableElements == if hasBeacon then BEACON_PAIRS else []
  {
    ghost var draws := StoneDraws(stoneAt, collection, listPreciousStones, MAP_SIZE, 0);
    var rocks := FillRocks();
    var withCrystals, crystals := PlaceCrystals(rocks, crystalAt);
    var withStones, scanned;
    withStones, scanned, stones := PlaceStones(withCrystals, crystals, listPreciousStones, collection, stoneAt);
    grid, listElements := PlaceSides(withStones, scanned);
    listJoinableElements := [];
    ghost var withSides := grid;
    if hasBeacon {
      grid, listElements, listJoinableElements := PlaceBeacon(grid, listElements);
    }
    LayoutOfPhases(crystalAt, draws, hasBeacon, rocks, withCrystals, withStones, withSides, grid);
  }

  /**
   * One check of the dig loop: the pairs are tried in order and the first
   * that is not joined stops it, so it answers whether every pair is joined.
   */
  method AllJoinable(grid: Grid, listJoinableElements: seq<(Pos, Pos)>) returns (isJoinable: bool)
    requires IsRoom(grid)
    requires forall k | 0 <= k < |listJoinableElements| :: InRoom(listJoinableElements[k].0)
    ensures isJoinable <==>
      && |listJoinableElements| > 0
      && forall k | 0 <= k < |listJoinableElements| :: Joinable(grid, listJoinableElements[k].0, listJoinableElements[k].1)
  {
    isJoinable := false;
    for k := 0 to |listJoinableElements|
      invariant isJoinable <==> k > 0
      invariant forall i | 0 <= i < k :: Joinable(grid, listJoinableElements[i].0, listJoinableElements[i].1)
    {
      var element := listJoinableElements[k];
      isJoinable := ArePointsJoinable(grid, element.0, element.1);
      if !isJoinable {
        return;
      }
    }
  }

  /** One round of the dig loop: dig the laid-out room again, then check it if it has a beacon. */
  method DigRound(gridMap: Grid, listElements: seq<Pos>, listJoinableElements: seq<(Pos, Pos)>, hasBeacon: bool,
                  numberCasesDigger: nat, dirs: nat -> Dir, cursor: nat)
    returns (newGridMap: Grid, next: nat, isJoinable: bool)
    requires IsRoom(gridMap)
    requires forall k | 0 <= k < |listJoinableElements| :: InRoom(listJoinableElements[k].0)
    ensures newGridMap == Paint(gridMap, Trail(listElements, 0, numberCasesDigger, dirs, cursor).0)
    ensures next == Trail(listElements, 0, numberCasesDigger, dirs, cursor).1
    ensures isJoinable <==> hasBeacon && AllJoined(newGridMap, listJoinableElements)
  {
    newGridMap, next := DigWays(listElements, gridMap, numberCasesDigger, dirs, cursor);
    isJoinable := false;
    if hasBeacon {
      isJoinable := AllJoinable(newGridMap, listJoinableElements);
    }
  }

  /** A room the dig loop accepts: its pairs all join, and there is at least one pair. */
  ghost predicate AllJoined(g: Grid, pairs: seq<(Pos, Pos)>)
    requires IsRoom(g)
  {
    |pairs| > 0 && forall k | 0 <= k < |pairs| :: Joinable(g, pairs[k].0, pairs[k].1)
  }

  /** A round of the dig loop that joined: the room, its walk length, its first draw and the draw after it. */
  datatype Dug = Dug(room: Grid, digger: nat, digStart: nat, next: nat)

  /**
   * The dig loop of a beacon room as a function: dig the laid-out room
   * from draw `start` with walks `digger` long; a room whose pairs all
   * join is the result, otherwise the next round digs again from the
   * laid-out room, from where this round's draws stopped and with walks
   * one step longer. `None` when `rounds` rounds all fail.
   */
  ghost function RetryFrom(gridMap: Grid, listElements: seq<Pos>, pairs: seq<(Pos, Pos)>, dirs: nat -> Dir,
                           start: nat, digger: nat, rounds: nat): Option<Dug>
    requires IsRoom(gridMap)
    decreases rounds
  {
    if rounds == 0 then None
    else
      var trail := Trail(listElements, 0, digger, dirs, start);
      var room := Paint(gridMap, trail.0);
      if AllJoined(room, pairs) then Some(Dug(room, digger, start, trail.1))
      else RetryFrom(gridMap, listElements, pairs, dirs, trail.1, digger + 1, rounds - 1)
  }

  /** One round of the retry: the room it digs either joins and is the result, or the retry goes on. */
  lemma RetryFromStep(gridMap: Grid, listElements: seq<Pos>, pairs: seq<(Pos, Pos)>, dirs: nat -> Dir,
                      start: nat, digger: nat, rounds: nat, room: Grid, next: nat, joined: bool)
    requires IsRoom(gridMap) && rounds > 0
    requires room == Paint(gridMap, Trail(listElements, 0, digger, dirs, start).0)
    requires next == Trail(listElements, 0, digger, dirs, start).1
    requires joined <==> AllJoined(room, pairs)
    ensures RetryFrom(gridMap, listElements, pairs, dirs, start, digger, rounds)
      == if joined then Some(Dug(room, digger, start, next))
         else RetryFrom(gridMap, listElements, pairs, dirs, next, digger + 1, rounds - 1)
  {
  }

  /**
   * A round the retry returns is one of its `rounds` rounds: its walks are
   * `digger + k` steps long for some k < rounds, its room is the laid-out
   * room dug from its first draw, and its pairs all join.
   */
  lemma {:induction false} RetryFromFound(gridMap: Grid, listElements: seq<Pos>, pairs: seq<(Pos, Pos)>, dirs: nat -> Dir,
                                          start: nat, digger: nat, rounds: nat)
    requires IsRoom(gridMap)
    ensures var r := RetryFrom(gridMap, listElements, pairs, dirs, start, digger, rounds);
      r.Some? ==>
        && digger <= r.value.digger < digger + rounds
        && r.value.room == Paint(gridMap, Trail(listElements, 0, r.value.digger, dirs, r.value.digStart).0)
        && r.value.next == Trail(listElements, 0, r.value.digger, dirs, r.value.digStart).1
        && AllJoined(r.value.room, pairs)
    decreases rounds
  {
    if rounds > 0 {
      var trail := Trail(listElements, 0, digger, dirs, start);
      RetryFromFound(gridMap, listElements, pairs, dirs, trail.1, digger + 1, rounds - 1);
    }
  }

  /**
   * A beacon room the retry returns joins the beacon to every side
   * midpoint, both as the search reads the room and in the room itself.
   */
  lemma RetryBeaconJoined(gridMap: Grid, listElements: seq<Pos>, dirs: nat -> Dir, start: nat, digger: nat, rounds: nat)
    requires IsRoom(gridMap)
    ensures var r := RetryFrom(gridMap, listElements, BEACON_PAIRS, dirs, start, digger, rounds);
      r.Some? ==>
        && digger <= r.value.digger < digger + rounds
        && r.value.room == Paint(gridMap, Trail(listElements, 0, r.value.digger, dirs, r.value.digStart).0)
        && r.value.next == Trail(listElements, 0, r.value.digger, dirs, r.value.digStart).1
        && (forall k | 0 <= k < |SIDES| :: Joinable(r.value.room, CENTER, SIDES[k]))
        && (forall k | 0 <= k < |SIDES| :: RoomJoinable(r.value.room, CENTER, SIDES[k]))
  {
    var r := RetryFrom(gridMap, listElements, BEACON_PAIRS, dirs, start, digger, rounds);
    RetryFromFound(gridMap, listElements, BEACON_PAIRS, dirs, start, digger, rounds);
    if r.Some? {
      BeaconPairsFromCenter();
      AllSidesJoinedTransposed(r.value.room);
    }
  }

  /**
   * The retry returns the first round that joins: with a budget that stops
   * before that round, every round fails.
   */
  lemma {:induction false} RetryFromFirst(gridMap: Grid, listElements: seq<Pos>, pairs: seq<(Pos, Pos)>, dirs: nat -> Dir,
                                          start: nat, digger: nat, rounds: nat, fewer: nat)
    requires IsRoom(gridMap)
    requires var r := RetryFrom(gridMap, listElements, pairs, dirs, start, digger, rounds);
      r.Some? && digger + fewer <= r.value.digger
    ensures RetryFrom(gridMap, listElements, pairs, dirs, start, digger, fewer) == None
    decreases rounds
  {
    if fewer > 0 {
      var trail := Trail(listElements, 0, digger, dirs, start);
      RetryFromFirst(gridMap, listElements, pairs, dirs, trail.1, digger + 1, rounds - 1, fewer - 1);
    }
  }

  /** When the whole budget fails, so does every smaller one: no round within it joins. */
  lemma {:induction false} RetryFromNone(gridMap: Grid, listElements: seq<Pos>, pairs: seq<(Pos, Pos)>, dirs: nat -> Dir,
                                         start: nat, digger: nat, rounds: nat, fewer: nat)
    requires IsRoom(gridMap)
    requires RetryFrom(gridMap, listElements, pairs, dirs, start, digger, rounds) == None && fewer <= rounds
    ensures RetryFrom(gridMap, listElements, pairs, dirs, start, digger, fewer) == None
    decreases rounds
  {
    if fewer > 0 {
      var trail := Trail(listElements, 0, digger, dirs, start);
      RetryFromNone(gridMap, listElements, pairs, dirs, trail.1, digger + 1, rounds - 1, fewer - 1);
    }
  }

  /**
   * The dig loop of `create_new_map`. A room without a beacon is dug once,
   * with walks NUMBER_CASES_DIGGER long. A room with a beacon is dug
   * exactly as `RetryFrom` says, round after round, until the search joins
   * every pair. The source retries without bound; here at most `maxRounds`
   * rounds run and `isDone` is false when none of them joined. The ghost
   * results name the round that produced the room.
   */
  method DigUntilJoined(gridMap: Grid, listElements: seq<Pos>, listJoinableElements: seq<(Pos, Pos)>, hasBeacon: bool,
                        dirs: nat -> Dir, cursor: nat, maxRounds: nat)
    returns (newGridMap: Grid, isDone: bool, next: nat, ghost digger: nat, ghost digStart: nat)
    requires IsRoom(gridMap) && maxRounds > 0
    requires forall k | 0 <= k < |listJoinableElements| :: InRoom(listJoinableElements[k].0)
    ensures !hasBeacon ==>
      && isDone && digger == NUMBER_CASES_DIGGER && digStart == cursor
      && newGridMap == Paint(gridMap, Trail(listElements, 0, digger, dirs, digStart).0)
      && next == Trail(listElements, 0, digger, dirs, digStart).1
    ensures hasBeacon ==>
      RetryFrom(gridMap, listElements, listJoinableElements, dirs, cursor, NUMBER_CASES_DIGGER, maxRounds)
        == if isDone then Some(Dug(newGridMap, digger, digStart, next)) else None
  {
    var isJoinable := false;
    var numberCasesDigger := NUMBER_CASES_DIGGER;
    newGridMap := gridMap;
    var rounds := 0;
    next, digger, digStart := cursor, NUMBER_CASES_DIGGER, cursor;
    ghost var retry := RetryFrom(gridMap, listElements, listJoinableElements, dirs, cursor, NUMBER_CASES_DIGGER, maxRounds);
    while !isJoinable && rounds < maxRounds
      invariant rounds <= maxRounds && numberCasesDigger == NUMBER_CASES_DIGGER + rounds
      invariant !hasBeacon ==> rounds == 0 && !isJoinable && next == cursor
      invariant hasBeacon && !isJoinable ==>
        retry == RetryFrom(gridMap, listElements, listJoinableElements, dirs, next, numberCasesDigger, maxRounds - rounds)
      invariant hasBeacon && isJoinable ==> retry == Some(Dug(newGridMap, digger, digStart, next))
      decreases maxRounds - rounds
    {
      digStart, digger := next, numberCasesDigger;
      newGridMap, next, isJoinable :=
        DigRound(gridMap, listElements, listJoinableElements, hasBeacon, numberCasesDigger, dirs, next);
      // Only the room with the beacon has to be joined
      if !hasBeacon {
        isDone := true;
        return;
      }
      RetryFromStep(gridMap, listElements, listJoinableElements, dirs, digStart, digger, maxRounds - rounds,
                    newGridMap, next, isJoinable);
      numberCasesDigger := numberCasesDigger + 1;
      rounds := rounds + 1;
    }
    isDone := isJoinable;
  }

  /**
   * `create_new_map`: lay the room out, then dig it until the beacon, if
   * any, is joined to the four side midpoints. `None` reports that
   * `maxRounds` rounds did not join it. The ghost results name the round
   * whose room is returned.
   */
  method CreateNewMap(listPreciousStones: seq<Stone>, hasBeacon: bool, collection: map<string, bool>,
                      crystalAt: Pos -> bool, stoneAt: Pos -> Option<Stone>, dirs: nat -> Dir, cursor: nat,
                      maxRounds: nat)
    returns (room: Option<Grid>, stones: seq<Stone>, next: nat,
             ghost draws: seq<(Pos, Stone)>, ghost digger: nat, ghost digStart: nat)
    requires forall s: Stone :: StoneName(s) in collection
    requires maxRounds > 0
    ensures draws == StoneDraws(stoneAt, collection, listPreciousStones, MAP_SIZE, 0)
    ensures stones == listPreciousStones + StonesOf(draws)
    ensures !hasBeacon ==> room.Some? && digger == NUMBER_CASES_DIGGER && digStart == cursor
    ensures room.Some? ==>
      && NUMBER_CASES_DIGGER <= digger < NUMBER_CASES_DIGGER + maxRounds
      && room.value == DugRoom(crystalAt, draws, hasBeacon, digger, dirs, digStart)
      && next == Trail(Anchors(crystalAt, draws, hasBeacon), 0, digger, dirs, digStart).1
    ensures hasBeacon ==>
      RetryFrom(LaidOut(crystalAt, draws, true), Anchors(crystalAt, draws, true), BEACON_PAIRS, dirs, cursor,
                NUMBER_CASES_DIGGER, maxRounds)
        == if room.Some? then Some(Dug(room.value, digger, digStart, next)) else None
    ensures hasBeacon && room.Some? ==> forall k | 0 <= k < |SIDES| :: Joinable(room.value, CENTER, SIDES[k])
    ensures hasBeacon && room.Some? ==> forall k | 0 <= k < |SIDES| :: RoomJoinable(room.value, CENTER, SIDES[k])
  {
    var gridMap, listElements, listJoinableElements;
    gridMap, listElements, stones, listJoinableElements :=
      LayOutRoom(listPreciousStones, hasBeacon, collection, crystalAt, stoneAt);
    BeaconPairsFromCenter();
    var newGridMap, isDone;
    newGridMap, isDone, next, digger, digStart :=
      DigUntilJoined(gridMap, listElements, listJoinableElements, hasBeacon, dirs, cursor, maxRounds);
    room := if isDone then Some(newGridMap) else None;
    draws := StoneDraws(stoneAt, collection, listPreciousStones, MAP_SIZE, 0);
    if hasBeacon {
      RetryBeaconJoined(gridMap, listElements, dirs, cursor, NUMBER_CASES_DIGGER, maxRounds);
    }
  }

  /** The room a round of digging leaves. */
  function DugRoom(crystalAt: Pos -> bool, draws: seq<(Pos, Stone)>, hasBeacon: bool,
                   digger: nat, dirs: nat -> Dir, digStart: nat): (g: Grid)
    ensures IsRoom(g)
  {
    Paint(LaidOut(crystalAt, draws, hasBeacon), Trail(Anchors(crystalAt, draws, hasBeacon), 0, digger, dirs, digStart).0)
  }

  lemma SidesOutsideBeaconBlock()
    ensures forall p | p in SIDES :: InRoom(p) && !InBeaconBlock(p)
  {
  }

  /** Digging never fills a cell: the side midpoints of a dug room are ground. */
  lemma DugRoomKeepsSides(crystalAt: Pos -> bool, draws: seq<(Pos, Stone)>, hasBeacon: bool,
                          digger: nat, dirs: nat -> Dir, digStart: nat)
    ensures var room := DugRoom(crystalAt, draws, hasBeacon, digger, dirs, digStart);
      forall p | p in SIDES :: At(room, p) == Ground
  {
    var laidOut := LaidOut(crystalAt, draws, hasBeacon);
    DigOnlyCarvesGround(Anchors(crystalAt, draws, hasBeacon), laidOut, digger, dirs, digStart);
    SidesOutsideBeaconBlock();
    var room := DugRoom(crystalAt, draws, hasBeacon, digger, dirs, digStart);
    forall p | p in SIDES
      ensures At(room, p) == Ground
    {
      assert Layout(crystalAt, draws, hasBeacon, p) == Ground;
    }
  }

  /** Digging never touches an anchor, so the beacon block of a dug room is as laid out. */
  lemma DugRoomKeepsBeacon(crystalAt: Pos -> bool, draws: seq<(Pos, Stone)>, digger: nat, dirs: nat -> Dir, digStart: nat)
    ensures var room := DugRoom(crystalAt, draws, true, digger, dirs, digStart);
      forall p | InBeaconBlock(p) :: At(room, p) == BeaconBlockTile(p)
  {
    var laidOut := LaidOut(crystalAt, draws, true);
    var anchors := Anchors(crystalAt, draws, true);
    DigOnlyCarvesGround(anchors, laidOut, digger, dirs, digStart);
    assert CENTER in anchors && WEST in anchors;
  }

  /** Every cell of a dug room is its laid-out tile or ground. */
  lemma DugRoomOnlyCarves(crystalAt: Pos -> bool, draws: seq<(Pos, Stone)>, hasBeacon: bool,
                          digger: nat, dirs: nat -> Dir, digStart: nat)
    ensures var room := DugRoom(crystalAt, draws, hasBeacon, digger, dirs, digStart);
      forall p | InRoom(p) && At(room, p) != Ground :: At(room, p) == Layout(crystalAt, draws, hasBeacon, p)
  {
    DigOnlyCarvesGround(Anchors(crystalAt, draws, hasBeacon), LaidOut(crystalAt, draws, hasBeacon), digger, dirs, digStart);
  }

  /** A stone in a dug room is the last one the scan placed on its cell. */
  lemma DugRoomStone(crystalAt: Pos -> bool, draws: seq<(Pos, Stone)>, hasBeacon: bool,
                     digger: nat, dirs: nat -> Dir, digStart: nat, p: Pos)
    requires InRoom(p)
    ensures var room := DugRoom(crystalAt, draws, hasBeacon, digger, dirs, digStart);
      At(room, p).Stone? ==> StoneOn(draws, p) == Some(At(room, p).stone)
  {
    var room := DugRoom(crystalAt, draws, hasBeacon, digger, dirs, digStart);
    if At(room, p).Stone? {
      assert At(room, p) == Layout(crystalAt, draws, hasBeacon, p) by {
        DugRoomOnlyCarves(crystalAt, draws, hasBeacon, digger, dirs, digStart);
      }
      LayoutStone(crystalAt, draws, hasBeacon, p);
    }
  }

  /** The only stones laid out are the placed ones. */
  lemma LayoutStone(crystalAt: Pos -> bool, draws: seq<(Pos, Stone)>, hasBeacon: bool, p: Pos)
    requires Layout(crystalAt, draws, hasBeacon, p).Stone?
    ensures StoneOn(draws, p) == Some(Layout(crystalAt, draws, hasBeacon, p).stone)
  {
  }

  /** A placed stone sits at some index of the placements. */
  lemma PlacementIndex(draws: seq<(Pos, Stone)>, p: Pos, s: Stone) returns (i: nat)
    requires StoneOn(draws, p) == Some(s)
    ensures i < |draws| && draws[i] == (p, s) && StonesOf(draws)[i] == s
  {
    i :| 0 <= i < |draws| && draws[i] == (p, s);
  }

  /**
   * A stone in a generated room is the one drawn for its cell, is not among
   * the stones used before the room, and has not been collected.
   */
  lemma GeneratedStonesAreNew(crystalAt: Pos -> bool, stoneAt: Pos -> Option<Stone>, collection: map<string, bool>,
                              listPreciousStones: seq<Stone>, hasBeacon: bool,
                              digger: nat, dirs: nat -> Dir, digStart: nat, p: Pos)
    requires forall s: Stone :: StoneName(s) in collection
    requires InRoom(p)
    ensures var draws := StoneDraws(stoneAt, collection, listPreciousStones, MAP_SIZE, 0);
      var room := DugRoom(crystalAt, draws, hasBeacon, digger, dirs, digStart);
      At(room, p).Stone? ==>
        var s := At(room, p).stone;
        stoneAt(p) == Some(s) && s !in listPreciousStones && !collection[StoneName(s)] && s in StonesOf(draws)
  {
    var draws := StoneDraws(stoneAt, collection, listPreciousStones, MAP_SIZE, 0);
    var room := DugRoom(crystalAt, draws, hasBeacon, digger, dirs, digStart);
    DugRoomStone(crystalAt, draws, hasBeacon, digger, dirs, digStart, p);
    if At(room, p).Stone? {
      StoneDrawsChosen(stoneAt, collection, listPreciousStones, MAP_SIZE, 0);
      var i := PlacementIndex(draws, p, At(room, p).stone);
    }
  }

  /** No stone appears on two cells of a generated room. */
  lemma GeneratedStonesAreUnique(crystalAt: Pos -> bool, stoneAt: Pos -> Option<Stone>, collection: map<string, bool>,
                                 listPreciousStones: seq<Stone>, hasBeacon: bool,
                                 digger: nat, dirs: nat -> Dir, digStart: nat, p: Pos, q: Pos)
    requires forall s: Stone :: StoneName(s) in collection
    requires InRoom(p) && InRoom(q)
    ensures var draws := StoneDraws(stoneAt, collection, listPreciousStones, MAP_SIZE, 0);
      var room := DugRoom(crystalAt, draws, hasBeacon, digger, dirs, digStart);
      At(room, p).Stone? && At(room, p) == At(room, q) ==> p == q
  {
    var draws := StoneDraws(stoneAt, collection, listPreciousStones, MAP_SIZE, 0);
    var room := DugRoom(crystalAt, draws, hasBeacon, digger, dirs, digStart);
    DugRoomStone(crystalAt, draws, hasBeacon, digger, dirs, digStart, p);
    DugRoomStone(crystalAt, draws, hasBeacon, digger, dirs, digStart, q);
    if At(room, p).Stone? && At(room, p) == At(room, q) {
      StoneDrawsChosen(stoneAt, collection, listPreciousStones, MAP_SIZE, 0);
      var s := At(room, p).stone;
      var i := PlacementIndex(draws, p, s);
      var j := PlacementIndex(draws, q, s);
      assert i == j;
    }
  }

  /*
   * `grid_to_string`: each cell's code followed by a space, each row
   * followed by a line break; the width is the first row's.
   */

  /** The text of one row: each code followed by a space. */
  function RowText(row: seq<Tile>): string
  {
    if row == [] then "" else RowText(row[..|row| - 1]) + (Code(row[|row| - 1]) + " ")
  }

  /** The text of the rows, each cut to `cols` cells and ended by a line break. */
  function RowsText(rows: seq<seq<Tile>>, cols: nat): string
    requires forall i | 0 <= i < |rows| :: |rows[i]| >= cols
  {
    if rows == [] then "" else RowsText(rows[..|rows| - 1], cols) + RowText(rows[|rows| - 1][..cols]) + "\n"
  }

  function GridText(grid: Grid): string
    requires Indexable(grid)
  {
    RowsText(grid, |grid[0]|)
  }

  /** The inner loop of `grid_to_string`: one row's codes appended to `s`. */
  method AppendRow(s: string, row: seq<Tile>, cols: nat) returns (s': string)
    requires |row| >= cols
    ensures s' == s + RowText(row[..cols])
  {
    s' := s;
    for j := 0 to cols
      invariant s' == s + RowText(row[..j])
    {
      assert row[..j + 1][..j] == row[..j];
      SeqAssoc(s, RowText(row[..j]), Code(row[j]) + " ");
      s' := s' + (Code(row[j]) + " ");
    }
  }

  method GridToString(grid: Grid) returns (s: string)
    requires Indexable(grid)
    ensures s == GridText(grid)
  {
    var rows := |grid|;
    var cols := |grid[0]|;
    s := "";
    for i := 0 to rows
      invariant s == RowsText(grid[..i], cols)
    {
      s := AppendRow(s, grid[i], cols);
      assert grid[..i + 1][..i] == grid[..i];
      s := s + "\n";
    }
    assert grid[..rows] == grid;
  }

}
