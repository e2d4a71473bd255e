/**
 * The move-rule assets (the classes under ChessRules/IndividualMoveRules, with the older copies in
 * PieceData/MoveRules.cs): each yields the candidate destination cells of a piece on the board.
 * Yield order is kept: callers deduplicate and score in enumeration order.
 */
module MoveRules {
  import opened Geometry
  import opened Collections
  import opened Pieces
  import opened Board

  /** RookRays.D. */
  const ROOK_DIRS: seq<Coord> := [Coord(1, 0), Coord(-1, 0), Coord(0, 1), Coord(0, -1)]
  /** BishopRays.Dirs. */
  const BISHOP_DIRS: seq<Coord> := [Coord(1, 1), Coord(1, -1), Coord(-1, 1), Coord(-1, -1)]
  /** QueenRays.Dirs, KingSteps.Dirs and StepPlusOne.N8: orthogonal steps, then diagonal ones. */
  const EIGHT_DIRS: seq<Coord> := ROOK_DIRS + BISHOP_DIRS
  /** KnightJumps.J. */
  const KNIGHT_JUMPS: seq<Coord> :=
    [Coord(1, 2), Coord(2, 1), Coord(-1, 2), Coord(2, -1), Coord(-2, 1), Coord(1, -2), Coord(-1, -2), Coord(-2, -1)]

  /** Which occupant a sliding ray may end on (the blocking cell is yielded only then). */
  datatype Blocker =
    | AnyOtherPiece  // RookRays: an occupant with data that is not the mover, whatever its team
    | EnemyOnly      // BishopRays, QueenRays: an occupant of the other team

  predicate Captures(rule: Blocker, piece: Piece, occ: Piece) {
    match rule
    case AnyOtherPiece => occ.data.Some? && occ != piece
    case EnemyOnly => occ.team != piece.team
  }

  /** Which single-step targets a jump or step rule yields. */
  datatype EntryTest =
    | NotSelf       // KnightJumps: empty, or any occupant but the mover
    | EmptyOrEnemy  // KingSteps: empty, or an occupant of the other team

  predicate Enterable(test: EntryTest, piece: Piece, occ: Piece?) {
    match test
    case NotSelf => occ == null || occ != piece
    case EmptyOrEnemy => occ == null || occ.team != piece.team
  }

  /** Steps a ray from `p` along `d` can still take before it leaves the board. */
  function EdgeDistance(b: BoardRuntime, p: Coord, d: Coord): nat {
    (if d.x > 0 then Max(0, b.cols - p.x) else if d.x < 0 then Max(0, p.x + 1) else 0)
    + (if d.y > 0 then Max(0, b.rows - p.y) else if d.y < 0 then Max(0, p.y + 1) else 0)
  }

  /** One ray from `p` along `d`: empty cells, then possibly the first occupied cell. */
  function Ray(b: BoardRuntime, piece: Piece, p: Coord, d: Coord, rule: Blocker): seq<Coord>
    requires b.Valid() && UnitStep(d)
    reads b.pieces
    decreases EdgeDistance(b, p, d)
  {
    if !b.InBounds(p) then []
    else if b.GetPiece(p) == null then [p] + Ray(b, piece, p.Plus(d), d, rule)
    else if Captures(rule, piece, b.GetPiece(p)) then [p]
    else []
  }

  /** The rays of a sliding rule, one per direction, in direction order. */
  function Rays(b: BoardRuntime, piece: Piece, dirs: seq<Coord>, rule: Blocker): seq<Coord>
    requires b.Valid() && forall k :: 0 <= k < |dirs| ==> UnitStep(dirs[k])
    reads b.pieces, piece
  {
    if |dirs| == 0 then []
    else
      var d := dirs[|dirs| - 1];
      Rays(b, piece, dirs[..|dirs| - 1], rule) + Ray(b, piece, piece.gridPos.Plus(d), d, rule)
  }

  /** The target of one jump or step, if the rule yields it. */
  function HopAt(b: BoardRuntime, piece: Piece, o: Coord, test: EntryTest): seq<Coord>
    requires b.Valid()
    reads b.pieces, piece
  {
    var p := piece.gridPos.Plus(o);
    if b.InBounds(p) && Enterable(test, piece, b.GetPiece(p)) then [p] else []
  }

  /** A jump or step rule: one candidate per offset, in offset order. */
  function Hops(b: BoardRuntime, piece: Piece, offsets: seq<Coord>, test: EntryTest): seq<Coord>
    requires b.Valid()
    reads b.pieces, piece
  {
    if |offsets| == 0 then []
    else Hops(b, piece, offsets[..|offsets| - 1], test) + HopAt(b, piece, offsets[|offsets| - 1], test)
  }

  /** PawnForward's diagonal candidate on side `dx`: an occupied in-bounds cell not holding the mover. */
  function PawnCapture(b: BoardRuntime, piece: Piece, dx: int, dir: int): seq<Coord>
    requires b.Valid()
    reads b.pieces, piece
  {
    var c := piece.gridPos.Plus(Coord(dx, dir));
    if b.InBounds(c) && b.GetPiece(c) != null && b.GetPiece(c) != piece then [c] else []
  }

  /** PawnForward: the empty cell ahead, then (if enabled) the left and right diagonal captures. */
  function PawnMoves(b: BoardRuntime, piece: Piece, dir: int, captureDiagonals: bool): seq<Coord>
    requires b.Valid()
    reads b.pieces, piece
  {
    var f := piece.gridPos.Plus(Coord(0, dir));
    (if b.InBounds(f) && b.GetPiece(f) == null then [f] else [])
    + (if captureDiagonals then PawnCapture(b, piece, -1, dir) + PawnCapture(b, piece, 1, dir) else [])
  }

  lemma DirectionTables()
    ensures forall k :: 0 <= k < |ROOK_DIRS| ==> UnitStep(ROOK_DIRS[k])
    ensures forall k :: 0 <= k < |BISHOP_DIRS| ==> UnitStep(BISHOP_DIRS[k])
    ensures forall k :: 0 <= k < |EIGHT_DIRS| ==> UnitStep(EIGHT_DIRS[k])
  {
  }

  /** MoveRule.GetMoves for every rule asset of the repository. */
  function RuleMoves(b: BoardRuntime, piece: Piece, r: MoveRule): seq<Coord>
    requires b.Valid()
    reads b.pieces, piece
  {
    DirectionTables();
    match r
    case RookRays => Rays(b, piece, ROOK_DIRS, AnyOtherPiece)
    case BishopRays => Rays(b, piece, BISHOP_DIRS, EnemyOnly)
    case QueenRays => Rays(b, piece, EIGHT_DIRS, EnemyOnly)
    case KnightJumps => Hops(b, piece, KNIGHT_JUMPS, NotSelf)
    case KingSteps => Hops(b, piece, EIGHT_DIRS, EmptyOrEnemy)
    case PawnForward(dir, captureDiagonals) => PawnMoves(b, piece, dir, captureDiagonals)
  }

  /** The sliding loop of RookRays, BishopRays and QueenRays: per direction, walk until off the board or blocked. */
  method SlidingRays(b: BoardRuntime, piece: Piece, dirs: seq<Coord>, rule: Blocker) returns (cells: seq<Coord>)
    requires b.Valid() && forall k :: 0 <= k < |dirs| ==> UnitStep(dirs[k])
    ensures cells == Rays(b, piece, dirs, rule)
  {
    cells := [];
    for i := 0 to |dirs|
      invariant cells == Rays(b, piece, dirs[..i], rule)
    {
      var dir := dirs[i];
      var p := piece.gridPos.Plus(dir);
      ghost var start := p;
      ghost var before := cells;
      while b.InBounds(p)
        invariant before + Ray(b, piece, start, dir, rule) == cells + Ray(b, piece, p, dir, rule)
        decreases EdgeDistance(b, p, dir)
      {
        var occ := b.GetPiece(p);
        if occ == null {
          cells := cells + [p];
          p := p.Plus(dir);
          continue;
        }
        if Captures(rule, piece, occ) {
          cells := cells + [p];
        }
        break;
      }
      assert dirs[..i + 1][..i] == dirs[..i];
    }
    assert dirs[..|dirs|] == dirs;
  }

  /** The offset loop of KnightJumps and KingSteps. */
  method OffsetMoves(b: BoardRuntime, piece: Piece, offsets: seq<Coord>, test: EntryTest) returns (cells: seq<Coord>)
    requires b.Valid()
    ensures cells == Hops(b, piece, offsets, test)
  {
    cells := [];
    for i := 0 to |offsets|
      invariant cells == Hops(b, piece, offsets[..i], test)
    {
      assert offsets[..i + 1][..i] == offsets[..i];
      var p := piece.gridPos.Plus(offsets[i]);
      if !b.InBounds(p) {
        continue;
      }
      var occ := b.GetPiece(p);
      if Enterable(test, piece, occ) {
        cells := cells + [p];
      }
    }
    assert offsets[..|offsets|] == offsets;
  }

  /** MoveRule.GetMoves, dispatched on the rule asset. */
  method GetRuleMoves(b: BoardRuntime, piece: Piece, r: MoveRule) returns (cells: seq<Coord>)
    requires b.Valid()
    ensures cells == RuleMoves(b, piece, r)
  {
    DirectionTables();
    match r
    case RookRays => cells := SlidingRays(b, piece, ROOK_DIRS, AnyOtherPiece);
    case BishopRays => cells := SlidingRays(b, piece, BISHOP_DIRS, EnemyOnly);
    case QueenRays => cells := SlidingRays(b, piece, EIGHT_DIRS, EnemyOnly);
    case KnightJumps => cells := OffsetMoves(b, piece, KNIGHT_JUMPS, NotSelf);
    case KingSteps => cells := OffsetMoves(b, piece, EIGHT_DIRS, EmptyOrEnemy);
    case PawnForward(dir, captureDiagonals) => cells := PawnMoves(b, piece, dir, captureDiagonals);
  }
}
