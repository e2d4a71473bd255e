/**
 * Modifier.PostMovesFilter, the modifier hook that rewrites a piece's candidate cells, and its one
 * override in the repository, StepPlusOne (Modifier/Modifiers.cs): the cells adjacent to the piece
 * are added to whatever the move rules produced.
 */
module ModifierMoves {
  import opened Geometry
  import opened Collections
  import opened Modifiers
  import opened Pieces
  import opened Board
  import opened MoveRules
  import opened MoveRuleProperties

  /** StepPlusOne's guard for a neighbour: on the board and not holding the mover itself. */
  predicate NeighbourAdmitted(b: BoardRuntime, piece: Piece, p: Coord)
    requires b.Valid()
    reads b.pieces
  {
    b.InBounds(p) && (b.GetPiece(p) == null || b.GetPiece(p) != piece)
  }

  /** The insertion-ordered set after each admitted neighbour along `dirs` has been added in turn. */
  function AddNeighbours(b: BoardRuntime, piece: Piece, cells: seq<Coord>, dirs: seq<Coord>): seq<Coord>
    requires b.Valid()
    reads b.pieces, piece
  {
    if |dirs| == 0 then cells
    else
      var acc := AddNeighbours(b, piece, cells, dirs[..|dirs| - 1]);
      var p := piece.gridPos.Plus(dirs[|dirs| - 1]);
      if NeighbourAdmitted(b, piece, p) then SetAdd(acc, p) else acc
  }

  /** StepPlusOne.PostMovesFilter: the incoming cells as a set, plus every admitted neighbour. */
  function StepPlusOneFilter(b: BoardRuntime, piece: Piece, moves: seq<Coord>): seq<Coord>
    requires b.Valid()
    reads b.pieces, piece
  {
    AddNeighbours(b, piece, Distinct(moves), EIGHT_DIRS)
  }

  /** Modifier.PostMovesFilter for every modifier of the catalogue; the base hook passes moves through. */
  function PostMovesFilter(m: Modifier, b: BoardRuntime, piece: Piece, moves: seq<Coord>): seq<Coord>
    requires b.Valid()
    reads b.pieces, piece
  {
    match m
    case Passive(_) => moves
    case StepPlusOne(_) => StepPlusOneFilter(b, piece, moves)
  }

  /** The body of StepPlusOne.PostMovesFilter: build the set, then add each admitted neighbour. */
  method StepPlusOneMoves(b: BoardRuntime, piece: Piece, moves: seq<Coord>) returns (cells: seq<Coord>)
    requires b.Valid()
    ensures cells == StepPlusOneFilter(b, piece, moves)
  {
    var start := Distinct(moves);
    var dirs := EIGHT_DIRS;
    cells := start;
    for i := 0 to |dirs|
      invariant cells == AddNeighbours(b, piece, start, dirs[..i])
    {
      var p := piece.gridPos.Plus(dirs[i]);
      AddNeighboursSnoc(b, piece, start, dirs, i);
      if b.InBounds(p) && (b.GetPiece(p) == null || b.GetPiece(p) != piece) {
        cells := SetAdd(cells, p);
      }
    }
    assert dirs[..|dirs|] == dirs;
  }

  /** One more direction adds its neighbour when admitted. */
  lemma AddNeighboursSnoc(b: BoardRuntime, piece: Piece, cells: seq<Coord>, dirs: seq<Coord>, i: nat)
    requires b.Valid() && i < |dirs|
    ensures var acc := AddNeighbours(b, piece, cells, dirs[..i]);
      var p := piece.gridPos.Plus(dirs[i]);
      AddNeighbours(b, piece, cells, dirs[..i + 1]) == if NeighbourAdmitted(b, piece, p) then SetAdd(acc, p) else acc
  {
    assert dirs[..i + 1][..i] == dirs[..i];
  }

  /** Modifier.PostMovesFilter, dispatched on the modifier. */
  method ApplyPostMovesFilter(m: Modifier, b: BoardRuntime, piece: Piece, moves: seq<Coord>) returns (cells: seq<Coord>)
    requires b.Valid()
    ensures cells == PostMovesFilter(m, b, piece, moves)
  {
    match m
    case Passive(_) => cells := moves;
    case StepPlusOne(_) => cells := StepPlusOneMoves(b, piece, moves);
  }

  /** Adding neighbours keeps every cell, repeats none, and adds exactly the admitted neighbours reached by `dirs`. */
  lemma {:induction false} AddNeighboursSpec(b: BoardRuntime, piece: Piece, cells: seq<Coord>, dirs: seq<Coord>)
    requires b.Valid() && NoDup(cells)
    ensures NoDup(AddNeighbours(b, piece, cells, dirs))
    ensures forall c :: c in AddNeighbours(b, piece, cells, dirs) <==>
      c in cells || (NeighbourAdmitted(b, piece, c) && ReachedBy(piece.gridPos, dirs, c))
  {
    if |dirs| > 0 {
      var n := |dirs| - 1;
      var gp := piece.gridPos;
      AddNeighboursSpec(b, piece, cells, dirs[..n]);
      forall c | ReachedBy(gp, dirs[..n], c)
        ensures ReachedBy(gp, dirs, c)
      {
        var k :| 0 <= k < n && c == gp.Plus(dirs[..n][k]);
        assert c == gp.Plus(dirs[k]);
      }
      forall c | ReachedBy(gp, dirs, c) && c != gp.Plus(dirs[n])
        ensures ReachedBy(gp, dirs[..n], c)
      {
        var k :| 0 <= k < |dirs| && c == gp.Plus(dirs[k]);
        assert c == gp.Plus(dirs[..n][k]);
      }
      assert ReachedBy(gp, dirs, gp.Plus(dirs[n]));
    }
  }

  /**
   * StepPlusOne: the result keeps every incoming cell, repeats none, and adds exactly the adjacent
   * cells that are on the board and do not hold the mover.
   */
  lemma StepPlusOneSpec(b: BoardRuntime, piece: Piece, moves: seq<Coord>)
    requires b.Valid()
    ensures NoDup(StepPlusOneFilter(b, piece, moves))
    ensures forall c :: c in StepPlusOneFilter(b, piece, moves) <==>
      c in moves || (Adjacent(piece.gridPos, c) && NeighbourAdmitted(b, piece, c))
  {
    DistinctSpec(moves);
    AddNeighboursSpec(b, piece, Distinct(moves), EIGHT_DIRS);
    forall c: Coord
      ensures ReachedBy(piece.gridPos, EIGHT_DIRS, c) <==> Adjacent(piece.gridPos, c)
    {
      EightTable(piece.gridPos, c);
    }
  }

  /**
   * On a board whose pieces sit at their GridPos, a neighbour never holds the mover, so StepPlusOne's
   * occupancy guard admits every in-bounds neighbour, allies and enemies included.
   */
  lemma NeighbourGuardOnlyChecksBounds(b: BoardRuntime, piece: Piece, p: Coord)
    requires b.Valid() && b.Consistent() && Adjacent(piece.gridPos, p)
    ensures NeighbourAdmitted(b, piece, p) <==> b.InBounds(p)
  {
  }
}
