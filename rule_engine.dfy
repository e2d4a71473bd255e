/**
 * PieceData/RuleEngine.cs: the older destination query, which composes destinations the same way
 * as MoveGenerator but then keeps every in-bounds cell its tile rules admit (allies included) and
 * deduplicates last; and FireLeaveEnter, which fires the origin cell's OnLeave hooks and then the
 * destination cell's OnEnter hooks.
 */
module RuleEngine {
  import opened Geometry
  import opened Collections
  import opened Tiles
  import opened Pieces
  import opened Board
  import opened MoveGenerator

  /** Step 4 of GetLegalMoves: keep the in-bounds cells every tile rule admits, in order. */
  function Enterable(b: BoardRuntime, dests: seq<Coord>): seq<Coord>
    requires b.Valid()
  {
    if |dests| == 0 then []
    else
      var acc := Enterable(b, dests[..|dests| - 1]);
      var d := dests[|dests| - 1];
      if b.InBounds(d) && AllAllow(b.TileRulesAt(d), d) then acc + [d] else acc
  }

  /** RuleEngine.GetLegalMoves for a piece: none without data, otherwise the filtered, deduplicated destinations. */
  function LegalMoves(b: BoardRuntime, piece: Piece): seq<Coord>
    requires b.Valid()
    reads b.pieces, piece
  {
    if piece.data.None? then [] else Distinct(Enterable(b, ComposedDestinations(b, piece)))
  }

  /** Step 4 as a loop. */
  method FilterEnterable(b: BoardRuntime, moves: seq<Coord>) returns (final: seq<Coord>)
    requires b.Valid()
    ensures final == Enterable(b, moves)
  {
    final := [];
    for i := 0 to |moves|
      invariant final == Enterable(b, moves[..i])
    {
      assert moves[..i + 1][..i] == moves[..i];
      var dest := moves[i];
      if !b.InBounds(dest) {
        continue;
      }
      var ok := CheckEnter(b.TileRulesAt(dest), dest);
      if ok {
        final := final + [dest];
      }
    }
    assert moves[..|moves|] == moves;
  }

  /** RuleEngine.GetLegalMoves. */
  method GetLegalMoves(piece: Piece?, b: BoardRuntime) returns (result: seq<Coord>)
    requires b.Valid()
    requires piece != null ==> CanCompose(b, piece)
    ensures piece == null ==> result == []
    ensures piece != null ==> result == LegalMoves(b, piece)
  {
    if piece == null || piece.data.None? {
      return [];
    }
    var moves := ComposeDestinations(b, piece);
    var final := FilterEnterable(b, moves);
    result := Distinct(final);
  }

  /** Step 4 keeps exactly the in-bounds admitted cells. */
  lemma {:induction false} EnterableSpec(b: BoardRuntime, dests: seq<Coord>)
    requires b.Valid()
    ensures forall c :: c in Enterable(b, dests) <==> c in dests && b.InBounds(c) && AllAllow(b.TileRulesAt(c), c)
  {
    if |dests| > 0 {
      var n := |dests| - 1;
      EnterableSpec(b, dests[..n]);
      assert dests == dests[..n] + [dests[n]];
    }
  }

  /**
   * RuleEngine.GetLegalMoves: no cell twice, and a cell is legal exactly when composition produces
   * it, it is on the board and its tile rules admit it; occupancy is not consulted.
   */
  lemma LegalMovesSpec(b: BoardRuntime, piece: Piece)
    requires b.Valid() && piece.data.Some?
    ensures NoDup(LegalMoves(b, piece))
    ensures forall c :: c in LegalMoves(b, piece) <==>
      c in ComposedDestinations(b, piece) && b.InBounds(c) && AllAllow(b.TileRulesAt(c), c)
  {
    EnterableSpec(b, ComposedDestinations(b, piece));
    DistinctSpec(Enterable(b, ComposedDestinations(b, piece)));
  }

  /**
   * The two queries agree up to occupancy: MoveGenerator offers a move to exactly the legal cells
   * that are empty or hold an enemy.
   */
  lemma OptionsAreLegalNonAllyCells(b: BoardRuntime, piece: Piece)
    requires b.Valid() && Ready(b, piece) && piece.data.Some?
    ensures forall c :: c in Dests(Moves(b, piece)) <==>
      c in LegalMoves(b, piece) && (b.GetPiece(c) == null || b.GetPiece(c).team != piece.team)
  {
    LegalMovesSpec(b, piece);
    MovesSpec(b, piece);
  }

  /** The OnLeave or OnEnter loop over one cell's tile rules. */
  method FireCell(rules: seq<TileRule>, cell: Coord, leaving: bool) returns (events: seq<TileEvent>)
    ensures events == if leaving then LeaveEvents(rules, cell) else EnterEvents(rules, cell)
  {
    events := [];
    for i := 0 to |rules|
      invariant events == if leaving then LeaveEvents(rules[..i], cell) else EnterEvents(rules[..i], cell)
    {
      events := events + [if leaving then Left(rules[i], cell) else Entered(rules[i], cell)];
    }
    assert rules[..|rules|] == rules;
  }

  /**
   * RuleEngine.FireLeaveEnter: every rule of the origin cell is told the piece left, in rule order,
   * and only then every rule of the destination cell is told it entered. Both cells index the tile grid.
   */
  method FireLeaveEnter(piece: Piece, b: BoardRuntime, from: Coord, to: Coord) returns (events: seq<TileEvent>)
    requires b.Valid() && b.InBounds(from) && b.InBounds(to)
    ensures events == LeaveEvents(b.TileRulesAt(from), from) + EnterEvents(b.TileRulesAt(to), to)
    ensures forall i, j :: 0 <= i < j < |events| && events[j].Left? ==> events[i].Left?
  {
    var leaves := FireCell(b.TileRulesAt(from), from, true);
    var enters := FireCell(b.TileRulesAt(to), to, false);
    events := leaves + enters;
  }
}
