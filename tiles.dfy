/**
 * Tile rules (PieceData/TileRule.cs): the per-cell hooks consulted when moves are generated
 * (AffectMovesOnOrigin, AllowEnter) and fired when a piece leaves or enters a cell.
 */
module Tiles {
  import opened Geometry

  /** A tile-rule asset; `id` stands for its identity. Only the base TileRule exists in the core. */
  datatype TileRule = TileRule(id: nat)

  /** A tile hook invocation, recorded in the order it fires. */
  datatype TileEvent = Left(rule: TileRule, cell: Coord) | Entered(rule: TileRule, cell: Coord)

  /** TileRule.AffectMovesOnOrigin: the base rule passes the moves through. */
  function AffectMovesOnOrigin(rule: TileRule, moves: seq<Coord>): seq<Coord> {
    moves
  }

  /** TileRule.AllowEnter: the base rule admits every destination. */
  predicate AllowEnter(rule: TileRule, dest: Coord) {
    true
  }

  /** The moves after every rule of the origin cell, in order, has rewritten them. */
  function OriginFold(rules: seq<TileRule>, moves: seq<Coord>): seq<Coord> {
    if |rules| == 0 then moves
    else AffectMovesOnOrigin(rules[|rules| - 1], OriginFold(rules[..|rules| - 1], moves))
  }

  /** Every rule of the destination cell admits the move (the `ok &= AllowEnter(...)` loop). */
  predicate AllAllow(rules: seq<TileRule>, dest: Coord) {
    if |rules| == 0 then true
    else AllAllow(rules[..|rules| - 1], dest) && AllowEnter(rules[|rules| - 1], dest)
  }

  /** With only the base rule, the origin cell never changes the move list and no cell refuses entry. */
  lemma {:induction false} BaseRulesAreNeutral(rules: seq<TileRule>, moves: seq<Coord>, dest: Coord)
    ensures OriginFold(rules, moves) == moves
    ensures AllAllow(rules, dest)
  {
    if |rules| > 0 {
      BaseRulesAreNeutral(rules[..|rules| - 1], moves, dest);
    }
  }

  /** One OnLeave call per rule of the cell, in rule order. */
  function LeaveEvents(rules: seq<TileRule>, cell: Coord): (r: seq<TileEvent>)
    ensures |r| == |rules|
    ensures forall i :: 0 <= i < |r| ==> r[i] == Left(rules[i], cell)
  {
    if |rules| == 0 then [] else [Left(rules[0], cell)] + LeaveEvents(rules[1..], cell)
  }

  /** One OnEnter call per rule of the cell, in rule order. */
  function EnterEvents(rules: seq<TileRule>, cell: Coord): (r: seq<TileEvent>)
    ensures |r| == |rules|
    ensures forall i :: 0 <= i < |r| ==> r[i] == Entered(rules[i], cell)
  {
    if |rules| == 0 then [] else [Entered(rules[0], cell)] + EnterEvents(rules[1..], cell)
  }
}
