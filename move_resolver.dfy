/**
 * MoveResolver.cs: carry out a chosen move. Energy is spent first (when asked); then a move onto an
 * enemy attacks it, and the attacker advances only if the defender dies; a move onto an empty
 * cell relocates the piece; a move onto an ally is refused (after the energy is gone). Tile leave
 * and enter hooks fire before the piece is relocated.
 */
module MoveResolver {
  import opened Geometry
  import opened Tiles
  import opened Pieces
  import opened Board
  import opened Combat
  import opened Turns
  import opened RuleEngine

  /** What a call did, in the order it happened. */
  datatype Step = Hook(event: TileEvent) | Relocated(from: Coord, to: Coord)

  /** How a call ended. TryExecuteMove itself returns only whether it did something. */
  datatype Outcome = Rejected | Moved | AttackKilled | AttackNoKill

  /** The hook calls of a tile event list, as steps. */
  function Hooks(events: seq<TileEvent>): (r: seq<Step>)
    ensures |r| == |events| && forall i :: 0 <= i < |r| ==> r[i] == Hook(events[i])
  {
    if |events| == 0 then [] else [Hook(events[0])] + Hooks(events[1..])
  }

  /** The steps of a relocation: leave hooks of `from`, enter hooks of `to`, then the grid update. */
  function RelocationSteps(b: BoardRuntime, from: Coord, to: Coord): seq<Step> {
    Hooks(LeaveEvents(b.TileRulesAt(from), from) + EnterEvents(b.TileRulesAt(to), to)) + [Relocated(from, to)]
  }

  /** Whether TryExecuteMove gets past its guards: piece and board exist and, when energy is spent, it suffices. */
  predicate Proceeds(piece: Piece?, b: BoardRuntime?, cost: int, spendEnergy: bool, tm: TurnManager?)
    reads tm
  {
    piece != null && b != null && (spendEnergy ==> tm != null && Max(0, cost) <= tm.energy)
  }

  /**
   * What the source needs in order not to throw once past its guards: the destination indexes the
   * tile grid, the mover's cell does too whenever it may leave it, and an attacker has data.
   */
  predicate Safe(piece: Piece, dest: Coord, b: BoardRuntime)
    requires b.Valid()
    reads piece, b.pieces
  {
    var target := b.GetPiece(dest);
    b.InBounds(dest)
    && (target == null || target.team != piece.team ==> b.InBounds(piece.gridPos))
    && (target != null && target.team != piece.team ==> piece.data.Some?)
  }

  /** MoveResolver.TryExecuteMove, with TurnManager.Instance passed as `tm`. */
  method TryExecuteMove(piece: Piece?, dest: Coord, cost: int, b: BoardRuntime?, spendEnergy: bool, tm: TurnManager?)
    returns (ok: bool, outcome: Outcome, trace: seq<Step>)
    requires b != null ==> b.Valid()
    requires Proceeds(piece, b, cost, spendEnergy, tm) ==> Safe(piece, dest, b)
    modifies {piece}`gridPos, tm
    modifies if b != null then {b.pieces} else {}
    modifies (if b != null then {b.GetPiece(dest)} else {})`hp
    // refused at the guards: nothing happens
    ensures !old(Proceeds(piece, b, cost, spendEnergy, tm)) ==>
      !ok && outcome == Rejected && trace == []
      && (tm != null ==> tm.energy == old(tm.energy))
      && (b != null ==> b.GridUnchanged())
      && (piece != null ==> piece.gridPos == old(piece.gridPos))
    // past the guards: the energy is spent
    ensures old(Proceeds(piece, b, cost, spendEnergy, tm)) && spendEnergy ==> tm.energy == old(tm.energy) - Max(0, cost)
    ensures tm != null && !spendEnergy ==> tm.energy == old(tm.energy)
    ensures tm != null ==> tm.currentTeam == old(tm.currentTeam)
    // onto an empty cell: relocate
    ensures old(Proceeds(piece, b, cost, spendEnergy, tm)) && old(b.GetPiece(dest)) == null ==>
      ok && outcome == Moved && piece.gridPos == dest
      && b.MovedOnGrid(piece, old(piece.gridPos), dest)
      && trace == RelocationSteps(b, old(piece.gridPos), dest)
    // onto an enemy: attack; advance only over a dead defender
    ensures old(Proceeds(piece, b, cost, spendEnergy, tm)) && old(b.GetPiece(dest)) != null
            && old(b.GetPiece(dest)).team != piece.team ==>
      var target := old(b.GetPiece(dest));
      ok && target.hp == Max(0, old(target.hp) - Max(0, piece.data.value.attack))
      && (target.hp <= 0 ==>
            outcome == AttackKilled && piece.gridPos == dest
            && b.MovedOnGrid(piece, old(piece.gridPos), dest)
            && trace == RelocationSteps(b, old(piece.gridPos), dest))
      && (target.hp > 0 ==>
            outcome == AttackNoKill && piece.gridPos == old(piece.gridPos) && b.GridUnchanged() && trace == [])
    // onto an ally (or itself): refused, energy already spent
    ensures old(Proceeds(piece, b, cost, spendEnergy, tm)) && old(b.GetPiece(dest)) != null
            && old(b.GetPiece(dest)).team == piece.team ==>
      !ok && outcome == Rejected && trace == [] && b.GridUnchanged() && piece.gridPos == old(piece.gridPos)
    // a refusal leaves the occupant of the destination unhurt
    ensures b != null && old(b.GetPiece(dest)) != null && !ok ==> old(b.GetPiece(dest)).hp == old(b.GetPiece(dest).hp)
    ensures b != null && old(b.Consistent()) ==> b.Consistent()
  {
    ok, outcome, trace := false, Rejected, [];
    if piece == null || b == null {
      return;
    }
    if spendEnergy {
      if tm == null {
        return;
      }
      var spent := tm.TrySpend(cost);
      if !spent {
        return;
      }
    }
    ok, outcome, trace := ResolveMove(piece, dest, b);
  }

  /**
   * TryExecuteMove past its guards: attack an enemy and advance over it if it dies, move onto an
   * empty cell, refuse an ally.
   */
  method ResolveMove(piece: Piece, dest: Coord, b: BoardRuntime) returns (ok: bool, outcome: Outcome, trace: seq<Step>)
    requires b.Valid() && Safe(piece, dest, b)
    modifies piece`gridPos, b.pieces, {b.GetPiece(dest)}`hp
    ensures old(b.GetPiece(dest)) == null ==>
      ok && outcome == Moved && piece.gridPos == dest
      && b.MovedOnGrid(piece, old(piece.gridPos), dest)
      && trace == RelocationSteps(b, old(piece.gridPos), dest)
    ensures old(b.GetPiece(dest)) != null && old(b.GetPiece(dest)).team != piece.team ==>
      var target := old(b.GetPiece(dest));
      ok && target.hp == Max(0, old(target.hp) - Max(0, piece.data.value.attack))
      && (target.hp <= 0 ==>
            outcome == AttackKilled && piece.gridPos == dest
            && b.MovedOnGrid(piece, old(piece.gridPos), dest)
            && trace == RelocationSteps(b, old(piece.gridPos), dest))
      && (target.hp > 0 ==>
            outcome == AttackNoKill && piece.gridPos == old(piece.gridPos) && b.GridUnchanged() && trace == [])
    ensures old(b.GetPiece(dest)) != null && old(b.GetPiece(dest)).team == piece.team ==>
      !ok && outcome == Rejected && trace == [] && b.GridUnchanged() && piece.gridPos == old(piece.gridPos)
    ensures old(b.GetPiece(dest)) != null && !ok ==> old(b.GetPiece(dest)).hp == old(b.GetPiece(dest).hp)
    ensures old(b.Consistent()) ==> b.Consistent()
  {
    ok, outcome, trace := false, Rejected, [];
    var from := piece.gridPos;
    var target := b.GetPiece(dest);
    if target != null && target.team != piece.team {
      var result := ResolveAttack(piece, target);
      if result.targetDied {
        RemoveFromGrid(b, dest);
        trace := Relocate(piece, b, from, dest);
        outcome := AttackKilled;
      } else {
        outcome := AttackNoKill;
      }
      ok := true;
    } else if target == null {
      trace := Relocate(piece, b, from, dest);
      outcome := Moved;
      ok := true;
    }
  }

  /** The relocation shared by both successful branches: fire the leave and enter hooks, then move the piece. */
  method Relocate(piece: Piece, b: BoardRuntime, from: Coord, dest: Coord) returns (trace: seq<Step>)
    requires b.Valid() && b.InBounds(from) && b.InBounds(dest) && piece.gridPos == from
    modifies b.pieces, piece`gridPos
    ensures piece.gridPos == dest && b.MovedOnGrid(piece, from, dest)
    ensures trace == RelocationSteps(b, from, dest)
    ensures old(b.Consistent()) ==> b.Consistent()
  {
    var events := FireLeaveEnter(piece, b, from, dest);
    b.MovePiece(piece, dest);
    trace := Hooks(events) + [Relocated(from, dest)];
  }

  /** `board.pieces[dest] = null` after a kill: the cell is emptied and nothing else changes. */
  method RemoveFromGrid(b: BoardRuntime, dest: Coord)
    requires b.Valid() && b.InBounds(dest)
    modifies b.pieces
    ensures b.pieces[dest.x, dest.y] == null
    ensures forall x, y :: 0 <= x < b.cols && 0 <= y < b.rows && Coord(x, y) != dest ==> b.pieces[x, y] == old(b.pieces[x, y])
    ensures old(b.Consistent()) ==> b.Consistent()
  {
    b.pieces[dest.x, dest.y] := null;
  }
}
