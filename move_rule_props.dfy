/**
 * What the move rules promise: rays walk straight lines through empty cells and stop at the first
 * occupant, jumps and steps yield exactly their in-bounds admissible targets, and pawns move one
 * cell forward or capture diagonally.
 */
module MoveRuleProperties {
  import opened Geometry
  import opened Collections
  import opened Pieces
  import opened Board
  import opened MoveRules

  /** The cells of a ray are consecutive steps from `p`, all on the board, all empty but possibly the last. */
  lemma {:induction false} RayCells(b: BoardRuntime, piece: Piece, p: Coord, d: Coord, rule: Blocker)
    requires b.Valid() && UnitStep(d)
    ensures var r := Ray(b, piece, p, d, rule);
      forall i :: 0 <= i < |r| ==> r[i] == Along(p, d, i) && b.InBounds(r[i]) && (i < |r| - 1 ==> b.GetPiece(r[i]) == null)
    decreases EdgeDistance(b, p, d)
  {
    var r := Ray(b, piece, p, d, rule);
    if b.InBounds(p) && b.GetPiece(p) == null {
      var q := p.Plus(d);
      RayCells(b, piece, q, d, rule);
      var rest := Ray(b, piece, q, d, rule);
      assert r == [p] + rest;
      forall i | 0 <= i < |r|
        ensures r[i] == Along(p, d, i) && b.InBounds(r[i]) && (i < |r| - 1 ==> b.GetPiece(r[i]) == null)
      {
        if i > 0 {
          assert r[i] == rest[i - 1];
          AlongShift(p, d, i - 1);
        }
      }
    } else {
      assert |r| <= 1 && (|r| == 1 ==> r[0] == p && b.InBounds(p));
    }
  }

  /**
   * How a ray ends: either its last cell is occupied (and then the rule captures that occupant), or
   * the cell after it is off the board or holds an occupant the rule does not capture.
   */
  lemma {:induction false} RayEnd(b: BoardRuntime, piece: Piece, p: Coord, d: Coord, rule: Blocker)
    requires b.Valid() && UnitStep(d)
    ensures var r := Ray(b, piece, p, d, rule);
      var next := Along(p, d, |r|);
      if |r| > 0 && b.GetPiece(r[|r| - 1]) != null then Captures(rule, piece, b.GetPiece(r[|r| - 1]))
      else !b.InBounds(next) || (b.GetPiece(next) != null && !Captures(rule, piece, b.GetPiece(next)))
    decreases EdgeDistance(b, p, d)
  {
    if b.InBounds(p) && b.GetPiece(p) == null {
      var q := p.Plus(d);
      RayEnd(b, piece, q, d, rule);
      var rest := Ray(b, piece, q, d, rule);
      AlongShift(p, d, |rest|);
      if |rest| > 0 {
        assert Ray(b, piece, p, d, rule)[|rest|] == rest[|rest| - 1];
      }
    }
  }

  /** Every cell of a sliding rule lies on the board, on one of its directions, at least one step away. */
  lemma {:induction false} RaysWithin(b: BoardRuntime, piece: Piece, dirs: seq<Coord>, rule: Blocker, c: Coord)
    requires b.Valid() && forall k :: 0 <= k < |dirs| ==> UnitStep(dirs[k])
    requires c in Rays(b, piece, dirs, rule)
    ensures b.InBounds(c)
    ensures exists k, i: nat :: 0 <= k < |dirs| && 1 <= i && c == Along(piece.gridPos, dirs[k], i)
  {
    var n := |dirs| - 1;
    var d := dirs[n];
    var gp := piece.gridPos;
    if c in Rays(b, piece, dirs[..n], rule) {
      RaysWithin(b, piece, dirs[..n], rule, c);
      var k, i: nat :| 0 <= k < |dirs[..n]| && 1 <= i && c == Along(gp, dirs[..n][k], i);
      assert dirs[..n][k] == dirs[k];
    } else {
      var r := Ray(b, piece, gp.Plus(d), d, rule);
      RayCells(b, piece, gp.Plus(d), d, rule);
      var i :| 0 <= i < |r| && r[i] == c;
      AlongShift(gp, d, i);
      assert c == Along(gp, dirs[n], i + 1);
    }
  }

  /** RookRays: every destination is on the board, in the mover's row or column, and not its own cell. */
  lemma RookMovesGeometry(b: BoardRuntime, piece: Piece)
    requires b.Valid()
    ensures forall c :: c in RuleMoves(b, piece, RookRays) ==>
      b.InBounds(c) && c != piece.gridPos && (c.x == piece.gridPos.x || c.y == piece.gridPos.y)
  {
    DirectionTables();
    var gp := piece.gridPos;
    forall c | c in RuleMoves(b, piece, RookRays)
      ensures b.InBounds(c) && c != gp && (c.x == gp.x || c.y == gp.y)
    {
      RaysWithin(b, piece, ROOK_DIRS, AnyOtherPiece, c);
      var k, i: nat :| 0 <= k < |ROOK_DIRS| && 1 <= i && c == Along(gp, ROOK_DIRS[k], i);
      AlongOffset(gp, ROOK_DIRS[k], i);
    }
  }

  /** BishopRays: every destination is on the board and on a diagonal through the mover, at least one step away. */
  lemma BishopMovesGeometry(b: BoardRuntime, piece: Piece)
    requires b.Valid()
    ensures forall c :: c in RuleMoves(b, piece, BishopRays) ==>
      b.InBounds(c) && Abs(c.x - piece.gridPos.x) == Abs(c.y - piece.gridPos.y) >= 1
  {
    DirectionTables();
    var gp := piece.gridPos;
    forall c | c in RuleMoves(b, piece, BishopRays)
      ensures b.InBounds(c) && Abs(c.x - gp.x) == Abs(c.y - gp.y) >= 1
    {
      RaysWithin(b, piece, BISHOP_DIRS, EnemyOnly, c);
      var k, i: nat :| 0 <= k < |BISHOP_DIRS| && 1 <= i && c == Along(gp, BISHOP_DIRS[k], i);
      AlongOffset(gp, BISHOP_DIRS[k], i);
    }
  }

  /** QueenRays: every destination is on the board, not the mover's cell, and on its row, column or a diagonal. */
  lemma QueenMovesGeometry(b: BoardRuntime, piece: Piece)
    requires b.Valid()
    ensures forall c :: c in RuleMoves(b, piece, QueenRays) ==>
      var dx, dy := c.x - piece.gridPos.x, c.y - piece.gridPos.y;
      b.InBounds(c) && c != piece.gridPos && (dx == 0 || dy == 0 || Abs(dx) == Abs(dy))
  {
    DirectionTables();
    var gp := piece.gridPos;
    forall c | c in RuleMoves(b, piece, QueenRays)
      ensures b.InBounds(c) && c != gp && (c.x == gp.x || c.y == gp.y || Abs(c.x - gp.x) == Abs(c.y - gp.y))
    {
      RaysWithin(b, piece, EIGHT_DIRS, EnemyOnly, c);
      var k, i: nat :| 0 <= k < |EIGHT_DIRS| && 1 <= i && c == Along(gp, EIGHT_DIRS[k], i);
      AlongOffset(gp, EIGHT_DIRS[k], i);
    }
  }

  /**
   * A ray that crosses `n` empty cells and then meets an occupant yields exactly those empty cells,
   * followed by the occupant's cell if and only if the rule captures it.
   */
  lemma {:induction false} RayMeetsBlocker(b: BoardRuntime, piece: Piece, p: Coord, d: Coord, rule: Blocker, n: nat)
    requires b.Valid() && UnitStep(d)
    requires forall i :: 0 <= i < n ==> b.InBounds(Along(p, d, i)) && b.GetPiece(Along(p, d, i)) == null
    requires b.GetPiece(Along(p, d, n)) != null
    ensures var r := Ray(b, piece, p, d, rule);
      |r| == (if Captures(rule, piece, b.GetPiece(Along(p, d, n))) then n + 1 else n)
      && forall i :: 0 <= i < |r| ==> r[i] == Along(p, d, i)
    decreases n
  {
    RayCells(b, piece, p, d, rule);
    RayEnd(b, piece, p, d, rule);
    if n > 0 {
      var q := p.Plus(d);
      forall i | 0 <= i <= n - 1
        ensures Along(q, d, i) == Along(p, d, i + 1)
      {
        AlongShift(p, d, i);
      }
      assert b.InBounds(Along(p, d, 0)) && b.GetPiece(Along(p, d, 0)) == null;
      RayMeetsBlocker(b, piece, q, d, rule, n - 1);
    }
  }

  /**
   * A rook ray ends on the first occupied cell and yields it whenever the occupant has data and is
   * not the mover, even a piece of the rook's own team.
   */
  lemma RookYieldsOccupiedStop(b: BoardRuntime, piece: Piece, d: Coord, n: nat)
    requires b.Valid() && d in ROOK_DIRS
    requires forall i :: 1 <= i <= n ==> b.InBounds(Along(piece.gridPos, d, i)) && b.GetPiece(Along(piece.gridPos, d, i)) == null
    requires var occ := b.GetPiece(Along(piece.gridPos, d, n + 1)); occ != null && occ.data.Some? && occ != piece
    ensures Along(piece.gridPos, d, n + 1) in RuleMoves(b, piece, RookRays)
  {
    DirectionTables();
    var gp := piece.gridPos;
    var p := gp.Plus(d);
    forall i | 0 <= i <= n
      ensures Along(p, d, i) == Along(gp, d, i + 1)
    {
      AlongShift(gp, d, i);
    }
    RayMeetsBlocker(b, piece, p, d, AnyOtherPiece, n);
    var r := Ray(b, piece, p, d, AnyOtherPiece);
    assert r[n] == Along(gp, d, n + 1);
    var k :| 0 <= k < |ROOK_DIRS| && ROOK_DIRS[k] == d;
    RayInRays(b, piece, ROOK_DIRS, AnyOtherPiece, k);
  }

  /** A sliding rule's output contains every ray it walks. */
  lemma {:induction false} RayInRays(b: BoardRuntime, piece: Piece, dirs: seq<Coord>, rule: Blocker, k: nat)
    requires b.Valid() && forall j :: 0 <= j < |dirs| ==> UnitStep(dirs[j])
    requires k < |dirs|
    ensures forall c :: c in Ray(b, piece, piece.gridPos.Plus(dirs[k]), dirs[k], rule) ==> c in Rays(b, piece, dirs, rule)
  {
    var n := |dirs| - 1;
    if k < n {
      RayInRays(b, piece, dirs[..n], rule, k);
      assert dirs[..n][k] == dirs[k];
    }
  }

  /**
   * Jump and step rules: at most one target per offset, and a cell is yielded exactly when it is the
   * mover's cell plus one of the offsets, on the board, and admitted by the rule's occupant test.
   */
  lemma {:induction false} HopsMembership(b: BoardRuntime, piece: Piece, offsets: seq<Coord>, test: EntryTest)
    requires b.Valid()
    ensures |Hops(b, piece, offsets, test)| <= |offsets|
    ensures forall c :: c in Hops(b, piece, offsets, test) <==>
      b.InBounds(c) && Enterable(test, piece, b.GetPiece(c)) && ReachedBy(piece.gridPos, offsets, c)
  {
    if |offsets| > 0 {
      var n := |offsets| - 1;
      var gp := piece.gridPos;
      HopsMembership(b, piece, offsets[..n], test);
      forall c | ReachedBy(gp, offsets[..n], c)
        ensures ReachedBy(gp, offsets, c)
      {
        var k :| 0 <= k < n && c == gp.Plus(offsets[..n][k]);
        assert c == gp.Plus(offsets[k]);
      }
      forall c | ReachedBy(gp, offsets, c) && c != gp.Plus(offsets[n])
        ensures ReachedBy(gp, offsets[..n], c)
      {
        var k :| 0 <= k < |offsets| && c == gp.Plus(offsets[k]);
        assert c == gp.Plus(offsets[..n][k]);
      }
      assert ReachedBy(gp, offsets, gp.Plus(offsets[n]));
    }
  }

  /** Distinct offsets give distinct targets. */
  lemma {:induction false} HopsDistinct(b: BoardRuntime, piece: Piece, offsets: seq<Coord>, test: EntryTest)
    requires b.Valid() && NoDup(offsets)
    ensures NoDup(Hops(b, piece, offsets, test))
  {
    if |offsets| > 0 {
      var n := |offsets| - 1;
      var gp := piece.gridPos;
      assert NoDup(offsets[..n]);
      HopsDistinct(b, piece, offsets[..n], test);
      HopsMembership(b, piece, offsets[..n], test);
    }
  }

  /** `to` is a knight's L-shaped jump away from `from`. */
  predicate LShaped(from: Coord, to: Coord) {
    var dx, dy := Abs(to.x - from.x), Abs(to.y - from.y);
    (dx == 1 && dy == 2) || (dx == 2 && dy == 1)
  }

  /** `to` is one of the eight cells adjacent to `from`. */
  predicate Adjacent(from: Coord, to: Coord) {
    Chebyshev(from, to) == 1
  }

  /** Some offset of the table leads from `from` to `to`. */
  predicate ReachedBy(from: Coord, offsets: seq<Coord>, to: Coord) {
    exists k :: 0 <= k < |offsets| && to == from.Plus(offsets[k])
  }

  /** The knight's table holds exactly the eight L-shaped offsets, each once. */
  lemma KnightTable(from: Coord, to: Coord)
    ensures ReachedBy(from, KNIGHT_JUMPS, to) <==> LShaped(from, to)
    ensures NoDup(KNIGHT_JUMPS)
  {
    var d := Coord(to.x - from.x, to.y - from.y);
    if LShaped(from, to) {
      assert d in KNIGHT_JUMPS;
      var k :| 0 <= k < |KNIGHT_JUMPS| && KNIGHT_JUMPS[k] == d;
      assert to == from.Plus(KNIGHT_JUMPS[k]);
    }
  }

  /** The eight-direction table holds exactly the offsets to adjacent cells, each once. */
  lemma EightTable(from: Coord, to: Coord)
    ensures ReachedBy(from, EIGHT_DIRS, to) <==> Adjacent(from, to)
    ensures NoDup(EIGHT_DIRS)
  {
    var d := Coord(to.x - from.x, to.y - from.y);
    if Adjacent(from, to) {
      assert d in EIGHT_DIRS;
      var k :| 0 <= k < |EIGHT_DIRS| && EIGHT_DIRS[k] == d;
      assert to == from.Plus(EIGHT_DIRS[k]);
    }
  }

  /**
   * KnightJumps: an L-shaped jump onto any in-bounds cell not holding the mover itself (allies
   * included); at most eight targets, none repeated.
   */
  lemma KnightMovesSpec(b: BoardRuntime, piece: Piece)
    requires b.Valid()
    ensures var r := RuleMoves(b, piece, KnightJumps);
      |r| <= 8 && NoDup(r)
      && forall c :: c in r <==>
        b.InBounds(c) && LShaped(piece.gridPos, c) && (b.GetPiece(c) == null || b.GetPiece(c) != piece)
  {
    HopsMembership(b, piece, KNIGHT_JUMPS, NotSelf);
    KnightTable(piece.gridPos, piece.gridPos);
    HopsDistinct(b, piece, KNIGHT_JUMPS, NotSelf);
    forall c: Coord
      ensures ReachedBy(piece.gridPos, KNIGHT_JUMPS, c) <==> LShaped(piece.gridPos, c)
    {
      KnightTable(piece.gridPos, c);
    }
  }

  /** KingSteps: a step onto any adjacent in-bounds cell that is empty or holds an enemy; at most eight, none repeated. */
  lemma KingMovesSpec(b: BoardRuntime, piece: Piece)
    requires b.Valid()
    ensures var r := RuleMoves(b, piece, KingSteps);
      |r| <= 8 && NoDup(r)
      && forall c :: c in r <==>
        b.InBounds(c) && Adjacent(piece.gridPos, c) && (b.GetPiece(c) == null || b.GetPiece(c).team != piece.team)
  {
    HopsMembership(b, piece, EIGHT_DIRS, EmptyOrEnemy);
    EightTable(piece.gridPos, piece.gridPos);
    HopsDistinct(b, piece, EIGHT_DIRS, EmptyOrEnemy);
    forall c: Coord
      ensures ReachedBy(piece.gridPos, EIGHT_DIRS, c) <==> Adjacent(piece.gridPos, c)
    {
      EightTable(piece.gridPos, c);
    }
  }

  /** When every offset's target is on the board and admitted, a jump rule yields one target per offset. */
  lemma {:induction false} HopsAllAdmitted(b: BoardRuntime, piece: Piece, offsets: seq<Coord>, test: EntryTest)
    requires b.Valid()
    requires forall k :: 0 <= k < |offsets| ==>
      b.InBounds(piece.gridPos.Plus(offsets[k])) && Enterable(test, piece, b.GetPiece(piece.gridPos.Plus(offsets[k])))
    ensures |Hops(b, piece, offsets, test)| == |offsets|
  {
    if |offsets| > 0 {
      var n := |offsets| - 1;
      assert forall k :: 0 <= k < n ==> offsets[..n][k] == offsets[k];
      HopsAllAdmitted(b, piece, offsets[..n], test);
    }
  }

  /** A knight at (3, 3) of an 8 × 8 board whose pieces sit where they think they are has all eight jumps. */
  lemma KnightFromCentre(b: BoardRuntime, piece: Piece)
    requires b.Valid() && b.Consistent() && b.hasBuilder && b.cols == 8 && b.rows == 8
    requires piece.gridPos == Coord(3, 3)
    ensures |RuleMoves(b, piece, KnightJumps)| == 8
  {
    forall k | 0 <= k < |KNIGHT_JUMPS|
      ensures b.InBounds(piece.gridPos.Plus(KNIGHT_JUMPS[k]))
      ensures Enterable(NotSelf, piece, b.GetPiece(piece.gridPos.Plus(KNIGHT_JUMPS[k])))
    {
    }
    HopsAllAdmitted(b, piece, KNIGHT_JUMPS, NotSelf);
  }

  /**
   * PawnForward: the cell `dir` rows ahead if it is on the board and empty, and (when enabled) the
   * two diagonal cells ahead if they hold a piece other than the mover; at most three cells, at most
   * one without diagonal captures, none repeated.
   */
  lemma PawnMovesSpec(b: BoardRuntime, piece: Piece, dir: int, captureDiagonals: bool)
    requires b.Valid()
    ensures var r := RuleMoves(b, piece, PawnForward(dir, captureDiagonals));
      |r| <= 3 && (!captureDiagonals ==> |r| <= 1) && NoDup(r)
      && forall c :: c in r <==>
        var gp := piece.gridPos;
        (c == gp.Plus(Coord(0, dir)) && b.InBounds(c) && b.GetPiece(c) == null)
        || (captureDiagonals && (c == gp.Plus(Coord(-1, dir)) || c == gp.Plus(Coord(1, dir)))
            && b.InBounds(c) && b.GetPiece(c) != null && b.GetPiece(c) != piece)
  {
  }
}
