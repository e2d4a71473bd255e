/**
 * What the AI reads off the board (AI/AIController.cs helpers): the pieces of a side in the order
 * the grid is scanned (row by row, column by column within a row), the nearest enemy, how many
 * enemies threaten a cell, and the approach cell next to a target on a straight or diagonal line.
 */
module BoardScan {
  import opened Wrappers
  import opened Geometry
  import opened Pieces
  import opened Board
  import opened MoveGenerator

  /** Whether a grid entry is a piece of `team` (mine) or of the other team (not mine). */
  predicate Picked(p: Piece?, team: Team, mine: bool) {
    p != null && (p.team == team) == mine
  }

  /** The picked pieces of columns 0..n-1 of row y, left to right. */
  function RowScan(b: BoardRuntime, y: int, n: int, team: Team, mine: bool): seq<Piece>
    requires b.Valid() && b.pieces != null && 0 <= y < b.rows && 0 <= n <= b.cols
    reads b.pieces
    decreases n
  {
    if n == 0 then []
    else
      var p := b.pieces[n - 1, y];
      RowScan(b, y, n - 1, team, mine) + if Picked(p, team, mine) then [p as Piece] else []
  }

  /** The picked pieces of rows 0..m-1, each row left to right. */
  function GridScan(b: BoardRuntime, m: int, team: Team, mine: bool): seq<Piece>
    requires b.Valid() && b.pieces != null && 0 <= m <= b.rows
    reads b.pieces
    decreases m
  {
    if m == 0 then [] else GridScan(b, m - 1, team, mine) + RowScan(b, m - 1, b.cols, team, mine)
  }

  /** AIController.EnumeratePieces (mine) and EnumerateEnemies (not mine); nothing without a grid. */
  function Scan(b: BoardRuntime, team: Team, mine: bool): seq<Piece>
    requires b.Valid()
    reads b.pieces
  {
    if b.pieces == null then [] else GridScan(b, b.rows, team, mine)
  }

  lemma {:induction false} RowScanMembers(b: BoardRuntime, y: int, n: int, team: Team, mine: bool)
    requires b.Valid() && b.pieces != null && 0 <= y < b.rows && 0 <= n <= b.cols
    ensures forall i :: 0 <= i < |RowScan(b, y, n, team, mine)| ==>
      Picked(RowScan(b, y, n, team, mine)[i], team, mine)
      && exists x :: 0 <= x < n && b.pieces[x, y] == RowScan(b, y, n, team, mine)[i]
    ensures forall x :: 0 <= x < n && Picked(b.pieces[x, y], team, mine) ==> b.pieces[x, y] in RowScan(b, y, n, team, mine)
  {
    if n > 0 {
      RowScanMembers(b, y, n - 1, team, mine);
    }
  }

  lemma {:induction false} GridScanMembers(b: BoardRuntime, m: int, team: Team, mine: bool)
    requires b.Valid() && b.pieces != null && 0 <= m <= b.rows
    ensures var r := GridScan(b, m, team, mine);
      (forall i :: 0 <= i < |r| ==>
         Picked(r[i], team, mine) && exists x, y :: 0 <= x < b.cols && 0 <= y < m && b.pieces[x, y] == r[i])
      && (forall x, y :: 0 <= x < b.cols && 0 <= y < m && Picked(b.pieces[x, y], team, mine) ==> b.pieces[x, y] in r)
  {
    if m > 0 {
      GridScanMembers(b, m - 1, team, mine);
      RowScanMembers(b, m - 1, b.cols, team, mine);
      var r0 := GridScan(b, m - 1, team, mine);
      var r1 := RowScan(b, m - 1, b.cols, team, mine);
      assert GridScan(b, m, team, mine) == r0 + r1;
      forall i | 0 <= i < |r0 + r1|
        ensures Picked((r0 + r1)[i], team, mine)
          && exists x, y :: 0 <= x < b.cols && 0 <= y < m && b.pieces[x, y] == (r0 + r1)[i]
      {
        if i >= |r0| {
          assert (r0 + r1)[i] == r1[i - |r0|];
          assert 0 <= i - |r0| < |r1|;
          assert Picked(r1[i - |r0|], team, mine);
          var x :| 0 <= x < b.cols && b.pieces[x, m - 1] == r1[i - |r0|];
          assert b.pieces[x, m - 1] == (r0 + r1)[i];
        } else {
          assert (r0 + r1)[i] == r0[i];
          var x, y :| 0 <= x < b.cols && 0 <= y < m - 1 && b.pieces[x, y] == r0[i];
          assert b.pieces[x, y] == (r0 + r1)[i];
        }
      }
    }
  }

  /**
   * The scan lists exactly the pieces of the grid on the chosen side: every entry is such a piece
   * on some cell, and every cell holding such a piece contributes it.
   */
  lemma ScanMembers(b: BoardRuntime, team: Team, mine: bool)
    requires b.Valid()
    ensures var r := Scan(b, team, mine);
      (forall i :: 0 <= i < |r| ==> Picked(r[i], team, mine) && r[i] in b.Occupants())
      && (b.pieces != null ==>
            forall x, y :: 0 <= x < b.cols && 0 <= y < b.rows && Picked(b.pieces[x, y], team, mine) ==> b.pieces[x, y] in r)
  {
    if b.pieces != null {
      GridScanMembers(b, b.rows, team, mine);
      var r := Scan(b, team, mine);
      forall i | 0 <= i < |r|
        ensures r[i] in b.Occupants()
      {
        var x, y :| 0 <= x < b.cols && 0 <= y < b.rows && b.pieces[x, y] == r[i];
      }
    }
  }

  /** Every piece on the grid can have its moves generated (no empty modifier slot, rules assigned). */
  ghost predicate AllReady(b: BoardRuntime)
    requires b.Valid()
    reads b.pieces, b.Occupants()
  {
    b.pieces != null ==>
      forall x, y :: 0 <= x < b.cols && 0 <= y < b.rows && b.pieces[x, y] != null ==> Ready(b, b.pieces[x, y])
  }

  /** Every scanned piece is on the board: what a function reading the scanned pieces needs. */
  lemma ScanOnBoard(b: BoardRuntime, team: Team, mine: bool)
    requires b.Valid()
    ensures var r := Scan(b, team, mine); forall i :: 0 <= i < |r| ==> r[i] in b.Occupants()
  {
    ScanMembers(b, team, mine);
  }

  /** On such a board every scanned piece is ready and lies in the board's footprint. */
  lemma ScanReady(b: BoardRuntime, team: Team, mine: bool)
    requires b.Valid() && AllReady(b)
    ensures var r := Scan(b, team, mine);
      forall i :: 0 <= i < |r| ==> r[i] in b.Occupants() && Ready(b, r[i])
  {
    ScanMembers(b, team, mine);
    var r := Scan(b, team, mine);
    forall i | 0 <= i < |r|
      ensures Ready(b, r[i])
    {
      var x, y :| 0 <= x < b.cols && 0 <= y < b.rows && b.pieces[x, y] == r[i];
    }
  }

  /**
   * AIController.FindNearestEnemy over a list of pieces: the index of the first piece at the
   * smallest Manhattan distance from `from` (a later piece replaces the best only if strictly
   * nearer), or -1 for an empty list.
   */
  function NearestIndex(from: Coord, s: seq<Piece>): (i: int)
    reads s
    ensures -1 <= i < |s| && (i == -1 <==> |s| == 0)
  {
    if |s| == 0 then -1
    else
      var prev := NearestIndex(from, s[..|s| - 1]);
      if prev == -1 || Manhattan(from, s[|s| - 1].gridPos) < Manhattan(from, s[prev].gridPos) then |s| - 1 else prev
  }

  /** The GridPos of that piece, if any. */
  function Nearest(from: Coord, s: seq<Piece>): Option<Coord>
    reads s
  {
    var i := NearestIndex(from, s);
    if i < 0 then None else Some(s[i].gridPos)
  }

  /** The chosen piece is at the least distance, and no earlier piece is as near. */
  lemma {:induction false} NearestIndexSpec(from: Coord, s: seq<Piece>)
    ensures var i := NearestIndex(from, s);
      0 <= i ==>
        (forall j :: 0 <= j < |s| ==> Manhattan(from, s[i].gridPos) <= Manhattan(from, s[j].gridPos))
        && (forall j :: 0 <= j < i ==> Manhattan(from, s[j].gridPos) > Manhattan(from, s[i].gridPos))
  {
    if |s| > 0 {
      var n := |s| - 1;
      var s0 := s[..n];
      NearestIndexSpec(from, s0);
      var i := NearestIndex(from, s);
      assert i == n || (i == NearestIndex(from, s0) && s[i] == s0[i]);
      forall j | 0 <= j < |s|
        ensures Manhattan(from, s[i].gridPos) <= Manhattan(from, s[j].gridPos)
      {
        if j < n {
          assert s[j] == s0[j];
        }
      }
      forall j | 0 <= j < i
        ensures Manhattan(from, s[j].gridPos) > Manhattan(from, s[i].gridPos)
      {
        assert s[j] == s0[j];
      }
    }
  }

  /**
   * The nearest enemy exists exactly when there is an enemy; it is the position of one at the least
   * distance, and no earlier piece is as near.
   */
  lemma NearestSpec(from: Coord, s: seq<Piece>)
    ensures Nearest(from, s).None? <==> |s| == 0
    ensures Nearest(from, s).Some? ==>
      var i := NearestIndex(from, s);
      0 <= i < |s| && Nearest(from, s) == Some(s[i].gridPos)
      && (forall j :: 0 <= j < |s| ==> Manhattan(from, Nearest(from, s).value) <= Manhattan(from, s[j].gridPos))
      && (forall j :: 0 <= j < i ==> Manhattan(from, s[j].gridPos) > Manhattan(from, Nearest(from, s).value))
  {
    NearestIndexSpec(from, s);
  }

  /** Scanning one more piece replaces the nearest exactly when the new piece is strictly nearer. */
  lemma NearestSnoc(from: Coord, s: seq<Piece>, i: nat)
    requires i < |s|
    ensures Nearest(from, s[..i + 1]) ==
      if Nearest(from, s[..i]).None? || Manhattan(from, s[i].gridPos) < Manhattan(from, Nearest(from, s[..i]).value)
      then Some(s[i].gridPos) else Nearest(from, s[..i])
  {
    assert s[..i + 1][..i] == s[..i];
  }

  /** Whether `enemy` has a generated move onto `cell`. */
  predicate Threatens(b: BoardRuntime, enemy: Piece, cell: Coord)
    requires b.Valid() && Ready(b, enemy)
    reads b.pieces, enemy
  {
    var m := Moves(b, enemy);
    exists k :: 0 <= k < |m| && m[k].dest == cell
  }

  /** For each of `enemies`, in order, whether it has a generated move onto `cell`. */
  function Hits(b: BoardRuntime, cell: Coord, enemies: seq<Piece>): (r: seq<bool>)
    requires b.Valid() && forall i :: 0 <= i < |enemies| ==> Ready(b, enemies[i])
    reads b.pieces, enemies
    ensures |r| == |enemies|
  {
    if |enemies| == 0 then []
    else Hits(b, cell, enemies[..|enemies| - 1]) + [Threatens(b, enemies[|enemies| - 1], cell)]
  }

  /** Entry i of the flags says whether enemy i threatens the cell. */
  lemma {:induction false} HitsAt(b: BoardRuntime, cell: Coord, enemies: seq<Piece>, i: int)
    requires b.Valid() && forall j :: 0 <= j < |enemies| ==> Ready(b, enemies[j])
    requires 0 <= i < |enemies|
    ensures Hits(b, cell, enemies)[i] == Threatens(b, enemies[i], cell)
  {
    if i < |enemies| - 1 {
      var e0 := enemies[..|enemies| - 1];
      HitsAt(b, cell, e0, i);
      assert e0[i] == enemies[i];
    }
  }

  /** The number of true entries. */
  function CountTrue(s: seq<bool>): nat {
    if |s| == 0 then 0 else CountTrue(s[..|s| - 1]) + if s[|s| - 1] then 1 else 0
  }

  /** A count of true entries is at most the length, and positive exactly when some entry is true. */
  lemma {:induction false} CountTrueSpec(s: seq<bool>)
    ensures CountTrue(s) <= |s|
    ensures CountTrue(s) > 0 <==> exists i :: 0 <= i < |s| && s[i]
    ensures CountTrue(s) == |s| <==> forall i :: 0 <= i < |s| ==> s[i]
  {
    if |s| > 0 {
      var s0 := s[..|s| - 1];
      CountTrueSpec(s0);
      forall i | 0 <= i < |s0|
        ensures s[i] == s0[i]
      {
      }
      if CountTrue(s0) > 0 {
        var i :| 0 <= i < |s0| && s0[i];
        assert s[i];
      }
      if CountTrue(s) == |s| {
        assert CountTrue(s0) == |s0| && s[|s| - 1];
      }
    }
  }

  /** Counting one more entry adds one exactly when it is true. */
  lemma CountTrueSnoc(s: seq<bool>, i: int)
    requires 0 <= i < |s|
    ensures CountTrue(s[..i + 1]) == CountTrue(s[..i]) + if s[i] then 1 else 0
  {
    assert s[..i + 1][..i] == s[..i];
  }

  /** AIController.CountThreatsAgainst: the enemies of `victimTeam` that can move onto `cell`. */
  function Threats(b: BoardRuntime, cell: Coord, victimTeam: Team): nat
    requires b.Valid() && AllReady(b)
    reads b.pieces, b.Occupants()
  {
    ScanReady(b, victimTeam, false);
    CountTrue(Hits(b, cell, Scan(b, victimTeam, false)))
  }

  /**
   * Frame facts: what the AI reads off the board stays as it was while the grid array and the
   * pieces on it are unchanged. (The `new` parameters with `old(allocated(..))` say the same as
   * ordinary ones.)
   */
  twostate lemma ScanUnchanged(new b: BoardRuntime, new team: Team, new mine: bool)
    requires old(allocated(b)) && b.Valid() && (b.pieces == null || unchanged(b.pieces))
    ensures b.Occupants() == old(b.Occupants())
    ensures Scan(b, team, mine) == old(Scan(b, team, mine))
  {
  }

  twostate lemma AllReadyUnchanged(new b: BoardRuntime)
    requires old(allocated(b)) && b.Valid() && old(AllReady(b))
    requires (b.pieces == null || unchanged(b.pieces)) && forall o :: o in b.Occupants() ==> unchanged(o)
    ensures AllReady(b) && b.Occupants() == old(b.Occupants())
  {
    if b.pieces != null {
      forall x, y | 0 <= x < b.cols && 0 <= y < b.rows && b.pieces[x, y] != null
        ensures Ready(b, b.pieces[x, y])
      {
        assert b.pieces[x, y] in b.Occupants();
        assert old(Ready(b, b.pieces[x, y]));
      }
    }
  }

  /**
   * A grid restored cell by cell, with its pieces as they were, holds the same pieces and keeps
   * them ready and at their cells.
   */
  twostate lemma GridRestored(new b: BoardRuntime)
    requires old(allocated(b)) && b.Valid() && b.GridUnchanged()
    requires forall o :: o in old(b.Occupants()) ==> unchanged(o)
    ensures b.Occupants() == old(b.Occupants())
    ensures old(AllReady(b)) ==> AllReady(b)
    ensures old(b.Consistent()) ==> b.Consistent()
  {
    if b.pieces != null {
      forall x, y | 0 <= x < b.cols && 0 <= y < b.rows && b.pieces[x, y] != null
        ensures b.pieces[x, y] in old(b.Occupants()) && unchanged(b.pieces[x, y])
      {
        assert old(b.pieces[x, y]) in old(b.Occupants());
      }
    }
  }

  /**
   * After TryExecuteMove, whether the grid stayed as it was or moved `piece` onto `dest`, every
   * piece on it is still ready, and no piece joined the grid but `piece`.
   */
  twostate lemma ReadyAfterMove(new b: BoardRuntime, new piece: Piece, new dest: Coord)
    requires old(allocated(b)) && old(allocated(piece)) && b.Valid() && old(AllReady(b)) && old(Ready(b, piece))
    requires (b.GridUnchanged() && piece.gridPos == old(piece.gridPos))
             || (b.InBounds(dest) && piece.gridPos == dest && b.MovedOnGrid(piece, old(piece.gridPos), dest))
    requires piece.runtimeMods == old(piece.runtimeMods)
    requires forall o :: o in old(b.Occupants()) && o != piece ==> o.gridPos == old(o.gridPos) && o.runtimeMods == old(o.runtimeMods)
    ensures AllReady(b) && b.Occupants() <= old(b.Occupants()) + {piece}
  {
  }

  twostate lemma MovesUnchanged(new b: BoardRuntime, new p: Piece)
    requires old(allocated(b)) && old(allocated(p)) && b.Valid() && old(Ready(b, p))
    requires (b.pieces == null || unchanged(b.pieces)) && unchanged(p)
    ensures Ready(b, p) && Moves(b, p) == old(Moves(b, p))
  {
  }

  twostate lemma NearestEnemyUnchanged(new b: BoardRuntime, new from: Coord, new team: Team)
    requires old(allocated(b)) && b.Valid() && old(AllReady(b))
    requires (b.pieces == null || unchanged(b.pieces)) && forall o :: o in b.Occupants() ==> unchanged(o)
    ensures AllReady(b)
    ensures Nearest(from, Scan(b, team, false)) == old(Nearest(from, Scan(b, team, false)))
  {
    assert b.Occupants() == old(b.Occupants());
    assert Scan(b, team, false) == old(Scan(b, team, false));
    ScanMembers(b, team, false);
  }

  twostate lemma HitsUnchanged(new b: BoardRuntime, new cell: Coord, new enemies: seq<Piece>)
    requires old(allocated(b)) && old(allocated(enemies)) && b.Valid()
    requires old(forall k :: 0 <= k < |enemies| ==> Ready(b, enemies[k]))
    requires (b.pieces == null || unchanged(b.pieces)) && forall k :: 0 <= k < |enemies| ==> unchanged(enemies[k])
    ensures forall k :: 0 <= k < |enemies| ==> Ready(b, enemies[k])
    ensures Hits(b, cell, enemies) == old(Hits(b, cell, enemies))
  {
    assert forall k :: 0 <= k < |enemies| ==> Ready(b, enemies[k]);
  }

  twostate lemma ThreatsUnchanged(new b: BoardRuntime, new cell: Coord, new victimTeam: Team)
    requires old(allocated(b)) && b.Valid() && old(AllReady(b))
    requires (b.pieces == null || unchanged(b.pieces)) && forall o :: o in b.Occupants() ==> unchanged(o)
    ensures AllReady(b)
    ensures Threats(b, cell, victimTeam) == old(Threats(b, cell, victimTeam))
  {
    assert b.Occupants() == old(b.Occupants());
    assert Scan(b, victimTeam, false) == old(Scan(b, victimTeam, false));
  }

  /** Whether `target` lies on the row, column or a diagonal through `from`. */
  predicate OnLine(from: Coord, target: Coord) {
    var dx := target.x - from.x;
    var dy := target.y - from.y;
    dx == 0 || dy == 0 || Abs(dx) == Abs(dy)
  }

  /** The unit step from `from` toward `target` (Mathf.Clamp of each difference to -1..1). */
  function StepToward(from: Coord, target: Coord): Coord {
    Coord(Sign(target.x - from.x), Sign(target.y - from.y))
  }

  /** The first n-1 cells after `from` along `d` are on the board and empty. */
  predicate PathClear(b: BoardRuntime, from: Coord, d: Coord, n: nat)
    requires b.Valid()
    reads b.pieces
  {
    forall k :: 1 <= k < n ==> b.InBounds(Along(from, d, k)) && b.GetPiece(Along(from, d, k)) == null
  }

  /**
   * AIController.ComputeApproachCell: on a straight or diagonal line, the last cell before the
   * target, provided every cell strictly between is on the board and empty; nothing otherwise,
   * and nothing when the target is adjacent or the same cell.
   */
  function ApproachCell(b: BoardRuntime, from: Coord, target: Coord): Option<Coord>
    requires b.Valid()
    reads b.pieces
  {
    var n := Chebyshev(from, target);
    if !OnLine(from, target) || n < 2 || !PathClear(b, from, StepToward(from, target), n) then None
    else Some(Along(from, StepToward(from, target), n - 1))
  }

  /** Walking toward a target on a line reaches it after exactly Chebyshev-distance steps, not sooner. */
  lemma WalkReachesTarget(from: Coord, target: Coord, k: nat)
    requires OnLine(from, target)
    ensures Along(from, StepToward(from, target), Chebyshev(from, target)) == target
    ensures k < Chebyshev(from, target) ==> Along(from, StepToward(from, target), k) != target
  {
    var d := StepToward(from, target);
    AlongOffset(from, d, k);
    AlongOffset(from, d, Chebyshev(from, target));
  }

  /**
   * The approach cell, when there is one, is on the board, empty, adjacent to the target and one
   * step short of it along the line; there is none exactly when the target is off every line
   * through `from`, within one step, or cut off by an off-board or occupied cell.
   */
  lemma ApproachCellSpec(b: BoardRuntime, from: Coord, target: Coord)
    requires b.Valid()
    ensures var r := ApproachCell(b, from, target);
      (r.Some? ==>
         b.InBounds(r.value) && b.GetPiece(r.value) == null
         && Chebyshev(r.value, target) == 1 && Chebyshev(from, r.value) == Chebyshev(from, target) - 1)
      && (r.None? <==>
            !OnLine(from, target) || Chebyshev(from, target) < 2
            || !PathClear(b, from, StepToward(from, target), Chebyshev(from, target)))
  {
    var n := Chebyshev(from, target);
    if OnLine(from, target) && n >= 2 {
      AlongOffset(from, StepToward(from, target), n - 1);
    }
  }
}
