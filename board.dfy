/**
 * The board state (PieceData/BoardRuntime.cs): a cols × rows grid of piece references plus the
 * tile rules of each cell. Bounds come from the board builder; without one nothing is in bounds.
 */
module Board {
  import opened Geometry
  import opened Tiles
  import opened Pieces

  class BoardRuntime {
    /** Whether a BoardBuilder2D was found; without it the grid is never allocated. */
    const hasBuilder: bool
    const cols: int
    const rows: int
    /** The tile rules of each cell (a cell without an entry has none). */
    const tiles: map<Coord, seq<TileRule>>
    /** BoardRuntime.pieces, indexed [x, y]. */
    const pieces: array2?<Piece?>

    /** The grid exists exactly when the builder does, and has the builder's dimensions. */
    ghost predicate Valid() {
      (pieces != null <==> hasBuilder)
      && (pieces != null ==> pieces.Length0 == cols && pieces.Length1 == rows)
    }

    /** BoardRuntime.Awake: allocate an empty grid of the builder's size, if there is a builder. */
    constructor Awake(builder: bool, cols: int, rows: int, tiles: map<Coord, seq<TileRule>>)
      requires builder ==> 0 <= cols && 0 <= rows
      ensures Valid() && hasBuilder == builder && this.cols == cols && this.rows == rows && this.tiles == tiles
      ensures builder ==> fresh(pieces)
      ensures forall c :: GetPiece(c) == null
    {
      this.hasBuilder := builder;
      this.cols := cols;
      this.rows := rows;
      this.tiles := tiles;
      if builder {
        this.pieces := new Piece?[cols, rows]((x, y) => null);
      } else {
        this.pieces := null;
      }
    }

    /** BoardRuntime.InBounds. */
    predicate InBounds(c: Coord) {
      hasBuilder && 0 <= c.x < cols && 0 <= c.y < rows
    }

    /** BoardRuntime.GetPiece: the occupant of an in-bounds cell, null anywhere else. */
    function GetPiece(c: Coord): (r: Piece?)
      requires Valid()
      reads pieces
      ensures r != null ==> InBounds(c)
      ensures InBounds(c) ==> pieces != null && r == pieces[c.x, c.y]
    {
      if pieces == null || !InBounds(c) then null else pieces[c.x, c.y]
    }

    /** The tile rules of cell `c`. */
    function TileRulesAt(c: Coord): seq<TileRule> {
      if c in tiles then tiles[c] else []
    }

    /** Every piece the grid references. */
    ghost function Occupants(): set<Piece>
      reads pieces
    {
      if pieces == null then {}
      else set x, y | 0 <= x < pieces.Length0 && 0 <= y < pieces.Length1 && pieces[x, y] != null :: pieces[x, y] as Piece
    }

    /** Every occupant's GridPos is the cell that holds it. */
    ghost predicate Consistent()
      reads pieces, Occupants()
    {
      pieces != null ==>
        forall x, y :: 0 <= x < pieces.Length0 && 0 <= y < pieces.Length1 && pieces[x, y] != null ==>
          pieces[x, y].gridPos == Coord(x, y)
    }

    /** On a consistent grid every piece it holds stands at its GridPos. */
    lemma OccupantOnBoard(p: Piece)
      requires Valid() && Consistent() && p in Occupants()
      ensures OnBoard(p)
    {
      var x, y :| 0 <= x < pieces.Length0 && 0 <= y < pieces.Length1 && pieces[x, y] == p;
    }

    /** Piece `p` stands on the board at its GridPos. */
    predicate OnBoard(p: Piece)
      requires Valid()
      reads pieces, p
    {
      InBounds(p.gridPos) && GetPiece(p.gridPos) == p
    }

    /** No cell of the grid changed between the two states. */
    twostate predicate GridUnchanged()
      reads pieces
    {
      pieces != null ==>
        forall x, y :: 0 <= x < pieces.Length0 && 0 <= y < pieces.Length1 ==> pieces[x, y] == old(pieces[x, y])
    }

    /**
     * The grid is the old grid with `p` moved to `to`: `to` holds `p`, `from` is cleared if it held
     * `p`, and every other cell is as before.
     */
    twostate predicate MovedOnGrid(p: Piece, from: Coord, to: Coord)
      reads pieces
    {
      pieces != null ==>
        forall x, y :: 0 <= x < pieces.Length0 && 0 <= y < pieces.Length1 ==>
          pieces[x, y] == if Coord(x, y) == to then p
                          else if Coord(x, y) == from && old(pieces[x, y]) == p then null
                          else old(pieces[x, y])
    }

    /** BoardRuntime.PlacePiece: put `p` at an in-bounds cell, overwriting any occupant. */
    method PlacePiece(p: Piece?, c: Coord)
      requires Valid()
      modifies pieces, {p}`gridPos
      ensures !(InBounds(c) && p != null) ==> GridUnchanged() && (p != null ==> p.gridPos == old(p.gridPos))
      ensures InBounds(c) && p != null ==>
        p.gridPos == c
        && forall x, y :: 0 <= x < cols && 0 <= y < rows ==>
             pieces[x, y] == if Coord(x, y) == c then p else old(pieces[x, y])
      ensures old(Consistent()) && (p != null ==> p !in old(Occupants())) ==> Consistent()
    {
      if !InBounds(c) || p == null {
        return;
      }
      pieces[c.x, c.y] := p;
      p.gridPos := c;
    }

    /**
     * BoardRuntime.MovePiece: clear the mover's old cell if it still holds the mover, then
     * place it at `to`, removing any other occupant there.
     */
    method MovePiece(p: Piece?, to: Coord)
      requires Valid()
      requires p != null && InBounds(to) ==> InBounds(p.gridPos)
      modifies pieces, {p}`gridPos
      ensures !(InBounds(to) && p != null) ==> GridUnchanged() && (p != null ==> p.gridPos == old(p.gridPos))
      ensures InBounds(to) && p != null ==> p.gridPos == to && MovedOnGrid(p, old(p.gridPos), to)
      ensures old(Consistent()) ==> Consistent()
    {
      if !InBounds(to) || p == null {
        return;
      }
      if pieces[p.gridPos.x, p.gridPos.y] == p {
        pieces[p.gridPos.x, p.gridPos.y] := null;
      }
      pieces[to.x, to.y] := p;
      p.gridPos := to;
    }
  }
}
