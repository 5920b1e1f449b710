/** The starting layout of the Python games (piece_positions in 3d_chess.py,
    Board.PIECE_POSITIONS in src/constants.py; the two tables are the same)
    and the nested loop both programs use to fill a grid from it. The loop
    is written over any well-formed table; the programs pass PiecePositions. */
module Layout {
  import opened Core
  import opened Entities

  /** table[z][x]: the kind to place on (x, z), if any. */
  type Table = seq<seq<Option<Kind>>>

  const BackRow: seq<Option<Kind>> :=
    [Some(Rook), Some(Knight), Some(Bishop), Some(Queen), Some(King), Some(Bishop), Some(Knight), Some(Rook)]
  const PawnRow: seq<Option<Kind>> :=
    [Some(Pawn), Some(Pawn), Some(Pawn), Some(Pawn), Some(Pawn), Some(Pawn), Some(Pawn), Some(Pawn)]
  const EmptyRow: seq<Option<Kind>> := [None, None, None, None, None, None, None, None]

  const PiecePositions: Table :=
    [BackRow, PawnRow, EmptyRow, EmptyRow, EmptyRow, EmptyRow, PawnRow, BackRow]

  lemma PiecePositionsIsGrid()
    ensures IsGrid(PiecePositions)
  {
  }

  function Entry(t: Table, s: Square): Option<Kind>
    requires IsGrid(t) && OnBoard(s)
  {
    t[s.z][s.x]
  }

  /** The table puts the back rows on z == 0 and z == 7 and the pawns on
      z == 1 and z == 6, and leaves the middle four rows empty. */
  lemma PiecePositionsRows(x: int)
    requires 0 <= x < Size
    ensures IsGrid(PiecePositions)
    ensures Entry(PiecePositions, Square(x, 1)) == Some(Pawn) && Entry(PiecePositions, Square(x, 6)) == Some(Pawn)
    ensures Entry(PiecePositions, Square(x, 0)) == BackRow[x] && Entry(PiecePositions, Square(x, 7)) == BackRow[x]
    ensures BackRow[x].Some? && BackRow[x] != Some(Pawn)
    ensures forall z :: 2 <= z < 6 ==> Entry(PiecePositions, Square(x, z)).None?
  {
  }

  /** The squares with a table entry, among the first n in row-major order. */
  function LayoutCellsUpTo(t: Table, n: int): (cells: seq<Square>)
    requires IsGrid(t) && 0 <= n <= 64
    ensures forall i :: 0 <= i < |cells| ==> OnBoard(cells[i]) && CellIndex(cells[i]) < n
  {
    if n == 0 then []
    else
      var c := CellAt(n - 1);
      LayoutCellsUpTo(t, n - 1) + (if Entry(t, c).Some? then [c] else [])
  }

  /** The squares with an entry, in the order the loops visit them. */
  function LayoutCells(t: Table): seq<Square>
    requires IsGrid(t)
  {
    LayoutCellsUpTo(t, 64)
  }

  /** The squares with an entry, among the first n, are exactly those of
      LayoutCellsUpTo(t, n). */
  lemma {:induction false} LayoutCellsUpToExactly(t: Table, n: int, c: Square)
    requires IsGrid(t) && 0 <= n <= 64
    ensures c in LayoutCellsUpTo(t, n) <==> OnBoard(c) && CellIndex(c) < n && Entry(t, c).Some?
  {
    if n > 0 {
      LayoutCellsUpToExactly(t, n - 1, c);
      if OnBoard(c) && CellIndex(c) == n - 1 {
        CellIndexInjective(c, CellAt(n - 1));
      }
    }
  }

  /** The starting layout has an entry on each of the first 16 and the last
      16 squares in row-major order, and none in between: 32 pieces. */
  lemma {:induction false} PiecePositionsCount(n: int)
    requires 0 <= n <= 64
    ensures IsGrid(PiecePositions)
    ensures |LayoutCellsUpTo(PiecePositions, n)| == if n <= 16 then n else if n <= 48 then 16 else n - 32
  {
    PiecePositionsIsGrid();
    if n > 0 {
      PiecePositionsCount(n - 1);
      var c := CellAt(n - 1);
      PiecePositionsRows(c.x);
      assert Entry(PiecePositions, c).Some? <==> n - 1 < 16 || 48 <= n - 1;
    }
  }

  lemma PiecePositionsHas32()
    ensures IsGrid(PiecePositions) && |LayoutCells(PiecePositions)| == 32
  {
    PiecePositionsCount(64);
  }

  /** What the loop gives the piece it creates for square s. */
  predicate NewPiece(t: Table, p: ChessPiece, s: Square, blackRows: int)
    requires IsGrid(t) && OnBoard(s)
    reads p
  {
    Entry(t, s).Some? && p.kind == Entry(t, s).value && p.isBlack == (s.z < blackRows) &&
    p.gridX == s.x && p.gridZ == s.z && p.validMoves == []
  }

  /** For each row z and column x in order: when the table has an entry,
      create a piece of that kind on (x, z), black exactly when
      z < blackRows, write it to grid[z][x] and append it to the list of
      placed pieces. Cells without an entry are left as they were. */
  method Populate(t: Table, g: Grid, blackRows: int) returns (r: Grid, placed: seq<ChessPiece>)
    requires IsGrid(t) && IsGrid(g)
    ensures IsGrid(r)
    ensures forall z, x :: InBounds(x, z) && Entry(t, Square(x, z)).None? ==> r[z][x] == g[z][x]
    ensures forall z, x :: InBounds(x, z) && Entry(t, Square(x, z)).Some? ==>
              r[z][x] != null && NewPiece(t, r[z][x], Square(x, z), blackRows)
    ensures |placed| == |LayoutCells(t)|
    ensures forall i :: 0 <= i < |placed| ==> placed[i] == r[LayoutCells(t)[i].z][LayoutCells(t)[i].x]
    ensures forall p :: p in placed ==> fresh(p)
  {
    r, placed := PopulateRows(t, g, blackRows);
    ProgressComplete(t, g, r, placed, blackRows);
  }

  /** The outer loop of Populate, over the rows. */
  method PopulateRows(t: Table, g: Grid, blackRows: int) returns (r: Grid, placed: seq<ChessPiece>)
    requires IsGrid(t) && IsGrid(g)
    ensures IsGrid(r) && Progress(t, g, r, placed, 64, blackRows)
    ensures forall p :: p in placed ==> fresh(p)
  {
    r := g;
    placed := [];
    for z := 0 to 8
      invariant forall p :: p in placed ==> fresh(p)
      invariant IsGrid(r)
      invariant Progress(t, g, r, placed, 8 * z, blackRows)
    {
      r, placed := PopulateRow(t, g, r, placed, z, blackRows);
      ProgressAt(t, g, r, placed, 8 * z + 8, 8 * (z + 1), blackRows);
    }
  }

  /** Once all 64 squares are handled, the grid and the list are as
      Populate promises. */
  lemma ProgressComplete(t: Table, g: Grid, r: Grid, placed: seq<ChessPiece>, blackRows: int)
    requires IsGrid(t) && IsGrid(g) && IsGrid(r) && Progress(t, g, r, placed, 64, blackRows)
    ensures forall z, x :: InBounds(x, z) && Entry(t, Square(x, z)).None? ==> r[z][x] == g[z][x]
    ensures forall z, x :: InBounds(x, z) && Entry(t, Square(x, z)).Some? ==>
              r[z][x] != null && NewPiece(t, r[z][x], Square(x, z), blackRows)
    ensures |placed| == |LayoutCells(t)|
    ensures forall i :: 0 <= i < |placed| ==> placed[i] == r[LayoutCells(t)[i].z][LayoutCells(t)[i].x]
  {
    var cells := LayoutCells(t);
    forall z, x | InBounds(x, z) && Entry(t, Square(x, z)).Some?
      ensures r[z][x] != null && NewPiece(t, r[z][x], Square(x, z), blackRows)
    {
      CellAtIndex(Square(x, z));
      LayoutCellsUpToExactly(t, 64, Square(x, z));
      var i :| 0 <= i < |cells| && cells[i] == Square(x, z);
      assert placed[i] == r[z][x];
    }
    forall z, x | InBounds(x, z) ensures CellIndex(Square(x, z)) < 64 {
      CellAtIndex(Square(x, z));
    }
  }

  /** The list of placed pieces grows by the piece made for (x, z) exactly
      when the table has an entry there. */
  lemma LaidStep(t: Table, placed: seq<ChessPiece>, placed': seq<ChessPiece>, x: int, z: int, k: int, blackRows: int)
    requires IsGrid(t) && InBounds(x, z) && k == CellIndex(Square(x, z)) && 0 <= k < 64
    requires |placed| == |LayoutCellsUpTo(t, k)| && Laid(t, placed, k, blackRows)
    requires Entry(t, Square(x, z)).None? ==> placed' == placed
    requires Entry(t, Square(x, z)).Some? ==>
               |placed'| == |placed| + 1 && placed'[..|placed|] == placed &&
               NewPiece(t, placed'[|placed|], Square(x, z), blackRows)
    ensures |placed'| == |LayoutCellsUpTo(t, k + 1)| && Laid(t, placed', k + 1, blackRows)
  {
    CellIndexInjective(CellAt(k), Square(x, z));
    var cells, cells' := LayoutCellsUpTo(t, k), LayoutCellsUpTo(t, k + 1);
    var last := if Entry(t, Square(x, z)).Some? then [Square(x, z)] else [];
    assert cells' == cells + last;
    forall i | 0 <= i < |placed'| ensures NewPiece(t, placed'[i], cells'[i], blackRows) {
      if i < |placed| {
        assert cells'[i] == cells[i];
        assert placed'[i] == placed'[..|placed|][i];
      } else {
        assert cells'[i] == Square(x, z);
      }
    }
  }


  /** The inner loop of Populate, over the columns of row z. */
  method PopulateRow(t: Table, ghost g: Grid, r0: Grid, placed0: seq<ChessPiece>, z: int, blackRows: int)
    returns (r: Grid, placed: seq<ChessPiece>)
    requires IsGrid(t) && IsGrid(g) && IsGrid(r0) && 0 <= z < 8
    requires Progress(t, g, r0, placed0, 8 * z, blackRows)
    ensures IsGrid(r) && Progress(t, g, r, placed, 8 * z + 8, blackRows)
    ensures forall p :: p in placed ==> p in placed0 || fresh(p)
  {
    r, placed := r0, placed0;
    ghost var k := 8 * z;
    for x := 0 to 8
      invariant IsGrid(r)
      invariant k == 8 * z + x
      invariant Progress(t, g, r, placed, k, blackRows)
      invariant forall p :: p in placed ==> p in placed0 || fresh(p)
    {
      r, placed := PlaceCell(t, g, r, placed, x, z, k, blackRows);
      k := k + 1;
    }
    ProgressAt(t, g, r, placed, k, 8 * z + 8, blackRows);
  }

  /** One iteration of the loops: the cell (x, z) gets a new piece when the
      table has an entry for it, and the piece is appended to placed. */
  method PlaceCell(t: Table, ghost g: Grid, r0: Grid, placed0: seq<ChessPiece>, x: int, z: int,
                   ghost k: int, blackRows: int)
    returns (r: Grid, placed: seq<ChessPiece>)
    requires IsGrid(t) && IsGrid(g) && IsGrid(r0) && InBounds(x, z) && k == CellIndex(Square(x, z))
    requires Progress(t, g, r0, placed0, k, blackRows)
    ensures IsGrid(r) && Progress(t, g, r, placed, k + 1, blackRows)
    ensures forall p :: p in placed ==> p in placed0 || fresh(p)
  {
    r, placed := r0, placed0;
    var pieceType := t[z][x];
    if pieceType.Some? {
      var piece := new ChessPiece(pieceType.value, z < blackRows, x, z);
      r := Write(r0, x, z, piece);
      placed := placed0 + [piece];
    }
    ProgressStep(t, g, r0, placed0, r, placed, x, z, k, blackRows);
  }

  /** The loops have handled the first k squares in row-major order. */
  ghost predicate Progress(t: Table, g: Grid, r: Grid, placed: seq<ChessPiece>, k: int, blackRows: int)
    requires IsGrid(t) && IsGrid(g) && IsGrid(r) && 0 <= k <= 64
    reads placed
  {
    Untouched(t, g, r, k) && Listed(t, r, placed, k) && Laid(t, placed, k, blackRows)
  }

  /** Squares not yet visited, and squares without an entry, are as in g. */
  ghost predicate Untouched(t: Table, g: Grid, r: Grid, k: int)
    requires IsGrid(t) && IsGrid(g) && IsGrid(r)
  {
    forall z, x :: InBounds(x, z) && (CellIndex(Square(x, z)) >= k || Entry(t, Square(x, z)).None?) ==>
      r[z][x] == g[z][x]
  }

  /** Each piece placed so far is the one made for its square. */
  ghost predicate Laid(t: Table, placed: seq<ChessPiece>, k: int, blackRows: int)
    requires IsGrid(t) && 0 <= k <= 64 && |placed| == |LayoutCellsUpTo(t, k)|
    reads placed
  {
    forall i :: 0 <= i < |placed| ==> NewPiece(t, placed[i], LayoutCellsUpTo(t, k)[i], blackRows)
  }

  /** placed lists the pieces of the visited squares with an entry, in order. */
  ghost predicate Listed(t: Table, r: Grid, placed: seq<ChessPiece>, k: int)
    requires IsGrid(t) && IsGrid(r) && 0 <= k <= 64
  {
    |placed| == |LayoutCellsUpTo(t, k)| &&
    forall i :: 0 <= i < |placed| ==> placed[i] == r[LayoutCellsUpTo(t, k)[i].z][LayoutCellsUpTo(t, k)[i].x]
  }

  lemma ProgressAt(t: Table, g: Grid, r: Grid, placed: seq<ChessPiece>, k: int, k': int, blackRows: int)
    requires IsGrid(t) && IsGrid(g) && IsGrid(r) && 0 <= k <= 64 && k == k'
    requires Progress(t, g, r, placed, k, blackRows)
    ensures Progress(t, g, r, placed, k', blackRows)
  {
  }

  lemma ProgressStep(t: Table, g: Grid, r: Grid, placed: seq<ChessPiece>, r': Grid, placed': seq<ChessPiece>,
                     x: int, z: int, k: int, blackRows: int)
    requires IsGrid(t) && IsGrid(g) && IsGrid(r) && IsGrid(r') && InBounds(x, z) && k == CellIndex(Square(x, z))
    requires Progress(t, g, r, placed, k, blackRows)
    requires Entry(t, Square(x, z)).None? ==> r' == r && placed' == placed
    requires Entry(t, Square(x, z)).Some? ==>
               r'[z][x] != null && NewPiece(t, r'[z][x], Square(x, z), blackRows) && placed' == placed + [r'[z][x]]
    requires forall z', x' :: InBounds(x', z') && (x' != x || z' != z) ==> r'[z'][x'] == r[z'][x']
    ensures Progress(t, g, r', placed', k + 1, blackRows)
  {
    forall z', x' | InBounds(x', z') && CellIndex(Square(x', z')) == k
      ensures x' == x && z' == z
    {
      CellIndexInjective(Square(x', z'), Square(x, z));
    }
    assert Untouched(t, g, r', k + 1);
    CellAtIndex(Square(x, z));
    ListedStep(t, r, placed, r', placed', x, z, k);
    LaidStep(t, placed, placed', x, z, k, blackRows);
  }

  lemma ListedStep(t: Table, r: Grid, placed: seq<ChessPiece>, r': Grid, placed': seq<ChessPiece>,
                   x: int, z: int, k: int)
    requires IsGrid(t) && IsGrid(r) && IsGrid(r') && InBounds(x, z) && k == CellIndex(Square(x, z))
    requires Listed(t, r, placed, k)
    requires Entry(t, Square(x, z)).None? ==> r' == r && placed' == placed
    requires Entry(t, Square(x, z)).Some? ==> placed' == placed + [r'[z][x]]
    requires forall z', x' :: InBounds(x', z') && (x' != x || z' != z) ==> r'[z'][x'] == r[z'][x']
    ensures Listed(t, r', placed', k + 1)
  {
    CellIndexInjective(CellAt(k), Square(x, z));
    var cells := LayoutCellsUpTo(t, k);
    assert LayoutCellsUpTo(t, k + 1) == cells + (if Entry(t, Square(x, z)).Some? then [Square(x, z)] else []);
    forall i | 0 <= i < |cells| ensures r'[cells[i].z][cells[i].x] == r[cells[i].z][cells[i].x] {
      assert CellIndex(cells[i]) < k;
    }
  }
}
