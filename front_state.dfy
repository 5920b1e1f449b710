/** GameState of apps/frontend/src/game/state.ts: the piece grid the board
    manager writes (virtualGrid), a separate grid of piece names (board)
    read and written through bounds-checked accessors, the current player,
    the selected piece, the pieces and the card meshes laid on the board.
    The scene and the highlighting of moves are rendering. */
module FrontState {
  import opened Core
  import opened Shared

  /** A cell of a (string | null)[][] grid read as a condition: null and ""
      are both false. */
  predicate Blank(cell: Option<string>) {
    cell == None || cell == Some("")
  }

  /** getPieceAt on a grid of names: the cell in bounds, null outside. */
  function NameAt(b: seq<seq<Option<string>>>, x: int, z: int): Option<string>
    requires IsGrid(b)
  {
    if InBounds(x, z) then b[z][x] else None
  }

  /** setPieceAt on a grid of names: the cell in bounds is written, outside
      nothing changes. */
  function SetCell(b: seq<seq<Option<string>>>, x: int, z: int, piece: Option<string>): (r: seq<seq<Option<string>>>)
    requires IsGrid(b)
    ensures IsGrid(r)
  {
    if InBounds(x, z) then Write(b, x, z, piece) else b
  }

  /** Reading a cell after writing it gives what was written in bounds and
      null outside; every other cell reads as before. */
  lemma SetThenGet(b: seq<seq<Option<string>>>, x: int, z: int, piece: Option<string>, x': int, z': int)
    requires IsGrid(b)
    ensures InBounds(x, z) && x' == x && z' == z ==> NameAt(SetCell(b, x, z, piece), x', z') == piece
    ensures !InBounds(x', z') ==> NameAt(SetCell(b, x, z, piece), x', z') == None
    ensures x' != x || z' != z ==> NameAt(SetCell(b, x, z, piece), x', z') == NameAt(b, x', z')
    ensures !InBounds(x, z) ==> SetCell(b, x, z, piece) == b
  {
  }

  class GameState {
    var selectedPiece: Piece?
    var currentPlayer: Side
    var pieces: seq<Piece>
    /** boardCards: the card meshes laid on the board. */
    var boardCards: seq<BoardCard>
    var virtualGrid: PieceGrid
    var board: seq<seq<Option<string>>>

    ghost predicate Valid()
      reads this
    {
      IsGrid(virtualGrid) && IsGrid(board)
    }

    /** Both grids 8 x 8 and empty, white to play, nothing selected. */
    constructor ()
      ensures Valid()
      ensures virtualGrid == Filled(null) && board == Filled(None)
      ensures currentPlayer == White && selectedPiece == null && pieces == [] && boardCards == []
    {
      selectedPiece := null;
      currentPlayer := White;
      pieces := [];
      boardCards := [];
      virtualGrid := Filled(null);
      board := Filled(None);
    }

    /** getPieceAt(x, z) */
    function GetPieceAt(x: int, z: int): (r: Option<string>)
      requires Valid()
      reads this
      ensures !InBounds(x, z) ==> r == None
    {
      NameAt(board, x, z)
    }

    /** setPieceAt(x, z, piece): only board changes. */
    method SetPieceAt(x: int, z: int, piece: Option<string>)
      requires Valid()
      modifies this
      ensures Valid() && board == SetCell(old(board), x, z, piece)
      ensures InBounds(x, z) ==> GetPieceAt(x, z) == piece
      ensures forall x', z' :: x' != x || z' != z ==> GetPieceAt(x', z') == old(GetPieceAt(x', z'))
      ensures !InBounds(x, z) ==> board == old(board)
      ensures virtualGrid == old(virtualGrid) && pieces == old(pieces) && boardCards == old(boardCards)
      ensures currentPlayer == old(currentPlayer) && selectedPiece == old(selectedPiece)
    {
      if InBounds(x, z) {
        board := Write(board, x, z, piece);
      }
      forall x', z' ensures x' != x || z' != z ==> NameAt(board, x', z') == NameAt(old(board), x', z') {
        SetThenGet(old(board), x, z, piece, x', z');
      }
    }
  }
}
