/** GameState of web/src/state.ts: the piece grid the web board manager
    writes, the pieces and card meshes laid by cards, the current player
    and the selected piece. */
module WebState {
  import opened Core
  import opened Shared

  class GameState {
    var selectedPiece: Piece?
    var currentPlayer: Side
    var pieces: seq<Piece>
    var boardCards: seq<BoardCard>
    var virtualGrid: PieceGrid

    ghost predicate Valid()
      reads this
    {
      IsGrid(virtualGrid)
    }

    /** An empty 8 x 8 grid, white to play, nothing selected or laid. */
    constructor ()
      ensures Valid() && virtualGrid == Filled(null)
      ensures currentPlayer == White && selectedPiece == null && pieces == [] && boardCards == []
    {
      selectedPiece := null;
      currentPlayer := White;
      pieces := [];
      boardCards := [];
      virtualGrid := Filled(null);
    }
  }
}
