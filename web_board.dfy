/** BoardManager of web/src/board.ts: the same start-of-game placement and
    moves as the frontend's, and a placeCardOnBoard that lays a card mesh
    and appends the summoned piece to state.pieces without writing
    virtualGrid. */
module WebBoard {
  import opened Core
  import opened Shared
  import opened WebState

  class BoardManager {
    var pieces: seq<Piece>
    /** pieceModels: unset until setPieceModels, then the keys it holds. */
    var pieceModels: Option<set<string>>
    const state: GameState

    ghost predicate Valid()
      reads this, state
    {
      state.Valid()
    }

    constructor (state: GameState)
      ensures this.state == state && pieces == [] && pieceModels == None
    {
      this.state := state;
      pieces := [];
      pieceModels := None;
    }

    /** setPieceModels: the first call sets the models, later calls are
        skipped. */
    method SetPieceModels(models: set<string>)
      modifies this
      ensures old(pieceModels).Some? ==> pieceModels == old(pieceModels)
      ensures old(pieceModels).None? ==> pieceModels == Some(models)
      ensures pieces == old(pieces)
    {
      if pieceModels.Some? {
        return;
      }
      pieceModels := Some(models);
    }

    /** setupInitialPieces: skipped when pieces already holds pieces; the
        first placeInitialPiece throws when the models were never set;
        otherwise virtualGrid gets one new piece per call with a model,
        laid in the order of the calls. */
    method SetupInitialPieces() returns (thrown: bool)
      requires Valid()
      modifies this, state
      ensures Valid() && pieceModels == old(pieceModels)
      ensures state.pieces == old(state.pieces) && state.boardCards == old(state.boardCards)
      ensures state.currentPlayer == old(state.currentPlayer) && state.selectedPiece == old(state.selectedPiece)
      ensures thrown <==> old(pieces) == [] && pieceModels.None?
      ensures old(pieces) != [] || thrown ==> pieces == old(pieces) && state.virtualGrid == old(state.virtualGrid)
      ensures old(pieces) == [] && !thrown ==>
                SetupDone(old(state.virtualGrid), state.virtualGrid, pieces, SetupCalls(), pieceModels.value)
      ensures old(pieces) == [] && !thrown ==> forall i :: 0 <= i < |pieces| ==> fresh(pieces[i])
    {
      thrown := false;
      if |pieces| > 0 {
        return;
      }
      if pieceModels.None? {
        return true;
      }
      var r, placed := SetupGrid(state.virtualGrid, pieceModels.value);
      pieces := placed;
      state.virtualGrid := r;
    }

    /** getPieceAt(x, z): the cell of virtualGrid. */
    function GetPieceAt(x: int, z: int): Piece?
      requires Valid() && InBounds(x, z)
      reads this, state
    {
      state.virtualGrid[z][x]
    }

    /** movePiece: the old cell is cleared, the new one holds the piece, its
        coordinates are the new square, and no other cell changes. */
    method MovePiece(piece: Piece, newX: int, newZ: int)
      requires Valid() && InBounds(piece.gridX, piece.gridZ) && InBounds(newX, newZ)
      modifies state, piece
      ensures Valid()
      ensures state.virtualGrid ==
                Moved(old(state.virtualGrid), Square(old(piece.gridX), old(piece.gridZ)), Square(newX, newZ), piece)
      ensures piece.gridX == newX && piece.gridZ == newZ
      ensures GetPieceAt(newX, newZ) == piece
      ensures (old(piece.gridX), old(piece.gridZ)) != (newX, newZ) ==> GetPieceAt(old(piece.gridX), old(piece.gridZ)) == null
      ensures forall x, z :: InBounds(x, z) && (x, z) != (old(piece.gridX), old(piece.gridZ)) && (x, z) != (newX, newZ) ==>
                GetPieceAt(x, z) == old(GetPieceAt(x, z))
      ensures state.pieces == old(state.pieces) && state.boardCards == old(state.boardCards)
      ensures state.currentPlayer == old(state.currentPlayer) && state.selectedPiece == old(state.selectedPiece)
      ensures pieces == old(pieces)
    {
      var from, to := Square(piece.gridX, piece.gridZ), Square(newX, newZ);
      MovedCells(state.virtualGrid, from, to, piece);
      state.virtualGrid := Moved(state.virtualGrid, from, to, piece);
      piece.gridX := newX;
      piece.gridZ := newZ;
    }

    /** placeCardOnBoard(card, gridX, gridZ): exactly one card mesh is
        appended to boardCards (the filter before it keeps every card: a
        card mesh stands at gridX - 3.5, never at the integer gridX); then a
        new piece of the card's colour and type on that square is appended
        to state.pieces. The piece's construction clones the model and
        throws when the models were never set or hold none for the card;
        virtualGrid is never written. */
    method PlaceCardOnBoard(card: Card, gridX: int, gridZ: int) returns (thrown: bool)
      requires Valid()
      modifies state
      ensures Valid()
      ensures state.boardCards == old(state.boardCards) + [BoardCard(card, Square(gridX, gridZ))]
      ensures state.virtualGrid == old(state.virtualGrid)
      ensures state.currentPlayer == old(state.currentPlayer) && state.selectedPiece == old(state.selectedPiece)
      ensures thrown <==> pieceModels.None? || ModelKey(card.color, card.pieceType) !in pieceModels.value
      ensures thrown ==> state.pieces == old(state.pieces)
      ensures !thrown ==>
                |state.pieces| == |old(state.pieces)| + 1 &&
                state.pieces == old(state.pieces) + [state.pieces[|old(state.pieces)|]] &&
                fresh(state.pieces[|old(state.pieces)|]) &&
                PieceCall(state.pieces[|old(state.pieces)|]) == Call(card.pieceType, card.color, Square(gridX, gridZ))
    {
      state.boardCards := state.boardCards + [BoardCard(card, Square(gridX, gridZ))];
      if pieceModels.None? || ModelKey(card.color, card.pieceType) !in pieceModels.value {
        return true;
      }
      thrown := false;
      var piece := new Piece(card.pieceType, card.color == Black, gridX, gridZ);
      state.pieces := state.pieces + [piece];
    }
  }
}
