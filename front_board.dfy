/** BoardManager of apps/frontend/src/game/board.ts on the grid side: the
    start-of-game placement, reading and moving pieces on state.virtualGrid,
    laying a card on the board (and the piece it summons), and the decision
    of what a click on a board square does. The meshes, the scene, the
    lights and the world coordinates are rendering. */
module FrontBoard {
  import opened Core
  import opened Shared
  import Layout
  import opened Cards
  import opened FrontState

  class BoardManager {
    var pieces: seq<Piece>
    /** pieceModels: unset until setPieceModels, then the set of keys the
        Map holds a model under. */
    var pieceModels: Option<set<string>>
    const state: GameState
    const cardSystem: CardSystem

    ghost predicate Valid()
      reads this, state
    {
      state.Valid()
    }

    constructor (state: GameState, cardSystem: CardSystem)
      ensures this.state == state && this.cardSystem == cardSystem
      ensures pieces == [] && pieceModels == None
    {
      this.state := state;
      this.cardSystem := cardSystem;
      pieces := [];
      pieceModels := None;
    }

    /** setPieceModels: the first call sets the models, later calls are
        skipped. */
    method SetPieceModels(models: set<string>)
      modifies this
      ensures old(pieceModels).Some? ==> pieceModels == old(pieceModels)
      ensures old(pieceModels).None? ==> pieceModels == Some(models)
      ensures pieces == old(pieces)
    {
      if pieceModels.Some? {
        return;
      }
      pieceModels := Some(models);
    }

    /** setupInitialPieces: skipped when pieces already holds pieces; the
        first placeInitialPiece throws when the models were never set;
        otherwise every call of the table and of the pawn loop is laid on
        virtualGrid, one new piece per call with a model (SetupCells and
        SetupKeeps say, square by square, what that grid holds). */
    method SetupInitialPieces() returns (thrown: bool)
      requires Valid()
      modifies this, state
      ensures Valid() && pieceModels == old(pieceModels)
      ensures state.pieces == old(state.pieces) && state.boardCards == old(state.boardCards)
      ensures state.board == old(state.board) && state.currentPlayer == old(state.currentPlayer)
      ensures state.selectedPiece == old(state.selectedPiece)
      ensures thrown <==> old(pieces) == [] && pieceModels.None?
      ensures old(pieces) != [] || thrown ==> pieces == old(pieces) && state.virtualGrid == old(state.virtualGrid)
      ensures old(pieces) == [] && !thrown ==>
                SetupDone(old(state.virtualGrid), state.virtualGrid, pieces, SetupCalls(), pieceModels.value)
      ensures old(pieces) == [] && !thrown ==> forall i :: 0 <= i < |pieces| ==> fresh(pieces[i])
    {
      thrown := false;
      if |pieces| > 0 {
        return;
      }
      if pieceModels.None? {
        return true;
      }
      var g := state.virtualGrid;
      var r, placed := SetupGrid(g, pieceModels.value);
      pieces := placed;
      state.virtualGrid := r;
    }

    /** getPieceAt(x, z): the cell of virtualGrid. */
    function GetPieceAt(x: int, z: int): Piece?
      requires Valid() && InBounds(x, z)
      reads this, state
    {
      state.virtualGrid[z][x]
    }

    /** movePiece: the piece's old cell is cleared, the new one holds the
        piece, the piece's coordinates are the new square, and no other
        cell changes. */
    method MovePiece(piece: Piece, newX: int, newZ: int)
      requires Valid() && InBounds(piece.gridX, piece.gridZ) && InBounds(newX, newZ)
      modifies state, piece
      ensures Valid()
      ensures state.virtualGrid ==
                Moved(old(state.virtualGrid), Square(old(piece.gridX), old(piece.gridZ)), Square(newX, newZ), piece)
      ensures piece.gridX == newX && piece.gridZ == newZ
      ensures GetPieceAt(newX, newZ) == piece
      ensures (old(piece.gridX), old(piece.gridZ)) != (newX, newZ) ==> GetPieceAt(old(piece.gridX), old(piece.gridZ)) == null
      ensures forall x, z :: InBounds(x, z) && (x, z) != (old(piece.gridX), old(piece.gridZ)) && (x, z) != (newX, newZ) ==>
                GetPieceAt(x, z) == old(GetPieceAt(x, z))
      ensures state.pieces == old(state.pieces) && state.boardCards == old(state.boardCards)
      ensures state.board == old(state.board) && state.currentPlayer == old(state.currentPlayer)
      ensures state.selectedPiece == old(state.selectedPiece)
      ensures pieces == old(pieces)
    {
      var from, to := Square(piece.gridX, piece.gridZ), Square(newX, newZ);
      MovedCells(state.virtualGrid, from, to, piece);
      state.virtualGrid := Moved(state.virtualGrid, from, to, piece);
      piece.gridX := newX;
      piece.gridZ := newZ;
    }

    /** placeCardOnBoard(card, gridX, gridZ): one card mesh is laid on the
        square; then, when the models hold one for the card's colour and
        piece type, a new piece of that colour and type stands on the
        square, is appended to pieces and is written to virtualGrid. The
        lookup throws when the models were never set. */
    method PlaceCardOnBoard(card: Card, gridX: int, gridZ: int) returns (thrown: bool)
      requires Valid() && InBounds(gridX, gridZ)
      modifies this, state
      ensures Valid() && pieceModels == old(pieceModels)
      ensures state.boardCards == old(state.boardCards) + [BoardCard(card, Square(gridX, gridZ))]
      ensures state.pieces == old(state.pieces) && state.board == old(state.board)
      ensures state.currentPlayer == old(state.currentPlayer) && state.selectedPiece == old(state.selectedPiece)
      ensures thrown <==> pieceModels.None?
      ensures pieceModels.None? || ModelKey(card.color, card.pieceType) !in pieceModels.value ==>
                pieces == old(pieces) && state.virtualGrid == old(state.virtualGrid)
      ensures pieceModels.Some? && ModelKey(card.color, card.pieceType) in pieceModels.value ==>
                |pieces| == |old(pieces)| + 1 && pieces == old(pieces) + [pieces[|old(pieces)|]] &&
                fresh(pieces[|old(pieces)|]) &&
                PieceCall(pieces[|old(pieces)|]) == Call(card.pieceType, card.color, Square(gridX, gridZ)) &&
                state.virtualGrid == Write(old(state.virtualGrid), gridX, gridZ, pieces[|old(pieces)|])
    {
      state.boardCards := state.boardCards + [BoardCard(card, Square(gridX, gridZ))];
      if pieceModels.None? {
        return true;
      }
      thrown := false;
      if ModelKey(card.color, card.pieceType) in pieceModels.value {
        var piece := new Piece(card.pieceType, card.color == Black, gridX, gridZ);
        pieces := pieces + [piece];
        state.virtualGrid := Write(state.virtualGrid, gridX, gridZ, piece);
      }
    }

    /** handleBoardClick, given the square the ray hit (None when it hit no
        square): when the square's `state.board` cell is empty and a card
        is selected, the card system lays the first selected card (which
        throws when its mesh is no longer shown) and then removes it from
        the hand. The result is None when nothing was attempted. */
    method HandleBoardClick(hit: Option<Square>) returns (out: Option<Placement>)
      requires Valid() && cardSystem.Valid() && (hit.Some? ==> OnBoard(hit.value))
      modifies cardSystem
      ensures cardSystem.Valid()
      ensures out.None? <==>
                hit.None? || !Blank(state.board[hit.value.z][hit.value.x]) || old(cardSystem.selected) == []
      ensures out.None? || out == Some(Failed) ==> unchanged(cardSystem)
      ensures out != Some(NoSelection)
      ensures out == Some(Failed) <==> out.Some? && old(cardSystem.selected)[0] !in old(cardSystem.meshes)
      ensures out.Some? && out.value.Placed? ==>
                var i := IndexOf(old(cardSystem.meshes), old(cardSystem.selected)[0]);
                0 <= i < |old(cardSystem.cards)| &&
                out.value.card == old(cardSystem.cards)[i] &&
                cardSystem.cards == old(cardSystem.cards)[..i] + old(cardSystem.cards)[i + 1..] &&
                cardSystem.selected == old(cardSystem.selected)[1..] &&
                cardSystem.deck == old(cardSystem.deck) &&
                cardSystem.meshes == Range(old(cardSystem.nextMesh), |cardSystem.cards|) &&
                cardSystem.nextMesh == old(cardSystem.nextMesh) + |cardSystem.cards|
    {
      out := None;
      if hit.None? {
        return;
      }
      if Blank(state.board[hit.value.z][hit.value.x]) {
        if |cardSystem.SelectedCards()| > 0 {
          var placement := cardSystem.PlaceCardOnBoard(hit.value.x, hit.value.z);
          out := Some(placement);
          if placement == Failed {
            return;
          }
          cardSystem.CardOfShown(cardSystem.selected[0]);
          cardSystem.RemoveSelectedCard();
        }
      }
    }
  }
}
