/** create_pieces of src/game/board.py: the layout table of
    src/constants.py is laid on the game state's grid, each piece is also
    appended to piece_entities, and a piece is black when its row is
    below 4. Board squares and models are rendering. */
module PyBoard {
  import opened Core
  import opened Entities
  import opened Layout
  import opened StateManager

  method CreatePieces(gameState: GameStateManager)
    requires IsGrid(gameState.virtualGrid)
    modifies gameState, gameState.pieceEntities
    ensures IsGrid(gameState.virtualGrid)
    ensures forall z, x :: InBounds(x, z) && Entry(PiecePositions, Square(x, z)).None? ==>
              gameState.virtualGrid[z][x] == old(gameState.virtualGrid[z][x])
    ensures forall z, x :: InBounds(x, z) && Entry(PiecePositions, Square(x, z)).Some? ==>
              gameState.virtualGrid[z][x] != null &&
              NewPiece(PiecePositions, gameState.virtualGrid[z][x], Square(x, z), 4) &&
              gameState.virtualGrid[z][x].isBlack == (z < 4)
    ensures |LayoutCells(PiecePositions)| == 32
    ensures |gameState.pieceEntities.items| == |old(gameState.pieceEntities.items)| + |LayoutCells(PiecePositions)|
    ensures gameState.pieceEntities.items[..|old(gameState.pieceEntities.items)|] == old(gameState.pieceEntities.items)
    ensures forall i :: 0 <= i < |LayoutCells(PiecePositions)| ==>
              gameState.pieceEntities.items[|old(gameState.pieceEntities.items)| + i] ==
              gameState.virtualGrid[LayoutCells(PiecePositions)[i].z][LayoutCells(PiecePositions)[i].x]
    ensures forall i :: |old(gameState.pieceEntities.items)| <= i < |gameState.pieceEntities.items| ==>
              fresh(gameState.pieceEntities.items[i])
    ensures gameState.selectedPiece == old(gameState.selectedPiece) && gameState.selectedCard == old(gameState.selectedCard)
    ensures gameState.cardEntities.items == old(gameState.cardEntities.items)
  {
    PiecePositionsIsGrid();
    PiecePositionsHas32();
    var g, placed := Populate(PiecePositions, gameState.virtualGrid, 4);
    gameState.virtualGrid := g;
    ghost var before := gameState.pieceEntities.items;
    gameState.pieceEntities.items := gameState.pieceEntities.items + placed;
    forall i | |before| <= i < |gameState.pieceEntities.items| ensures fresh(gameState.pieceEntities.items[i]) {
      assert gameState.pieceEntities.items[i] == placed[i - |before|];
      assert placed[i - |before|] in placed;
    }
  }
}
