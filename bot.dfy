/** Bot of apps/frontend/src/game/bot.ts: the scan for empty squares and
    the branches of makeMove. The random choices of a card and of a square
    are nondeterministic picks; the one-second delay is timing. */
module Bot {
  import opened Core
  import opened Shared
  import opened FrontState
  import opened FrontBoard

  /** CARD_TYPES: the bot's six black cards, one per piece type. */
  const BotCards: seq<Card> := [
    Card(Pawn, Black, "Chroma_Dragon"),
    Card(Rook, Black, "Ace_kunoichi"),
    Card(Bishop, Black, "Ye_Old_Bishop"),
    Card(Knight, Black, "Wicked_Assassin"),
    Card(Queen, Black, "Chroma_Queen"),
    Card(King, Black, "Chroma_king")
  ]

  /** The empty squares of row z among its first x columns, in column
      order. A cell is empty when it holds null: `!grid[z][x]` is false for
      every piece object. */
  function EmptyInRow(g: PieceGrid, z: nat, x: nat): seq<Square>
    requires IsGrid(g) && z < Size && x <= Size
  {
    if x == 0 then []
    else EmptyInRow(g, z, x - 1) + (if g[z][x - 1] == null then [Square(x - 1, z)] else [])
  }

  /** The empty squares of the first z rows, row after row. */
  function EmptyRows(g: PieceGrid, z: nat): seq<Square>
    requires IsGrid(g) && z <= Size
  {
    if z == 0 then [] else EmptyRows(g, z - 1) + EmptyInRow(g, z - 1, Size)
  }

  /** The occupied cells of a row. */
  function CountOccupied(row: seq<Piece?>): nat {
    if row == [] then 0
    else CountOccupied(row[..|row| - 1]) + (if row[|row| - 1] != null then 1 else 0)
  }

  /** The occupied cells of the first z rows. */
  function OccupiedRows(g: PieceGrid, z: nat): nat
    requires IsGrid(g) && z <= Size
  {
    if z == 0 then 0 else OccupiedRows(g, z - 1) + CountOccupied(g[z - 1])
  }

  /** A square is listed for row z exactly when it is in that row, before
      column x, and empty; the list runs left to right. */
  lemma {:induction false} EmptyInRowShape(g: PieceGrid, z: nat, x: nat)
    requires IsGrid(g) && z < Size && x <= Size
    ensures forall s :: s in EmptyInRow(g, z, x) <==> OnBoard(s) && s.z == z && s.x < x && g[s.z][s.x] == null
    ensures forall a :: 0 <= a < |EmptyInRow(g, z, x)| ==> EmptyInRow(g, z, x)[a].z == z && 0 <= EmptyInRow(g, z, x)[a].x < x
    ensures forall a, b :: 0 <= a < b < |EmptyInRow(g, z, x)| ==> EmptyInRow(g, z, x)[a].x < EmptyInRow(g, z, x)[b].x
  {
    if x > 0 {
      EmptyInRowShape(g, z, x - 1);
      var pre := EmptyInRow(g, z, x - 1);
      var r := EmptyInRow(g, z, x);
      forall a | 0 <= a < |r| ensures r[a].z == z && 0 <= r[a].x < x {
        if a < |pre| { assert r[a] == pre[a]; }
      }
    }
  }

  /** A square is listed for the first z rows exactly when it is on the
      board, in one of those rows, and empty. */
  lemma {:induction false} EmptyRowsMembers(g: PieceGrid, z: nat)
    requires IsGrid(g) && z <= Size
    ensures forall s :: s in EmptyRows(g, z) <==> OnBoard(s) && s.z < z && g[s.z][s.x] == null
  {
    if z > 0 {
      EmptyRowsMembers(g, z - 1);
      EmptyInRowShape(g, z - 1, Size);
    }
  }

  /** The list runs in strictly increasing row-major order, so no square
      is listed twice. */
  lemma {:induction false} EmptyRowsOrdered(g: PieceGrid, z: nat)
    requires IsGrid(g) && z <= Size
    ensures forall a :: 0 <= a < |EmptyRows(g, z)| ==> OnBoard(EmptyRows(g, z)[a]) && EmptyRows(g, z)[a].z < z
    ensures forall a, b :: 0 <= a < b < |EmptyRows(g, z)| ==>
              CellIndex(EmptyRows(g, z)[a]) < CellIndex(EmptyRows(g, z)[b])
  {
    if z > 0 {
      EmptyRowsOrdered(g, z - 1);
      EmptyInRowShape(g, z - 1, Size);
      var pre, row := EmptyRows(g, z - 1), EmptyInRow(g, z - 1, Size);
      var r := pre + row;
      forall a | 0 <= a < |r| ensures OnBoard(r[a]) && r[a].z < z {
        if a < |pre| { assert r[a] == pre[a]; } else { assert r[a] == row[a - |pre|]; }
      }
      forall a, b | 0 <= a < b < |r| ensures CellIndex(r[a]) < CellIndex(r[b]) {
        if b < |pre| {
          assert r[a] == pre[a] && r[b] == pre[b];
        } else if a < |pre| {
          assert r[a] == pre[a] && r[b] == row[b - |pre|];
        } else {
          assert r[a] == row[a - |pre|] && r[b] == row[b - |pre|];
        }
      }
    }
  }

  /** The squares listed for row z before column x are the x scanned
      minus the occupied ones. */
  lemma {:induction false} EmptyInRowCount(g: PieceGrid, z: nat, x: nat)
    requires IsGrid(g) && z < Size && x <= Size
    ensures |EmptyInRow(g, z, x)| == x - CountOccupied(g[z][..x])
  {
    if x > 0 {
      EmptyInRowCount(g, z, x - 1);
      assert g[z][..x][..x - 1] == g[z][..x - 1];
    } else {
      assert g[z][..0] == [];
    }
  }

  /** The squares listed for the first z rows are the 8 * z scanned minus
      the occupied ones. */
  lemma {:induction false} EmptyRowsCount(g: PieceGrid, z: nat)
    requires IsGrid(g) && z <= Size
    ensures |EmptyRows(g, z)| == 8 * z - OccupiedRows(g, z)
  {
    if z > 0 {
      EmptyRowsCount(g, z - 1);
      EmptyInRowCount(g, z - 1, Size);
      assert g[z - 1][..Size] == g[z - 1];
    }
  }

  /** What makeMove did: nothing, or the card it laid and where. */
  datatype BotMove = NoEmptySpace | Played(card: Card, at: Square)

  class Bot {
    const gameState: GameState
    const boardManager: BoardManager

    constructor (gameState: GameState, boardManager: BoardManager)
      ensures this.gameState == gameState && this.boardManager == boardManager
    {
      this.gameState := gameState;
      this.boardManager := boardManager;
    }

    /** findEmptySpaces: every empty square, each once, in row-major order. */
    method FindEmptySpaces() returns (spaces: seq<Square>)
      requires gameState.Valid()
      ensures spaces == EmptyRows(gameState.virtualGrid, Size)
      ensures forall s :: s in spaces <==> OnBoard(s) && gameState.virtualGrid[s.z][s.x] == null
      ensures forall a, b :: 0 <= a < b < |spaces| ==> CellIndex(spaces[a]) < CellIndex(spaces[b])
      ensures |spaces| == 64 - OccupiedRows(gameState.virtualGrid, Size)
    {
      spaces := [];
      var grid := gameState.virtualGrid;
      for z := 0 to Size
        invariant spaces == EmptyRows(grid, z)
      {
        ghost var before := spaces;
        for x := 0 to Size
          invariant spaces == before + EmptyInRow(grid, z, x)
        {
          if grid[z][x] == null {
            assert before + (EmptyInRow(grid, z, x) + [Square(x, z)]) == spaces + [Square(x, z)];
            spaces := spaces + [Square(x, z)];
          } else {
            assert EmptyInRow(grid, z, x) + [] == EmptyInRow(grid, z, x);
          }
        }
      }
      EmptyRowsMembers(grid, Size);
      EmptyRowsOrdered(grid, Size);
      EmptyRowsCount(grid, Size);
    }

    /** makeMove: with no empty square nothing changes. Otherwise a card of
        CARD_TYPES is laid through the board manager on an empty square.
        The turn is not handed back: state.ts defines no switchTurn, so the
        call after the placement throws and currentPlayer keeps its value. */
    method MakeMove() returns (move: BotMove)
      requires boardManager.Valid() && boardManager.state == gameState
      modifies boardManager, gameState
      ensures boardManager.Valid()
      ensures move == NoEmptySpace <==> forall s :: OnBoard(s) ==> old(gameState.virtualGrid)[s.z][s.x] != null
      ensures move == NoEmptySpace ==> unchanged(boardManager, gameState)
      ensures move.Played? ==>
                move.card in BotCards && OnBoard(move.at) &&
                old(gameState.virtualGrid)[move.at.z][move.at.x] == null &&
                gameState.boardCards == old(gameState.boardCards) + [BoardCard(move.card, move.at)] &&
                gameState.pieces == old(gameState.pieces) && gameState.board == old(gameState.board) &&
                gameState.currentPlayer == old(gameState.currentPlayer) &&
                gameState.selectedPiece == old(gameState.selectedPiece) &&
                boardManager.pieceModels == old(boardManager.pieceModels)
      ensures move.Played? && boardManager.pieceModels.Some? &&
              ModelKey(move.card.color, move.card.pieceType) in boardManager.pieceModels.value ==>
                var n := |old(boardManager.pieces)|;
                |boardManager.pieces| == n + 1 && boardManager.pieces == old(boardManager.pieces) + [boardManager.pieces[n]] &&
                PieceCall(boardManager.pieces[n]) == Call(move.card.pieceType, move.card.color, move.at) &&
                gameState.virtualGrid == Write(old(gameState.virtualGrid), move.at.x, move.at.z, boardManager.pieces[n])
      ensures move.Played? && (boardManager.pieceModels.None? ||
              ModelKey(move.card.color, move.card.pieceType) !in boardManager.pieceModels.value) ==>
                boardManager.pieces == old(boardManager.pieces) && gameState.virtualGrid == old(gameState.virtualGrid)
    {
      assert BotCards[0] in BotCards;
      var card :| card in BotCards;
      var spaces := FindEmptySpaces();
      if |spaces| == 0 {
        return NoEmptySpace;
      }
      assert spaces[0] in spaces;
      var space :| space in spaces;
      var _ := boardManager.PlaceCardOnBoard(card, space.x, space.z);
      move := Played(card, space);
    }
  }
}
