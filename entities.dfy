/** The Python ChessPiece entity (3d_chess.py and src/entities/base.py,
    src/entities/pieces.py): its kind is its class, its colour is fixed at
    creation, and its grid coordinates and stored valid moves change as it
    is moved. The Ursina visual attributes are not modelled. */
module Entities {
  import opened Core

  class ChessPiece {
    /** The subclass (Pawn, Rook, ...) the piece was created as. */
    const kind: Kind
    const isBlack: bool
    var gridX: int
    var gridZ: int
    /** valid_moves: the moves shown when the piece was last selected. */
    var validMoves: seq<Square>

    constructor (kind: Kind, isBlack: bool, gridX: int, gridZ: int)
      ensures this.kind == kind && this.isBlack == isBlack
      ensures this.gridX == gridX && this.gridZ == gridZ && validMoves == []
    {
      this.kind := kind;
      this.isBlack := isBlack;
      this.gridX := gridX;
      this.gridZ := gridZ;
      validMoves := [];
    }

    /** ChessPiece.can_capture: a piece may take any piece of the other
        colour, and so never itself. */
    predicate CanCapture(target: ChessPiece)
      ensures CanCapture(target) ==> target != this
    {
      target.isBlack != isBlack
    }
  }

  /** VIRTUAL_GRID / board_state: grid[z][x] holds a piece or None. */
  type Grid = seq<seq<ChessPiece?>>

  /** Every piece standing on the grid. */
  function PiecesOn(g: Grid): set<ChessPiece> {
    set z, x | 0 <= z < |g| && 0 <= x < |g[z]| && g[z][x] != null :: g[z][x]
  }

  /** Each piece on the grid records the square it stands on. */
  ghost predicate Coherent(g: Grid)
    reads PiecesOn(g)
  {
    IsGrid(g) &&
    forall z, x :: InBounds(x, z) && g[z][x] != null ==> g[z][x].gridX == x && g[z][x].gridZ == z
  }

  predicate IsEmpty(g: Grid, s: Square)
    requires IsGrid(g) && OnBoard(s)
  {
    g[s.z][s.x] == null
  }

  /** The square holds a piece of the colour opposite to isBlack. */
  predicate IsEnemy(g: Grid, s: Square, isBlack: bool)
    requires IsGrid(g) && OnBoard(s)
  {
    g[s.z][s.x] != null && g[s.z][s.x].isBlack != isBlack
  }
}
