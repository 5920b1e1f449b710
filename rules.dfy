/** The game logic of 3d_chess.py outside the generators: the turn gate and
    legal-move filter of GameRules, the module-level VIRTUAL_GRID and
    piece_entities with their initial fill, and the selection and move
    execution of ChessActions (its grid side; markers, colours and heights
    are rendering). */
module Rules {
  import opened Core
  import opened Entities
  import opened Moves
  import opened Layout
  import Pieces

  /** GameRules.can_move: white moves white pieces and black moves black
      ones, that is, the side on move is the piece's colour. */
  predicate TurnAllows(turn: Side, isBlack: bool)
    ensures TurnAllows(turn, isBlack) <==> turn == (if isBlack then Black else White)
  {
    (turn == White && !isBlack) || (turn == Black && isBlack)
  }

  /** GameRules.can_move_to_position: the target is on the board, and a
      piece standing there can be captured by this one. This is the landing
      test the knight and king generators apply themselves. */
  predicate CanMoveToPosition(piece: ChessPiece, t: Square, g: Grid)
    requires IsGrid(g)
    ensures CanMoveToPosition(piece, t, g) <==> MayLand(g, t, piece.isBlack)
  {
    OnBoard(t) && (g[t.z][t.x] != null ==> piece.CanCapture(g[t.z][t.x]))
  }

  /** The filter loop of GameRules.get_valid_moves: the candidates, in
      order, that can_move_to_position accepts. */
  function KeepAllowed(piece: ChessPiece, ts: seq<Square>, g: Grid): (r: seq<Square>)
    requires IsGrid(g)
    ensures |r| <= |ts|
  {
    if ts == [] then []
    else
      var n := |ts| - 1;
      KeepAllowed(piece, ts[..n], g) + (if CanMoveToPosition(piece, ts[n], g) then [ts[n]] else [])
  }

  /** A square is kept exactly when it is a candidate that
      can_move_to_position accepts. */
  lemma {:induction false} KeepAllowedMembers(piece: ChessPiece, ts: seq<Square>, g: Grid)
    requires IsGrid(g)
    ensures forall t :: t in KeepAllowed(piece, ts, g) <==> t in ts && CanMoveToPosition(piece, t, g)
  {
    if ts != [] {
      var n := |ts| - 1;
      KeepAllowedMembers(piece, ts[..n], g);
      assert ts == ts[..n] + [ts[n]];
    }
  }

  /** GameRules.get_valid_moves for the given turn: nothing for a piece of
      the side not on move, otherwise a sub-list of the generator's list. */
  function LegalMoves(turn: Side, piece: ChessPiece, g: Grid): (r: seq<Square>)
    requires IsGrid(g) && OnBoard(Pieces.At(piece))
    reads piece`gridX, piece`gridZ
    ensures !TurnAllows(turn, piece.isBlack) ==> r == []
    ensures |r| <= |Candidates(piece.kind, g, Pieces.At(piece), piece.isBlack)|
  {
    if TurnAllows(turn, piece.isBlack)
    then KeepAllowed(piece, Candidates(piece.kind, g, Pieces.At(piece), piece.isBlack), g)
    else []
  }

  /** A piece of the side not on move gets no moves; otherwise a square is
      legal exactly when the piece's generator offers it and it is empty or
      holds an enemy piece. */
  lemma LegalMovesExactly(turn: Side, piece: ChessPiece, g: Grid, t: Square)
    requires IsGrid(g) && OnBoard(Pieces.At(piece))
    ensures !TurnAllows(turn, piece.isBlack) ==> LegalMoves(turn, piece, g) == []
    ensures t in LegalMoves(turn, piece, g) <==>
              TurnAllows(turn, piece.isBlack) && t in Candidates(piece.kind, g, Pieces.At(piece), piece.isBlack) &&
              OnBoard(t) && (IsEmpty(g, t) || IsEnemy(g, t, piece.isBlack))
  {
    CandidatesOnBoard(piece.kind, g, Pieces.At(piece), piece.isBlack);
    KeepAllowedMembers(piece, Candidates(piece.kind, g, Pieces.At(piece), piece.isBlack), g);
  }

  /** No legal move lands on a piece of the mover's own colour. */
  lemma LegalMovesNeverFriendly(turn: Side, piece: ChessPiece, g: Grid)
    requires IsGrid(g) && OnBoard(Pieces.At(piece))
    ensures forall t :: t in LegalMoves(turn, piece, g) ==>
              OnBoard(t) && (g[t.z][t.x] == null || g[t.z][t.x].isBlack != piece.isBlack)
  {
    forall t | t in LegalMoves(turn, piece, g)
      ensures OnBoard(t) && (g[t.z][t.x] == null || g[t.z][t.x].isBlack != piece.isBlack)
    {
      LegalMovesExactly(turn, piece, g, t);
    }
  }

  /** For a sliding piece whose ray meets a friendly piece, that blocker is
      the one square of the ray the filter drops. */
  lemma SlidingBlockerDropped(turn: Side, piece: ChessPiece, g: Grid, d: Dir)
    requires IsGrid(g) && OnBoard(Pieces.At(piece)) && IsUnit(d)
    requires piece.kind == Rook && d in RookDirs
    requires TurnAllows(turn, piece.isBlack)
    ensures forall t :: t in Ray(g, Pieces.At(piece), d) ==>
              (t in LegalMoves(turn, piece, g) <==> IsEmpty(g, t) || IsEnemy(g, t, piece.isBlack))
  {
    var s := Pieces.At(piece);
    forall t | t in Ray(g, s, d)
      ensures t in LegalMoves(turn, piece, g) <==> IsEmpty(g, t) || IsEnemy(g, t, piece.isBlack)
    {
      var i :| 0 <= i < |RookDirs| && RookDirs[i] == d;
      SlideMember(g, s, RookDirs, t);
      LegalMovesExactly(turn, piece, g, t);
    }
  }

  /** The `for move in potential_moves` loop of get_valid_moves. */
  method FilterMoves(piece: ChessPiece, potential: seq<Square>, g: Grid) returns (moves: seq<Square>)
    requires IsGrid(g)
    ensures moves == KeepAllowed(piece, potential, g)
  {
    moves := [];
    for i := 0 to |potential|
      invariant moves == KeepAllowed(piece, potential[..i], g)
    {
      assert potential[..i + 1][..i] == potential[..i];
      if CanMoveToPosition(piece, potential[i], g) {
        moves := moves + [potential[i]];
      }
    }
    assert potential[..|potential|] == potential;
  }

  class GameRules {
    var currentTurn: Side

    constructor ()
      ensures currentTurn == White
    {
      currentTurn := White;
    }

    /** can_move: the piece's colour is the colour on move, so a piece that
        may move now may not once the turn has switched, and the reverse. */
    predicate CanMove(piece: ChessPiece)
      reads this
      ensures CanMove(piece) <==> !TurnAllows(Other(currentTurn), piece.isBlack)
    {
      TurnAllows(currentTurn, piece.isBlack)
    }

    /** The turn gate, then the piece's generator, then the filter loop. */
    method GetValidMoves(piece: ChessPiece, g: Grid) returns (moves: seq<Square>)
      requires IsGrid(g) && OnBoard(Pieces.At(piece))
      ensures moves == LegalMoves(currentTurn, piece, g)
    {
      if !CanMove(piece) {
        return [];
      }
      var potential := Pieces.GetValidMoves(piece, g);
      moves := FilterMoves(piece, potential, g);
    }

    /** switch_turn: the other side is on move. */
    method SwitchTurn()
      modifies this
      ensures currentTurn == Other(old(currentTurn))
    {
      currentTurn := if currentTurn == White then Black else White;
    }
  }

  /** piece_entities after a capture: the first occurrence of the captured
      piece, if there is one and it is listed, is removed. */
  function WithoutCaptured(entities: seq<ChessPiece>, captured: ChessPiece?): (r: seq<ChessPiece>)
    ensures captured == null || captured !in entities ==> r == entities
    ensures captured != null && captured in entities ==>
              |r| == |entities| - 1 && multiset(r) == multiset(entities) - multiset{captured}
  {
    if captured == null then entities else RemoveFirst<ChessPiece>(entities, captured)
  }

  /** The module-level VIRTUAL_GRID and piece_entities of 3d_chess.py. */
  class ChessWorld {
    var virtualGrid: Grid
    var pieceEntities: seq<ChessPiece>

    constructor ()
      ensures virtualGrid == Filled(null) && pieceEntities == []
    {
      virtualGrid := Filled(null);
      pieceEntities := [];
    }

    /** The grid is 8 x 8 and each piece on it records its own square. */
    ghost predicate Valid()
      reads this, PiecesOn(virtualGrid)
    {
      Coherent(virtualGrid)
    }

    /** The fill at the start of start_game: piece_entities is cleared, then
        each square with a layout entry gets a new piece of that kind, black
        on rows 0 and 1 (z <= PieceRows.WHITE_PAWN), written to the grid and
        appended to piece_entities. */
    method StartGame()
      requires Valid()
      modifies this
      ensures Valid()
      ensures forall z, x :: InBounds(x, z) && Entry(PiecePositions, Square(x, z)).None? ==>
                virtualGrid[z][x] == old(virtualGrid[z][x])
      ensures forall z, x :: InBounds(x, z) && Entry(PiecePositions, Square(x, z)).Some? ==>
                virtualGrid[z][x] != null && NewPiece(PiecePositions, virtualGrid[z][x], Square(x, z), 2) &&
                virtualGrid[z][x].isBlack == (z <= 1)
      ensures |pieceEntities| == |LayoutCells(PiecePositions)|
      ensures forall i :: 0 <= i < |pieceEntities| ==>
                pieceEntities[i] == virtualGrid[LayoutCells(PiecePositions)[i].z][LayoutCells(PiecePositions)[i].x]
      ensures forall i :: 0 <= i < |pieceEntities| ==> fresh(pieceEntities[i])
    {
      PiecePositionsIsGrid();
      pieceEntities := [];
      var g, placed := Populate(PiecePositions, virtualGrid, 2);
      virtualGrid := g;
      pieceEntities := pieceEntities + placed;
      assert forall i :: 0 <= i < |pieceEntities| ==> pieceEntities[i] in placed;
    }

    /** The grid side of a valid move: the source cell is cleared, the
        target cell receives the piece, a captured piece is removed from
        piece_entities, and the piece records its new square. */
    method ExecuteMove(p: ChessPiece, s: Square)
      requires Valid() && OnBoard(Pieces.At(p)) && virtualGrid[p.gridZ][p.gridX] == p && OnBoard(s)
      modifies this, p`gridX, p`gridZ
      ensures Valid()
      ensures virtualGrid[s.z][s.x] == p
      ensures (old(p.gridX), old(p.gridZ)) != (s.x, s.z) ==> virtualGrid[old(p.gridZ)][old(p.gridX)] == null
      ensures forall z, x :: InBounds(x, z) && (x, z) != (s.x, s.z) && (x, z) != (old(p.gridX), old(p.gridZ)) ==>
                virtualGrid[z][x] == old(virtualGrid[z][x])
      ensures p.gridX == s.x && p.gridZ == s.z
      ensures pieceEntities == WithoutCaptured(old(pieceEntities), old(virtualGrid[s.z][s.x]))
    {
      var captured := virtualGrid[s.z][s.x];
      if captured != null {
        pieceEntities := RemoveFirst<ChessPiece>(pieceEntities, captured);
      }
      ghost var g0, from := virtualGrid, Pieces.At(p);
      OthersElsewhere(g0, p);
      var g1 := Write(virtualGrid, p.gridX, p.gridZ, null);
      virtualGrid := Write(g1, s.x, s.z, p);
      p.gridX := s.x;
      p.gridZ := s.z;
      MovedCoherent(g0, p, from, s);
    }
  }

  /** In a coherent grid a piece stands on no cell but its own. */
  lemma OthersElsewhere(g: Grid, p: ChessPiece)
    requires Coherent(g) && OnBoard(Pieces.At(p)) && g[p.gridZ][p.gridX] == p
    ensures forall z, x :: InBounds(x, z) && g[z][x] == p ==> x == p.gridX && z == p.gridZ
  {
  }

  /** Moving p from `from` to s in a grid whose other pieces record their
      squares gives a coherent grid once p records s. */
  lemma MovedCoherent(g0: Grid, p: ChessPiece, from: Square, s: Square)
    requires IsGrid(g0) && OnBoard(from) && OnBoard(s) && Pieces.At(p) == s
    requires forall z, x :: InBounds(x, z) && g0[z][x] != null && g0[z][x] != p ==>
               g0[z][x].gridX == x && g0[z][x].gridZ == z
    requires forall z, x :: InBounds(x, z) && g0[z][x] == p ==> x == from.x && z == from.z
    ensures Coherent(Write(Write(g0, from.x, from.z, null), s.x, s.z, p))
  {
  }

  class ChessActions {
    var selectedPiece: ChessPiece?
    const gameRules: GameRules
    var targetSquare: Option<Square>
    var dragging: bool
    var mousePressed: bool

    constructor (gameRules: GameRules)
      ensures this.gameRules == gameRules
      ensures selectedPiece == null && targetSquare == None && !dragging && !mousePressed
    {
      this.gameRules := gameRules;
      selectedPiece := null;
      targetSquare := None;
      dragging := false;
      mousePressed := false;
    }

    /** select_piece: ignored unless the left button is held and was not
        already pressed; then the press is recorded, and a piece of the side
        on move becomes the selection and stores its legal moves. */
    method SelectPiece(piece: ChessPiece?, world: ChessWorld, leftMouseHeld: bool)
      requires world.Valid()
      requires piece != null ==> OnBoard(Pieces.At(piece))
      modifies this, piece
      ensures piece != null ==> piece.gridX == old(piece.gridX) && piece.gridZ == old(piece.gridZ)
      ensures !leftMouseHeld || old(mousePressed) ==>
                unchanged(this) && (piece != null ==> piece.validMoves == old(piece.validMoves))
      ensures leftMouseHeld && !old(mousePressed) ==> mousePressed && targetSquare == old(targetSquare)
      ensures leftMouseHeld && !old(mousePressed) && piece != null && TurnAllows(gameRules.currentTurn, piece.isBlack) ==>
                selectedPiece == piece && dragging &&
                piece.validMoves == LegalMoves(gameRules.currentTurn, piece, world.virtualGrid)
      ensures leftMouseHeld && !old(mousePressed) && (piece == null || !TurnAllows(gameRules.currentTurn, piece.isBlack)) ==>
                selectedPiece == old(selectedPiece) && dragging == old(dragging) &&
                (piece != null ==> piece.validMoves == old(piece.validMoves))
    {
      if !leftMouseHeld || mousePressed {
        return;
      }
      mousePressed := true;
      if piece != null && gameRules.CanMove(piece) {
        selectedPiece := piece;
        dragging := true;
        var moves := gameRules.GetValidMoves(piece, world.virtualGrid);
        piece.validMoves := moves;
      }
    }

    /** The current selection would be executed by release_piece. */
    predicate ReleaseIsValid()
      reads this, selectedPiece
    {
      selectedPiece != null && targetSquare.Some? && targetSquare.value in selectedPiece.validMoves
    }

    /** release_piece. A valid move (the target is among the piece's stored
        moves) clears the source cell, puts the piece on the target, drops
        the captured piece from piece_entities, clears the stored moves and
        switches the turn. An invalid target leaves the grid, the list, the
        piece's square and the turn as they were and clears the stored
        moves. The selection state is reset in every case. */
    method ReleasePiece(world: ChessWorld)
      requires world.Valid()
      requires selectedPiece != null ==>
                 OnBoard(Pieces.At(selectedPiece)) && world.virtualGrid[selectedPiece.gridZ][selectedPiece.gridX] == selectedPiece
      requires targetSquare.Some? ==> OnBoard(targetSquare.value)
      modifies this, world, selectedPiece, gameRules
      ensures world.Valid()
      ensures selectedPiece == null && targetSquare == None && !dragging && !mousePressed
      ensures old(ReleaseIsValid()) ==>
                var p := old(selectedPiece);
                var s := old(targetSquare).value;
                world.virtualGrid[s.z][s.x] == p &&
                ((old(p.gridX), old(p.gridZ)) != (s.x, s.z) ==> world.virtualGrid[old(p.gridZ)][old(p.gridX)] == null) &&
                (forall z, x :: InBounds(x, z) && (x, z) != (s.x, s.z) && (x, z) != (old(p.gridX), old(p.gridZ)) ==>
                   world.virtualGrid[z][x] == old(world.virtualGrid[z][x])) &&
                p.gridX == s.x && p.gridZ == s.z && p.validMoves == [] &&
                world.pieceEntities == WithoutCaptured(old(world.pieceEntities), old(world.virtualGrid[s.z][s.x])) &&
                gameRules.currentTurn == Other(old(gameRules.currentTurn))
      ensures !old(ReleaseIsValid()) ==>
                world.virtualGrid == old(world.virtualGrid) && world.pieceEntities == old(world.pieceEntities) &&
                gameRules.currentTurn == old(gameRules.currentTurn) &&
                (old(selectedPiece) != null ==>
                   old(selectedPiece).gridX == old(selectedPiece.gridX) && old(selectedPiece).gridZ == old(selectedPiece.gridZ) &&
                   old(selectedPiece).validMoves == (if old(targetSquare).Some? then [] else old(selectedPiece.validMoves)))
    {
      mousePressed := false;
      var p := selectedPiece;
      if p != null && targetSquare.Some? {
        var s := targetSquare.value;
        if s in p.validMoves {
          world.ExecuteMove(p, s);
          p.validMoves := [];
          gameRules.SwitchTurn();
        } else {
          p.validMoves := [];
        }
      }
      selectedPiece := null;
      targetSquare := None;
      dragging := false;
    }
  }
}
