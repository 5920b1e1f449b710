/** The move generators of src/entities/pieces.py (the same code is nested in
    3d_chess.py): each walks its direction or offset list with loops and
    appends to a local list that it returns. None of them has a modifies
    clause: the grid and the piece are only read. Each is proved to return
    exactly the list that module Moves specifies. */
module Pieces {
  import opened Core
  import opened Entities
  import opened Moves

  /** The square the piece's grid_x and grid_z name. */
  function At(p: ChessPiece): Square
    reads p`gridX, p`gridZ
  {
    Square(p.gridX, p.gridZ)
  }

  /** One `while True` ray: step along d, append each square reached, and
      stop after the first occupied one or at the edge. */
  method RayMoves(g: Grid, s: Square, d: Dir) returns (ray: seq<Square>)
    requires IsGrid(g) && OnBoard(s) && IsUnit(d)
    ensures ray == Ray(g, s, d)
  {
    var cur := s;
    ray := [];
    while true
      invariant OnBoard(cur)
      invariant ray + Ray(g, cur, d) == Ray(g, s, d)
      decreases Reach(cur, d)
    {
      var n := Next(cur, d);
      if !OnBoard(n) {
        break;
      }
      ghost var rest := Ray(g, n, d);
      assert ray + Ray(g, cur, d) == (ray + [n]) + (if g[n.z][n.x] != null then [] else rest);
      ray := ray + [n];
      if g[n.z][n.x] != null {
        break;
      }
      cur := n;
    }
  }

  /** The body shared by Rook, Bishop and Queen: one ray per direction, in order. */
  method SlideMoves(g: Grid, s: Square, dirs: seq<Dir>) returns (moves: seq<Square>)
    requires IsGrid(g) && OnBoard(s) && AllUnit(dirs)
    ensures moves == Slide(g, s, dirs)
  {
    moves := [];
    for i := 0 to |dirs|
      invariant moves == Slide(g, s, dirs[..i])
    {
      assert dirs[..i + 1][..i] == dirs[..i];
      var ray := RayMoves(g, s, dirs[i]);
      moves := moves + ray;
    }
    assert dirs[..|dirs|] == dirs;
  }

  /** The body shared by Knight and King: each offset in order, kept when
      it lands on the board on an empty or enemy-held square. */
  method JumpMoves(g: Grid, s: Square, isBlack: bool, offsets: seq<Dir>) returns (moves: seq<Square>)
    requires IsGrid(g)
    ensures moves == Jumps(g, s, isBlack, offsets)
  {
    moves := [];
    for i := 0 to |offsets|
      invariant moves == Jumps(g, s, isBlack, offsets[..i])
    {
      assert offsets[..i + 1][..i] == offsets[..i];
      var t := Next(s, offsets[i]);
      if OnBoard(t) {
        var target := g[t.z][t.x];
        if target == null || target.isBlack != isBlack {
          moves := moves + [t];
        }
      }
    }
    assert offsets[..|offsets|] == offsets;
  }

  /** The pawn's `for dx in [-1, 1]` capture loop. */
  method PawnCaptureMoves(g: Grid, s: Square, isBlack: bool, dxs: seq<int>) returns (moves: seq<Square>)
    requires IsGrid(g)
    ensures moves == PawnCaptures(g, s, isBlack, dxs)
  {
    var newZ := s.z + PawnDirection(isBlack);
    moves := [];
    for i := 0 to |dxs|
      invariant moves == PawnCaptures(g, s, isBlack, dxs[..i])
    {
      assert dxs[..i + 1][..i] == dxs[..i];
      var newX := s.x + dxs[i];
      if 0 <= newX < Size && 0 <= newZ < Size {
        var target := g[newZ][newX];
        if target != null && target.isBlack != isBlack {
          moves := moves + [Square(newX, newZ)];
        }
      }
    }
    assert dxs[..|dxs|] == dxs;
  }

  method PawnMoves(p: ChessPiece, g: Grid) returns (moves: seq<Square>)
    requires IsGrid(g) && OnBoard(At(p))
    ensures moves == PawnTargets(g, At(p), p.isBlack)
  {
    moves := [];
    var direction := if p.isBlack then 1 else -1;
    var newZ := p.gridZ + direction;
    if 0 <= newZ < Size && g[newZ][p.gridX] == null {
      moves := moves + [Square(p.gridX, newZ)];
      if (p.isBlack && p.gridZ == 1) || (!p.isBlack && p.gridZ == 6) {
        var twoZ := newZ + direction;
        if 0 <= twoZ < Size && g[twoZ][p.gridX] == null {
          moves := moves + [Square(p.gridX, twoZ)];
        }
      }
    }
    var captures := PawnCaptureMoves(g, At(p), p.isBlack, [-1, 1]);
    moves := moves + captures;
  }

  method RookMoves(p: ChessPiece, g: Grid) returns (moves: seq<Square>)
    requires IsGrid(g) && OnBoard(At(p))
    ensures moves == Slide(g, At(p), RookDirs)
  {
    moves := SlideMoves(g, At(p), RookDirs);
  }

  method KnightMoves(p: ChessPiece, g: Grid) returns (moves: seq<Square>)
    requires IsGrid(g) && OnBoard(At(p))
    ensures moves == Jumps(g, At(p), p.isBlack, KnightOffsets)
  {
    moves := JumpMoves(g, At(p), p.isBlack, KnightOffsets);
  }

  method BishopMoves(p: ChessPiece, g: Grid) returns (moves: seq<Square>)
    requires IsGrid(g) && OnBoard(At(p))
    ensures moves == Slide(g, At(p), BishopDirs)
  {
    moves := SlideMoves(g, At(p), BishopDirs);
  }

  /** The queen's candidates are the rook's followed by the bishop's. */
  method QueenMoves(p: ChessPiece, g: Grid) returns (moves: seq<Square>)
    requires IsGrid(g) && OnBoard(At(p))
    ensures moves == Slide(g, At(p), QueenDirs)
    ensures moves == Slide(g, At(p), RookDirs) + Slide(g, At(p), BishopDirs)
  {
    moves := SlideMoves(g, At(p), QueenDirs);
    QueenIsRookThenBishop(g, At(p));
  }

  method KingMoves(p: ChessPiece, g: Grid) returns (moves: seq<Square>)
    requires IsGrid(g) && OnBoard(At(p))
    ensures moves == Jumps(g, At(p), p.isBlack, KingOffsets)
  {
    moves := JumpMoves(g, At(p), p.isBlack, KingOffsets);
  }

  /** piece.get_valid_moves(grid), dispatched on the piece's class; every
      square it returns is on the board. */
  method GetValidMoves(p: ChessPiece, g: Grid) returns (moves: seq<Square>)
    requires IsGrid(g) && OnBoard(At(p))
    ensures moves == Candidates(p.kind, g, At(p), p.isBlack)
    ensures forall t :: t in moves ==> OnBoard(t)
  {
    match p.kind {
      case Pawn => moves := PawnMoves(p, g);
      case Rook => moves := RookMoves(p, g);
      case Knight => moves := KnightMoves(p, g);
      case Bishop => moves := BishopMoves(p, g);
      case Queen => moves := QueenMoves(p, g);
      case King => moves := KingMoves(p, g);
    }
    CandidatesOnBoard(p.kind, g, At(p), p.isBlack);
  }

  /** piece_classes: kind name to piece class. */
  const PieceClasses: map<string, Kind> :=
    map["pawn" := Pawn, "rook" := Rook, "knight" := Knight,
        "bishop" := Bishop, "queen" := Queen, "king" := King]

  /** The table names each of the six kinds by its own name, and nothing else. */
  lemma PieceClassesComplete()
    ensures forall k: Kind :: KindName(k) in PieceClasses && PieceClasses[KindName(k)] == k
    ensures forall name :: name in PieceClasses ==> KindName(PieceClasses[name]) == name
  {
    forall k: Kind ensures KindName(k) in PieceClasses && PieceClasses[KindName(k)] == k {
      match k
      case Pawn =>
      case Rook =>
      case Knight =>
      case Bishop =>
      case Queen =>
      case King =>
    }
  }
}
