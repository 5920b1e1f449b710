/** GameState of web/src/game.ts: the turn gate on selecting a piece and
    the grid rebuilt from the list of pieces. The markers of the valid
    moves are rendering, and getValidMoves of web/src/core.ts returns no
    moves. */
module WebGame {
  import opened Core
  import opened Shared

  /** Laying pieces in order leaves a square no call names as it was, ... */
  lemma {:induction false} LayKeeps(g: PieceGrid, cs: seq<Call>, ps: seq<Piece>)
    requires IsGrid(g) && |cs| == |ps|
    ensures forall s :: OnBoard(s) && s !in Squares(cs) ==> Lay(g, cs, ps)[s.z][s.x] == g[s.z][s.x]
  {
    if cs != [] {
      var n := |cs| - 1;
      LayKeeps(g, cs[..n], ps[..n]);
      forall s | OnBoard(s) && s !in Squares(cs) ensures s !in Squares(cs[..n]) {
        forall c | c in cs[..n] ensures c.at != s {
          assert c in cs;
        }
      }
      assert cs[n] in cs;
    }
  }

  /** ... fills every square some call names, ... */
  lemma {:induction false} LayFills(g: PieceGrid, cs: seq<Call>, ps: seq<Piece>)
    requires IsGrid(g) && |cs| == |ps| && AllOnBoard(cs)
    ensures forall s :: s in Squares(cs) ==> Lay(g, cs, ps)[s.z][s.x] != null
  {
    if cs != [] {
      var n := |cs| - 1;
      var pre := cs[..n];
      assert AllOnBoard(pre) by {
        forall i | 0 <= i < n ensures OnBoard(pre[i].at) {
          assert pre[i] == cs[i];
        }
      }
      LayFills(g, pre, ps[..n]);
      forall s | s in Squares(cs) && s != cs[n].at ensures s in Squares(pre) {
        var c :| c in cs && c.at == s;
        var i :| 0 <= i < |cs| && cs[i] == c;
        assert i < n && pre[i] == c;
      }
    }
  }

  /** ... and the square of a call holds that call's piece when no later
      call names the same square: the last piece on a square wins. */
  lemma {:induction false} LayLast(g: PieceGrid, cs: seq<Call>, ps: seq<Piece>)
    requires IsGrid(g) && |cs| == |ps| && AllOnBoard(cs)
    ensures forall k :: 0 <= k < |cs| && (forall j :: k < j < |cs| ==> cs[j].at != cs[k].at) ==>
              Lay(g, cs, ps)[cs[k].at.z][cs[k].at.x] == ps[k]
  {
    if cs != [] {
      var n := |cs| - 1;
      var pre := cs[..n];
      assert AllOnBoard(pre) by {
        forall i | 0 <= i < n ensures OnBoard(pre[i].at) {
          assert pre[i] == cs[i];
        }
      }
      LayLast(g, pre, ps[..n]);
      forall k | 0 <= k < n && (forall j :: k < j < |cs| ==> cs[j].at != cs[k].at)
        ensures Lay(g, cs, ps)[cs[k].at.z][cs[k].at.x] == ps[k]
      {
        assert cs[n].at != cs[k].at;
        assert pre[k] == cs[k] && ps[..n][k] == ps[k];
        forall j | k < j < n ensures pre[j].at != pre[k].at {
          assert pre[j] == cs[j];
        }
      }
    }
  }

  /** The cells of the grid getBoardState builds from pieces standing on
      the board: a square is null exactly when no piece stands there, and
      a piece no later piece shares its square with is found on it. */
  lemma BoardCells(ps: seq<Piece>)
    requires forall p :: p in ps ==> InBounds(p.gridX, p.gridZ)
    ensures forall s :: OnBoard(s) ==>
              (Lay(Filled(null), Describe(ps), ps)[s.z][s.x] == null <==> s !in Squares(Describe(ps)))
    ensures forall k ::
              (0 <= k < |ps| &&
               forall j :: k < j < |ps| ==> (ps[j].gridX, ps[j].gridZ) != (ps[k].gridX, ps[k].gridZ)) ==>
              Lay(Filled(null), Describe(ps), ps)[ps[k].gridZ][ps[k].gridX] == ps[k]
  {
    var cs := Describe(ps);
    assert AllOnBoard(cs) by {
      forall i | 0 <= i < |cs| ensures OnBoard(cs[i].at) {
        assert ps[i] in ps;
      }
    }
    LayKeeps(Filled(null), cs, ps);
    LayFills(Filled(null), cs, ps);
    LayLast(Filled(null), cs, ps);
  }

  class GameState {
    var selectedPiece: Piece?
    var currentPlayer: Side
    var pieces: seq<Piece>

    /** White to play, nothing selected, no pieces. */
    constructor ()
      ensures currentPlayer == White && selectedPiece == null && pieces == []
    {
      selectedPiece := null;
      currentPlayer := White;
      pieces := [];
    }

    /** handlePieceSelection: a piece of the side not to play is ignored;
        otherwise it becomes the selected piece. */
    method HandlePieceSelection(piece: Piece)
      modifies this
      ensures piece.isBlack != (old(currentPlayer) == Black) ==> selectedPiece == old(selectedPiece)
      ensures piece.isBlack == (old(currentPlayer) == Black) ==> selectedPiece == piece
      ensures currentPlayer == old(currentPlayer) && pieces == old(pieces)
    {
      if piece.isBlack != (currentPlayer == Black) {
        return;
      }
      selectedPiece := piece;
    }

    /** getBoardState: a fresh 8 x 8 grid of nulls with each piece written
        on its own square, in list order. A square holds a piece exactly
        when some piece stands there, and then the last such piece. */
    method GetBoardState() returns (board: PieceGrid)
      requires forall p :: p in pieces ==> InBounds(p.gridX, p.gridZ)
      ensures IsGrid(board) && board == Lay(Filled(null), Describe(pieces), pieces)
    {
      board := Filled(null);
      for i := 0 to |pieces|
        invariant IsGrid(board) && board == Lay(Filled(null), Describe(pieces[..i]), pieces[..i])
      {
        var p := pieces[i];
        assert p in pieces;
        BoardStep(pieces, i);
        board := Write(board, p.gridX, p.gridZ, p);
      }
      assert pieces[..|pieces|] == pieces;
    }
  }

  /** One step of the forEach: laying the first i + 1 pieces is laying the
      first i and then writing piece i on its square. */
  lemma BoardStep(ps: seq<Piece>, i: int)
    requires 0 <= i < |ps| && InBounds(ps[i].gridX, ps[i].gridZ)
    ensures Lay(Filled(null), Describe(ps[..i + 1]), ps[..i + 1]) ==
            Write(Lay(Filled(null), Describe(ps[..i]), ps[..i]), ps[i].gridX, ps[i].gridZ, ps[i])
  {
    assert ps[..i + 1] == ps[..i] + [ps[i]];
    DescribeStep(ps[..i], ps[i]);
    LayStep(Filled(null), Describe(ps[..i]), ps[..i], PieceCall(ps[i]), ps[i]);
  }
}
