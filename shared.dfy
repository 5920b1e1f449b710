/** The parts the two TypeScript games share: the ChessPiece entity of
    apps/frontend/src/game/core.ts and web/src/core.ts, the card record, and
    the start-of-game placement that both BoardManager.setupInitialPieces
    perform through placeInitialPiece. */
module Shared {
  import opened Core
  import Layout

  /** A ChessPiece: its type, its colour as a boolean (the second
      constructor argument both boards pass is `color === 'black'`), and
      the grid coordinates that movePiece updates. */
  class Piece {
    const kind: Kind
    const isBlack: bool
    var gridX: int
    var gridZ: int

    constructor (kind: Kind, isBlack: bool, gridX: int, gridZ: int)
      ensures this.kind == kind && this.isBlack == isBlack && this.gridX == gridX && this.gridZ == gridZ
    {
      this.kind := kind;
      this.isBlack := isBlack;
      this.gridX := gridX;
      this.gridZ := gridZ;
    }
  }

  /** virtualGrid: grid[z][x] holds a piece or null. */
  type PieceGrid = seq<seq<Piece?>>

  /** A card: which piece it summons, for which side, and its artwork. The
      cardType and monsterType fields are the constants 'normal' and
      'dragon' on every card and are not modelled. */
  datatype Card = Card(pieceType: Kind, color: Side, texture: string)

  /** A card mesh laid on the board (state.boardCards): the card it shows
      and the square it was put on. */
  datatype BoardCard = BoardCard(card: Card, at: Square)

  /** The key `${color}_${type}` under which pieceModels holds a model. */
  function ModelKey(side: Side, kind: Kind): string {
    SideName(side) + "_" + KindName(kind)
  }

  lemma ModelKeyInjective(s1: Side, k1: Kind, s2: Side, k2: Kind)
    requires ModelKey(s1, k1) == ModelKey(s2, k2)
    ensures s1 == s2 && k1 == k2
  {
    var a, b := ModelKey(s1, k1), ModelKey(s2, k2);
    assert a[0] == b[0];
    assert s1 == s2;
    var n := |SideName(s1)| + 1;
    assert KindName(k1) == a[n..] && KindName(k2) == b[n..];
  }

  /** movePiece on a grid: the piece's old cell is cleared, then the piece
      is written to the new one. */
  function Moved(g: PieceGrid, from: Square, to: Square, p: Piece): PieceGrid
    requires IsGrid(g) && OnBoard(from) && OnBoard(to)
  {
    Write(Write(g, from.x, from.z, null), to.x, to.z, p)
  }

  /** The new square holds the piece, the old one is empty unless it is the
      new one, and no other cell changes. */
  lemma MovedCells(g: PieceGrid, from: Square, to: Square, p: Piece)
    requires IsGrid(g) && OnBoard(from) && OnBoard(to)
    ensures IsGrid(Moved(g, from, to, p))
    ensures Moved(g, from, to, p)[to.z][to.x] == p
    ensures from != to ==> Moved(g, from, to, p)[from.z][from.x] == null
    ensures forall s :: OnBoard(s) && s != from && s != to ==> Moved(g, from, to, p)[s.z][s.x] == g[s.z][s.x]
  {
  }

  /** One placeInitialPiece(type, color, x, z) call. */
  datatype Call = Call(kind: Kind, side: Side, at: Square)

  /** One row of the pieceSetup table: a kind and its starting squares. */
  datatype SetupRow = SetupRow(kind: Kind, positions: seq<Square>)

  const RookRow: SetupRow := SetupRow(Rook, [Square(0, 0), Square(7, 0), Square(0, 7), Square(7, 7)])
  const KnightRow: SetupRow := SetupRow(Knight, [Square(1, 0), Square(6, 0), Square(1, 7), Square(6, 7)])
  const BishopRow: SetupRow := SetupRow(Bishop, [Square(2, 0), Square(5, 0), Square(2, 7), Square(5, 7)])
  const QueenRow: SetupRow := SetupRow(Queen, [Square(3, 0), Square(3, 7)])
  const KingRow: SetupRow := SetupRow(King, [Square(4, 0), Square(4, 7)])

  const PieceSetup: seq<SetupRow> := [RookRow, KnightRow, BishopRow, QueenRow, KingRow]

  /** isBlack = z > 4 */
  function SetupSide(z: int): Side {
    if z > 4 then Black else White
  }

  /** The calls of `positions.forEach` for one row, in order. */
  function RowCalls(kind: Kind, ps: seq<Square>): (r: seq<Call>)
    ensures |r| == |ps|
    ensures forall i :: 0 <= i < |r| ==> r[i] == Call(kind, SetupSide(ps[i].z), ps[i])
  {
    if ps == [] then []
    else
      var n := |ps| - 1;
      RowCalls(kind, ps[..n]) + [Call(kind, SetupSide(ps[n].z), ps[n])]
  }

  /** The calls of `pieceSetup.forEach`, row after row. */
  function MainCalls(setup: seq<SetupRow>): seq<Call> {
    if setup == [] then []
    else
      var n := |setup| - 1;
      MainCalls(setup[..n]) + RowCalls(setup[n].kind, setup[n].positions)
  }

  /** The pawn loop over the first x columns: in each, a white pawn on
      row 1 and then a black pawn on row 6. */
  function PawnCalls(x: int): (r: seq<Call>)
    requires 0 <= x <= Size
    ensures |r| == 2 * x
  {
    if x == 0 then []
    else PawnCalls(x - 1) + [Call(Pawn, White, Square(x - 1, 1)), Call(Pawn, Black, Square(x - 1, 6))]
  }

  /** The side and the square of the i-th call of the pawn loop. */
  function PawnSide(i: int): Side {
    if i % 2 == 0 then White else Black
  }

  function PawnSquare(i: int): Square {
    Square(i / 2, if i % 2 == 0 then 1 else 6)
  }

  /** The i-th call of the pawn loop is a pawn of PawnSide(i) on PawnSquare(i). */
  lemma {:induction false} PawnCallsAt(x: int)
    requires 0 <= x <= Size
    ensures forall i :: 0 <= i < 2 * x ==> PawnCalls(x)[i] == Call(Pawn, PawnSide(i), PawnSquare(i))
  {
    if x > 0 {
      PawnCallsAt(x - 1);
      var pre := PawnCalls(x - 1);
      forall i | 0 <= i < 2 * x ensures PawnCalls(x)[i] == Call(Pawn, PawnSide(i), PawnSquare(i)) {
        if i < 2 * x - 2 {
          assert PawnCalls(x)[i] == pre[i];
        }
      }
    }
  }

  /** Every placeInitialPiece call of setupInitialPieces, in order. */
  function SetupCalls(): seq<Call> {
    MainCalls(PieceSetup) + PawnCalls(Size)
  }

  /** The squares a list of calls names. */
  function Squares(cs: seq<Call>): set<Square> {
    set c | c in cs :: c.at
  }

  /** No two calls of the list name the same square. */
  predicate DistinctAt(cs: seq<Call>) {
    forall i, j :: 0 <= i < j < |cs| ==> cs[i].at != cs[j].at
  }

  lemma DistinctAppend(a: seq<Call>, b: seq<Call>)
    requires DistinctAt(a) && DistinctAt(b) && Squares(a) !! Squares(b)
    ensures DistinctAt(a + b)
  {
    forall i, j | 0 <= i < j < |a + b| ensures (a + b)[i].at != (a + b)[j].at {
      if j < |a| {
        assert (a + b)[i] == a[i] && (a + b)[j] == a[j];
      } else if i < |a| {
        assert (a + b)[i] == a[i] && (a + b)[j] == b[j - |a|];
        assert a[i].at in Squares(a) && b[j - |a|].at in Squares(b);
      } else {
        assert (a + b)[i] == b[i - |a|] && (a + b)[j] == b[j - |a|];
      }
    }
  }

  /** Calls on the back ranks with the kind the Python back row has in
      their column and the side setupInitialPieces gives their row. */
  ghost predicate BackRank(cs: seq<Call>) {
    forall c :: c in cs ==>
      OnBoard(c.at) && c.kind != Pawn && (c.at.z == 0 || c.at.z == 7) && c.side == SetupSide(c.at.z) &&
      Layout.BackRow[c.at.x] == Some(c.kind)
  }

  ghost predicate InColumns(cs: seq<Call>, cols: set<int>) {
    forall c :: c in cs ==> c.at.x in cols
  }

  /** A table row whose positions are distinct back-rank squares in the
      given columns, where the Python back row has the row's kind. */
  lemma RowOk(kind: Kind, ps: seq<Square>, cols: set<int>)
    requires kind != Pawn
    requires forall i :: 0 <= i < |ps| ==>
               OnBoard(ps[i]) && ps[i].x in cols && (ps[i].z == 0 || ps[i].z == 7) && Layout.BackRow[ps[i].x] == Some(kind)
    requires forall i, j :: 0 <= i < j < |ps| ==> ps[i] != ps[j]
    ensures BackRank(RowCalls(kind, ps)) && InColumns(RowCalls(kind, ps), cols) && DistinctAt(RowCalls(kind, ps))
  {
    var cs := RowCalls(kind, ps);
    forall c | c in cs
      ensures OnBoard(c.at) && c.kind != Pawn && c.at.x in cols && (c.at.z == 0 || c.at.z == 7) &&
              c.side == SetupSide(c.at.z) && Layout.BackRow[c.at.x] == Some(c.kind)
    {
      var i :| 0 <= i < |cs| && cs[i] == c;
    }
  }

  lemma RookRowOk()
    ensures BackRank(RowCalls(Rook, RookRow.positions)) && InColumns(RowCalls(Rook, RookRow.positions), {0, 7}) &&
            DistinctAt(RowCalls(Rook, RookRow.positions))
  {
    RowOk(Rook, RookRow.positions, {0, 7});
  }

  lemma KnightRowOk()
    ensures BackRank(RowCalls(Knight, KnightRow.positions)) && InColumns(RowCalls(Knight, KnightRow.positions), {1, 6}) &&
            DistinctAt(RowCalls(Knight, KnightRow.positions))
  {
    RowOk(Knight, KnightRow.positions, {1, 6});
  }

  lemma BishopRowOk()
    ensures BackRank(RowCalls(Bishop, BishopRow.positions)) && InColumns(RowCalls(Bishop, BishopRow.positions), {2, 5}) &&
            DistinctAt(RowCalls(Bishop, BishopRow.positions))
  {
    RowOk(Bishop, BishopRow.positions, {2, 5});
  }

  lemma QueenRowOk()
    ensures BackRank(RowCalls(Queen, QueenRow.positions)) && InColumns(RowCalls(Queen, QueenRow.positions), {3}) &&
            DistinctAt(RowCalls(Queen, QueenRow.positions))
  {
    RowOk(Queen, QueenRow.positions, {3});
  }

  lemma KingRowOk()
    ensures BackRank(RowCalls(King, KingRow.positions)) && InColumns(RowCalls(King, KingRow.positions), {4}) &&
            DistinctAt(RowCalls(King, KingRow.positions))
  {
    RowOk(King, KingRow.positions, {4});
  }

  /** Two runs of back-rank calls in disjoint columns join into one. */
  lemma JoinRows(a: seq<Call>, ca: set<int>, b: seq<Call>, cb: set<int>)
    requires BackRank(a) && InColumns(a, ca) && DistinctAt(a)
    requires BackRank(b) && InColumns(b, cb) && DistinctAt(b)
    requires ca !! cb
    ensures BackRank(a + b) && InColumns(a + b, ca + cb) && DistinctAt(a + b)
  {
    DistinctAppend(a, b);
  }

  /** The five rows of the table, joined in order, in columns that do not meet. */
  lemma JoinFive(r0: seq<Call>, r1: seq<Call>, r2: seq<Call>, r3: seq<Call>, r4: seq<Call>)
    requires BackRank(r0) && InColumns(r0, {0, 7}) && DistinctAt(r0)
    requires BackRank(r1) && InColumns(r1, {1, 6}) && DistinctAt(r1)
    requires BackRank(r2) && InColumns(r2, {2, 5}) && DistinctAt(r2)
    requires BackRank(r3) && InColumns(r3, {3}) && DistinctAt(r3)
    requires BackRank(r4) && InColumns(r4, {4}) && DistinctAt(r4)
    ensures BackRank((((r0 + r1) + r2) + r3) + r4) && DistinctAt((((r0 + r1) + r2) + r3) + r4)
  {
    JoinRows(r0, {0, 7}, r1, {1, 6});
    JoinRows(r0 + r1, {0, 7, 1, 6}, r2, {2, 5});
    JoinRows((r0 + r1) + r2, {0, 7, 1, 6, 2, 5}, r3, {3});
    JoinRows(((r0 + r1) + r2) + r3, {0, 7, 1, 6, 2, 5, 3}, r4, {4});
  }

  /** One round of pieceSetup.forEach adds the calls of row e. */
  lemma MainCallsStep(setup: seq<SetupRow>, e: int)
    requires 0 <= e < |setup|
    ensures MainCalls(setup[..e + 1]) == MainCalls(setup[..e]) + RowCalls(setup[e].kind, setup[e].positions)
  {
    assert setup[..e + 1][..e] == setup[..e];
  }

  /** The table's calls are the five rows' calls in order. */
  lemma MainCallsRows()
    ensures MainCalls(PieceSetup) ==
            (((RowCalls(Rook, RookRow.positions) + RowCalls(Knight, KnightRow.positions)) +
            RowCalls(Bishop, BishopRow.positions)) + RowCalls(Queen, QueenRow.positions)) +
            RowCalls(King, KingRow.positions)
  {
    MainCallsStep(PieceSetup, 0);
    MainCallsStep(PieceSetup, 1);
    MainCallsStep(PieceSetup, 2);
    MainCallsStep(PieceSetup, 3);
    MainCallsStep(PieceSetup, 4);
    assert PieceSetup[..0] == [];
    assert PieceSetup[..5] == PieceSetup;
  }

  lemma MainCallsShape()
    ensures BackRank(MainCalls(PieceSetup)) && DistinctAt(MainCalls(PieceSetup))
  {
    RookRowOk();
    KnightRowOk();
    BishopRowOk();
    QueenRowOk();
    KingRowOk();
    MainCallsRows();
    JoinFive(RowCalls(Rook, RookRow.positions), RowCalls(Knight, KnightRow.positions),
             RowCalls(Bishop, BishopRow.positions), RowCalls(Queen, QueenRow.positions),
             RowCalls(King, KingRow.positions));
  }

  lemma PawnSquareInjective(i: int, j: int)
    requires 0 <= i < j
    ensures PawnSquare(i) != PawnSquare(j)
  {
  }

  /** The pawn loop over the first x columns puts each pawn on its own
      square of row 1 (white) or row 6 (black). */
  lemma PawnCallsShape(x: int)
    requires 0 <= x <= Size
    ensures DistinctAt(PawnCalls(x)) && PawnRanks(PawnCalls(x))
  {
    var ps := PawnCalls(x);
    PawnCallsAt(x);
    forall i, j | 0 <= i < j < |ps| ensures ps[i].at != ps[j].at {
      PawnSquareInjective(i, j);
    }
    forall c | c in ps
      ensures OnBoard(c.at) && c.kind == Pawn && ((c.side == White && c.at.z == 1) || (c.side == Black && c.at.z == 6))
    {
      var i :| 0 <= i < |ps| && ps[i] == c;
    }
  }

  /** What the setup promises of one call: it is on the board; it is black
      exactly when its row is beyond 4 and white exactly on rows 0 and 1;
      and its kind is the one the Python layout table has on that square. */
  ghost predicate CallShape(c: Call) {
    OnBoard(c.at) && (c.side == Black <==> c.at.z > 4) && (c.side == White <==> c.at.z <= 1) &&
    Layout.Entry(Layout.PiecePositions, c.at) == Some(c.kind)
  }

  /** ... and of a list of calls: each call so, each on a square of its own. */
  ghost predicate SetupShape(cs: seq<Call>) {
    DistinctAt(cs) && forall c :: c in cs ==> CallShape(c)
  }

  /** The pawn-row calls setupInitialPieces makes: white on row 1, black on row 6. */
  ghost predicate PawnRanks(p: seq<Call>) {
    forall c :: c in p ==>
      OnBoard(c.at) && c.kind == Pawn && ((c.side == White && c.at.z == 1) || (c.side == Black && c.at.z == 6))
  }

  lemma BackRankShape(m: seq<Call>)
    requires BackRank(m)
    ensures forall c :: c in m ==> CallShape(c)
  {
    forall c | c in m ensures CallShape(c) {
      Layout.PiecePositionsRows(c.at.x);
    }
  }

  lemma PawnRanksShape(p: seq<Call>)
    requires PawnRanks(p)
    ensures forall c :: c in p ==> CallShape(c)
  {
    forall c | c in p ensures CallShape(c) {
      Layout.PiecePositionsRows(c.at.x);
    }
  }

  /** Back-rank calls and pawn-row calls never share a square. */
  lemma BackAndPawnsApart(m: seq<Call>, p: seq<Call>)
    requires BackRank(m) && PawnRanks(p)
    ensures Squares(m) !! Squares(p)
  {
  }

  /** Back-rank calls and pawn-row calls, each to distinct squares, join. */
  lemma JoinBackAndPawns(m: seq<Call>, p: seq<Call>)
    requires BackRank(m) && DistinctAt(m) && PawnRanks(p) && DistinctAt(p)
    ensures SetupShape(m + p)
  {
    BackAndPawnsApart(m, p);
    DistinctAppend(m, p);
    BackRankShape(m);
    PawnRanksShape(p);
  }

  /** The setup places 32 pieces as SetupShape says. */
  lemma SetupCallsShape()
    ensures |SetupCalls()| == 32 && SetupShape(SetupCalls())
  {
    MainCallsShape();
    PawnCallsShape(Size);
    SetupRowsCount();
    JoinBackAndPawns(MainCalls(PieceSetup), PawnCalls(Size));
  }

  lemma SetupRowsCount()
    ensures |MainCalls(PieceSetup)| == 16
  {
    MainCallsRows();
  }

  /** Every square of the Python layout that has an entry gets a call. */
  lemma SetupCallsCover(s: Square)
    requires OnBoard(s) && Layout.Entry(Layout.PiecePositions, s).Some?
    ensures s in Squares(SetupCalls())
  {
    Layout.PiecePositionsRows(s.x);
    var m, p := MainCalls(PieceSetup), PawnCalls(Size);
    if s.z == 1 || s.z == 6 {
      var i := 2 * s.x + (if s.z == 1 then 0 else 1);
      PawnCallsAt(Size);
      assert p[i].at == s;
      assert p[i] in m + p;
    } else {
      var c := CoverBackRank(s);
      MainCallsRows();
      assert c in m + p;
    }
  }

  /** A back-rank square is the square of one of the five rows' calls. */
  lemma CoverBackRank(s: Square) returns (c: Call)
    requires OnBoard(s) && (s.z == 0 || s.z == 7)
    ensures c.at == s
    ensures c in RowCalls(Rook, RookRow.positions) || c in RowCalls(Knight, KnightRow.positions) ||
            c in RowCalls(Bishop, BishopRow.positions) || c in RowCalls(Queen, QueenRow.positions) ||
            c in RowCalls(King, KingRow.positions)
  {
    var z := if s.z == 0 then 0 else 1;
    if s.x == 0 || s.x == 7 {
      c := RowCallAt(Rook, RookRow.positions, (if s.x == 0 then 0 else 1) + 2 * z);
    } else if s.x == 1 || s.x == 6 {
      c := RowCallAt(Knight, KnightRow.positions, (if s.x == 1 then 0 else 1) + 2 * z);
    } else if s.x == 2 || s.x == 5 {
      c := RowCallAt(Bishop, BishopRow.positions, (if s.x == 2 then 0 else 1) + 2 * z);
    } else if s.x == 3 {
      c := RowCallAt(Queen, QueenRow.positions, z);
    } else {
      c := RowCallAt(King, KingRow.positions, z);
    }
  }

  lemma RowCallAt(kind: Kind, ps: seq<Square>, i: int) returns (c: Call)
    requires 0 <= i < |ps|
    ensures c in RowCalls(kind, ps) && c.at == ps[i]
  {
    c := RowCalls(kind, ps)[i];
  }

  /** The calls whose model is present in pieceModels. */
  function WithModel(cs: seq<Call>, models: set<string>): seq<Call> {
    if cs == [] then []
    else
      var n := |cs| - 1;
      WithModel(cs[..n], models) + (if ModelKey(cs[n].side, cs[n].kind) in models then [cs[n]] else [])
  }

  /** A call is kept exactly when it is one of the calls and its model is present. */
  lemma {:induction false} WithModelMember(cs: seq<Call>, models: set<string>)
    ensures forall c :: c in WithModel(cs, models) <==> c in cs && ModelKey(c.side, c.kind) in models
  {
    if cs != [] {
      var n := |cs| - 1;
      WithModelMember(cs[..n], models);
      assert cs == cs[..n] + [cs[n]];
    }
  }

  /** Keeping only the calls with a model keeps their squares distinct. */
  lemma {:induction false} WithModelDistinct(cs: seq<Call>, models: set<string>)
    requires DistinctAt(cs)
    ensures DistinctAt(WithModel(cs, models))
  {
    if cs != [] {
      var n := |cs| - 1;
      var pre := cs[..n];
      PrefixDistinct(cs, n);
      WithModelDistinct(pre, models);
      var kept := WithModel(pre, models);
      var last := if ModelKey(cs[n].side, cs[n].kind) in models then [cs[n]] else [];
      WithModelMember(pre, models);
      forall t | t in kept ensures t.at != cs[n].at {
        var i :| 0 <= i < n && pre[i] == t;
        assert cs[i] == t;
      }
      DistinctAppend(kept, last);
    }
  }

  /** Each call is on the board. */
  ghost predicate AllOnBoard(cs: seq<Call>) {
    forall i :: 0 <= i < |cs| ==> OnBoard(cs[i].at)
  }

  lemma ShapeOnBoard(cs: seq<Call>)
    requires SetupShape(cs)
    ensures AllOnBoard(cs)
  {
    forall i | 0 <= i < |cs| ensures OnBoard(cs[i].at) {
      assert cs[i] in cs;
    }
  }

  function SideOf(isBlack: bool): Side {
    if isBlack then Black else White
  }

  /** The call a piece answers to: its kind, its colour and its square. */
  function PieceCall(p: Piece): Call
    reads p
  {
    Call(p.kind, SideOf(p.isBlack), Square(p.gridX, p.gridZ))
  }

  /** The calls the pieces of a list answer to, in order. */
  function Describe(ps: seq<Piece>): (d: seq<Call>)
    reads ps
    ensures |d| == |ps| && forall k :: 0 <= k < |ps| ==> d[k] == PieceCall(ps[k])
  {
    if ps == [] then [] else [PieceCall(ps[0])] + Describe(ps[1..])
  }

  lemma DescribeStep(ps: seq<Piece>, p: Piece)
    ensures Describe(ps + [p]) == Describe(ps) + [PieceCall(p)]
  {
  }

  /** The grid g after writing each ps[k] on the square of cs[k], in order. */
  function Lay(g: PieceGrid, cs: seq<Call>, ps: seq<Piece>): (r: PieceGrid)
    requires IsGrid(g) && |cs| == |ps|
    ensures IsGrid(r)
    decreases |cs|
  {
    if cs == [] then g
    else
      var n := |cs| - 1;
      var r0 := Lay(g, cs[..n], ps[..n]);
      if OnBoard(cs[n].at) then Write(r0, cs[n].at.x, cs[n].at.z, ps[n]) else r0
  }

  lemma LayStep(g: PieceGrid, cs: seq<Call>, ps: seq<Piece>, c: Call, p: Piece)
    requires IsGrid(g) && |cs| == |ps| && OnBoard(c.at)
    ensures Lay(g, cs + [c], ps + [p]) == Write(Lay(g, cs, ps), c.at.x, c.at.z, p)
  {
    assert (cs + [c])[..|cs|] == cs;
    assert (ps + [p])[..|ps|] == ps;
  }

  /** When the calls name distinct squares, each piece ends on its call's
      square and every square no call names keeps its old content. */
  lemma {:induction false} LayCells(g: PieceGrid, cs: seq<Call>, ps: seq<Piece>)
    requires IsGrid(g) && |cs| == |ps| && AllOnBoard(cs) && DistinctAt(cs)
    ensures forall k :: 0 <= k < |cs| ==> Lay(g, cs, ps)[cs[k].at.z][cs[k].at.x] == ps[k]
    ensures forall s :: OnBoard(s) && s !in Squares(cs) ==> Lay(g, cs, ps)[s.z][s.x] == g[s.z][s.x]
  {
    if cs != [] {
      var n := |cs| - 1;
      var pre, last := cs[..n], cs[n];
      assert AllOnBoard(pre) by {
        forall i | 0 <= i < n ensures OnBoard(pre[i].at) {
          assert pre[i] == cs[i];
        }
      }
      PrefixDistinct(cs, n);
      LayCells(g, pre, ps[..n]);
      var r0 := Lay(g, pre, ps[..n]);
      assert Lay(g, cs, ps) == Write(r0, last.at.x, last.at.z, ps[n]);
      forall k | 0 <= k < |cs| ensures Lay(g, cs, ps)[cs[k].at.z][cs[k].at.x] == ps[k] {
        if k < n {
          assert cs[k].at != cs[n].at;
          assert cs[k] == pre[k] && ps[k] == ps[..n][k];
        }
      }
      forall s | OnBoard(s) && s !in Squares(cs) ensures Lay(g, cs, ps)[s.z][s.x] == g[s.z][s.x] {
        PrefixSquares(cs, n, s);
        assert last in cs;
      }
    }
  }

  lemma PrefixDistinct(cs: seq<Call>, n: int)
    requires 0 <= n <= |cs| && DistinctAt(cs)
    ensures DistinctAt(cs[..n])
  {
    forall i, j | 0 <= i < j < n ensures cs[..n][i].at != cs[..n][j].at {
      assert cs[..n][i] == cs[i] && cs[..n][j] == cs[j];
    }
  }

  lemma PrefixSquares(cs: seq<Call>, n: int, s: Square)
    requires 0 <= n <= |cs| && s !in Squares(cs)
    ensures s !in Squares(cs[..n])
  {
    forall c | c in cs[..n] ensures c.at != s {
      assert c in cs;
    }
  }

  /** What the placement loops keep: placed holds one piece per call with
      a model, answering to that call, and the grid is g with those pieces
      laid on it in order. */
  ghost predicate SetupDone(g: PieceGrid, r: PieceGrid, placed: seq<Piece>, done: seq<Call>, models: set<string>)
    requires IsGrid(g)
    reads placed
  {
    var made := WithModel(done, models);
    |placed| == |made| && Describe(placed) == made && r == Lay(g, made, placed)
  }

  /** The squares setupInitialPieces fills: those the Python layout table
      has a kind on, when pieceModels has that kind in the row's colour. */
  ghost predicate PlacedBySetup(s: Square, models: set<string>) {
    OnBoard(s) && Layout.Entry(Layout.PiecePositions, s).Some? &&
    ModelKey(SetupSide(s.z), Layout.Entry(Layout.PiecePositions, s).value) in models
  }

  /** The whole board after the setup, part one: each square it fills
      holds a new piece standing there, of the layout's kind and of the
      side its row gives. */
  lemma SetupCells(g: PieceGrid, r: PieceGrid, placed: seq<Piece>, models: set<string>)
    requires IsGrid(g) && IsGrid(r) && SetupDone(g, r, placed, SetupCalls(), models)
    ensures forall s, k ::
              (OnBoard(s) && Layout.Entry(Layout.PiecePositions, s) == Some(k) &&
               ModelKey(SetupSide(s.z), k) in models) ==>
              r[s.z][s.x] in placed && PieceCall(r[s.z][s.x]) == Call(k, SetupSide(s.z), s)
  {
    forall s, k | OnBoard(s) && Layout.Entry(Layout.PiecePositions, s) == Some(k) &&
                  ModelKey(SetupSide(s.z), k) in models
      ensures r[s.z][s.x] in placed && PieceCall(r[s.z][s.x]) == Call(k, SetupSide(s.z), s)
    {
      SetupPlacedCell(g, r, placed, models, s, k);
    }
  }

  /** Part two: every other square holds what it held before. */
  lemma SetupKeeps(g: PieceGrid, r: PieceGrid, placed: seq<Piece>, models: set<string>)
    requires IsGrid(g) && IsGrid(r) && SetupDone(g, r, placed, SetupCalls(), models)
    ensures forall s :: OnBoard(s) && !PlacedBySetup(s, models) ==> r[s.z][s.x] == g[s.z][s.x]
  {
    forall s | OnBoard(s) && !PlacedBySetup(s, models) ensures r[s.z][s.x] == g[s.z][s.x] {
      SetupUntouchedCell(g, r, placed, models, s);
    }
  }

  /** After the setup, a square of the Python layout whose model is
      present holds a new piece of the layout's kind, of the side its row
      gives, standing on that square. */
  lemma SetupPlacedCell(g: PieceGrid, r: PieceGrid, placed: seq<Piece>, models: set<string>, s: Square, kind: Kind)
    requires IsGrid(g) && IsGrid(r) && SetupDone(g, r, placed, SetupCalls(), models)
    requires OnBoard(s) && Layout.Entry(Layout.PiecePositions, s) == Some(kind)
    requires ModelKey(SetupSide(s.z), kind) in models
    ensures r[s.z][s.x] in placed && PieceCall(r[s.z][s.x]) == Call(kind, SetupSide(s.z), s)
  {
    SetupCallsShape();
    SetupCallsCover(s);
    PlacedCell(g, r, placed, SetupCalls(), models, s, kind);
  }

  /** ... and every other square keeps what the grid held before. */
  lemma SetupUntouchedCell(g: PieceGrid, r: PieceGrid, placed: seq<Piece>, models: set<string>, s: Square)
    requires IsGrid(g) && IsGrid(r) && SetupDone(g, r, placed, SetupCalls(), models)
    requires OnBoard(s)
    requires Layout.Entry(Layout.PiecePositions, s).None? ||
             ModelKey(SetupSide(s.z), Layout.Entry(Layout.PiecePositions, s).value) !in models
    ensures r[s.z][s.x] == g[s.z][s.x]
  {
    SetupCallsShape();
    UntouchedCell(g, r, placed, SetupCalls(), models, s);
  }

  /** The calls of cs with a model, when cs is shaped as the setup
      promises, are on distinct squares of the board, each so shaped. */
  lemma ModelCallsShape(cs: seq<Call>, models: set<string>)
    requires SetupShape(cs)
    ensures AllOnBoard(WithModel(cs, models)) && DistinctAt(WithModel(cs, models))
    ensures forall c :: c in WithModel(cs, models) ==> c in cs && CallShape(c)
  {
    var made := WithModel(cs, models);
    WithModelDistinct(cs, models);
    WithModelMember(cs, models);
    forall i | 0 <= i < |made| ensures OnBoard(made[i].at) {
      assert made[i] in made;
    }
  }

  lemma PlacedCell(g: PieceGrid, r: PieceGrid, placed: seq<Piece>, cs: seq<Call>, models: set<string>, s: Square, kind: Kind)
    requires IsGrid(g) && IsGrid(r) && SetupDone(g, r, placed, cs, models) && SetupShape(cs)
    requires OnBoard(s) && s in Squares(cs) && Layout.Entry(Layout.PiecePositions, s) == Some(kind)
    requires ModelKey(SetupSide(s.z), kind) in models
    ensures r[s.z][s.x] in placed && PieceCall(r[s.z][s.x]) == Call(kind, SetupSide(s.z), s)
  {
    var made := WithModel(cs, models);
    ModelCallsShape(cs, models);
    LayCells(g, made, placed);
    var c :| c in cs && c.at == s;
    assert CallShape(c);
    WithModelMember(cs, models);
    assert c in made;
    var k :| 0 <= k < |made| && made[k] == c;
    assert r[s.z][s.x] == placed[k];
  }

  lemma UntouchedCell(g: PieceGrid, r: PieceGrid, placed: seq<Piece>, cs: seq<Call>, models: set<string>, s: Square)
    requires IsGrid(g) && IsGrid(r) && SetupDone(g, r, placed, cs, models) && SetupShape(cs)
    requires OnBoard(s)
    requires Layout.Entry(Layout.PiecePositions, s).None? ||
             ModelKey(SetupSide(s.z), Layout.Entry(Layout.PiecePositions, s).value) !in models
    ensures r[s.z][s.x] == g[s.z][s.x]
  {
    var made := WithModel(cs, models);
    ModelCallsShape(cs, models);
    LayCells(g, made, placed);
    WithModelMember(cs, models);
    forall c | c in made ensures c.at != s {
      assert CallShape(c);
    }
  }

  lemma WithModelStep(done: seq<Call>, c: Call, models: set<string>)
    ensures WithModel(done + [c], models) ==
            WithModel(done, models) + (if ModelKey(c.side, c.kind) in models then [c] else [])
  {
    assert (done + [c])[..|done|] == done;
  }

  /** placeInitialPiece: when pieceModels has the model, a new piece is
      appended to the list and written to grid[z][x]; otherwise nothing
      changes. */
  method PlaceInitial(r0: PieceGrid, placed0: seq<Piece>, c: Call, models: set<string>)
    returns (r: PieceGrid, placed: seq<Piece>)
    requires IsGrid(r0) && OnBoard(c.at)
    ensures IsGrid(r)
    ensures ModelKey(c.side, c.kind) !in models ==> r == r0 && placed == placed0
    ensures ModelKey(c.side, c.kind) in models ==>
              |placed| == |placed0| + 1 && placed == placed0 + [placed[|placed0|]] && fresh(placed[|placed0|]) &&
              PieceCall(placed[|placed0|]) == c && r == Write(r0, c.at.x, c.at.z, placed[|placed0|])
  {
    r, placed := r0, placed0;
    if ModelKey(c.side, c.kind) in models {
      var piece := new Piece(c.kind, c.side == Black, c.at.x, c.at.z);
      placed := placed0 + [piece];
      r := Write(r0, c.at.x, c.at.z, piece);
    }
  }

  /** The positions of each table row are on the board. */
  predicate RowsOnBoard(setup: seq<SetupRow>) {
    forall e, i :: 0 <= e < |setup| && 0 <= i < |setup[e].positions| ==> OnBoard(setup[e].positions[i])
  }

  /** setupInitialPieces after its guard: the pieceSetup rows with their
      positions in order, then the pawn loop. */
  method SetupGrid(g: PieceGrid, models: set<string>) returns (r: PieceGrid, placed: seq<Piece>)
    requires IsGrid(g)
    ensures IsGrid(r) && SetupDone(g, r, placed, SetupCalls(), models)
    ensures forall i :: 0 <= i < |placed| ==> fresh(placed[i])
  {
    assert RowsOnBoard(PieceSetup);
    r, placed := PlaceRows(g, models, PieceSetup);
    r, placed := PlacePawns(g, r, placed, MainCalls(PieceSetup), Size, models);
    forall i | 0 <= i < |placed| ensures fresh(placed[i]) {
      assert placed[i] in placed;
    }
  }

  /** pieceSetup.forEach: the table's rows, in order. */
  method PlaceRows(g: PieceGrid, models: set<string>, setup: seq<SetupRow>) returns (r: PieceGrid, placed: seq<Piece>)
    requires IsGrid(g) && RowsOnBoard(setup)
    ensures IsGrid(r) && SetupDone(g, r, placed, MainCalls(setup), models)
    ensures forall p :: p in placed ==> fresh(p)
  {
    r, placed := g, [];
    for e := 0 to |setup|
      invariant IsGrid(r) && SetupDone(g, r, placed, MainCalls(setup[..e]), models)
      invariant forall p :: p in placed ==> fresh(p)
    {
      MainCallsStep(setup, e);
      r, placed := PlaceRow(g, r, placed, MainCalls(setup[..e]), setup[e].kind, setup[e].positions, models);
    }
    assert setup[..|setup|] == setup;
  }

  /** The two calls of one round of the pawn loop. */
  function PawnPair(x: int): seq<Call> {
    [Call(Pawn, White, Square(x, 1)), Call(Pawn, Black, Square(x, 6))]
  }

  /** The pawn loop over the first cols columns (all eight in the game):
      for each a white pawn on row 1, then a black one on row 6, after the
      calls done. */
  method PlacePawns(ghost g: PieceGrid, r0: PieceGrid, placed0: seq<Piece>, ghost done: seq<Call>, cols: int,
                    models: set<string>)
    returns (r: PieceGrid, placed: seq<Piece>)
    requires IsGrid(g) && IsGrid(r0) && 0 <= cols <= Size && SetupDone(g, r0, placed0, done, models)
    ensures IsGrid(r) && SetupDone(g, r, placed, done + PawnCalls(cols), models)
    ensures forall p :: p in placed ==> p in placed0 || fresh(p)
  {
    r, placed := r0, placed0;
    ghost var d := done;
    for x := 0 to cols
      invariant PawnsAfter(done, d, x)
      invariant IsGrid(r) && SetupDone(g, r, placed, d, models)
      invariant forall p :: p in placed ==> p in placed0 || fresh(p)
    {
      r, placed := PlacePawnPair(g, r, placed, d, x, models);
      PawnsAfterStep(done, d, x);
      d := d + PawnPair(x);
    }
    PawnsAfterAll(done, d, cols);
  }

  /** d is done followed by the 2 * x calls of the pawn loop's first x rounds. */
  ghost predicate PawnsAfter(done: seq<Call>, d: seq<Call>, x: int) {
    0 <= x && |d| == |done| + 2 * x && d[..|done|] == done &&
    forall i :: 0 <= i < 2 * x ==> d[|done| + i] == Call(Pawn, PawnSide(i), PawnSquare(i))
  }

  lemma PawnsAfterStep(done: seq<Call>, d: seq<Call>, x: int)
    requires 0 <= x && PawnsAfter(done, d, x)
    ensures PawnsAfter(done, d + PawnPair(x), x + 1)
  {
    var d' := d + PawnPair(x);
    assert d'[..|done|] == d[..|done|];
    forall i | 0 <= i < 2 * (x + 1) ensures d'[|done| + i] == Call(Pawn, PawnSide(i), PawnSquare(i)) {
      if i < 2 * x {
        assert d'[|done| + i] == d[|done| + i];
      } else if i == 2 * x {
        assert d'[|done| + i] == Call(Pawn, White, Square(x, 1));
      } else {
        assert d'[|done| + i] == Call(Pawn, Black, Square(x, 6));
      }
    }
  }

  lemma PawnsAfterAll(done: seq<Call>, d: seq<Call>, x: int)
    requires 0 <= x <= Size && PawnsAfter(done, d, x)
    ensures d == done + PawnCalls(x)
  {
    PawnCallsAt(x);
    var e := done + PawnCalls(x);
    assert |d| == |e|;
    forall i | 0 <= i < |d| ensures d[i] == e[i] {
      if i < |done| {
        assert d[i] == d[..|done|][i];
      } else {
        assert e[i] == PawnCalls(x)[i - |done|];
      }
    }
  }

  /** One round of the pawn loop. */
  method PlacePawnPair(ghost g: PieceGrid, r0: PieceGrid, placed0: seq<Piece>, ghost done: seq<Call>,
                       x: int, models: set<string>)
    returns (r: PieceGrid, placed: seq<Piece>)
    requires IsGrid(g) && IsGrid(r0) && 0 <= x < Size
    requires SetupDone(g, r0, placed0, done, models)
    ensures IsGrid(r) && SetupDone(g, r, placed, done + PawnPair(x), models)
    ensures forall p :: p in placed ==> p in placed0 || fresh(p)
  {
    var white := Call(Pawn, White, Square(x, 1));
    var black := Call(Pawn, Black, Square(x, 6));
    r, placed := PlaceNext(g, r0, placed0, done, white, models);
    r, placed := PlaceNext(g, r, placed, done + [white], black, models);
    assert (done + [white]) + [black] == done + PawnPair(x);
  }

  lemma AppendOne(a: seq<Call>, b: seq<Call>, c: Call)
    ensures a + (b + [c]) == (a + b) + [c]
  {
  }

  /** positions.forEach for one row, after the calls done. */
  method PlaceRow(ghost g: PieceGrid, r0: PieceGrid, placed0: seq<Piece>, ghost done: seq<Call>,
                  kind: Kind, ps: seq<Square>, models: set<string>)
    returns (r: PieceGrid, placed: seq<Piece>)
    requires IsGrid(g) && IsGrid(r0) && forall i :: 0 <= i < |ps| ==> OnBoard(ps[i])
    requires SetupDone(g, r0, placed0, done, models)
    ensures IsGrid(r) && SetupDone(g, r, placed, done + RowCalls(kind, ps), models)
    ensures forall p :: p in placed ==> p in placed0 || fresh(p)
  {
    r, placed := r0, placed0;
    assert done + RowCalls(kind, ps[..0]) == done;
    for q := 0 to |ps|
      invariant forall p :: p in placed ==> p in placed0 || fresh(p)
      invariant IsGrid(r) && SetupDone(g, r, placed, done + RowCalls(kind, ps[..q]), models)
    {
      var c := Call(kind, SetupSide(ps[q].z), ps[q]);
      assert ps[..q + 1][..q] == ps[..q];
      AppendOne(done, RowCalls(kind, ps[..q]), c);
      r, placed := PlaceNext(g, r, placed, done + RowCalls(kind, ps[..q]), c, models);
    }
    assert ps[..|ps|] == ps;
  }

  /** One placeInitialPiece call, after the calls done. */
  method PlaceNext(ghost g: PieceGrid, r0: PieceGrid, placed0: seq<Piece>, ghost done: seq<Call>,
                   c: Call, models: set<string>)
    returns (r: PieceGrid, placed: seq<Piece>)
    requires IsGrid(g) && IsGrid(r0) && OnBoard(c.at)
    requires SetupDone(g, r0, placed0, done, models)
    ensures IsGrid(r) && SetupDone(g, r, placed, done + [c], models)
    ensures forall p :: p in placed ==> p in placed0 || fresh(p)
  {
    ghost var made := WithModel(done, models);
    WithModelStep(done, c, models);
    r, placed := PlaceInitial(r0, placed0, c, models);
    if ModelKey(c.side, c.kind) in models {
      var p := placed[|placed0|];
      LayStep(g, made, placed0, c, p);
      DescribeStep(placed0, p);
    }
  }
}
