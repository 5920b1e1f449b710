/** What the six per-kind move generators of 3d_chess.py and
    src/entities/pieces.py compute, stated as functions of the grid, and the
    properties those results have. The generators' movement shapes are those
    of Article 3 of the FIDE Laws of Chess, without castling, en passant,
    promotion or check; the filter that drops friendly targets is not part of
    the sliding generators (it is GameRules' job, see module Rules). */
module Moves {
  import opened Core
  import opened Entities

  /** One (dx, dz) entry of a generator's direction or offset list. */
  datatype Dir = Dir(dx: int, dz: int)

  /** The directions a sliding piece walks along: one step in each axis at most. */
  predicate IsUnit(d: Dir) {
    -1 <= d.dx <= 1 && -1 <= d.dz <= 1 && (d.dx != 0 || d.dz != 0)
  }

  const RookDirs: seq<Dir> := [Dir(0, 1), Dir(0, -1), Dir(1, 0), Dir(-1, 0)]
  const BishopDirs: seq<Dir> := [Dir(1, 1), Dir(1, -1), Dir(-1, 1), Dir(-1, -1)]
  const QueenDirs: seq<Dir> :=
    [Dir(0, 1), Dir(0, -1), Dir(1, 0), Dir(-1, 0), Dir(1, 1), Dir(1, -1), Dir(-1, 1), Dir(-1, -1)]
  const KnightOffsets: seq<Dir> :=
    [Dir(1, 2), Dir(2, 1), Dir(2, -1), Dir(1, -2), Dir(-1, -2), Dir(-2, -1), Dir(-2, 1), Dir(-1, 2)]
  const KingOffsets: seq<Dir> :=
    [Dir(0, 1), Dir(0, -1), Dir(1, 0), Dir(-1, 0), Dir(1, 1), Dir(1, -1), Dir(-1, 1), Dir(-1, -1)]

  predicate AllUnit(dirs: seq<Dir>) {
    forall i :: 0 <= i < |dirs| ==> IsUnit(dirs[i])
  }

  function Next(s: Square, d: Dir): Square {
    Square(s.x + d.dx, s.z + d.dz)
  }

  /** How many more steps along d can stay on the board from s. */
  function Reach(s: Square, d: Dir): nat
    requires OnBoard(s)
  {
    (if d.dx > 0 then Size - s.x else if d.dx < 0 then s.x + 1 else 0) +
    (if d.dz > 0 then Size - s.z else if d.dz < 0 then s.z + 1 else 0)
  }

  /** One `while True` ray of a sliding generator: step from s along d until
      the edge; every square reached is appended, and the first occupied one
      is appended too and ends the ray, whatever the colour of its piece. */
  function Ray(g: Grid, s: Square, d: Dir): (r: seq<Square>)
    requires IsGrid(g) && OnBoard(s) && IsUnit(d)
    ensures forall i :: 0 <= i < |r| ==> OnBoard(r[i])
    decreases Reach(s, d)
  {
    var n := Next(s, d);
    if !OnBoard(n) then []
    else if !IsEmpty(g, n) then [n]
    else [n] + Ray(g, n, d)
  }

  /** A sliding generator: the rays of its direction list, one after another. */
  function Slide(g: Grid, s: Square, dirs: seq<Dir>): seq<Square>
    requires IsGrid(g) && OnBoard(s) && AllUnit(dirs)
  {
    if dirs == [] then []
    else
      var n := |dirs| - 1;
      Slide(g, s, dirs[..n]) + Ray(g, s, dirs[n])
  }

  /** Whether a knight or king may land on t: on the board, and empty or
      holding a piece of the other colour. */
  predicate MayLand(g: Grid, t: Square, isBlack: bool)
    requires IsGrid(g)
  {
    OnBoard(t) && (IsEmpty(g, t) || IsEnemy(g, t, isBlack))
  }

  /** A knight or king generator: its offsets, in order, that it may land on. */
  function Jumps(g: Grid, s: Square, isBlack: bool, offsets: seq<Dir>): seq<Square>
    requires IsGrid(g)
  {
    if offsets == [] then []
    else
      var n := |offsets| - 1;
      var t := Next(s, offsets[n]);
      Jumps(g, s, isBlack, offsets[..n]) + (if MayLand(g, t, isBlack) then [t] else [])
  }

  /** Black pawns advance towards larger z, white pawns towards smaller z. */
  function PawnDirection(isBlack: bool): int {
    if isBlack then 1 else -1
  }

  /** The rows from which the two-step advance is offered. */
  predicate OnStartRow(isBlack: bool, z: int) {
    (isBlack && z == 1) || (!isBlack && z == 6)
  }

  /** The `for dx in [-1, 1]` capture loop of the pawn generator. */
  function PawnCaptures(g: Grid, s: Square, isBlack: bool, dxs: seq<int>): seq<Square>
    requires IsGrid(g)
  {
    if dxs == [] then []
    else
      var n := |dxs| - 1;
      var t := Square(s.x + dxs[n], s.z + PawnDirection(isBlack));
      PawnCaptures(g, s, isBlack, dxs[..n]) + (if OnBoard(t) && IsEnemy(g, t, isBlack) then [t] else [])
  }

  /** The straight advances of the pawn generator: the two-step is tried
      only inside the branch where the one-step was offered. */
  function PawnSteps(g: Grid, s: Square, isBlack: bool): seq<Square>
    requires IsGrid(g)
  {
    var dir := PawnDirection(isBlack);
    var one := Square(s.x, s.z + dir);
    var two := Square(s.x, s.z + dir + dir);
    if OnBoard(one) && IsEmpty(g, one) then
      [one] + (if OnStartRow(isBlack, s.z) && OnBoard(two) && IsEmpty(g, two) then [two] else [])
    else []
  }

  function PawnTargets(g: Grid, s: Square, isBlack: bool): seq<Square>
    requires IsGrid(g) && OnBoard(s)
  {
    PawnSteps(g, s, isBlack) + PawnCaptures(g, s, isBlack, [-1, 1])
  }

  /** The candidate list of `get_valid_moves` for a piece of the given kind
      and colour standing on s. */
  function Candidates(kind: Kind, g: Grid, s: Square, isBlack: bool): seq<Square>
    requires IsGrid(g) && OnBoard(s)
  {
    match kind
    case Pawn => PawnTargets(g, s, isBlack)
    case Rook => Slide(g, s, RookDirs)
    case Knight => Jumps(g, s, isBlack, KnightOffsets)
    case Bishop => Slide(g, s, BishopDirs)
    case Queen => Slide(g, s, QueenDirs)
    case King => Jumps(g, s, isBlack, KingOffsets)
  }

  // ---------------------------------------------------------------------
  // Rays

  /** A ray is the walk from s along d, one step at a time, that stays on
      the board, passes only over empty squares, and ends at the first
      occupied square (included, whatever its colour) or at the edge. */
  lemma {:induction false} RayShape(g: Grid, s: Square, d: Dir)
    requires IsGrid(g) && OnBoard(s) && IsUnit(d)
    ensures |Ray(g, s, d)| == 0 <==> !OnBoard(Next(s, d))
    ensures |Ray(g, s, d)| > 0 ==> Ray(g, s, d)[0] == Next(s, d)
    ensures forall i :: 0 <= i < |Ray(g, s, d)| - 1 ==>
              IsEmpty(g, Ray(g, s, d)[i]) && Ray(g, s, d)[i + 1] == Next(Ray(g, s, d)[i], d)
    ensures |Ray(g, s, d)| > 0 ==>
              var last := Ray(g, s, d)[|Ray(g, s, d)| - 1];
              !IsEmpty(g, last) || !OnBoard(Next(last, d))
    decreases Reach(s, d)
  {
    var n := Next(s, d);
    if OnBoard(n) && IsEmpty(g, n) {
      RayShape(g, n, d);
      var rest := Ray(g, n, d);
      assert Ray(g, s, d) == [n] + rest;
      if |rest| > 0 {
        assert Ray(g, s, d)[1] == rest[0];
      }
      forall i | 0 <= i < |Ray(g, s, d)| - 1
        ensures IsEmpty(g, Ray(g, s, d)[i]) && Ray(g, s, d)[i + 1] == Next(Ray(g, s, d)[i], d)
      {
        if i > 0 {
          assert Ray(g, s, d)[i] == rest[i - 1];
        }
      }
    }
  }

  /** When the first square along d holds a piece, of either colour, the ray
      is that square alone: the blocker is a candidate and nothing lies beyond it. */
  lemma RayBlockedAtOnce(g: Grid, s: Square, d: Dir)
    requires IsGrid(g) && OnBoard(s) && IsUnit(d)
    requires OnBoard(Next(s, d)) && !IsEmpty(g, Next(s, d))
    ensures Ray(g, s, d) == [Next(s, d)]
  {
  }

  /** No square of a ray lies beyond the first occupied one. */
  lemma RayEndsAtFirstPiece(g: Grid, s: Square, d: Dir, i: int)
    requires IsGrid(g) && OnBoard(s) && IsUnit(d)
    requires 0 <= i < |Ray(g, s, d)|
    requires !IsEmpty(g, Ray(g, s, d)[i])
    ensures i == |Ray(g, s, d)| - 1
  {
    RayShape(g, s, d);
  }

  // ---------------------------------------------------------------------
  // Sliding generators

  lemma {:induction false} SlideAppend(g: Grid, s: Square, d1: seq<Dir>, d2: seq<Dir>)
    requires IsGrid(g) && OnBoard(s) && AllUnit(d1) && AllUnit(d2)
    ensures AllUnit(d1 + d2)
    ensures Slide(g, s, d1 + d2) == Slide(g, s, d1) + Slide(g, s, d2)
  {
    assert AllUnit(d1 + d2) by {
      forall i | 0 <= i < |d1 + d2| ensures IsUnit((d1 + d2)[i]) {
        if i < |d1| { assert (d1 + d2)[i] == d1[i]; } else { assert (d1 + d2)[i] == d2[i - |d1|]; }
      }
    }
    if d2 == [] {
      assert d1 + d2 == d1;
    } else {
      var n := |d2| - 1;
      assert (d1 + d2)[..|d1| + n] == d1 + d2[..n];
      assert (d1 + d2)[|d1| + n] == d2[n];
      SlideAppend(g, s, d1, d2[..n]);
    }
  }

  /** A square is a sliding candidate exactly when one of the rays reaches it. */
  lemma {:induction false} SlideMember(g: Grid, s: Square, dirs: seq<Dir>, t: Square)
    requires IsGrid(g) && OnBoard(s) && AllUnit(dirs)
    ensures t in Slide(g, s, dirs) <==> exists i :: 0 <= i < |dirs| && t in Ray(g, s, dirs[i])
  {
    if dirs != [] {
      var n := |dirs| - 1;
      var pre := dirs[..n];
      SlideMember(g, s, pre, t);
      assert Slide(g, s, dirs) == Slide(g, s, pre) + Ray(g, s, dirs[n]);
      if t in Slide(g, s, pre) {
        var i :| 0 <= i < n && t in Ray(g, s, pre[i]);
        assert dirs[i] == pre[i];
      }
      if exists i :: 0 <= i < |dirs| && t in Ray(g, s, dirs[i]) {
        var i :| 0 <= i < |dirs| && t in Ray(g, s, dirs[i]);
        if i < n {
          assert pre[i] == dirs[i];
          assert t in Slide(g, s, pre);
        }
      }
    }
  }

  lemma {:induction false} SlideOnBoard(g: Grid, s: Square, dirs: seq<Dir>)
    requires IsGrid(g) && OnBoard(s) && AllUnit(dirs)
    ensures forall t :: t in Slide(g, s, dirs) ==> OnBoard(t)
  {
    forall t | t in Slide(g, s, dirs) ensures OnBoard(t) {
      SlideMember(g, s, dirs, t);
      var i :| 0 <= i < |dirs| && t in Ray(g, s, dirs[i]);
      RayShape(g, s, dirs[i]);
    }
  }

  /** The queen's directions are the rook's followed by the bishop's, so the
      queen's candidates are the rook's followed by the bishop's. */
  lemma QueenIsRookThenBishop(g: Grid, s: Square)
    requires IsGrid(g) && OnBoard(s)
    ensures Slide(g, s, QueenDirs) == Slide(g, s, RookDirs) + Slide(g, s, BishopDirs)
  {
    assert QueenDirs == RookDirs + BishopDirs;
    SlideAppend(g, s, RookDirs, BishopDirs);
  }

  // ---------------------------------------------------------------------
  // Knight and king

  /** A knight or king candidate is exactly one of its offsets that lands on
      the board on an empty or enemy-held square. */
  lemma {:induction false} JumpsMember(g: Grid, s: Square, isBlack: bool, offsets: seq<Dir>, t: Square)
    requires IsGrid(g)
    ensures t in Jumps(g, s, isBlack, offsets) <==>
              exists i :: 0 <= i < |offsets| && t == Next(s, offsets[i]) && MayLand(g, t, isBlack)
  {
    if offsets != [] {
      var n := |offsets| - 1;
      JumpsMember(g, s, isBlack, offsets[..n], t);
      if t in Jumps(g, s, isBlack, offsets[..n]) {
        var i :| 0 <= i < n && t == Next(s, offsets[..n][i]) && MayLand(g, t, isBlack);
        assert offsets[i] == offsets[..n][i];
      }
      if exists i :: 0 <= i < |offsets| && t == Next(s, offsets[i]) && MayLand(g, t, isBlack) {
        var i :| 0 <= i < |offsets| && t == Next(s, offsets[i]) && MayLand(g, t, isBlack);
        if i < n { assert offsets[..n][i] == offsets[i]; }
      }
    }
  }

  lemma JumpsOnBoard(g: Grid, s: Square, isBlack: bool, offsets: seq<Dir>)
    requires IsGrid(g)
    ensures forall t :: t in Jumps(g, s, isBlack, offsets) ==> OnBoard(t) && !IsEmpty(g, t) ==> IsEnemy(g, t, isBlack)
    ensures forall t :: t in Jumps(g, s, isBlack, offsets) ==> OnBoard(t)
  {
    forall t | t in Jumps(g, s, isBlack, offsets) ensures MayLand(g, t, isBlack) {
      JumpsMember(g, s, isBlack, offsets, t);
    }
  }

  // ---------------------------------------------------------------------
  // Pawn

  lemma {:induction false} PawnCapturesMember(g: Grid, s: Square, isBlack: bool, dxs: seq<int>, t: Square)
    requires IsGrid(g)
    ensures t in PawnCaptures(g, s, isBlack, dxs) <==>
              t.x - s.x in dxs && t.z == s.z + PawnDirection(isBlack) && OnBoard(t) && IsEnemy(g, t, isBlack)
  {
    if dxs != [] {
      var n := |dxs| - 1;
      PawnCapturesMember(g, s, isBlack, dxs[..n], t);
      assert dxs == dxs[..n] + [dxs[n]];
    }
  }

  /** The pawn generator's rules: the straight step is offered iff it is on
      the board and empty; the two-step iff in addition the pawn stands on its
      start row (black on z == 1, white on z == 6) and the second square is
      empty; each diagonal-forward square iff it holds an enemy piece; and
      nothing else is offered. */
  lemma PawnRules(g: Grid, s: Square, isBlack: bool)
    requires IsGrid(g) && OnBoard(s)
    ensures var dir := PawnDirection(isBlack);
            var one := Square(s.x, s.z + dir);
            var two := Square(s.x, s.z + dir + dir);
            var left := Square(s.x - 1, s.z + dir);
            var right := Square(s.x + 1, s.z + dir);
            var r := PawnTargets(g, s, isBlack);
            (one in r <==> OnBoard(one) && IsEmpty(g, one)) &&
            (two in r <==> OnBoard(one) && IsEmpty(g, one) && OnStartRow(isBlack, s.z)
                           && OnBoard(two) && IsEmpty(g, two)) &&
            (left in r <==> OnBoard(left) && IsEnemy(g, left, isBlack)) &&
            (right in r <==> OnBoard(right) && IsEnemy(g, right, isBlack)) &&
            (forall t :: t in r ==> OnBoard(t) && (t == one || t == two || t == left || t == right))
  {
    var dir := PawnDirection(isBlack);
    var one := Square(s.x, s.z + dir);
    var two := Square(s.x, s.z + dir + dir);
    var left := Square(s.x - 1, s.z + dir);
    var right := Square(s.x + 1, s.z + dir);
    PawnStepsRules(g, s, isBlack);
    PawnCapturesRules(g, s, isBlack);
  }

  /** The straight advances: the one-step iff it is on the board and empty,
      the two-step iff in addition the pawn is on its start row and the
      second square is empty; both stay in the pawn's column. */
  lemma PawnStepsRules(g: Grid, s: Square, isBlack: bool)
    requires IsGrid(g)
    ensures var dir := PawnDirection(isBlack);
            var one := Square(s.x, s.z + dir);
            var two := Square(s.x, s.z + dir + dir);
            var r := PawnSteps(g, s, isBlack);
            (one in r <==> OnBoard(one) && IsEmpty(g, one)) &&
            (two in r <==> OnBoard(one) && IsEmpty(g, one) && OnStartRow(isBlack, s.z)
                           && OnBoard(two) && IsEmpty(g, two)) &&
            (forall t :: t in r ==> OnBoard(t) && t.x == s.x && (t == one || t == two))
  {
  }

  /** The diagonal captures: each diagonal-forward square iff it holds an
      enemy piece; neither is in the pawn's column. */
  lemma PawnCapturesRules(g: Grid, s: Square, isBlack: bool)
    requires IsGrid(g)
    ensures var left := Square(s.x - 1, s.z + PawnDirection(isBlack));
            var right := Square(s.x + 1, s.z + PawnDirection(isBlack));
            var r := PawnCaptures(g, s, isBlack, [-1, 1]);
            (left in r <==> OnBoard(left) && IsEnemy(g, left, isBlack)) &&
            (right in r <==> OnBoard(right) && IsEnemy(g, right, isBlack)) &&
            (forall t :: t in r ==> OnBoard(t) && t.x != s.x && (t == left || t == right))
  {
    PawnCapturesPair(g, s, isBlack);
  }

  /** The pawn's capture loop over [-1, 1]: the left diagonal, then the
      right one, each when it holds an enemy piece. */
  lemma PawnCapturesPair(g: Grid, s: Square, isBlack: bool)
    requires IsGrid(g)
    ensures var left := Square(s.x - 1, s.z + PawnDirection(isBlack));
            var right := Square(s.x + 1, s.z + PawnDirection(isBlack));
            PawnCaptures(g, s, isBlack, [-1, 1]) ==
              (if OnBoard(left) && IsEnemy(g, left, isBlack) then [left] else []) +
              (if OnBoard(right) && IsEnemy(g, right, isBlack) then [right] else [])
  {
    var left := Square(s.x - 1, s.z + PawnDirection(isBlack));
    var right := Square(s.x + 1, s.z + PawnDirection(isBlack));
    var dxs := [-1, 1];
    var first := dxs[..1];
    assert first[..0] == [] && first[0] == -1 && dxs[1] == 1;
    assert PawnCaptures(g, s, isBlack, first) ==
           [] + (if OnBoard(left) && IsEnemy(g, left, isBlack) then [left] else []);
    assert PawnCaptures(g, s, isBlack, dxs) ==
           PawnCaptures(g, s, isBlack, first) + (if OnBoard(right) && IsEnemy(g, right, isBlack) then [right] else []);
  }

  /** A pawn off its start row is never offered a two-square advance. */
  lemma PawnNoTwoStepOffStartRow(g: Grid, s: Square, isBlack: bool)
    requires IsGrid(g) && OnBoard(s) && !OnStartRow(isBlack, s.z)
    ensures Square(s.x, s.z + 2 * PawnDirection(isBlack)) !in PawnTargets(g, s, isBlack)
  {
    PawnRules(g, s, isBlack);
  }

  // ---------------------------------------------------------------------
  // All generators

  /** Every candidate of every generator lies on the board. */
  lemma CandidatesOnBoard(kind: Kind, g: Grid, s: Square, isBlack: bool)
    requires IsGrid(g) && OnBoard(s)
    ensures forall t :: t in Candidates(kind, g, s, isBlack) ==> OnBoard(t)
  {
    match kind
    case Pawn => PawnRules(g, s, isBlack);
    case Rook => SlideOnBoard(g, s, RookDirs);
    case Knight => JumpsOnBoard(g, s, isBlack, KnightOffsets);
    case Bishop => SlideOnBoard(g, s, BishopDirs);
    case Queen => SlideOnBoard(g, s, QueenDirs);
    case King => JumpsOnBoard(g, s, isBlack, KingOffsets);
  }
}
