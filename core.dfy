/** Board geometry, the piece kinds, the two sides and the grid helpers that
    every part of the model shares. Every board in the system is a list of
    rows indexed grid[z][x]: x is the column and z is the row. */
module Core {

  /** Board.SIZE in the Python sources, BOARD_CONFIG.SIZE in the TypeScript ones. */
  const Size: int := 8

  datatype Option<T> = None | Some(value: T)

  /** A square as the sources' (x, z) pair. */
  datatype Square = Square(x: int, z: int)

  predicate InBounds(x: int, z: int) {
    0 <= x < Size && 0 <= z < Size
  }

  predicate OnBoard(s: Square) {
    InBounds(s.x, s.z)
  }

  /** The six piece kinds, named in the sources by the strings of KindName. */
  datatype Kind = Pawn | Rook | Knight | Bishop | Queen | King

  const AllKinds: seq<Kind> := [Pawn, Rook, Knight, Bishop, Queen, King]

  function KindName(k: Kind): string {
    match k
    case Pawn => "pawn"
    case Rook => "rook"
    case Knight => "knight"
    case Bishop => "bishop"
    case Queen => "queen"
    case King => "king"
  }

  /** The two players: Turn.WHITE/BLACK in Python, 'WHITE'/'BLACK' and
      'white'/'black' in TypeScript. */
  datatype Side = White | Black

  function Other(s: Side): (r: Side)
    ensures r != s
  {
    if s == White then Black else White
  }

  lemma OtherTwice(s: Side)
    ensures Other(Other(s)) == s
  {
  }

  function SideName(s: Side): string {
    if s == White then "white" else "black"
  }

  /** SIZE rows of SIZE cells each. */
  predicate IsGrid<T>(g: seq<seq<T>>) {
    |g| == Size && forall z :: 0 <= z < Size ==> |g[z]| == Size
  }

  /** A fresh SIZE x SIZE grid with every cell v, as
      [[None for _ in range(8)] for _ in range(8)] and
      Array(8).fill(null).map(() => Array(8).fill(null)) build it. */
  function Filled<T>(v: T): (g: seq<seq<T>>)
    ensures IsGrid(g)
    ensures forall z, x :: InBounds(x, z) ==> g[z][x] == v
  {
    seq(Size, _ => seq(Size, _ => v))
  }

  /** grid[z][x] = v on a well-formed grid: that cell changes and no other. */
  function Write<T>(g: seq<seq<T>>, x: int, z: int, v: T): (r: seq<seq<T>>)
    requires IsGrid(g) && InBounds(x, z)
    ensures IsGrid(r)
    ensures r[z][x] == v
    ensures forall z', x' :: InBounds(x', z') && (x' != x || z' != z) ==> r[z'][x'] == g[z'][x']
  {
    g[z := g[z][x := v]]
  }

  /** Squares in row-major order (z outer, x inner), as linear index 8 * z + x. */
  function CellIndex(s: Square): int {
    8 * s.z + s.x
  }

  function CellAt(i: int): (s: Square)
    requires 0 <= i < 64
    ensures OnBoard(s) && CellIndex(s) == i
  {
    Square(i % Size, i / Size)
  }

  lemma CellAtIndex(s: Square)
    requires OnBoard(s)
    ensures 0 <= CellIndex(s) < 64 && CellAt(CellIndex(s)) == s
  {
  }

  /** Different squares of the board have different linear indices. */
  lemma CellIndexInjective(a: Square, b: Square)
    requires OnBoard(a) && OnBoard(b) && CellIndex(a) == CellIndex(b)
    ensures a == b
  {
    CellAtIndex(a);
    CellAtIndex(b);
  }

  /** Python's list.remove(x) and the effect of splice(indexOf(x), 1) when
      x is present: the first occurrence of x is dropped. */
  function RemoveFirst<T(==)>(xs: seq<T>, x: T): (r: seq<T>)
    ensures x !in xs ==> r == xs
    ensures x in xs ==> |r| == |xs| - 1 && multiset(r) == multiset(xs) - multiset{x}
    ensures forall y :: y in r ==> y in xs
  {
    if xs == [] then []
    else
      assert xs == [xs[0]] + xs[1..];
      if xs[0] == x then xs[1..]
      else [xs[0]] + RemoveFirst(xs[1..], x)
  }

  /** The occurrence RemoveFirst drops is the first one: the list is cut
      around the first position holding x. */
  lemma {:induction false} RemoveFirstAt<T>(xs: seq<T>, x: T, i: int)
    requires 0 <= i < |xs| && xs[i] == x && x !in xs[..i]
    ensures RemoveFirst(xs, x) == xs[..i] + xs[i + 1..]
  {
    if i == 0 {
      assert xs[..0] + xs[1..] == xs[1..];
    } else {
      var tail := xs[1..];
      assert xs[0] == xs[..i][0];
      assert tail[..i - 1] == xs[1..i];
      assert xs[..i] == [xs[0]] + tail[..i - 1];
      assert xs[i + 1..] == tail[i..];
      RemoveFirstAt(tail, x, i - 1);
      assert RemoveFirst(xs, x) == [xs[0]] + RemoveFirst(tail, x);
    }
  }
}
