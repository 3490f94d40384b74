/** Board topology of Nine Men's Morris: the 24 points, their adjacency,
    the 16 mills, and counting helpers over a 24-cell board. */
module Board {

  /** One cell of the board: a piece of the maximizing player 'X',
      of the minimizing player 'O', or empty ('_'). */
  datatype Cell = X | O | Empty

  /** A player is a non-empty cell value: the source stores the player to
      move with the same symbols it writes into the board. */
  type Player = c: Cell | c != Empty witness X

  /** A point of the board, numbered 0..23 row by row. */
  type Point = i: int | 0 <= i < 24

  /** An occupancy of the 24 points. */
  type Board = b: seq<Cell> | |b| == 24 witness seq(24, _ => Empty)

  const MaxPlayer: Player := X
  const MinPlayer: Player := O

  /** The opponent of p. */
  function Other(p: Player): (q: Player)
    ensures q != p
  {
    if p == X then O else X
  }

  /** Neighbours of each point, in the order the source lists them. */
  const Adjacent: seq<seq<Point>> := [
    [1, 9], [0, 2, 4], [1, 14], [4, 10], [1, 3, 5, 7],
    [4, 13], [7, 11], [4, 6, 8], [7, 12], [0, 10, 21],
    [3, 9, 11, 18], [6, 10, 15], [8, 13, 17], [5, 12, 14, 20],
    [2, 13, 23], [11, 16], [15, 17, 19], [12, 16],
    [10, 19], [16, 18, 20, 22], [13, 19],
    [9, 22], [19, 21, 23], [14, 22]
  ]

  /** A mill: three points on one line of the board. */
  type Mill = (Point, Point, Point)

  /** The 16 lines of three points that form a mill, in the source's order. */
  const Mills: seq<Mill> := [
    (0, 1, 2), (3, 4, 5), (6, 7, 8),
    (9, 10, 11), (12, 13, 14), (15, 16, 17),
    (18, 19, 20), (21, 22, 23),
    (0, 9, 21), (3, 10, 18), (6, 11, 15),
    (1, 4, 7), (16, 19, 22), (8, 12, 17),
    (5, 13, 20), (2, 14, 23)
  ]

  /** `pos in mill` */
  predicate OnMill(pos: Point, m: Mill)
  {
    pos == m.0 || pos == m.1 || pos == m.2
  }

  /** All three points of m hold c. */
  predicate MillFilled(b: Board, m: Mill, c: Cell)
  {
    b[m.0] == c && b[m.1] == c && b[m.2] == c
  }

  ghost predicate AdjacentRowOk(a: Point)
    requires |Adjacent| == 24
  {
    && 1 <= |Adjacent[a]| <= 4
    && a !in Adjacent[a]
    && (forall k :: 0 <= k < |Adjacent[a]| ==> a in Adjacent[Adjacent[a][k]])
  }

  /** Rows 0 to 5 of the adjacency table are well formed. */
  lemma AdjacencyRowsOuter(a: Point)
    requires 0 <= a < 6
    ensures AdjacentRowOk(a)
  {
    if a == 0 {} else if a == 1 {} else if a == 2 {} else if a == 3 {} else if a == 4 {} else {}
  }

  /** Rows 6 to 11 of the adjacency table are well formed. */
  lemma AdjacencyRowsMiddle(a: Point)
    requires 6 <= a < 12
    ensures AdjacentRowOk(a)
  {
    if a == 6 {} else if a == 7 {} else if a == 8 {} else if a == 9 {} else if a == 10 {} else {}
  }

  /** Rows 12 to 17 of the adjacency table are well formed. */
  lemma AdjacencyRowsInner(a: Point)
    requires 12 <= a < 18
    ensures AdjacentRowOk(a)
  {
    if a == 12 {} else if a == 13 {} else if a == 14 {} else if a == 15 {} else if a == 16 {} else {}
  }

  /** Rows 18 to 23 of the adjacency table are well formed. */
  lemma AdjacencyRowsLast(a: Point)
    requires 18 <= a < 24
    ensures AdjacentRowOk(a)
  {
    if a == 18 {} else if a == 19 {} else if a == 20 {} else if a == 21 {} else if a == 22 {} else {}
  }

  /** The adjacency table covers all 24 points, every point has one to four
      neighbours, no point is its own neighbour, and the relation is symmetric. */
  lemma AdjacencyWellFormed()
    ensures |Adjacent| == 24
    ensures forall a: Point :: AdjacentRowOk(a)
  {
    forall a: Point ensures AdjacentRowOk(a) {
      if a < 6 {
        AdjacencyRowsOuter(a);
      } else if a < 12 {
        AdjacencyRowsMiddle(a);
      } else if a < 18 {
        AdjacencyRowsInner(a);
      } else {
        AdjacencyRowsLast(a);
      }
    }
  }

  ghost predicate MillOk(m: nat)
    requires m < |Mills|
  {
    && Mills[m].0 < Mills[m].1 < Mills[m].2
    && Mills[m].1 in Adjacent[Mills[m].0]
    && Mills[m].2 in Adjacent[Mills[m].1]
  }

  /** The eight rows and columns that do not cross the middle of a side. */
  lemma MillsStraight(m: nat)
    requires m < 8
    ensures |Mills| == 16 && MillOk(m)
  {
    if m == 0 {} else if m == 1 {} else if m == 2 {} else if m == 3 {}
    else if m == 4 {} else if m == 5 {} else if m == 6 {} else {}
  }

  /** The eight lines that cross from one square to the next or run along
      the left and right edges. */
  lemma MillsCrossing(m: nat)
    requires 8 <= m < 16
    ensures |Mills| == 16 && MillOk(m)
  {
    if m == 8 {} else if m == 9 {} else if m == 10 {} else if m == 11 {}
    else if m == 12 {} else if m == 13 {} else if m == 14 {} else {}
  }

  /** There are 16 mills; each is three distinct points in increasing order,
      and each is a straight line of the board graph (its points are
      consecutive neighbours). */
  lemma MillsWellFormed()
    ensures |Mills| == 16
    ensures forall m: nat :: m < |Mills| ==> MillOk(m)
  {
    MillsStraight(0);
    forall m: nat | m < |Mills| ensures MillOk(m) {
      if m < 8 {
        MillsStraight(m);
      } else {
        MillsCrossing(m);
      }
    }
  }

  /** Three distinct points holding c make at least three cells holding c. */
  lemma ThreeHolding(b: Board, c: Cell, x: Point, y: Point, z: Point)
    requires x < y < z && b[x] == c && b[y] == c && b[z] == c
    ensures 3 <= multiset(b)[c]
  {
    assert b == b[..x] + [b[x]] + b[x + 1..y] + [b[y]] + b[y + 1..z] + [b[z]] + b[z + 1..];
  }

  /** A mill filled with c takes three of the cells holding c. */
  lemma FilledMillsHoldThree(b: Board)
    ensures forall m, c :: 0 <= m < |Mills| && MillFilled(b, Mills[m], c) ==> 3 <= multiset(b)[c]
  {
    MillsWellFormed();
    forall m, c | 0 <= m < |Mills| && MillFilled(b, Mills[m], c) ensures 3 <= multiset(b)[c] {
      assert MillOk(m);
      ThreeHolding(b, c, Mills[m].0, Mills[m].1, Mills[m].2);
    }
  }

  /** The points below n holding c, in increasing order
      (`[i for i in range(n) if board[i] == c]`). */
  function PositionsBelow(b: Board, c: Cell, n: nat): seq<Point>
    requires n <= 24
  {
    if n == 0 then []
    else
      PositionsBelow(b, c, n - 1) + (if b[n - 1] == c then [n - 1] else [])
  }

  /** PositionsBelow lists exactly the points below n holding c, each once,
      in increasing order. */
  lemma {:induction false} PositionsBelowSpec(b: Board, c: Cell, n: nat)
    requires n <= 24
    ensures forall i :: i in PositionsBelow(b, c, n) <==> 0 <= i < n && b[i] == c
    ensures forall j :: 0 <= j < |PositionsBelow(b, c, n)| ==> PositionsBelow(b, c, n)[j] < n
    ensures forall j, k :: 0 <= j < k < |PositionsBelow(b, c, n)| ==> PositionsBelow(b, c, n)[j] < PositionsBelow(b, c, n)[k]
  {
    if n > 0 {
      PositionsBelowSpec(b, c, n - 1);
    }
  }

  /** All points holding c, in increasing order. */
  function Positions(b: Board, c: Cell): seq<Point>
  {
    PositionsBelow(b, c, |b|)
  }

  /** Positions lists exactly the points holding c, in increasing order. */
  lemma PositionsSpec(b: Board, c: Cell)
    ensures forall i: Point :: i in Positions(b, c) <==> b[i] == c
    ensures forall j, k :: 0 <= j < k < |Positions(b, c)| ==> Positions(b, c)[j] < Positions(b, c)[k]
  {
    PositionsBelowSpec(b, c, |b|);
  }

  /** The points below n holding c are as many as the cells of b[..n]
      holding c (`board.count(c)` for n = 24). */
  lemma {:induction false} PositionsBelowCount(b: Board, c: Cell, n: nat)
    requires n <= 24
    ensures |PositionsBelow(b, c, n)| == multiset(b[..n])[c]
  {
    if n > 0 {
      PositionsBelowCount(b, c, n - 1);
      assert b[..n] == b[..n - 1] + [b[n - 1]];
    }
  }

  /** Positions(b, c) has one entry per cell holding c. */
  lemma PositionsCount(b: Board, c: Cell)
    ensures |Positions(b, c)| == multiset(b)[c]
  {
    PositionsBelowCount(b, c, |b|);
    assert b[..|b|] == b;
  }

  /** The cell seen from the other player's side: X and O exchanged. */
  function SwapCell(c: Cell): Cell
  {
    match c
    case X => O
    case O => X
    case Empty => Empty
  }

  /** The board with every X replaced by O and every O by X. */
  function SwapBoard(b: Board): (r: Board)
    ensures forall i :: 0 <= i < 24 ==> r[i] == SwapCell(b[i])
  {
    seq(24, i requires 0 <= i < 24 => SwapCell(b[i]))
  }

  /** Exchanging the players twice gives the board back. */
  lemma SwapBoardTwice(b: Board)
    ensures SwapBoard(SwapBoard(b)) == b
  {
    assert forall i :: 0 <= i < 24 ==> SwapBoard(SwapBoard(b))[i] == b[i];
  }

  /** The points holding c on b are those holding the swapped c on the
      swapped board. */
  lemma {:induction false} PositionsBelowSwap(b: Board, c: Cell, n: nat)
    requires n <= 24
    ensures PositionsBelow(SwapBoard(b), SwapCell(c), n) == PositionsBelow(b, c, n)
  {
    if n > 0 {
      PositionsBelowSwap(b, c, n - 1);
      assert SwapBoard(b)[n - 1] == SwapCell(b[n - 1]);
    }
  }
}
