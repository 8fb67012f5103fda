/** The constant 8x8 Bayer threshold table of the ordered-dither pass, an
    independent reference construction of it, and the facts that make it a
    threshold table: every entry is k/64 for exactly one k in 0..63. */
module Bayer {

  /** The numerators of `bayerMatrix8x8`, one row of eight per display: the
      table writes each entry as n / 64.0. */
  const BayerNumerators: seq<seq<int>> := [
    [ 0, 48, 12, 60,  3, 51, 15, 63],
    [32, 16, 44, 28, 35, 19, 47, 31],
    [ 8, 56,  4, 52, 11, 59,  7, 55],
    [40, 24, 36, 20, 43, 27, 39, 23],
    [ 2, 50, 14, 62,  1, 49, 13, 61],
    [34, 18, 46, 30, 33, 17, 45, 29],
    [10, 58,  6, 54,  9, 57,  5, 53],
    [42, 26, 38, 22, 41, 25, 37, 21]
  ]

  /** Entry i of the flat row-major table `bayerMatrix8x8`: row i / 8, column
      i % 8. It is the reference rank of that cell over 64, so it lies in
      [0, 63/64]. */
  function Entry(i: int): (e: real)
    requires 0 <= i < 64
    ensures e == BayerRank(i % 8, i / 8) as real / 64.0
    ensures 0.0 <= e <= 63.0 / 64.0
  {
    var x, y := i % 8, i / 8;
    TableMatchesRank(x, y);
    var k := BayerRank(x, y);
    assert 0 <= k < 64;
    BayerNumerators[y][x] as real / 64.0
  }

  predicate IsCell(x: int, y: int) {
    0 <= x < 8 && 0 <= y < 8
  }

  /** Row-major position of cell (x, y) in the table: `y * 8 + x`. */
  function CellIndex(x: int, y: int): (i: int)
    requires IsCell(x, y)
    ensures 0 <= i < 64
    ensures i % 8 == x && i / 8 == y
  {
    y * 8 + x
  }

  /** The 2x2 Bayer pattern [[0, 3], [2, 1]] (row y, column x), for x, y in {0, 1}. */
  function Rank2(x: int, y: int): int {
    if y == 0 then (if x == 0 then 0 else 3) else (if x == 0 then 2 else 1)
  }

  /** Inverse of Rank2: the cell (x, y) of digit d in 0..3. */
  function Cell2(d: int): (int, int) {
    if d == 0 then (0, 0) else if d == 1 then (1, 1) else if d == 2 then (0, 1) else (1, 0)
  }

  /** Reference construction of the order-8 Bayer matrix: the recurrence
      M2n(x, y) = 4 * Mn(x mod n, y mod n) + M2(x div n, y div n), unrolled
      three times. Its value is the rank of cell (x, y) in 0..63. */
  function BayerRank(x: int, y: int): (k: int)
    requires IsCell(x, y)
    ensures 0 <= k < 64
  {
    16 * Rank2(x % 2, y % 2) + 4 * Rank2(x / 2 % 2, y / 2 % 2) + Rank2(x / 4, y / 4)
  }

  /** The cell of rank k: inverse of BayerRank, digit by digit. */
  function BayerCell(k: int): (int, int)
    requires 0 <= k < 64
  {
    var (x2, y2) := Cell2(k / 16);
    var (x1, y1) := Cell2(k / 4 % 4);
    var (x0, y0) := Cell2(k % 4);
    (x2 + 2 * x1 + 4 * x0, y2 + 2 * y1 + 4 * y0)
  }

  lemma Rank2Cell2(d: int)
    requires 0 <= d < 4
    ensures Cell2(d).0 in {0, 1} && Cell2(d).1 in {0, 1}
    ensures Rank2(Cell2(d).0, Cell2(d).1) == d
  {
  }

  lemma Cell2Rank2(u: int, v: int)
    requires u in {0, 1} && v in {0, 1}
    ensures 0 <= Rank2(u, v) < 4
    ensures Cell2(Rank2(u, v)) == (u, v)
  {
  }

  /** The three binary digits of a coordinate in 0..7. */
  lemma {:induction false} Decompose(x: int) returns (u0: int, u1: int, u2: int)
    requires 0 <= x < 8
    ensures u0 in {0, 1} && u1 in {0, 1} && u2 in {0, 1}
    ensures x == u0 + 2 * u1 + 4 * u2
  {
    u0, u1, u2 := x % 2, x / 2 % 2, x / 4;
    if x == 0 {} else if x == 1 {} else if x == 2 {} else if x == 3 {}
    else if x == 4 {} else if x == 5 {} else if x == 6 {} else {}
  }

  /** Conversely, the coordinate with binary digits u0, u1, u2 has them as its digits. */
  lemma {:induction false} OfBits(u0: int, u1: int, u2: int)
    requires u0 in {0, 1} && u1 in {0, 1} && u2 in {0, 1}
    ensures var x := u0 + 2 * u1 + 4 * u2;
      0 <= x < 8 && x % 2 == u0 && x / 2 % 2 == u1 && x / 4 == u2
  {
    if u2 == 0 {
      if u1 == 0 { if u0 == 0 {} else {} } else { if u0 == 0 {} else {} }
    } else {
      if u1 == 0 { if u0 == 0 {} else {} } else { if u0 == 0 {} else {} }
    }
  }

  /** The three base-4 digits of a rank in 0..63. */
  lemma Digits(a: int, b: int, c: int)
    requires 0 <= a < 4 && 0 <= b < 4 && 0 <= c < 4
    ensures (16 * a + 4 * b + c) / 16 == a
    ensures (16 * a + 4 * b + c) / 4 % 4 == b
    ensures (16 * a + 4 * b + c) % 4 == c
  {
  }

  /** The rank of the cell (x, y) whose coordinates have binary digits (u0, u1, u2) and (v0, v1, v2). */
  lemma RankOfBits(x: int, y: int, u0: int, u1: int, u2: int, v0: int, v1: int, v2: int)
    requires u0 in {0, 1} && u1 in {0, 1} && u2 in {0, 1}
    requires v0 in {0, 1} && v1 in {0, 1} && v2 in {0, 1}
    requires x == u0 + 2 * u1 + 4 * u2 && y == v0 + 2 * v1 + 4 * v2
    ensures IsCell(x, y)
    ensures BayerRank(x, y) == 16 * Rank2(u0, v0) + 4 * Rank2(u1, v1) + Rank2(u2, v2)
  {
    OfBits(u0, u1, u2);
    OfBits(v0, v1, v2);
  }

  /** The cell of the rank with base-4 digits a, b, c. */
  lemma BayerCellOfDigits(a: int, b: int, c: int)
    requires 0 <= a < 4 && 0 <= b < 4 && 0 <= c < 4
    ensures BayerCell(16 * a + 4 * b + c)
         == (Cell2(a).0 + 2 * Cell2(b).0 + 4 * Cell2(c).0, Cell2(a).1 + 2 * Cell2(b).1 + 4 * Cell2(c).1)
  {
    Digits(a, b, c);
  }

  /** Every rank in 0..63 belongs to the cell BayerCell gives. */
  lemma BayerCellInverse(k: int)
    requires 0 <= k < 64
    ensures IsCell(BayerCell(k).0, BayerCell(k).1)
    ensures BayerRank(BayerCell(k).0, BayerCell(k).1) == k
  {
    var a, b, c := k / 16, k / 4 % 4, k % 4;
    assert k == 16 * a + 4 * b + c;
    BayerCellOfDigits(a, b, c);
    Rank2Cell2(a);
    Rank2Cell2(b);
    Rank2Cell2(c);
    var (x, y) := BayerCell(k);
    RankOfBits(x, y, Cell2(a).0, Cell2(b).0, Cell2(c).0, Cell2(a).1, Cell2(b).1, Cell2(c).1);
  }

  /** The cell of the rank k assembled from the 2x2 ranks of binary digits (u0, v0), (u1, v1), (u2, v2). */
  lemma CellOfRanks(k: int, u0: int, u1: int, u2: int, v0: int, v1: int, v2: int)
    requires u0 in {0, 1} && u1 in {0, 1} && u2 in {0, 1}
    requires v0 in {0, 1} && v1 in {0, 1} && v2 in {0, 1}
    requires k == 16 * Rank2(u0, v0) + 4 * Rank2(u1, v1) + Rank2(u2, v2)
    ensures 0 <= k < 64
    ensures BayerCell(k) == (u0 + 2 * u1 + 4 * u2, v0 + 2 * v1 + 4 * v2)
  {
    Cell2Rank2(u0, v0);
    Cell2Rank2(u1, v1);
    Cell2Rank2(u2, v2);
    BayerCellOfDigits(Rank2(u0, v0), Rank2(u1, v1), Rank2(u2, v2));
  }

  /** Two cells of equal rank are the same cell: BayerCell undoes BayerRank. */
  lemma BayerRankInjective(x: int, y: int)
    requires IsCell(x, y)
    ensures BayerCell(BayerRank(x, y)) == (x, y)
  {
    var u0, u1, u2 := Decompose(x);
    var v0, v1, v2 := Decompose(y);
    RankOfBits(x, y, u0, u1, u2, v0, v1, v2);
    CellOfRanks(BayerRank(x, y), u0, u1, u2, v0, v1, v2);
  }

  /** The literal table is the reference construction, entry by entry. */
  lemma {:induction false} TableMatchesRank(x: int, y: int)
    requires IsCell(x, y)
    ensures BayerNumerators[y][x] == BayerRank(x, y)
  {
    if y == 0 { Row0MatchesRank(x); }
    else if y == 1 { Row1MatchesRank(x); }
    else if y == 2 { Row2MatchesRank(x); }
    else if y == 3 { Row3MatchesRank(x); }
    else if y == 4 { Row4MatchesRank(x); }
    else if y == 5 { Row5MatchesRank(x); }
    else if y == 6 { Row6MatchesRank(x); }
    else { Row7MatchesRank(x); }
  }

  // One lemma per row: a single case split over all 64 cells costs the solver
  // several times as much and varies widely between runs.
  lemma {:induction false} Row0MatchesRank(x: int)
    requires 0 <= x < 8
    ensures BayerNumerators[0][x] == BayerRank(x, 0)
  {
    if x == 0 {} else if x == 1 {} else if x == 2 {} else if x == 3 {}
    else if x == 4 {} else if x == 5 {} else if x == 6 {} else {}
  }

  lemma {:induction false} Row1MatchesRank(x: int)
    requires 0 <= x < 8
    ensures BayerNumerators[1][x] == BayerRank(x, 1)
  {
    if x == 0 {} else if x == 1 {} else if x == 2 {} else if x == 3 {}
    else if x == 4 {} else if x == 5 {} else if x == 6 {} else {}
  }

  lemma {:induction false} Row2MatchesRank(x: int)
    requires 0 <= x < 8
    ensures BayerNumerators[2][x] == BayerRank(x, 2)
  {
    if x == 0 {} else if x == 1 {} else if x == 2 {} else if x == 3 {}
    else if x == 4 {} else if x == 5 {} else if x == 6 {} else {}
  }

  lemma {:induction false} Row3MatchesRank(x: int)
    requires 0 <= x < 8
    ensures BayerNumerators[3][x] == BayerRank(x, 3)
  {
    if x == 0 {} else if x == 1 {} else if x == 2 {} else if x == 3 {}
    else if x == 4 {} else if x == 5 {} else if x == 6 {} else {}
  }

  lemma {:induction false} Row4MatchesRank(x: int)
    requires 0 <= x < 8
    ensures BayerNumerators[4][x] == BayerRank(x, 4)
  {
    if x == 0 {} else if x == 1 {} else if x == 2 {} else if x == 3 {}
    else if x == 4 {} else if x == 5 {} else if x == 6 {} else {}
  }

  lemma {:induction false} Row5MatchesRank(x: int)
    requires 0 <= x < 8
    ensures BayerNumerators[5][x] == BayerRank(x, 5)
  {
    if x == 0 {} else if x == 1 {} else if x == 2 {} else if x == 3 {}
    else if x == 4 {} else if x == 5 {} else if x == 6 {} else {}
  }

  lemma {:induction false} Row6MatchesRank(x: int)
    requires 0 <= x < 8
    ensures BayerNumerators[6][x] == BayerRank(x, 6)
  {
    if x == 0 {} else if x == 1 {} else if x == 2 {} else if x == 3 {}
    else if x == 4 {} else if x == 5 {} else if x == 6 {} else {}
  }

  lemma {:induction false} Row7MatchesRank(x: int)
    requires 0 <= x < 8
    ensures BayerNumerators[7][x] == BayerRank(x, 7)
  {
    if x == 0 {} else if x == 1 {} else if x == 2 {} else if x == 3 {}
    else if x == 4 {} else if x == 5 {} else if x == 6 {} else {}
  }

  /** No value occurs twice in the table. */
  lemma TableDistinct(i: int, j: int)
    requires 0 <= i < 64 && 0 <= j < 64
    requires i != j
    ensures Entry(i) != Entry(j)
  {
    BayerRankInjective(i % 8, i / 8);
    BayerRankInjective(j % 8, j / 8);
    assert (i % 8, i / 8) != (j % 8, j / 8);
    assert BayerRank(i % 8, i / 8) != BayerRank(j % 8, j / 8);
  }

  /** Every k/64 with k in 0..63 occurs in the table, at the cell BayerCell(k). */
  lemma TableCovers(k: int)
    requires 0 <= k < 64
    ensures IsCell(BayerCell(k).0, BayerCell(k).1)
    ensures Entry(CellIndex(BayerCell(k).0, BayerCell(k).1)) == k as real / 64.0
  {
    BayerCellInverse(k);
    var (x, y) := BayerCell(k);
    assert CellIndex(x, y) % 8 == x && CellIndex(x, y) / 8 == y;
  }
}
