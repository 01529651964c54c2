/**
 Packing of a coordinate pair into one integer key, and the page coordinates
 every grid cell is drawn at. Arithmetic follows C's `int` operators: `%`
 and `/` truncate toward zero, unlike Dafny's Euclidean ones.

 The constants are written as the source writes them: 10000 is the radix
 that separates the two halves of a packed pair, 50 the page margin and 15
 the distance on the page between neighbouring cells.
 */
module Coordinates {

  /** A grid coordinate: `row` is the first index of the grid, `col` the second. */
  datatype Cell = Cell(row: int, col: int)

  /** A point on the page. */
  datatype Point = Point(x: int, y: int)

  /** C's `a % b` for a positive divisor: the remainder keeps the sign of `a`. */
  function CRem(a: int, b: int): (r: int)
    requires b > 0
    ensures a >= 0 ==> 0 <= r < b
    ensures a < 0 ==> -b < r <= 0
  {
    if a >= 0 then a % b else -((-a) % b)
  }

  /** C's `a / b` for a positive divisor: the quotient is truncated toward zero. */
  function CDiv(a: int, b: int): (q: int)
    requires b > 0
    ensures a == b * q + CRem(a, b)
  {
    if a >= 0 then a / b else -((-a) / b)
  }

  /** `make_val`: pack the pair (i, j) into one key. */
  function MakeVal(i: int, j: int): int {
    i * 10000 + j
  }

  /** `get_y_from_key`: the low half of a packed key. */
  function YFromKey(v: int): int {
    CRem(v, 10000)
  }

  /** `get_x_from_key`: the high half of a packed key. */
  function XFromKey(v: int): int {
    CDiv(v - YFromKey(v), 10000)
  }

  /** The packing round-trips for a non-negative high half and a low half below the radix. */
  lemma KeyRoundTrip(i: int, j: int)
    requires i >= 0 && 0 <= j < 10000
    ensures YFromKey(MakeVal(i, j)) == j
    ensures XFromKey(MakeVal(i, j)) == i
  {
  }

  /** Hence `make_val` is injective on that domain. */
  lemma MakeValInjective(i: int, j: int, i': int, j': int)
    requires i >= 0 && 0 <= j < 10000
    requires i' >= 0 && 0 <= j' < 10000
    requires MakeVal(i, j) == MakeVal(i', j')
    ensures i == i' && j == j'
  {
    KeyRoundTrip(i, j);
    KeyRoundTrip(i', j');
  }

  /**
   The maps of the source are keyed by `make_val(i, j)` with i a reading
   index below 2n and j an offset below n: in a grid no wider than the
   radix, distinct (reading, offset) pairs get distinct keys.
   */
  lemma MapKeysDistinct(n: nat, i: nat, j: nat, i': nat, j': nat)
    requires n <= 10000 && i < 2 * n && j < n && i' < 2 * n && j' < n
    requires MakeVal(i, j) == MakeVal(i', j')
    ensures i == i' && j == j'
  {
    MakeValInjective(i, j, i', j');
  }

  /**
   In a wider grid, cells (0, 10000) and (1, 0), and likewise offset 10000
   of reading 0 and offset 0 of reading 1, share a key.
   */
  lemma MapKeysCollide(n: nat)
    requires n > 10000
    ensures InSquare(n, Cell(0, 10000)) && InSquare(n, Cell(1, 0))
    ensures MakeVal(0, 10000) == MakeVal(1, 0)
  {
  }

  /** The horizontal page coordinate of a cell: `50 + 15 * col`. */
  function PageX(c: Cell): int {
    50 + 15 * c.col
  }

  /** The vertical page coordinate of a cell in an n-by-n grid: `50 + 15 * (n - row)`. */
  function PageY(n: nat, c: Cell): int {
    50 + 15 * (n - c.row)
  }

  predicate InSquare(n: nat, c: Cell) {
    0 <= c.row < n && 0 <= c.col < n
  }

  /** The entry `east_map` holds for a cell: its packed page coordinates. */
  function EastMap(n: nat, c: Cell): int {
    MakeVal(PageX(c), PageY(n, c))
  }

  /** Every page coordinate of an n-by-n grid fits below the radix. */
  predicate PagesDecodable(n: nat) {
    50 + 15 * n < 10000
  }

  /**
   In a grid no wider than the radix, every `east_map` entry and every map
   key `make_val(i, j)` with i < 2n and j < n is a non-negative value of a
   32-bit C `int`, so unbounded integers model them faithfully.
   */
  lemma KeysFitInt(n: nat, c: Cell, i: nat, j: nat)
    requires n <= 10000 && InSquare(n, c) && i < 2 * n && j < n
    ensures 0 <= EastMap(n, c) < 0x8000_0000
    ensures 0 <= MakeVal(i, j) < 0x8000_0000
  {
    assert PageX(c) <= 150035 && PageY(n, c) <= 150050;
  }

  /** Decoding an `east_map` entry gives back both page coordinates whenever they fit. */
  lemma EastMapDecodes(n: nat, c: Cell)
    requires InSquare(n, c) && PagesDecodable(n)
    ensures XFromKey(EastMap(n, c)) == PageX(c)
    ensures YFromKey(EastMap(n, c)) == PageY(n, c)
  {
    KeyRoundTrip(PageX(c), PageY(n, c));
  }

  /** Conversely, once they do not fit, the cell in row 0, column 0 decodes to the wrong page point. */
  lemma EastMapDecodeFails(n: nat)
    requires n > 0 && !PagesDecodable(n)
    ensures YFromKey(EastMap(n, Cell(0, 0))) != PageY(n, Cell(0, 0))
  {
    var y := PageY(n, Cell(0, 0));
    assert YFromKey(EastMap(n, Cell(0, 0))) < 10000 <= y;
  }

  /** Distinct cells of a grid no wider than the radix get distinct `east_map` entries. */
  lemma EastMapInjective(n: nat, c: Cell, c': Cell)
    requires n <= 10000
    requires InSquare(n, c) && InSquare(n, c')
    requires EastMap(n, c) == EastMap(n, c')
    ensures c == c'
  {
    var dc := c.col - c'.col;
    var dr := c.row - c'.row;
    assert 15 * (10000 * dc) == 15 * dr;
    assert 10000 * dc == dr;
    assert -10000 < dr < 10000;
    assert dc == 0;
  }
}
