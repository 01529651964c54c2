/**
 The eight oriented readings of the grid built by `setup_puzzle`, given in
 closed form. Reading i of direction d at offset k shows the grid cell
 `Source(d, n, i, k)`, and its map entry is that cell's `east_map` entry.
 The loops that build the diagonal readings are in module Diagonals and are
 proved to produce exactly these views.
 */
module Views {
  import opened Coordinates
  import opened Grid

  datatype Dir = East | West | North | South | NorthEast | NorthWest | SouthEast | SouthWest

  predicate IsAxis(d: Dir) {
    d.East? || d.West? || d.North? || d.South?
  }

  /**
   One direction's readings and, parallel to them, the map from
   (reading, offset) to the packed page coordinates of the source cell.
   */
  datatype View = View(text: seq<seq<char>>, pos: seq<seq<int>>)

  /** The map has an entry for exactly the positions of the readings. */
  predicate Shaped(v: View) {
    && |v.pos| == |v.text|
    && forall i :: 0 <= i < |v.text| ==> |v.pos[i]| == |v.text[i]|
  }

  /** Number of readings the source stores: n for an axis, 2n for a diagonal family. */
  function Readings(d: Dir, n: nat): nat {
    if IsAxis(d) then n else 2 * n
  }

  /** Length of diagonal reading b: the triangular profile 1, 2, .., n, .., 2, 1, 0. */
  function DiagLen(n: nat, b: nat): (len: nat)
    requires b < 2 * n
    ensures len <= n
    ensures len > 0 <==> b < 2 * n - 1
    ensures len == n <==> b == n - 1
  {
    if b < n then b + 1 else 2 * n - 1 - b
  }

  function ReadingLen(d: Dir, n: nat, i: nat): nat
    requires i < Readings(d, n)
  {
    if IsAxis(d) then n else DiagLen(n, i)
  }

  /** The smallest x on SE diagonal b, where y = b - x must lie in [0, n). */
  function SeStart(n: nat, b: nat): nat {
    if b < n then 0 else b - n + 1
  }

  /** The smallest x on NE reading i, where y = x + i - (n - 1) must lie in [0, n). */
  function NeStart(n: nat, i: nat): nat {
    if i < n then n - 1 - i else 0
  }

  /** Offset k of SE reading b: the k-th x in increasing order with y = b - x, cell (n-1-y, x). */
  function SeCell(n: nat, b: nat, k: nat): (c: Cell)
    requires b < 2 * n && k < DiagLen(n, b)
    ensures InSquare(n, c)
  {
    var x := SeStart(n, b) + k;
    var y := b - x;
    Cell(n - 1 - y, x)
  }

  /** Offset k of NE reading i = b + n - 1: the k-th x in increasing order with y = x + b, cell (n-1-y, x). */
  function NeCell(n: nat, i: nat, k: nat): (c: Cell)
    requires i < 2 * n && k < DiagLen(n, i)
    ensures InSquare(n, c)
  {
    var x := NeStart(n, i) + k;
    var y := x + i - (n - 1);
    Cell(n - 1 - y, x)
  }

  /**
   The grid cell shown at offset k of reading i of direction d. NW and SW
   reverse SE and NE: their offset k is offset len-1-k of the same reading.
   */
  function Source(d: Dir, n: nat, i: nat, k: nat): (c: Cell)
    requires i < Readings(d, n) && k < ReadingLen(d, n, i)
    ensures InSquare(n, c)
  {
    match d
    case East => Cell(i, k)
    case West => Cell(i, n - 1 - k)
    case South => Cell(k, i)
    case North => Cell(n - 1 - k, i)
    case SouthEast => SeCell(n, i, k)
    case NorthEast => NeCell(n, i, k)
    case NorthWest => SeCell(n, i, DiagLen(n, i) - 1 - k)
    case SouthWest => NeCell(n, i, DiagLen(n, i) - 1 - k)
  }

  function At(g: seq<seq<char>>, c: Cell): char
    requires Square(g) && InSquare(|g|, c)
  {
    g[c.row][c.col]
  }

  /** Reading i of direction d. */
  function Reading(g: seq<seq<char>>, d: Dir, i: nat): (r: seq<char>)
    requires Square(g) && i < Readings(d, |g|)
    ensures |r| == ReadingLen(d, |g|, i)
  {
    var len := ReadingLen(d, |g|, i);
    seq(len, k requires 0 <= k < len => At(g, Source(d, |g|, i, k)))
  }

  /** The map entries of reading i of direction d. */
  function Positions(g: seq<seq<char>>, d: Dir, i: nat): (r: seq<int>)
    requires Square(g) && i < Readings(d, |g|)
    ensures |r| == ReadingLen(d, |g|, i)
  {
    var len := ReadingLen(d, |g|, i);
    seq(len, k requires 0 <= k < len => EastMap(|g|, Source(d, |g|, i, k)))
  }

  /** Offset k of reading i and of its positions come from source cell k of that reading. */
  lemma ReadingCell(g: seq<seq<char>>, d: Dir, i: nat, k: nat)
    requires Square(g) && i < Readings(d, |g|) && k < ReadingLen(d, |g|, i)
    ensures Reading(g, d, i)[k] == At(g, Source(d, |g|, i, k))
    ensures Positions(g, d, i)[k] == EastMap(|g|, Source(d, |g|, i, k))
  {
  }

  /** Each char of a slice of reading i is the letter of its source cell. */
  lemma SliceCells(g: seq<seq<char>>, d: Dir, i: nat, j: nat, text: seq<char>)
    requires Square(g) && i < Readings(d, |g|) && j + |text| <= ReadingLen(d, |g|, i)
    requires text == Reading(g, d, i)[j..j + |text|]
    ensures forall t :: 0 <= t < |text| ==> text[t] == At(g, Source(d, |g|, i, j + t))
  {
    forall t | 0 <= t < |text| ensures text[t] == At(g, Source(d, |g|, i, j + t)) {
      ReadingCell(g, d, i, j + t);
    }
  }

  /** The view of direction d of a square grid. */
  function RefView(g: seq<seq<char>>, d: Dir): (v: View)
    requires Square(g)
    ensures Shaped(v) && |v.text| == Readings(d, |g|)
  {
    var m := Readings(d, |g|);
    View(seq(m, i requires 0 <= i < m => Reading(g, d, i)),
         seq(m, i requires 0 <= i < m => Positions(g, d, i)))
  }

  function Reverse<T>(s: seq<T>): (r: seq<T>)
    ensures |r| == |s|
    ensures forall k :: 0 <= k < |s| ==> r[k] == s[|s| - 1 - k]
  {
    seq(|s|, k requires 0 <= k < |s| => s[|s| - 1 - k])
  }

  /** A reading index and an offset within it. */
  datatype Spot = Spot(reading: nat, offset: nat)

  /** The position at which direction d shows cell c: the inverse of `Source`. */
  function Locate(d: Dir, n: nat, c: Cell): (s: Spot)
    requires InSquare(n, c)
    ensures s.reading < Readings(d, n) && s.offset < ReadingLen(d, n, s.reading)
  {
    match d
    case East => Spot(c.row, c.col)
    case West => Spot(c.row, n - 1 - c.col)
    case South => Spot(c.col, c.row)
    case North => Spot(c.col, n - 1 - c.row)
    case SouthEast => SeSpot(n, c)
    case NorthEast => NeSpot(n, c)
    case NorthWest => Backwards(n, SeSpot(n, c))
    case SouthWest => Backwards(n, NeSpot(n, c))
  }

  /** Cell c lies on SE diagonal col + (n-1-row), at its distance from the diagonal's start. */
  function SeSpot(n: nat, c: Cell): (s: Spot)
    requires InSquare(n, c)
    ensures s.reading < 2 * n && s.offset < DiagLen(n, s.reading)
  {
    var b := c.col + (n - 1 - c.row);
    Spot(b, c.col - SeStart(n, b))
  }

  /** Cell c lies on NE reading 2n-2-row-col, at its distance from the reading's start. */
  function NeSpot(n: nat, c: Cell): (s: Spot)
    requires InSquare(n, c)
    ensures s.reading < 2 * n && s.offset < DiagLen(n, s.reading)
  {
    var i := 2 * n - 2 - c.row - c.col;
    Spot(i, c.col - NeStart(n, i))
  }

  /** The same place counted from the other end of a diagonal reading. */
  function Backwards(n: nat, s: Spot): (r: Spot)
    requires s.reading < 2 * n && s.offset < DiagLen(n, s.reading)
    ensures r.reading == s.reading && r.offset < DiagLen(n, s.reading)
  {
    Spot(s.reading, DiagLen(n, s.reading) - 1 - s.offset)
  }

  /** Every cell of the grid is shown by every direction, at the position `Locate` names. */
  lemma SourceCoversGrid(d: Dir, n: nat, c: Cell)
    requires InSquare(n, c)
    ensures var s := Locate(d, n, c); Source(d, n, s.reading, s.offset) == c
  {
  }

  /** ... and at no other position: the position map of each direction is one-to-one. */
  lemma SourceOneToOne(d: Dir, n: nat, i: nat, k: nat)
    requires i < Readings(d, n) && k < ReadingLen(d, n, i)
    ensures Locate(d, n, Source(d, n, i, k)) == Spot(i, k)
  {
  }

  /** Two positions of one direction that show the same cell are the same position. */
  lemma SourceInjective(d: Dir, n: nat, i: nat, k: nat, i': nat, k': nat)
    requires i < Readings(d, n) && k < ReadingLen(d, n, i)
    requires i' < Readings(d, n) && k' < ReadingLen(d, n, i')
    requires Source(d, n, i, k) == Source(d, n, i', k')
    ensures i == i' && k == k'
  {
    SourceOneToOne(d, n, i, k);
    SourceOneToOne(d, n, i', k');
  }

  /** So in a grid no wider than the radix, the map entries of one view are pairwise distinct. */
  lemma PositionMapInjective(g: seq<seq<char>>, d: Dir, i: nat, k: nat, i': nat, k': nat)
    requires Square(g) && |g| <= 10000
    requires var v := RefView(g, d);
             && i < |v.text| && k < |v.text[i]|
             && i' < |v.text| && k' < |v.text[i']|
             && v.pos[i][k] == v.pos[i'][k']
    ensures i == i' && k == k'
  {
    var n := |g|;
    EastMapInjective(n, Source(d, n, i, k), Source(d, n, i', k'));
    SourceInjective(d, n, i, k, i', k');
  }

  /** A view whose every reading is `Reading` and `Positions` of its index is the view of d. */
  lemma RefViewFromReadings(g: seq<seq<char>>, d: Dir, v: View)
    requires Square(g) && |v.text| == Readings(d, |g|) && |v.pos| == Readings(d, |g|)
    requires forall i :: 0 <= i < |v.text| ==> v.text[i] == Reading(g, d, i)
    requires forall i :: 0 <= i < |v.pos| ==> v.pos[i] == Positions(g, d, i)
    ensures v == RefView(g, d)
  {
  }

  /** Reading i of the view of direction d is `Reading` and `Positions` of i. */
  lemma ViewReading(g: seq<seq<char>>, d: Dir, i: nat)
    requires Square(g) && i < Readings(d, |g|)
    ensures RefView(g, d).text[i] == Reading(g, d, i)
    ensures RefView(g, d).pos[i] == Positions(g, d, i)
  {
  }

  /** Every position of a view shows its source cell and holds that cell's `east_map` entry. */
  lemma ViewShowsSource(g: seq<seq<char>>, d: Dir, i: nat, k: nat)
    requires Square(g)
    requires var v := RefView(g, d); i < |v.text| && k < |v.text[i]|
    ensures var v := RefView(g, d); var c := Source(d, |g|, i, k);
            && v.text[i][k] == g[c.row][c.col]
            && v.pos[i][k] == EastMap(|g|, c)
  {
  }

  /** Wherever the page coordinates fit, a view's map entry decodes to its source cell's page point. */
  lemma PositionMapDecodes(g: seq<seq<char>>, d: Dir, i: nat, k: nat)
    requires Square(g) && PagesDecodable(|g|)
    requires var v := RefView(g, d); i < |v.text| && k < |v.text[i]|
    ensures var v := RefView(g, d); var c := Source(d, |g|, i, k);
            && v.text[i][k] == g[c.row][c.col]
            && XFromKey(v.pos[i][k]) == PageX(c)
            && YFromKey(v.pos[i][k]) == PageY(|g|, c)
  {
    EastMapDecodes(|g|, Source(d, |g|, i, k));
  }

  /**
   The axis views: east is the grid itself, west reads each row backwards,
   south reads the columns top to bottom and north reads them bottom to top.
   */
  lemma AxisViews(g: seq<seq<char>>)
    requires Square(g)
    ensures RefView(g, East).text == g
    ensures forall i :: 0 <= i < |g| ==>
              && RefView(g, West).text[i] == Reverse(RefView(g, East).text[i])
              && RefView(g, West).pos[i] == Reverse(RefView(g, East).pos[i])
              && RefView(g, North).text[i] == Reverse(RefView(g, South).text[i])
              && RefView(g, North).pos[i] == Reverse(RefView(g, South).pos[i])
    ensures forall i, j :: 0 <= i < |g| && 0 <= j < |g| ==>
              && RefView(g, South).text[i][j] == RefView(g, East).text[j][i]
              && RefView(g, South).pos[i][j] == RefView(g, East).pos[j][i]
  {
    var e := RefView(g, East);
    forall i | 0 <= i < |g| ensures e.text[i] == g[i] {
    }
  }

  /** SE and NE readings of equal index are equally long, and NW and SW are their reversals. */
  lemma DiagonalReversal(g: seq<seq<char>>)
    requires Square(g)
    ensures forall i :: 0 <= i < 2 * |g| ==>
              && |RefView(g, SouthEast).text[i]| == |RefView(g, NorthEast).text[i]|
              && RefView(g, NorthWest).text[i] == Reverse(RefView(g, SouthEast).text[i])
              && RefView(g, NorthWest).pos[i] == Reverse(RefView(g, SouthEast).pos[i])
              && RefView(g, SouthWest).text[i] == Reverse(RefView(g, NorthEast).text[i])
              && RefView(g, SouthWest).pos[i] == Reverse(RefView(g, NorthEast).pos[i])
  {
    forall i | 0 <= i < 2 * |g|
      ensures |RefView(g, SouthEast).text[i]| == |RefView(g, NorthEast).text[i]|
      ensures RefView(g, NorthWest).text[i] == Reverse(RefView(g, SouthEast).text[i])
      ensures RefView(g, NorthWest).pos[i] == Reverse(RefView(g, SouthEast).pos[i])
      ensures RefView(g, SouthWest).text[i] == Reverse(RefView(g, NorthEast).text[i])
      ensures RefView(g, SouthWest).pos[i] == Reverse(RefView(g, NorthEast).pos[i])
    {
      ViewReading(g, SouthEast, i);
      ViewReading(g, NorthEast, i);
      ViewReading(g, NorthWest, i);
      ViewReading(g, SouthWest, i);
    }
  }

  /** The grid of the source's doc comment, lower-cased as it is read. */
  const DocGrid: seq<seq<char>> := ["abc", "def", "ghi"]

  /** On the doc grid the west and north views read as the doc comment shows. */
  lemma DocExampleAxis(g: seq<seq<char>>)
    requires g == DocGrid
    ensures Square(g)
    ensures RefView(g, West).text == ["cba", "fed", "ihg"]
    ensures RefView(g, North).text == ["gda", "heb", "ifc"]
  {
    assert Reading(g, West, 0) == "cba" && Reading(g, West, 1) == "fed" && Reading(g, West, 2) == "ihg";
    assert Reading(g, North, 0) == "gda" && Reading(g, North, 1) == "heb" && Reading(g, North, 2) == "ifc";
  }

  /** On the doc grid the SE readings are G, DH, AEI, BF, C and an empty sixth one. */
  lemma DocExampleSouthEast(g: seq<seq<char>>)
    requires g == DocGrid
    ensures Square(g)
    ensures RefView(g, SouthEast).text == ["g", "dh", "aei", "bf", "c", ""]
  {
    DocSouthEastLower(g);
    DocSouthEastUpper(g);
  }

  lemma DocSouthEastLower(g: seq<seq<char>>)
    requires g == DocGrid
    ensures Square(g) && |g| == 3
    ensures Reading(g, SouthEast, 0) == "g" && Reading(g, SouthEast, 1) == "dh"
    ensures Reading(g, SouthEast, 2) == "aei"
  {
  }

  lemma DocSouthEastUpper(g: seq<seq<char>>)
    requires g == DocGrid
    ensures Square(g) && |g| == 3
    ensures Reading(g, SouthEast, 3) == "bf" && Reading(g, SouthEast, 4) == "c"
    ensures Reading(g, SouthEast, 5) == ""
  {
  }

  /** On the doc grid the NE readings are I, HF, GEC, DB, A and an empty sixth one. */
  lemma DocExampleNorthEast(g: seq<seq<char>>)
    requires g == DocGrid
    ensures Square(g)
    ensures RefView(g, NorthEast).text == ["i", "hf", "gec", "db", "a", ""]
  {
    DocNorthEastLower(g);
    DocNorthEastUpper(g);
  }

  lemma DocNorthEastLower(g: seq<seq<char>>)
    requires g == DocGrid
    ensures Square(g) && |g| == 3
    ensures Reading(g, NorthEast, 0) == "i" && Reading(g, NorthEast, 1) == "hf"
    ensures Reading(g, NorthEast, 2) == "gec"
  {
  }

  lemma DocNorthEastUpper(g: seq<seq<char>>)
    requires g == DocGrid
    ensures Square(g) && |g| == 3
    ensures Reading(g, NorthEast, 3) == "db" && Reading(g, NorthEast, 4) == "a"
    ensures Reading(g, NorthEast, 5) == ""
  {
  }

  /**
   The triangle the doc comment labels "nw" (A, DB, GEC, HF, I) is not the
   NW view: it is the NE readings taken in decreasing index order.
   */
  lemma DocTriangleIsNotNorthWest(g: seq<seq<char>>)
    requires g == DocGrid
    ensures Square(g)
    ensures var tri: seq<seq<char>> := ["a", "db", "gec", "hf", "i"];
            && RefView(g, NorthWest).text[..5] != tri
            && forall t :: 0 <= t < 5 ==> tri[t] == RefView(g, NorthEast).text[4 - t]
  {
    DocExampleNorthEast(g);
    assert Reading(g, NorthWest, 0) == "g";
    assert RefView(g, NorthWest).text[..5][0] != "a";
  }
}
