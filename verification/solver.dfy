/**
 The whole run between reading the puzzle and drawing the result:
 `setup_puzzle` builds the eight views of the grid, and `main` searches
 them in the order east, west, north, south, NE, NW, SE, SW, giving the
 axis views n readings and the diagonal families 2n.
 */
module Solver {
  import opened Coordinates
  import opened Grid
  import opened Views
  import opened Diagonals
  import opened Scan

  /** The eight views with their maps, as `setup_puzzle` leaves them. */
  datatype ViewSet = ViewSet(east: View, west: View, north: View, south: View,
                             ne: View, nw: View, se: View, sw: View)
  {
    function Of(d: Dir): View {
      match d
      case East => east
      case West => west
      case North => north
      case South => south
      case NorthEast => ne
      case NorthWest => nw
      case SouthEast => se
      case SouthWest => sw
    }
  }

  /**
   `setup_puzzle` after the grid is read: the axis views and their maps,
   the SE and NE passes, and the reversal pass for NW and SW. The source
   keeps each map in a `std::map` keyed by `make_val(i, j)`; the views here
   are those maps only while no two keys collide, which
   `Coordinates.MapKeysDistinct` guarantees for grids no wider than the
   radix 10000 and `Coordinates.MapKeysCollide` refutes beyond it.
   */
  method SetupPuzzle(g: seq<seq<char>>) returns (vs: ViewSet)
    requires Square(g) && |g| <= 10000
    ensures forall d :: vs.Of(d) == RefView(g, d)
  {
    var se := BuildSouthEast(g);
    var ne := BuildNorthEast(g);
    DiagonalReversal(g);
    var nw, sw := BuildReversed(se, ne);
    assert nw.text == RefView(g, NorthWest).text;
    assert nw.pos == RefView(g, NorthWest).pos;
    assert sw.text == RefView(g, SouthWest).text;
    assert sw.pos == RefView(g, SouthWest).pos;
    vs := ViewSet(RefView(g, East), RefView(g, West), RefView(g, North), RefView(g, South),
                  ne, nw, se, sw);
  }

  /** The order in which `main` searches the directions. */
  const SearchOrder: seq<Dir> := [East, West, North, South, NorthEast, NorthWest, SouthEast, SouthWest]

  /** The position of a direction in `SearchOrder`. */
  function Rank(d: Dir): (r: nat)
    ensures r < |SearchOrder| && SearchOrder[r] == d
  {
    match d
    case East => 0
    case West => 1
    case North => 2
    case South => 3
    case NorthEast => 4
    case NorthWest => 5
    case SouthEast => 6
    case SouthWest => 7
  }

  /**
   m is a hit of the run on grid g, stated on the grid alone: at least
   `minLen` consecutive cells of one reading of its direction, spelling a
   text the oracle accepts, drawn between the endpoints of the map entries
   of its first and last cells.
   */
  predicate Found(g: seq<seq<char>>, accepts: seq<char> -> bool, minLen: nat, m: Match)
    requires Square(g) && 1 <= minLen
  {
    && m.reading < Readings(m.dir, |g|)
    && RecordOf(m.dir, accepts, minLen, Readings(m.dir, |g|),
                Reading(g, m.dir, m.reading), Positions(g, m.dir, m.reading), m)
  }

  /** The order of the run's output: by direction in `SearchOrder`, then in scan order. */
  predicate InRunOrder(a: Match, b: Match) {
    Rank(a.dir) < Rank(b.dir) || (a.dir == b.dir && Before(a, b))
  }

  predicate RunOrdered(s: seq<Match>) {
    forall x, y :: 0 <= x < y < |s| ==> InRunOrder(s[x], s[y])
  }

  lemma RunOrderedConcat(a: seq<Match>, b: seq<Match>)
    requires RunOrdered(a) && RunOrdered(b)
    requires forall x, y :: x in a && y in b ==> InRunOrder(x, y)
    ensures RunOrdered(a + b)
  {
    forall x, y | 0 <= x < y < |a + b| ensures InRunOrder((a + b)[x], (a + b)[y]) {
      if y < |a| {
      } else if x >= |a| {
        assert (a + b)[x] == b[x - |a|] && (a + b)[y] == b[y - |a|];
      } else {
        assert (a + b)[x] in a && (a + b)[y] in b;
      }
    }
  }

  /** The searches of `main` of the first t directions of `SearchOrder`, in that order. */
  function SearchUpTo(g: seq<seq<char>>, accepts: seq<char> -> bool, minLen: nat, t: nat): (r: seq<Match>)
    requires Square(g) && 1 <= minLen && t <= |SearchOrder|
    ensures forall m :: m in r <==> Rank(m.dir) < t && Found(g, accepts, minLen, m)
    ensures RunOrdered(r)
  {
    if t == 0 then []
    else
      var d := SearchOrder[t - 1];
      var done := SearchUpTo(g, accepts, minLen, t - 1);
      var here := Search(RefView(g, d), d, accepts, minLen, Readings(d, |g|));
      SearchOfDirection(g, accepts, minLen, d);
      RankOfOrder(t - 1);
      RunOrderedConcat(done, here);
      done + here
  }

  /** `SearchOrder` lists each direction once. */
  lemma RankOfOrder(t: nat)
    requires t < |SearchOrder|
    ensures Rank(SearchOrder[t]) == t
    ensures forall d :: Rank(d) == t <==> d == SearchOrder[t]
  {
  }

  /** The search of direction d reports exactly the hits of the run in direction d. */
  lemma SearchOfDirection(g: seq<seq<char>>, accepts: seq<char> -> bool, minLen: nat, d: Dir)
    requires Square(g) && 1 <= minLen
    ensures forall m :: m in Search(RefView(g, d), d, accepts, minLen, Readings(d, |g|)) <==>
              m.dir == d && Found(g, accepts, minLen, m)
  {
    forall m: Match
      ensures Emits(RefView(g, d), d, accepts, minLen, Readings(d, |g|), m) <==>
              m.dir == d && Found(g, accepts, minLen, m)
    {
      EmitsIsFound(g, accepts, minLen, d, m);
    }
  }

  /** What the view of direction d emits is what `Found` describes on the grid. */
  lemma EmitsIsFound(g: seq<seq<char>>, accepts: seq<char> -> bool, minLen: nat, d: Dir, m: Match)
    requires Square(g) && 1 <= minLen
    ensures Emits(RefView(g, d), d, accepts, minLen, Readings(d, |g|), m) <==>
            m.dir == d && Found(g, accepts, minLen, m)
  {
    if m.reading < Readings(d, |g|) {
      ViewReading(g, d, m.reading);
      EmitsIffRecord(RefView(g, d), d, accepts, minLen, Readings(d, |g|), m);
    }
  }

  /** Every hit of the run, in the order `main` reports them. */
  function FindAll(g: seq<seq<char>>, accepts: seq<char> -> bool, minLen: nat): (r: seq<Match>)
    requires Square(g) && 1 <= minLen
    ensures forall m :: m in r <==> Found(g, accepts, minLen, m)
    ensures RunOrdered(r)
  {
    SearchUpTo(g, accepts, minLen, |SearchOrder|)
  }

  /**
   The run: build the grid, set up the views and search them in `main`'s
   order. Exactly the accepted in-bounds slices of the eight views are
   reported, grouped by direction in that order and in scan order within
   a direction.
   */
  method Solve(rows: seq<seq<char>>, accepts: seq<char> -> bool, minLen: nat) returns (found: seq<Match>)
    requires WellFormedRows(rows) && Side(rows) <= 10000 && 1 <= minLen
    ensures forall m :: m in found <==> Found(Populate(rows), accepts, minLen, m)
    ensures RunOrdered(found)
  {
    var g := Populate(rows);
    var vs := SetupPuzzle(g);
    found := SearchAll(g, vs, accepts, minLen);
  }

  /**
   The eight calls of `main`, one per direction of `SearchOrder`, each over
   the readings of its view, their reports appended in call order.
   */
  method SearchAll(g: seq<seq<char>>, vs: ViewSet, accepts: seq<char> -> bool, minLen: nat)
    returns (found: seq<Match>)
    requires Square(g) && 1 <= minLen
    requires forall d :: vs.Of(d) == RefView(g, d)
    ensures forall m :: m in found <==> Found(g, accepts, minLen, m)
    ensures RunOrdered(found)
  {
    found := [];
    var t := 0;
    while t < |SearchOrder|
      invariant 0 <= t <= |SearchOrder|
      invariant found == SearchUpTo(g, accepts, minLen, t)
    {
      var d := SearchOrder[t];
      var here := Search(vs.Of(d), d, accepts, minLen, Readings(d, |g|));
      found := found + here;
      t := t + 1;
    }
    assert found == FindAll(g, accepts, minLen);
  }

  /**
   m is laid out on the grid: it lies inside reading `m.reading` of its
   direction, its text is the grid along that reading, its map entries are
   the `east_map` entries of its first and last cell, and wherever the page
   coordinates fit, its endpoints are the page points of those cells, each
   shifted by `Nudge`.
   */
  predicate OnGrid(g: seq<seq<char>>, accepts: seq<char> -> bool, minLen: nat, m: Match)
    requires Square(g)
  {
    && m.reading < Readings(m.dir, |g|) && 1 <= m.length && minLen <= m.length
    && m.offset + m.length <= ReadingLen(m.dir, |g|, m.reading)
    && accepts(m.text) && |m.text| == m.length
    && (forall t :: 0 <= t < m.length ==>
          m.text[t] == At(g, Source(m.dir, |g|, m.reading, m.offset + t)))
    && m.startKey == EastMap(|g|, Source(m.dir, |g|, m.reading, m.offset))
    && m.endKey == EastMap(|g|, Source(m.dir, |g|, m.reading, m.offset + m.length - 1))
    && (PagesDecodable(|g|) ==>
          && Endpoint(m.startKey) == Drawn(|g|, Source(m.dir, |g|, m.reading, m.offset))
          && Endpoint(m.endKey) == Drawn(|g|, Source(m.dir, |g|, m.reading, m.offset + m.length - 1)))
  }

  /** Every reported hit is laid out on the grid. */
  lemma FoundMatchesGrid(g: seq<seq<char>>, accepts: seq<char> -> bool, minLen: nat, m: Match)
    requires Square(g) && 1 <= minLen
    requires m in FindAll(g, accepts, minLen)
    ensures OnGrid(g, accepts, minLen, m)
  {
    HitMatchesGrid(g, accepts, minLen, m);
  }

  /** What `Found` means on the grid. */
  lemma HitMatchesGrid(g: seq<seq<char>>, accepts: seq<char> -> bool, minLen: nat, m: Match)
    requires Square(g) && 1 <= minLen
    requires Found(g, accepts, minLen, m)
    ensures OnGrid(g, accepts, minLen, m)
  {
    SliceCells(g, m.dir, m.reading, m.offset, m.text);
    ReadingCell(g, m.dir, m.reading, m.offset);
    ReadingCell(g, m.dir, m.reading, m.offset + m.length - 1);
    if PagesDecodable(|g|) {
      EndpointOfCell(|g|, Source(m.dir, |g|, m.reading, m.offset));
      EndpointOfCell(|g|, Source(m.dir, |g|, m.reading, m.offset + m.length - 1));
    }
  }

  /** The drawn endpoint of cell c of an n-by-n grid: its page point, shifted by `Nudge`. */
  function Drawn(n: nat, c: Cell): Point {
    Point(PageX(c) + Nudge, PageY(n, c) + Nudge)
  }

  /** Wherever the page coordinates fit, the endpoint drawn for a cell's map entry is `Drawn`. */
  lemma EndpointOfCell(n: nat, c: Cell)
    requires InSquare(n, c) && PagesDecodable(n)
    ensures Endpoint(EastMap(n, c)) == Drawn(n, c)
  {
    EastMapDecodes(n, c);
  }

  /**
   No false negatives from the wiring: a run of at least `minLen` chars in
   any reading of any view that the oracle accepts is reported.
   */
  lemma NoFalseNegatives(g: seq<seq<char>>, accepts: seq<char> -> bool, minLen: nat,
                         d: Dir, i: nat, j: nat, w: seq<char>)
    requires Square(g) && 1 <= minLen
    requires i < Readings(d, |g|) && j + |w| <= ReadingLen(d, |g|, i) && minLen <= |w|
    requires Reading(g, d, i)[j..j + |w|] == w && accepts(w)
    ensures MatchAt(RefView(g, d), d, i, j, |w|) in FindAll(g, accepts, minLen)
    ensures MatchAt(RefView(g, d), d, i, j, |w|).text == w
  {
    var v := RefView(g, d);
    assert v.text[i] == Reading(g, d, i);
    SearchCompleteness(v, d, accepts, minLen, Readings(d, |g|), i, j, w);
    SearchOfDirection(g, accepts, minLen, d);
  }

  /** The scenario grid cat / abd / tgo. */
  const CatGrid: seq<seq<char>> := ["cat", "abd", "tgo"]

  /** The oracle of the scenario: it accepts only "cat". */
  function CatOracle(s: seq<char>): bool {
    s == "cat"
  }

  /**
   With an oracle that accepts only "cat" and minimum length 3, "cat" is
   reported in the east view at reading 0, offset 0, from the map entry of
   cell (0, 0) to that of cell (0, 2), and in the south view from (0, 0) to
   (2, 0); the entries decode to the drawn points (53, 98), (83, 98) and
   (53, 68).
   */
  lemma CatExample(g: seq<seq<char>>)
    requires g == CatGrid
    ensures Square(g)
    ensures Match(East, 0, 0, 3, "cat", 500095, 800095) in FindAll(g, CatOracle, 3)
    ensures Match(South, 0, 0, 3, "cat", 500095, 500065) in FindAll(g, CatOracle, 3)
    ensures Endpoint(500095) == Point(53, 98)
    ensures Endpoint(800095) == Point(83, 98)
    ensures Endpoint(500065) == Point(53, 68)
  {
    CatHit(g, East, Cell(0, 2));
    CatHit(g, South, Cell(2, 0));
    CatPoint(Cell(0, 0));
    CatPoint(Cell(0, 2));
    CatPoint(Cell(2, 0));
  }

  /** The map entries of the scenario's corner cells decode to their drawn points. */
  lemma CatPoint(c: Cell)
    requires c == Cell(0, 0) || c == Cell(0, 2) || c == Cell(2, 0)
    ensures Endpoint(EastMap(3, c)) == Drawn(3, c)
  {
    EndpointOfCell(3, c);
  }

  /** Reading 0 of direction d of the scenario grid is "cat", ending at cell `last`. */
  lemma CatHit(g: seq<seq<char>>, d: Dir, last: Cell)
    requires g == CatGrid
    requires (d == East && last == Cell(0, 2)) || (d == South && last == Cell(2, 0))
    ensures Square(g)
    ensures Match(d, 0, 0, 3, "cat", EastMap(3, Cell(0, 0)), EastMap(3, last))
              in FindAll(g, CatOracle, 3)
  {
    CatReading(g, d);
    CatEnds(d, last);
    RunIsFound(g, CatOracle, 3, d, 0, 0, "cat");
    FoundIsReported(g, CatOracle, 3, Match(d, 0, 0, 3, "cat", EastMap(3, Cell(0, 0)), EastMap(3, last)));
  }

  /** Reading 0 of the east and south views runs from the top-left cell to `last`. */
  lemma CatEnds(d: Dir, last: Cell)
    requires (d == East && last == Cell(0, 2)) || (d == South && last == Cell(2, 0))
    ensures Source(d, 3, 0, 0) == Cell(0, 0) && Source(d, 3, 0, 2) == last
  {
  }

  lemma FoundIsReported(g: seq<seq<char>>, accepts: seq<char> -> bool, minLen: nat, m: Match)
    requires Square(g) && 1 <= minLen
    requires Found(g, accepts, minLen, m)
    ensures m in FindAll(g, accepts, minLen)
  {
  }

  /** Reading 0 of the east and south views of the scenario grid spells "cat". */
  lemma CatReading(g: seq<seq<char>>, d: Dir)
    requires g == CatGrid && (d == East || d == South)
    ensures Square(g) && |g| == 3
    ensures 0 < Readings(d, |g|) && ReadingLen(d, |g|, 0) == 3
    ensures Reading(g, d, 0)[0..3] == "cat"
  {
    assert Reading(g, d, 0) == "cat";
  }

  /**
   A run the oracle accepts is reported with its text and with the map
   entries of its first and last source cells, which, wherever the page
   coordinates fit, decode to the page points of those cells.
   */
  lemma ReportedWithEndpoints(g: seq<seq<char>>, accepts: seq<char> -> bool, minLen: nat,
                              d: Dir, i: nat, j: nat, w: seq<char>)
    requires Square(g) && 1 <= minLen
    requires i < Readings(d, |g|) && j + |w| <= ReadingLen(d, |g|, i) && minLen <= |w|
    requires Reading(g, d, i)[j..j + |w|] == w && accepts(w)
    ensures var first := Source(d, |g|, i, j);
            var last := Source(d, |g|, i, j + |w| - 1);
            && Match(d, i, j, |w|, w, EastMap(|g|, first), EastMap(|g|, last)) in FindAll(g, accepts, minLen)
            && (PagesDecodable(|g|) ==>
                  Endpoint(EastMap(|g|, first)) == Drawn(|g|, first)
                  && Endpoint(EastMap(|g|, last)) == Drawn(|g|, last))
  {
    RunIsFound(g, accepts, minLen, d, i, j, w);
    if PagesDecodable(|g|) {
      EndpointOfCell(|g|, Source(d, |g|, i, j));
      EndpointOfCell(|g|, Source(d, |g|, i, j + |w| - 1));
    }
  }

  lemma RunIsFound(g: seq<seq<char>>, accepts: seq<char> -> bool, minLen: nat,
                   d: Dir, i: nat, j: nat, w: seq<char>)
    requires Square(g) && 1 <= minLen
    requires i < Readings(d, |g|) && j + |w| <= ReadingLen(d, |g|, i) && minLen <= |w|
    requires Reading(g, d, i)[j..j + |w|] == w && accepts(w)
    ensures var first := Source(d, |g|, i, j);
            var last := Source(d, |g|, i, j + |w| - 1);
            Found(g, accepts, minLen, Match(d, i, j, |w|, w, EastMap(|g|, first), EastMap(|g|, last)))
  {
    ReadingCell(g, d, i, j);
    ReadingCell(g, d, i, j + |w| - 1);
  }
}
