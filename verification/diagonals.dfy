/**
 The loops of `setup_puzzle` that build the diagonal readings: the SE pass
 over b in [0, 2n), the NE pass over b in [-n, n) storing into reading
 b + n - 1, and the pass that derives NW and SW by writing each SE / NE
 reading backwards. Each is proved to produce the closed-form views of
 module Views.
 */
module Diagonals {
  import opened Coordinates
  import opened Grid
  import opened Views

  /** How many x in [0, x) the SE pass over diagonal b has accepted: y = b - x lies in [0, n). */
  function SeSeen(n: nat, b: nat, x: nat): nat
    requires b < 2 * n && x <= n
  {
    var lo := SeStart(n, b);
    var hi := if b < n then b + 1 else n;
    if x <= lo then 0 else (if x < hi then x else hi) - lo
  }

  /** How many x in [0, x) the NE pass with intercept b has accepted: y = x + b lies in [0, n). */
  function NeSeen(n: nat, b: int, x: nat): nat
    requires -(n as int) <= b < n && x <= n
  {
    var lo := if b < 0 then -b else 0;
    var hi := if b > 0 then n - b else n;
    if x <= lo then 0 else (if x < hi then x else hi) - lo
  }

  /**
   The SE pass: for each b, `SouthEastDiagonal` walks x upwards and fills
   reading b.
   */
  method BuildSouthEast(g: seq<seq<char>>) returns (v: View)
    requires Square(g)
    ensures v == RefView(g, SouthEast)
  {
    var n := |g|;
    var text: seq<seq<char>> := seq(2 * n, _ => []);
    var pos: seq<seq<int>> := seq(2 * n, _ => []);
    var b := 0;
    while b < 2 * n
      invariant 0 <= b <= 2 * n
      invariant |text| == 2 * n && |pos| == 2 * n
      invariant forall i :: 0 <= i < b ==> text[i] == Reading(g, SouthEast, i)
      invariant forall i :: 0 <= i < b ==> pos[i] == Positions(g, SouthEast, i)
    {
      var row, keys := SouthEastDiagonal(g, b);
      text := text[b := row];
      pos := pos[b := keys];
      b := b + 1;
    }
    v := View(text, pos);
    RefViewFromReadings(g, SouthEast, v);
  }

  /**
   One SE diagonal b: walk x upwards and append cell (n-1-y, x) with
   y = b - x whenever it lies inside the grid; `count` is the offset written.
   */
  method SouthEastDiagonal(g: seq<seq<char>>, b: nat) returns (row: seq<char>, keys: seq<int>)
    requires Square(g) && b < 2 * |g|
    ensures row == Reading(g, SouthEast, b) && keys == Positions(g, SouthEast, b)
  {
    var n := |g|;
    row, keys := [], [];
    var slope := -1;
    var count := 0;
    var x := 0;
    while x < n
      invariant 0 <= x <= n
      invariant count == SeSeen(n, b, x) <= DiagLen(n, b)
      invariant row == Reading(g, SouthEast, b)[..count]
      invariant keys == Positions(g, SouthEast, b)[..count]
    {
      var y := slope * x + b;
      if 0 <= y < n {
        assert x == SeStart(n, b) + count;
        // the source stores at offset `count`, which is the current length
        row := row + [g[n - 1 - y][x]];
        keys := keys + [EastMap(n, Cell(n - 1 - y, x))];
        count := count + 1;
      }
      x := x + 1;
    }
  }

  /**
   The NE pass: for each b in [-n, n), `NorthEastDiagonal` fills reading
   b + n - 1. The pass b = -n accepts no x, so reading index -1 is never
   written.
   */
  method BuildNorthEast(g: seq<seq<char>>) returns (v: View)
    requires Square(g)
    ensures v == RefView(g, NorthEast)
  {
    var n := |g|;
    var text: seq<seq<char>> := seq(2 * n, _ => []);
    var pos: seq<seq<int>> := seq(2 * n, _ => []);
    var b := -n;
    while b < n
      invariant -n <= b <= n
      invariant |text| == 2 * n && |pos| == 2 * n
      invariant forall i :: 0 <= i < b + n - 1 ==> text[i] == Reading(g, NorthEast, i)
      invariant forall i :: 0 <= i < b + n - 1 ==> pos[i] == Positions(g, NorthEast, i)
      invariant forall i :: 0 <= i < 2 * n && b + n - 1 <= i ==> text[i] == [] && pos[i] == []
    {
      var row, keys := NorthEastDiagonal(g, b);
      if b + n - 1 >= 0 {
        text := text[b + n - 1 := row];
        pos := pos[b + n - 1 := keys];
      }
      b := b + 1;
    }
    v := View(text, pos);
    RefViewFromReadings(g, NorthEast, v);
  }

  /**
   One NE intercept b: walk x upwards and append cell (n-1-y, x) with
   y = x + b whenever it lies inside the grid.
   */
  method NorthEastDiagonal(g: seq<seq<char>>, b: int) returns (row: seq<char>, keys: seq<int>)
    requires Square(g) && -|g| <= b < |g|
    ensures b == -|g| ==> row == [] && keys == []
    ensures b + |g| - 1 >= 0 ==>
              row == Reading(g, NorthEast, b + |g| - 1) && keys == Positions(g, NorthEast, b + |g| - 1)
  {
    var n := |g|;
    row, keys := [], [];
    var slope := 1;
    var count := 0;
    var x := 0;
    while x < n
      invariant 0 <= x <= n
      invariant count == NeSeen(n, b, x)
      invariant b == -n ==> count == 0
      invariant |row| == count && |keys| == count
      invariant b + n - 1 >= 0 ==> count <= DiagLen(n, b + n - 1)
      invariant b + n - 1 >= 0 ==> row == Reading(g, NorthEast, b + n - 1)[..count]
      invariant b + n - 1 >= 0 ==> keys == Positions(g, NorthEast, b + n - 1)[..count]
    {
      var y := slope * x + b;
      if 0 <= y < n {
        assert x == NeStart(n, b + n - 1) + count;
        row := row + [g[n - 1 - y][x]];
        keys := keys + [EastMap(n, Cell(n - 1 - y, x))];
        count := count + 1;
      }
      x := x + 1;
    }
  }

  /**
   The pass deriving NW and SW: reading i of each is filled by writing
   offset c of SE (resp. NE) reading i at offset len-1-c, where len is the
   length of the SE reading, used for both.
   */
  method BuildReversed(se: View, ne: View) returns (nw: View, sw: View)
    requires Shaped(se) && Shaped(ne) && |ne.text| == |se.text|
    requires forall i :: 0 <= i < |se.text| ==> |ne.text[i]| == |se.text[i]|
    ensures Shaped(nw) && Shaped(sw)
    ensures |nw.text| == |se.text| && |sw.text| == |se.text|
    ensures forall i :: 0 <= i < |se.text| ==>
              && nw.text[i] == Reverse(se.text[i]) && nw.pos[i] == Reverse(se.pos[i])
              && sw.text[i] == Reverse(ne.text[i]) && sw.pos[i] == Reverse(ne.pos[i])
  {
    var m := |se.text|;
    var nwText: seq<seq<char>> := [];
    var nwPos: seq<seq<int>> := [];
    var swText: seq<seq<char>> := [];
    var swPos: seq<seq<int>> := [];
    var i := 0;
    while i < m
      invariant 0 <= i <= m
      invariant |nwText| == i && |nwPos| == i && |swText| == i && |swPos| == i
      invariant forall r :: 0 <= r < i ==>
                  && nwText[r] == Reverse(se.text[r]) && nwPos[r] == Reverse(se.pos[r])
                  && swText[r] == Reverse(ne.text[r]) && swPos[r] == Reverse(ne.pos[r])
    {
      var len := |se.text[i]|;
      // the source's buffers start out zeroed
      var rowNw := seq(len, _ => Nul);
      var rowSw := seq(len, _ => Nul);
      var mapNw := seq(len, _ => 0);
      var mapSw := seq(len, _ => 0);
      var c := 0;
      while c < len
        invariant 0 <= c <= len
        invariant |rowNw| == len && |rowSw| == len && |mapNw| == len && |mapSw| == len
        invariant forall k :: len - c <= k < len ==>
                    && rowNw[k] == se.text[i][len - 1 - k] && mapNw[k] == se.pos[i][len - 1 - k]
                    && rowSw[k] == ne.text[i][len - 1 - k] && mapSw[k] == ne.pos[i][len - 1 - k]
      {
        rowNw := rowNw[len - c - 1 := se.text[i][c]];
        mapNw := mapNw[len - c - 1 := se.pos[i][c]];
        rowSw := rowSw[len - c - 1 := ne.text[i][c]];
        mapSw := mapSw[len - c - 1 := ne.pos[i][c]];
        c := c + 1;
      }
      nwText := nwText + [rowNw];
      nwPos := nwPos + [mapNw];
      swText := swText + [rowSw];
      swPos := swPos + [mapSw];
      i := i + 1;
    }
    nw := View(nwText, nwPos);
    sw := View(swText, swPos);
  }
}
