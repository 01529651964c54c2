/**
 The square letter grid built from the puzzle's rows (`populate_east`):
 every row is lower-cased, padded with blanks on the right when there are
 more rows than columns, and blank rows are added when there are more
 columns than rows, so that the result is n by n with n = max(rows, cols).
 */
module Grid {

  /** The terminator of a C string. */
  const Nul: char := 0 as char

  /** The first char beyond 7-bit ASCII. */
  const Ascii: char := 128 as char

  /** The blank used for padding. */
  const Blank: char := ' '

  /** A grid is square when each of its rows is as long as the grid has rows. */
  predicate Square(g: seq<seq<char>>) {
    forall i :: 0 <= i < |g| ==> |g[i]| == |g|
  }

  /** `::tolower` in the "C" locale: only 'A'..'Z' change. */
  function Lower(c: char): char {
    if 'A' <= c <= 'Z' then (c as int + 32) as char else c
  }

  function LowerRow(s: seq<char>): (r: seq<char>)
    ensures |r| == |s|
    ensures forall k :: 0 <= k < |s| ==> r[k] == Lower(s[k])
  {
    seq(|s|, k requires 0 <= k < |s| => Lower(s[k]))
  }

  function Blanks(k: nat): (r: seq<char>)
    ensures |r| == k
    ensures forall i :: 0 <= i < k ==> r[i] == Blank
  {
    seq(k, _ => Blank)
  }

  /**
   The rows this model accepts: all have the first row's length (the
   padding is computed from the first row only), the first is non-empty,
   and every char is an ASCII char other than NUL, so that one char is one
   byte of the source's `std::string` and `strncpy` copies the whole row.
   */
  predicate WellFormedRows(rows: seq<seq<char>>) {
    && (forall i :: 0 <= i < |rows| ==> |rows[i]| == |rows[0]|)
    && (|rows| > 0 ==> |rows[0]| > 0)
    && (forall i, k :: 0 <= i < |rows| && 0 <= k < |rows[i]| ==> Nul < rows[i][k] < Ascii)
  }

  /** The column count, taken from the first row. */
  function Cols(rows: seq<seq<char>>): nat {
    if |rows| == 0 then 0 else |rows[0]|
  }

  /** The side of the square grid. */
  function Side(rows: seq<seq<char>>): nat {
    if |rows| > Cols(rows) then |rows| else Cols(rows)
  }

  /**
   `populate_east` after the rows have been read: row i is the lower-cased
   input row with `extra` blanks appended, copied truncated to n chars; rows
   from the row count up to the column count are all blanks.
   */
  function Populate(rows: seq<seq<char>>): (g: seq<seq<char>>)
    requires WellFormedRows(rows)
    ensures |g| == Side(rows) && Square(g)
    ensures |g| >= |rows| && |g| >= Cols(rows)
    ensures |g| == |rows| || |g| == Cols(rows)
    ensures forall i, j :: 0 <= i < |g| && 0 <= j < |g| ==>
              g[i][j] == (if i < |rows| && j < Cols(rows) then Lower(rows[i][j]) else Blank)
    ensures forall i, j :: 0 <= i < |g| && 0 <= j < |g| ==> g[i][j] != Nul
  {
    var n := Side(rows);
    var cols := Cols(rows);
    var extra := if |rows| > cols then Blanks(|rows| - cols) else [];
    var given := seq(|rows|, i requires 0 <= i < |rows| => (LowerRow(rows[i]) + extra)[..n]);
    var rest := seq(n - |rows|, _ => Blanks(cols));
    given + rest
  }

  /** The doc example of the source: rows ABC / DEF / GHI give the lower-case 3-by-3 grid. */
  lemma PopulateExample()
    ensures Populate(["ABC", "DEF", "GHI"]) == ["abc", "def", "ghi"]
  {
    var g := Populate(["ABC", "DEF", "GHI"]);
    assert g[0] == "abc";
    assert g[1] == "def";
    assert g[2] == "ghi";
  }

  /** Two rows of four columns give a 4-by-4 grid whose last two rows are blank. */
  lemma PopulateWideExample()
    ensures Populate(["star", "east"]) == ["star", "east", "    ", "    "]
  {
    var g := Populate(["star", "east"]);
    assert g[0] == "star";
    assert g[1] == "east";
    assert g[2] == "    ";
    assert g[3] == "    ";
  }

  /**
   Three rows of one column give a 3-by-3 grid: each row keeps its
   lower-cased letter in column 0 and gets two blanks after it.
   */
  lemma PopulateTallExample()
    ensures var g := Populate(["A", "b", "C"]);
            && |g| == 3
            && (forall i :: 0 <= i < 3 ==> g[i][1..] == "  ")
            && g[0][0] == 'a' && g[1][0] == 'b' && g[2][0] == 'c'
  {
    var rows := ["A", "b", "C"];
    var g := Populate(rows);
    forall i | 0 <= i < 3
      ensures g[i][1..] == "  "
    {
      assert g[i][1] == Blank && g[i][2] == Blank;
    }
  }
}
