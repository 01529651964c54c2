# Word search solver core, in Dafny

This project models the core of `solve.cpp`, a word search solver. The part
modelled starts once the puzzle's rows have been read and ends where the
result is drawn:

- the rows are squared into an n-by-n lower-case grid (`populate_east`);
- every cell gets a page coordinate, packed into one integer key
  (`make_val`, `get_x_from_key`, `get_y_from_key`, `east_map`);
- eight oriented views of the grid are built (`setup_puzzle`). These are
  east, west, north and south with n readings each, and the SE, NE, NW and
  SW diagonal families with 2n readings each. Each view comes with a map
  from (reading, offset) to the `east_map` entry of the cell shown there;
- every view is scanned (`search`), in the order `main` calls it, for
  slices of at least the minimum length that the dictionary accepts.

The modules follow that pipeline:

- `Coordinates` covers key packing with C's truncating `%` and `/`, and the
  page coordinates.
- `Grid` covers the squaring.
- `Views` gives every view in closed form. `Source(d, n, i, k)` names the
  grid cell shown at offset k of reading i of direction d. The module proves
  that each direction shows every cell exactly once.
- `Diagonals` holds the SE, NE and reversal loops of `setup_puzzle` as
  methods. They are proved to build exactly the closed-form views.
- `Scan` is the nested (reading, offset, length) enumeration of `search`.
- `ScanBounds` lists the questions `search` puts to the dictionary, with
  the length bound as written and as modelled, and relates the two.
- `Solver` covers `setup_puzzle` as a whole, the eight searches of `main`,
  and what a reported hit means on the grid (`Found`).

The dictionary is a Bloom filter. Here it is a parameter
`accepts: seq<char> -> bool`, the membership oracle. A reported hit
(`Scan.Match`) carries:

- its direction, reading, offset and length;
- the accepted text;
- the two map entries from which the source computes its endpoints.

`Scan.Endpoint` decodes an entry into the drawn point. That point is the
decoded page point shifted by 3 in both coordinates.

## Source behaviour the model keeps

- An empty puzzle is not rejected: no rows give a 0-by-0 grid, whose eight
  views have no readings.
- The `n > 200` test (solve.cpp:203) reads `n` before `populate_east`
  assigns it (solve.cpp:219), so it never rejects a puzzle. The bound that
  does matter is the radix of `make_val`: from n = 10001 on, two cells
  share a map key (`Coordinates.MapKeysCollide`), so `Solver.SetupPuzzle`
  and `Solver.Solve` require n <= 10000.
- A diagonal family has 2n readings, and the last one, 2n - 1, is always
  empty. SE diagonal b = 2n - 1 holds no cell: y = 2n - 1 - x is at least n
  for every x < n. The NE pass stores into reading b + n - 1 for b < n, which
  never exceeds 2n - 2 (solve.cpp:292-316).
- From n = 664 on, the page y coordinate 50 + 15n of row 0 reaches the
  radix 10000. Decoding a packed `east_map` entry then mixes its two halves,
  so the endpoints drawn at solve.cpp:353-358 are wrong
  (`Coordinates.EastMapDecodeFails`). The `n > 200` guard that would
  prevent this never fires. The model states endpoints only for grids
  where the page coordinates fit (`Coordinates.PagesDecodable`).
- Rows are not padded to the longest row. The padding is computed once from
  the first row (solve.cpp:217-225), so the model requires every row to have
  the first row's length.

## Model

| member | source | states |
|---|---|---|
| `Coordinates.MakeVal` | solve.cpp:102-104 | no contract: the body is `make_val`'s `i * 10000 + j`; `Coordinates.KeyRoundTrip`, `Coordinates.MakeValInjective` and `Coordinates.MapKeysCollide` state its properties |
| `Coordinates.YFromKey` | solve.cpp:107-109 | no contract: the body is `v % 10000` with C's `%` (`Coordinates.CRem`); `Coordinates.KeyRoundTrip` states its property |
| `Coordinates.XFromKey` | solve.cpp:112-115 | no contract: the body is `(v - y) / 10000` with C's `/` (`Coordinates.CDiv`); `Coordinates.KeyRoundTrip` states its property |
| `Coordinates.PageX` | solve.cpp:258 | no contract: the body is `px = 50 + 15 * y` for column y; `Coordinates.EastMapDecodes` and `Coordinates.EastMapInjective` state its properties |
| `Coordinates.PageY` | solve.cpp:259 | no contract: the body is `py = 50 + 15 * (n - x)` for row x; `Coordinates.EastMapDecodes` and `Coordinates.EastMapDecodeFails` state its properties |
| `Coordinates.EastMap` | solve.cpp:255-263 | no contract: the body is the entry `make_val(px, py)` stored for cell (x, y); `Coordinates.EastMapDecodes`, `Coordinates.EastMapInjective` and `Coordinates.KeysFitInt` state its properties |
| `Coordinates.CRem` | solve.cpp:107-109 | `get_y_from_key`'s `%` on a C `int`: the remainder lies in [0, 10000) for a non-negative key and in (-10000, 0] for a negative one |
| `Coordinates.CDiv` | solve.cpp:112-115 | `get_x_from_key`'s `/` on a C `int`: quotient and truncated remainder recombine to the dividend |
| `Coordinates.KeyRoundTrip` | solve.cpp:102-115 | for i >= 0 and 0 <= j < 10000, `get_y_from_key(make_val(i, j)) == j` and `get_x_from_key(make_val(i, j)) == i` |
| `Coordinates.MakeValInjective` | solve.cpp:102-104 | `make_val` is injective on i >= 0, 0 <= j < 10000 |
| `Coordinates.EastMapDecodes` | solve.cpp:255-263 | when 50 + 15n < 10000, decoding the `east_map` entry of a cell gives back both of its page coordinates |
| `Coordinates.EastMapDecodeFails` | solve.cpp:255-263 | once 50 + 15n >= 10000, the y page coordinate of cell (0, 0) no longer decodes correctly |
| `Coordinates.EastMapInjective` | solve.cpp:255-263 | for n <= 10000, distinct cells get distinct `east_map` entries |
| `Coordinates.MapKeysDistinct` | solve.cpp:262-326 | for n <= 10000, the map keys `make_val(i, j)` with i < 2n and j < n are pairwise distinct, so no map entry of `setup_puzzle` overwrites another |
| `Coordinates.MapKeysCollide` | solve.cpp:262-326 | for n > 10000, cells (0, 10000) and (1, 0) lie in the grid and share the key 10000 |
| `Coordinates.KeysFitInt` | solve.cpp:255-263 | for n <= 10000, every `east_map` entry and every map key lies in [0, 2^31), so no `make_val` overflows a 32-bit `int` |
| `Grid.Lower` | solve.cpp:215 | no contract: the body is `::tolower` in the "C" locale on ASCII; `Grid.Populate` states that every given cell is lower-cased |
| `Grid.Populate` | solve.cpp:212-233 | the grid is n by n with n = max(rows, cols). Cell (i, j) is the lower-cased input char when i < rows and j < cols and a blank otherwise, and no cell is NUL |
| `Grid.PopulateExample` | solve.cpp:212-229 | rows ABC / DEF / GHI give abc / def / ghi |
| `Grid.PopulateWideExample` | solve.cpp:230-233 | two rows of four columns get two all-blank rows appended |
| `Grid.PopulateTallExample` | solve.cpp:221-228 | three rows of one column give a 3-by-3 grid: each row keeps its lower-cased letter first and is padded with two blanks |
| `Views.SeCell` | solve.cpp:294-298 | the cell at offset k of SE reading b is (n-1-y, x) for the k-th x in increasing order with y = b - x; it lies inside the grid |
| `Views.NeCell` | solve.cpp:308-312 | the cell at offset k of NE reading b + n - 1 is (n-1-y, x) for the k-th x in increasing order with y = x + b; it lies inside the grid |
| `Views.DiagLen` | solve.cpp:291-316 | a diagonal reading has at most n chars. Exactly reading n-1 has n chars, and exactly the last reading, 2n-1, is empty |
| `Views.Source` | solve.cpp:267-327 | every position of every view shows a cell inside the grid |
| `Views.RefView` | solve.cpp:267-328 | every view is shaped: its map has an entry for exactly its positions. Axis views have n readings and diagonal views 2n |
| `Views.Locate` | solve.cpp:267-327 | for every direction, every cell has a position in that direction's view |
| `Views.SourceCoversGrid` | solve.cpp:267-327 | every cell of the grid is shown by every direction, at the position `Locate` names |
| `Views.SourceOneToOne` | solve.cpp:267-327 | `Locate` inverts `Source`: every position is the one `Locate` names for the cell it shows |
| `Views.SourceInjective` | solve.cpp:291-316 | two positions of one direction that show the same cell are equal, so every cell lies on exactly one SE reading and exactly one NE reading |
| `Views.PositionMapInjective` | solve.cpp:262-326 | for n <= 10000 the map entries of one view are pairwise distinct |
| `Views.ViewShowsSource` | solve.cpp:267-327 | at every position, the view holds the char of its source cell and the map holds that cell's `east_map` entry |
| `Views.PositionMapDecodes` | solve.cpp:255-263 | when the page coordinates fit, every map entry of every view decodes to its source cell's page point |
| `Views.AxisViews` | solve.cpp:267-280 | east is the grid. West and north are east and south written backwards, with their maps re-indexed the same way. South is the transpose of east, maps included |
| `Views.DiagonalReversal` | solve.cpp:319-327 | SE and NE readings with the same index have the same length. NW and SW are SE and NE written backwards, maps included |
| `Views.DocExampleAxis` | solve.cpp:50-64 | on ABC / DEF / GHI, west is cba / fed / ihg and north is gda / heb / ifc |
| `Views.DocExampleSouthEast` | solve.cpp:290-302 | on ABC / DEF / GHI, SE is g, dh, aei, bf, c and an empty sixth reading |
| `Views.DocExampleNorthEast` | solve.cpp:304-316 | on ABC / DEF / GHI, NE is i, hf, gec, db, a and an empty sixth reading |
| `Views.DocTriangleIsNotNorthWest` | solve.cpp:66-71 | the triangle the comment labels "nw" is not the NW view: it is the NE readings in decreasing index order |
| `Diagonals.BuildSouthEast` | solve.cpp:290-302 | the SE pass builds exactly the SE view and its map |
| `Diagonals.SouthEastDiagonal` | solve.cpp:293-301 | the inner SE loop for diagonal b builds reading b and its map entries. Offset `count` holds the count-th x in increasing order with y = b - x in [0, n) |
| `Diagonals.BuildNorthEast` | solve.cpp:304-316 | the NE pass over b in [-n, n) builds exactly the NE view and its map, storing into reading b + n - 1 |
| `Diagonals.NorthEastDiagonal` | solve.cpp:307-315 | the pass b = -n accepts no x, so index -1 is never written. Every other b builds reading b + n - 1 with y = x + b |
| `Diagonals.BuildReversed` | solve.cpp:318-328 | NW and SW reading i are SE and NE reading i written backwards, maps included. Only the SE length is used for both |
| `Scan.Endpoint` | solve.cpp:352-358 | no contract: the body is `get_x_from_key(v) + 3`, `get_y_from_key(v) + 3`; `Solver.EndpointOfCell` states what it draws for a cell |
| `Scan.MatchAt` | solve.cpp:352-360 | no contract: the body records the slice `std::string(d+j, z)` and the map entries `m[make_val(i, j)]` and `m[make_val(i, j+z-1)]`; `Scan.SearchSound` and `Solver.FoundMatchesGrid` state what they hold |
| `Scan.ScanLengths` | solve.cpp:350-360 | no contract: the body is the innermost loop over z; `Scan.LengthsScanned` states what it reports |
| `Scan.ScanOffsets` | solve.cpp:346-360 | no contract: the body is the loop over j; `Scan.OffsetsScanned` states what it reports |
| `Scan.ScanReadings` | solve.cpp:342-360 | no contract: the body is the loop over i; `Scan.ReadingsScanned` states what it reports |
| `Scan.LengthsScanned` | solve.cpp:350-360 | at offset j of reading i, exactly the accepted in-bounds lengths from z upwards are reported, in increasing length |
| `Scan.OffsetsScanned` | solve.cpp:346-360 | in reading i, exactly the accepted in-bounds slices starting at j or later are reported, by offset and then by length |
| `Scan.ReadingsScanned` | solve.cpp:342-360 | exactly the accepted slices of readings i and later are reported, in (reading, offset, length) order |
| `Scan.Search` | solve.cpp:340-380 | a record is reported exactly when it is an in-bounds slice of at least `minLen` chars of a reading below `rows` that the oracle accepts. It carries that text and the map entries at its first and last offsets. Reports come in strictly increasing (reading, offset, length) order, so none is repeated |
| `Scan.SearchCompleteness` | solve.cpp:342-358 | every accepted in-bounds slice is reported, with its text |
| `Scan.SearchSound` | solve.cpp:350-360 | every report is a record of its reading (`Scan.RecordOf`): an accepted in-bounds slice of at least the minimum length of a reading below `rows`, recorded with the map entries `map(i, j)` and `map(i, j + z - 1)` |
| `Scan.EmitsIffRecord` | solve.cpp:350-358 | a report of a view is exactly a record of the reading it names |
| `ScanBounds.AskedMembers` | solve.cpp:342-351 | the questions put to the filter are every offset of every reading below `rows` with every length from the minimum up to the reading's length as written (z <= len), or up to len - j as modelled |
| `ScanBounds.CorrectionDropsOverruns` | solve.cpp:342-351 | dropping the questions about slices that run past their reading from the as-written sequence gives exactly the modelled sequence, in the same order |
| `ScanBounds.SearchAnswersInBounds` | solve.cpp:342-360 | `Scan.Search` reports, in order, the accepted answers to the modelled questions, which are the in-bounds questions of the as-written loops |
| `ScanBounds.ScanOverrunsAsWritten` | solve.cpp:346-358 | as written, when the minimum length is at most the reading's length, the last offset of a reading of two or more chars is asked about the full length, a slice past the reading's end that the modelled loops never ask about |
| `ScanBounds.ScanOverrunExample` | solve.cpp:350-356 | on reading "abcde" with minimum length 5, the source asks about [1, 6) at offset 1 |
| `Solver.SetupPuzzle` | solve.cpp:250-328 | after the grid is read, every one of the eight views and maps is the closed-form view of its direction, for grids no wider than 10000 where no map keys collide |
| `Solver.Rank` | solve.cpp:450-457 | every direction has a place in `main`'s search order |
| `Solver.RankOfOrder` | solve.cpp:450-457 | `main` searches each of the eight directions exactly once |
| `Solver.SearchUpTo` | solve.cpp:450-457 | the first t searches of `main` report exactly the hits in the first t directions, in run order |
| `Solver.SearchOfDirection` | solve.cpp:340-360 | searching the view of direction d reports exactly the hits of the run in direction d |
| `Solver.EmitsIsFound` | solve.cpp:340-360 | a record is emitted by the view of direction d exactly when it is a hit in direction d on the grid |
| `Solver.FindAll` | solve.cpp:445-457 | the run reports exactly the hits on the grid, grouped by direction in `main`'s order and in scan order within a direction |
| `Solver.Solve` | solve.cpp:445-457 | for well-formed ASCII rows and a grid no wider than 10000, reading, setup and the eight searches together report exactly the hits on the squared grid, in run order |
| `Solver.SearchAll` | solve.cpp:450-457 | the eight calls of `main`, each over n readings for an axis view and 2n for a diagonal one, report exactly the hits, in run order |
| `Solver.FoundMatchesGrid` | solve.cpp:352-360 | every report lies inside its reading and has the grid's chars along that reading as its text. Its map entries are the `east_map` entries of its first and last cells, and when the page coordinates fit, its endpoints are those cells' page points shifted by 3 |
| `Solver.EndpointOfCell` | solve.cpp:352-358 | when the page coordinates fit, the endpoint drawn for a cell's `east_map` entry is its page point shifted by 3 |
| `Solver.NoFalseNegatives` | solve.cpp:342-358 | every run of at least the minimum length in any view that the oracle accepts is reported, with that text |
| `Solver.ReportedWithEndpoints` | solve.cpp:342-360 | every accepted run is reported with the `east_map` entries of its first and last cells, and those decode to the cells' page points shifted by 3 when they fit |
| `Solver.CatExample` | solve.cpp:350-360 | on grid cat / abd / tgo with an oracle for "cat", "cat" is reported east from (53, 98) to (83, 98) and south from (53, 98) to (53, 68) |
| `Solver.CatPoint` | solve.cpp:255-263 | the corner cells of a 3-by-3 grid are drawn at their page points shifted by 3 |

## Left out

- Console and file I/O are not modelled. This covers the prompts and `cin`
  reads of `populate_east`, `file_len`, the dictionary reading of
  `setup_filter`, `show`, and all PostScript and found-words output. The
  model starts from the rows as a sequence of strings. It ends at the list
  of reports, whose endpoints are what the source prints.
- The Bloom filter's internals are not modelled. This includes its
  parameters and the floating-point false-positive rate. The filter
  implementation is not part of this model. The dictionary is the parameter
  `accepts`, so a word is reported when the filter says so, false positives
  included.
- `parse_args` and `usage` are command-line handling. The minimum word
  length is a parameter.
- `init_storage` and the global arrays and maps are not modelled. Views and
  maps are immutable values. The zero-filled buffers matter only as string
  terminators, and the grid holds no NUL.
- `std::map` lookups are not modelled as a map. A view's map is a sequence
  parallel to its readings. The source's by-value copy in `search`, which
  gives 0 for a missing key, is reached only by the overrun of the Findings
  row.
- 32-bit `int` overflow of `make_val` is not modelled, because it cannot
  happen in the grids the model admits: for n <= 10000 every key and every
  `east_map` entry lies in [0, 2^31) (`Coordinates.KeysFitInt`).
- `Solver.SetupPuzzle`: requires n <= 10000. Beyond that the source's
  `std::map`s lose entries to colliding `make_val` keys
  (`Coordinates.MapKeysCollide`), and the views with their maps are no
  longer the closed-form ones. `Solver.Solve` carries the same bound.
- `Grid.Populate`: requires every row to have the first row's length, a
  non-empty first row, and only ASCII chars other than NUL. The source
  computes the padding from the first row only. It counts and copies bytes
  (`row.length()`, `strncpy`, `strlen`), so the model assumes ASCII input,
  where one char is one byte and `::tolower` is defined. A NUL byte inside
  a token would end the row early at `strncpy` and `strlen`.
- The model assumes text input holding at least `rows` tokens. When input
  ends early, `cin >> row` fails and leaves `row` empty (solve.cpp:213-228).
  If that happens before any row was read, `cols` stays 0, so every later
  iteration calls `init_storage` again and lengthens `extra`. If it happens
  later, each missing row becomes `extra` alone. That short-input path is
  not modelled.
- `Grid.Lower`: only 'A' to 'Z' are case-folded, as `::tolower` does in the
  "C" locale. Other locales are not modelled.
- `Scan.Search`: lengths are limited to the in-bounds slices, z <= len - j,
  and so are the members built on it: `Scan.ScanLengths`,
  `Scan.ScanOffsets`, `Scan.ScanReadings`, `Scan.LengthsScanned`,
  `Scan.OffsetsScanned`, `Scan.ReadingsScanned`, `Scan.SearchSound`,
  `Solver.SearchUpTo`, `Solver.FindAll`, `Solver.SearchAll` and
  `Solver.Solve`. This bound replaces the source's z <= len and is the one
  deliberate deviation; see Findings. `ScanBounds.SearchAnswersInBounds` states that it drops
  the overrunning questions and nothing else. What the filter answers for
  an overrunning question, which reads past the reading's terminator, is
  not modelled.
- `Scan.Search`: requires a minimum length of at least 1. With 0 the end
  offset j + z - 1 would lie before the slice.
- `Scan.Match` also records the direction, which the source does not print.
  In the source the direction is known from which call of `search` made the
  report.
- `Solver.SearchAll`: the eight literal calls of `main` are modelled as one
  loop over the search order.
- The doc comment's "nw" triangle (solve.cpp:66-71) is not used as the NW
  view; `Views.DocTriangleIsNotNorthWest` states what it is instead.

## Findings

| source | as written | input that shows it | evidently intended | confidence | as-written member | corrected member |
|---|---|---|---|---|---|---|
| solve.cpp:350 | `for (size_t z = MIN_LEN; z <= len; z++)` tries every length up to the reading's full length at every start offset j | reading "abcde", MIN_LEN 5: at j = 1 the filter is asked about 5 chars from offset 1, one past the end; if the filter accepts, `m[make_val(i, 5)]` is looked up past the last offset and inserts 0 into the copied map | `z <= len - j`, so that only slices inside the reading are tried | high; not executed | `ScanBounds.ScanOverrunsAsWritten` | `Scan.Search` |
