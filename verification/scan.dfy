/**
 The search of one view (`search`): for every reading i below `rows`, every
 start offset j and every length z from the minimum length upwards, in that
 nested ascending order, the membership oracle is asked about the slice
 [j, j + z) of reading i, and every accepted slice is reported, with no
 deduplication. The oracle is a parameter: it is a Bloom filter whose
 implementation is not part of this model.

 The source lets z run up to the reading's length whatever j is, so for
 j > 0 it also asks about slices that run past the end of the reading. This
 model scans the slices that lie inside the reading, z <= len - j; module
 ScanBounds enumerates the questions as written and proves that `Search`
 is what remains once the overrunning ones are dropped.
 */
module Scan {
  import opened Coordinates
  import opened Views

  /** Both page coordinates of a drawn endpoint are shifted by this much. */
  const Nudge: int := 3

  /**
   One reported hit: where it was found, the accepted text, and the map
   entries of its first and last chars, from which its two endpoints are
   drawn (`Endpoint`).
   */
  datatype Match = Match(dir: Dir, reading: nat, offset: nat, length: nat,
                         text: seq<char>, startKey: int, endKey: int)

  /** The endpoint drawn for a map entry: its decoded page point, shifted by `Nudge`. */
  function Endpoint(key: int): Point {
    Point(XFromKey(key) + Nudge, YFromKey(key) + Nudge)
  }

  /** A slice the scan visits: a reading below `rows` and at least `minLen` chars inside it. */
  predicate Candidate(v: View, rows: nat, minLen: nat, i: nat, j: nat, z: nat) {
    i < rows && i < |v.text| && minLen <= z && j + z <= |v.text[i]|
  }

  /** The record the source reports for the slice [j, j + z) of reading i. */
  function MatchAt(v: View, d: Dir, i: nat, j: nat, z: nat): (m: Match)
    requires Shaped(v) && i < |v.text| && 1 <= z && j + z <= |v.text[i]|
  {
    Match(d, i, j, z, v.text[i][j..j + z], v.pos[i][j], v.pos[i][j + z - 1])
  }

  /** m is reported by the scan: a visited slice the oracle accepts, recorded as `MatchAt`. */
  predicate Emits(v: View, d: Dir, accepts: seq<char> -> bool, minLen: nat, rows: nat, m: Match)
    requires Shaped(v) && 1 <= minLen
  {
    && Candidate(v, rows, minLen, m.reading, m.offset, m.length)
    && accepts(v.text[m.reading][m.offset..m.offset + m.length])
    && m == MatchAt(v, d, m.reading, m.offset, m.length)
  }

  /** The scan order: by reading, then start offset, then length. */
  predicate Before(a: Match, b: Match) {
    || a.reading < b.reading
    || (a.reading == b.reading && a.offset < b.offset)
    || (a.reading == b.reading && a.offset == b.offset && a.length < b.length)
  }

  predicate Increasing(s: seq<Match>) {
    forall x, y :: 0 <= x < y < |s| ==> Before(s[x], s[y])
  }

  lemma IncreasingConcat(a: seq<Match>, b: seq<Match>)
    requires Increasing(a) && Increasing(b)
    requires forall x, y :: x in a && y in b ==> Before(x, y)
    ensures Increasing(a + b)
  {
    forall x, y | 0 <= x < y < |a + b| ensures Before((a + b)[x], (a + b)[y]) {
      if y < |a| {
      } else if x >= |a| {
        assert (a + b)[x] == b[x - |a|] && (a + b)[y] == b[y - |a|];
      } else {
        assert (a + b)[x] in a && (a + b)[y] in b;
      }
    }
  }

  /** The innermost loop: lengths z, z + 1, .. at start offset j of reading i. */
  function ScanLengths(v: View, d: Dir, accepts: seq<char> -> bool, minLen: nat, rows: nat,
                       i: nat, j: nat, z: nat): seq<Match>
    requires Shaped(v) && 1 <= minLen <= z && i < rows <= |v.text| && j < |v.text[i]|
    decreases |v.text[i]| + 1 - j - z
  {
    if j + z > |v.text[i]| then []
    else
      (if accepts(v.text[i][j..j + z]) then [MatchAt(v, d, i, j, z)] else [])
        + ScanLengths(v, d, accepts, minLen, rows, i, j, z + 1)
  }

  /** The middle loop: start offsets j, j + 1, .. of reading i. */
  function ScanOffsets(v: View, d: Dir, accepts: seq<char> -> bool, minLen: nat, rows: nat,
                       i: nat, j: nat): seq<Match>
    requires Shaped(v) && 1 <= minLen && i < rows <= |v.text| && j <= |v.text[i]|
    decreases |v.text[i]| - j
  {
    if j == |v.text[i]| then []
    else ScanLengths(v, d, accepts, minLen, rows, i, j, minLen) + ScanOffsets(v, d, accepts, minLen, rows, i, j + 1)
  }

  /** The outer loop: readings i, i + 1, .. below `rows`. */
  function ScanReadings(v: View, d: Dir, accepts: seq<char> -> bool, minLen: nat, rows: nat,
                        i: nat): seq<Match>
    requires Shaped(v) && 1 <= minLen && i <= rows <= |v.text|
    decreases rows - i
  {
    if i == rows then []
    else ScanOffsets(v, d, accepts, minLen, rows, i, 0) + ScanReadings(v, d, accepts, minLen, rows, i + 1)
  }

  /**
   At offset j of reading i the innermost loop reports exactly the accepted
   in-bounds lengths from z upwards, in increasing length.
   */
  lemma {:induction false} LengthsScanned(v: View, d: Dir, accepts: seq<char> -> bool, minLen: nat, rows: nat,
                                          i: nat, j: nat, z: nat)
    requires Shaped(v) && 1 <= minLen <= z && i < rows <= |v.text| && j < |v.text[i]|
    ensures forall m :: m in ScanLengths(v, d, accepts, minLen, rows, i, j, z) <==>
              m.reading == i && m.offset == j && z <= m.length && Emits(v, d, accepts, minLen, rows, m)
    ensures Increasing(ScanLengths(v, d, accepts, minLen, rows, i, j, z))
    decreases |v.text[i]| + 1 - j - z
  {
    if j + z <= |v.text[i]| {
      var here := if accepts(v.text[i][j..j + z]) then [MatchAt(v, d, i, j, z)] else [];
      var rest := ScanLengths(v, d, accepts, minLen, rows, i, j, z + 1);
      assert ScanLengths(v, d, accepts, minLen, rows, i, j, z) == here + rest;
      assert forall m :: m in here <==>
               m.reading == i && m.offset == j && m.length == z && Emits(v, d, accepts, minLen, rows, m);
      LengthsScanned(v, d, accepts, minLen, rows, i, j, z + 1);
      IncreasingConcat(here, rest);
    }
  }

  /** Reading i's loops from offset j report exactly its accepted in-bounds slices from j on, in scan order. */
  lemma {:induction false} OffsetsScanned(v: View, d: Dir, accepts: seq<char> -> bool, minLen: nat, rows: nat,
                                          i: nat, j: nat)
    requires Shaped(v) && 1 <= minLen && i < rows <= |v.text| && j <= |v.text[i]|
    ensures forall m :: m in ScanOffsets(v, d, accepts, minLen, rows, i, j) <==>
              m.reading == i && j <= m.offset && Emits(v, d, accepts, minLen, rows, m)
    ensures Increasing(ScanOffsets(v, d, accepts, minLen, rows, i, j))
    decreases |v.text[i]| - j
  {
    if j < |v.text[i]| {
      LengthsScanned(v, d, accepts, minLen, rows, i, j, minLen);
      OffsetsScanned(v, d, accepts, minLen, rows, i, j + 1);
      IncreasingConcat(ScanLengths(v, d, accepts, minLen, rows, i, j, minLen),
                       ScanOffsets(v, d, accepts, minLen, rows, i, j + 1));
    }
  }

  /** The loops from reading i on report exactly the accepted in-bounds slices of those readings, in scan order. */
  lemma {:induction false} ReadingsScanned(v: View, d: Dir, accepts: seq<char> -> bool, minLen: nat, rows: nat,
                                           i: nat)
    requires Shaped(v) && 1 <= minLen && i <= rows <= |v.text|
    ensures forall m :: m in ScanReadings(v, d, accepts, minLen, rows, i) <==>
              i <= m.reading && Emits(v, d, accepts, minLen, rows, m)
    ensures Increasing(ScanReadings(v, d, accepts, minLen, rows, i))
    decreases rows - i
  {
    if i < rows {
      OffsetsScanned(v, d, accepts, minLen, rows, i, 0);
      ReadingsScanned(v, d, accepts, minLen, rows, i + 1);
      IncreasingConcat(ScanOffsets(v, d, accepts, minLen, rows, i, 0),
                       ScanReadings(v, d, accepts, minLen, rows, i + 1));
    }
  }

  /**
   `search` over the first `rows` readings of a view: exactly the accepted
   visited slices are reported, each once, in scan order.
   */
  function Search(v: View, d: Dir, accepts: seq<char> -> bool, minLen: nat, rows: nat): (r: seq<Match>)
    requires Shaped(v) && 1 <= minLen && rows <= |v.text|
    ensures forall m :: m in r <==> Emits(v, d, accepts, minLen, rows, m)
    ensures Increasing(r)
  {
    ReadingsScanned(v, d, accepts, minLen, rows, 0);
    ScanReadings(v, d, accepts, minLen, rows, 0)
  }

  /** Every in-bounds slice of at least `minLen` chars that the oracle accepts is reported. */
  lemma SearchCompleteness(v: View, d: Dir, accepts: seq<char> -> bool, minLen: nat, rows: nat,
                           i: nat, j: nat, w: seq<char>)
    requires Shaped(v) && 1 <= minLen && rows <= |v.text|
    requires i < rows && minLen <= |w| && j + |w| <= |v.text[i]|
    requires v.text[i][j..j + |w|] == w && accepts(w)
    ensures MatchAt(v, d, i, j, |w|) in Search(v, d, accepts, minLen, rows)
    ensures MatchAt(v, d, i, j, |w|).text == w
  {
  }

  /**
   Every report lies inside its reading, carries the accepted slice, and
   holds the map entries at the slice's first and last offsets.
   */
  lemma SearchSound(v: View, d: Dir, accepts: seq<char> -> bool, minLen: nat, rows: nat, m: Match)
    requires Shaped(v) && 1 <= minLen && rows <= |v.text|
    requires m in Search(v, d, accepts, minLen, rows)
    ensures m.reading < |v.text|
    ensures RecordOf(d, accepts, minLen, rows, v.text[m.reading], v.pos[m.reading], m)
  {
    EmitsIffRecord(v, d, accepts, minLen, rows, m);
  }

  /**
   m records an accepted slice of at least `minLen` chars of a reading r
   (below `rows`) in direction d whose map entries are `keys`.
   */
  predicate RecordOf(d: Dir, accepts: seq<char> -> bool, minLen: nat, rows: nat,
                     r: seq<char>, keys: seq<int>, m: Match)
    requires 1 <= minLen
  {
    && m.dir == d && m.reading < rows && minLen <= m.length
    && m.offset + m.length <= |r| && |keys| == |r|
    && m.text == r[m.offset..m.offset + m.length] && accepts(m.text)
    && m.startKey == keys[m.offset]
    && m.endKey == keys[m.offset + m.length - 1]
  }

  /** `Emits` is `RecordOf` the reading m names. */
  lemma EmitsIffRecord(v: View, d: Dir, accepts: seq<char> -> bool, minLen: nat, rows: nat, m: Match)
    requires Shaped(v) && 1 <= minLen && m.reading < |v.text|
    ensures Emits(v, d, accepts, minLen, rows, m) <==>
            RecordOf(d, accepts, minLen, rows, v.text[m.reading], v.pos[m.reading], m)
  {
  }
}
