/**
 The questions `search` puts to the oracle, as written and as modelled. As
 written, at every start offset j of a reading of length len the lengths
 run from the minimum length up to len; in module Scan they stop at
 len - j. Both enumerations are one definition, `Asked`, differing only in
 that bound. The as-written one holds questions about slices that run past
 the end of their reading; dropping exactly those gives the modelled one,
 in the same order, and `Scan.Search` reports exactly the accepted slices
 among them.
 */
module ScanBounds {
  import opened Views
  import opened Scan

  /** One question: the slice of `length` chars from `offset` of reading `reading`. */
  datatype Query = Query(reading: nat, offset: nat, length: nat)

  /** The slice a question names lies inside its reading. */
  predicate InBounds(v: View, q: Query) {
    q.reading < |v.text| && q.offset + q.length <= |v.text[q.reading]|
  }

  /** The largest length tried at offset j of a reading of length len. */
  function MaxLength(len: nat, j: nat, asWritten: bool): nat
    requires j <= len
  {
    if asWritten then len else len - j
  }

  /** The innermost loop: lengths lo, lo + 1, .., hi at offset j of reading i. */
  function LengthQueries(i: nat, j: nat, lo: nat, hi: nat): seq<Query>
    decreases hi + 1 - lo
  {
    if lo > hi then [] else [Query(i, j, lo)] + LengthQueries(i, j, lo + 1, hi)
  }

  /** The middle loop: start offsets j, j + 1, .. of reading i. */
  function OffsetQueries(v: View, minLen: nat, asWritten: bool, i: nat, j: nat): seq<Query>
    requires i < |v.text| && j <= |v.text[i]|
    decreases |v.text[i]| - j
  {
    if j == |v.text[i]| then []
    else
      LengthQueries(i, j, minLen, MaxLength(|v.text[i]|, j, asWritten))
        + OffsetQueries(v, minLen, asWritten, i, j + 1)
  }

  /** The outer loop: readings i, i + 1, .. below `rows`. */
  function ReadingQueries(v: View, rows: nat, minLen: nat, asWritten: bool, i: nat): seq<Query>
    requires i <= rows <= |v.text|
    decreases rows - i
  {
    if i == rows then []
    else OffsetQueries(v, minLen, asWritten, i, 0) + ReadingQueries(v, rows, minLen, asWritten, i + 1)
  }

  /** Every question `search` asks over the first `rows` readings of a view, in loop order. */
  function Asked(v: View, rows: nat, minLen: nat, asWritten: bool): seq<Query>
    requires rows <= |v.text|
  {
    ReadingQueries(v, rows, minLen, asWritten, 0)
  }

  lemma {:induction false} LengthQueriesMembers(i: nat, j: nat, lo: nat, hi: nat)
    ensures forall q :: q in LengthQueries(i, j, lo, hi) <==>
              q.reading == i && q.offset == j && lo <= q.length <= hi
    decreases hi + 1 - lo
  {
    if lo <= hi {
      LengthQueriesMembers(i, j, lo + 1, hi);
    }
  }

  lemma {:induction false} OffsetQueriesMembers(v: View, minLen: nat, asWritten: bool, i: nat, j: nat)
    requires i < |v.text| && j <= |v.text[i]|
    ensures forall q :: q in OffsetQueries(v, minLen, asWritten, i, j) <==>
              && q.reading == i && j <= q.offset < |v.text[i]|
              && minLen <= q.length <= MaxLength(|v.text[i]|, q.offset, asWritten)
    decreases |v.text[i]| - j
  {
    if j < |v.text[i]| {
      LengthQueriesMembers(i, j, minLen, MaxLength(|v.text[i]|, j, asWritten));
      OffsetQueriesMembers(v, minLen, asWritten, i, j + 1);
    }
  }

  lemma {:induction false} ReadingQueriesMembers(v: View, rows: nat, minLen: nat, asWritten: bool, i: nat)
    requires i <= rows <= |v.text|
    ensures forall q :: q in ReadingQueries(v, rows, minLen, asWritten, i) <==>
              && i <= q.reading < rows && q.offset < |v.text[q.reading]|
              && minLen <= q.length <= MaxLength(|v.text[q.reading]|, q.offset, asWritten)
    decreases rows - i
  {
    if i < rows {
      OffsetQueriesMembers(v, minLen, asWritten, i, 0);
      ReadingQueriesMembers(v, rows, minLen, asWritten, i + 1);
    }
  }

  /**
   The questions asked: every start offset of every reading below `rows`,
   with every length from `minLen` up to `MaxLength`.
   */
  lemma AskedMembers(v: View, rows: nat, minLen: nat, asWritten: bool)
    requires rows <= |v.text|
    ensures forall q :: q in Asked(v, rows, minLen, asWritten) <==>
              && q.reading < rows && q.offset < |v.text[q.reading]|
              && minLen <= q.length <= MaxLength(|v.text[q.reading]|, q.offset, asWritten)
  {
    ReadingQueriesMembers(v, rows, minLen, asWritten, 0);
  }

  /** The subsequence of questions about slices inside their reading. */
  function KeepInBounds(v: View, s: seq<Query>): (r: seq<Query>)
    ensures forall q :: q in r <==> q in s && InBounds(v, q)
  {
    if s == [] then []
    else (if InBounds(v, s[0]) then [s[0]] else []) + KeepInBounds(v, s[1..])
  }

  lemma {:induction false} KeepInBoundsConcat(v: View, a: seq<Query>, b: seq<Query>)
    ensures KeepInBounds(v, a + b) == KeepInBounds(v, a) + KeepInBounds(v, b)
  {
    if a == [] {
      assert a + b == b;
    } else {
      assert (a + b)[0] == a[0];
      assert (a + b)[1..] == a[1..] + b;
      KeepInBoundsConcat(v, a[1..], b);
    }
  }

  lemma {:induction false} NoneInBounds(v: View, s: seq<Query>)
    requires forall q :: q in s ==> !InBounds(v, q)
    ensures KeepInBounds(v, s) == []
  {
    if s != [] {
      assert s[0] in s;
      NoneInBounds(v, s[1..]);
    }
  }

  /**
   At offset j of reading i, dropping the overrunning lengths from lo..len
   leaves lo..len - j: the in-bounds lengths are a prefix of those tried.
   */
  lemma {:induction false} LengthsInBounds(v: View, i: nat, j: nat, lo: nat)
    requires i < |v.text| && j < |v.text[i]|
    ensures KeepInBounds(v, LengthQueries(i, j, lo, |v.text[i]|)) == LengthQueries(i, j, lo, |v.text[i]| - j)
    decreases |v.text[i]| + 1 - lo
  {
    var len := |v.text[i]|;
    var all := LengthQueries(i, j, lo, len);
    if lo > len {
    } else if j + lo <= len {
      KeepInBoundsConcat(v, [Query(i, j, lo)], LengthQueries(i, j, lo + 1, len));
      LengthsInBounds(v, i, j, lo + 1);
    } else {
      LengthQueriesMembers(i, j, lo, len);
      NoneInBounds(v, all);
    }
  }

  /** The same from offset j on: only the length bound of each offset differs. */
  lemma {:induction false} OffsetsInBounds(v: View, minLen: nat, i: nat, j: nat)
    requires i < |v.text| && j <= |v.text[i]|
    ensures KeepInBounds(v, OffsetQueries(v, minLen, true, i, j)) == OffsetQueries(v, minLen, false, i, j)
    decreases |v.text[i]| - j
  {
    if j < |v.text[i]| {
      var len := |v.text[i]|;
      KeepInBoundsConcat(v, LengthQueries(i, j, minLen, len), OffsetQueries(v, minLen, true, i, j + 1));
      LengthsInBounds(v, i, j, minLen);
      OffsetsInBounds(v, minLen, i, j + 1);
    }
  }

  /** The same from reading i on. */
  lemma {:induction false} ReadingsInBounds(v: View, rows: nat, minLen: nat, i: nat)
    requires i <= rows <= |v.text|
    ensures KeepInBounds(v, ReadingQueries(v, rows, minLen, true, i)) == ReadingQueries(v, rows, minLen, false, i)
    decreases rows - i
  {
    if i < rows {
      KeepInBoundsConcat(v, OffsetQueries(v, minLen, true, i, 0), ReadingQueries(v, rows, minLen, true, i + 1));
      OffsetsInBounds(v, minLen, i, 0);
      ReadingsInBounds(v, rows, minLen, i + 1);
    }
  }

  /**
   The modelled bound drops the questions about overrunning slices and
   nothing else, and keeps the order of the rest.
   */
  lemma CorrectionDropsOverruns(v: View, rows: nat, minLen: nat)
    requires rows <= |v.text|
    ensures KeepInBounds(v, Asked(v, rows, minLen, true)) == Asked(v, rows, minLen, false)
    ensures forall q :: q in Asked(v, rows, minLen, false) ==> InBounds(v, q)
  {
    ReadingsInBounds(v, rows, minLen, 0);
    AskedMembers(v, rows, minLen, false);
  }

  /** What the scan reports for one question: its record when the slice is in bounds and accepted. */
  function Answer(v: View, d: Dir, accepts: seq<char> -> bool, q: Query): seq<Match>
    requires Shaped(v)
  {
    if InBounds(v, q) && 1 <= q.length && accepts(v.text[q.reading][q.offset..q.offset + q.length])
    then [MatchAt(v, d, q.reading, q.offset, q.length)]
    else []
  }

  /** The reports for a sequence of questions, in order, where f reports one question. */
  function Answers(f: Query -> seq<Match>, s: seq<Query>): seq<Match> {
    if s == [] then [] else f(s[0]) + Answers(f, s[1..])
  }

  /** `Answer` of a view, as a function value. */
  function AnswerOf(v: View, d: Dir, accepts: seq<char> -> bool): Query -> seq<Match>
    requires Shaped(v)
  {
    q => Answer(v, d, accepts, q)
  }

  lemma {:induction false} AnswersConcat(f: Query -> seq<Match>, a: seq<Query>, b: seq<Query>)
    ensures Answers(f, a + b) == Answers(f, a) + Answers(f, b)
  {
    if a == [] {
      assert a + b == b;
    } else {
      assert (a + b)[0] == a[0];
      assert (a + b)[1..] == a[1..] + b;
      AnswersConcat(f, a[1..], b);
    }
  }

  lemma AnswersCons(f: Query -> seq<Match>, q: Query, rest: seq<Query>)
    ensures Answers(f, [q] + rest) == f(q) + Answers(f, rest)
  {
    assert ([q] + rest)[0] == q;
    assert ([q] + rest)[1..] == rest;
  }

  /** One step of the innermost loop answers one question. */
  lemma LengthsStep(v: View, d: Dir, accepts: seq<char> -> bool, minLen: nat, rows: nat,
                    i: nat, j: nat, z: nat)
    requires Shaped(v) && 1 <= minLen <= z && i < rows <= |v.text| && j + z <= |v.text[i]|
    ensures ScanLengths(v, d, accepts, minLen, rows, i, j, z)
            == AnswerOf(v, d, accepts)(Query(i, j, z)) + ScanLengths(v, d, accepts, minLen, rows, i, j, z + 1)
  {
  }

  /** The innermost loop reports the answers to its questions, in order. */
  lemma {:induction false} LengthsAnswered(v: View, d: Dir, accepts: seq<char> -> bool, minLen: nat, rows: nat,
                                           i: nat, j: nat, z: nat)
    requires Shaped(v) && 1 <= minLen <= z && i < rows <= |v.text| && j < |v.text[i]|
    ensures ScanLengths(v, d, accepts, minLen, rows, i, j, z)
            == Answers(AnswerOf(v, d, accepts), LengthQueries(i, j, z, |v.text[i]| - j))
    decreases |v.text[i]| + 1 - j - z
  {
    var hi := |v.text[i]| - j;
    if j + z <= |v.text[i]| {
      var q := Query(i, j, z);
      var rest := LengthQueries(i, j, z + 1, hi);
      assert LengthQueries(i, j, z, hi) == [q] + rest;
      AnswersCons(AnswerOf(v, d, accepts), q, rest);
      LengthsStep(v, d, accepts, minLen, rows, i, j, z);
      LengthsAnswered(v, d, accepts, minLen, rows, i, j, z + 1);
    } else {
      assert LengthQueries(i, j, z, hi) == [];
    }
  }

  /** The loops from offset j on report the answers to their questions, in order. */
  lemma {:induction false} OffsetsAnswered(v: View, d: Dir, accepts: seq<char> -> bool, minLen: nat, rows: nat,
                                           i: nat, j: nat)
    requires Shaped(v) && 1 <= minLen && i < rows <= |v.text| && j <= |v.text[i]|
    ensures ScanOffsets(v, d, accepts, minLen, rows, i, j)
            == Answers(AnswerOf(v, d, accepts), OffsetQueries(v, minLen, false, i, j))
    decreases |v.text[i]| - j
  {
    if j < |v.text[i]| {
      AnswersConcat(AnswerOf(v, d, accepts), LengthQueries(i, j, minLen, |v.text[i]| - j),
                    OffsetQueries(v, minLen, false, i, j + 1));
      LengthsAnswered(v, d, accepts, minLen, rows, i, j, minLen);
      OffsetsAnswered(v, d, accepts, minLen, rows, i, j + 1);
    }
  }

  /** The loops from reading i on report the answers to their questions, in order. */
  lemma {:induction false} ReadingsAnswered(v: View, d: Dir, accepts: seq<char> -> bool, minLen: nat, rows: nat,
                                            i: nat)
    requires Shaped(v) && 1 <= minLen && i <= rows <= |v.text|
    ensures ScanReadings(v, d, accepts, minLen, rows, i)
            == Answers(AnswerOf(v, d, accepts), ReadingQueries(v, rows, minLen, false, i))
    decreases rows - i
  {
    if i < rows {
      AnswersConcat(AnswerOf(v, d, accepts), OffsetQueries(v, minLen, false, i, 0),
                    ReadingQueries(v, rows, minLen, false, i + 1));
      OffsetsAnswered(v, d, accepts, minLen, rows, i, 0);
      ReadingsAnswered(v, d, accepts, minLen, rows, i + 1);
    }
  }

  /**
   `Search` is the scan of the modelled questions, and equally the scan of
   the as-written questions once the overrunning ones are dropped: the
   correction changes nothing about the in-bounds slices or their order.
   */
  lemma SearchAnswersInBounds(v: View, d: Dir, accepts: seq<char> -> bool, minLen: nat, rows: nat)
    requires Shaped(v) && 1 <= minLen && rows <= |v.text|
    ensures Search(v, d, accepts, minLen, rows) == Answers(AnswerOf(v, d, accepts), Asked(v, rows, minLen, false))
    ensures Search(v, d, accepts, minLen, rows)
            == Answers(AnswerOf(v, d, accepts), KeepInBounds(v, Asked(v, rows, minLen, true)))
  {
    ReadingsAnswered(v, d, accepts, minLen, rows, 0);
    CorrectionDropsOverruns(v, rows, minLen);
  }

  /**
   As written, the last offset of any scanned reading of two or more chars
   is asked about the full length, a slice that runs past the end.
   */
  lemma ScanOverrunsAsWritten(v: View, rows: nat, minLen: nat, i: nat)
    requires rows <= |v.text| && i < rows
    requires 2 <= |v.text[i]| && 1 <= minLen <= |v.text[i]|
    ensures var q := Query(i, |v.text[i]| - 1, |v.text[i]|);
            && q in Asked(v, rows, minLen, true)
            && !InBounds(v, q)
            && q !in Asked(v, rows, minLen, false)
  {
    AskedMembers(v, rows, minLen, true);
    AskedMembers(v, rows, minLen, false);
  }

  /** The example: on reading "abcde" with minimum length 5, the source asks about [1, 6). */
  lemma ScanOverrunExample()
    ensures var v := View(["abcde"], [[0, 1, 2, 3, 4]]);
            && Query(0, 1, 5) in Asked(v, 1, 5, true)
            && !InBounds(v, Query(0, 1, 5))
  {
    AskedMembers(View(["abcde"], [[0, 1, 2, 3, 4]]), 1, 5, true);
  }
}
