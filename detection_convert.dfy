/** Conversion of a detector's points-like output (sorted change-point
    locations) into segments-like output (left-closed, contiguous intervals,
    optionally labelled 0, 1, ...). */
module DetectionConvert {
  import opened Outcome

  /** The left-closed interval [left, right) of integer locations. */
  datatype Segment = Segment(left: int, right: int)

  /** Segments-like output: the "ilocs" column, and the "labels" column when
      the frame has one. */
  datatype SegmentsFrame = SegmentsFrame(ilocs: seq<Segment>, labels: Option<seq<int>>)

  /** Building intervals from breaks fails when a left end exceeds its right end. */
  datatype ConvertError = LeftExceedsRight

  predicate Contains(s: Segment, t: int) {
    s.left <= t < s.right
  }

  predicate NonDecreasing(b: seq<int>) {
    forall i, j :: 0 <= i < j < |b| ==> b[i] <= b[j]
  }

  /** One past the last location covered: len_X when given, otherwise the
      last point plus one (a final segment of length 1). */
  function SeriesEnd(points: seq<int>, lenX: Option<int>): int
    requires points != []
  {
    match lenX
    case Some(n) => n
    case None => points[|points| - 1] + 1
  }

  /** Whether the break list gets a 0 in front of the points. */
  function Prepended(points: seq<int>): nat
    requires points != []
  {
    if points[0] != 0 then 1 else 0
  }

  /** Whether the break list gets the end after the points. */
  function Appended(points: seq<int>, lenX: Option<int>): nat
    requires points != []
  {
    if lenX == Some(points[|points| - 1]) then 0 else 1
  }

  /** The break list: the points, with 0 in front unless the first point is
      already 0, and the end behind, unless len_X is given and equals the
      last point. */
  function Breaks(points: seq<int>, lenX: Option<int>): (b: seq<int>)
    requires points != []
    ensures |b| == Prepended(points) + |points| + Appended(points, lenX)
    ensures b[0] == 0
    ensures b[|b| - 1] == SeriesEnd(points, lenX)
    ensures b[Prepended(points)..Prepended(points) + |points|] == points
  {
    var withStart := if points[0] != 0 then [0] + points else points;
    match lenX
    case None => withStart + [withStart[|withStart| - 1] + 1]
    case Some(n) => if withStart[|withStart| - 1] != n then withStart + [n] else withStart
  }

  /** The intervals [b[i], b[i+1]) over consecutive breaks, closed on the
      left; an error when some b[i] > b[i+1]. */
  function FromBreaks(b: seq<int>): (r: Result<seq<Segment>, ConvertError>)
    ensures r.Ok? <==> NonDecreasing(b)
    ensures r.Ok? ==> |r.value| == if b == [] then 0 else |b| - 1
    ensures r.Ok? ==> forall i :: 0 <= i < |r.value| ==> r.value[i] == Segment(b[i], b[i + 1])
  {
    if |b| < 2 then Ok([])
    else if b[0] > b[1] then Err(LeftExceedsRight)
    else
      match FromBreaks(b[1..])
      case Err(e) => Err(e)
      case Ok(rest) =>
        assert NonDecreasing(b) by {
          forall i, j | 0 <= i < j < |b| ensures b[i] <= b[j] {
            if 0 < i { assert b[i] == b[1..][i - 1] && b[j] == b[1..][j - 1]; }
            else if 1 < j { assert b[1] == b[1..][0] && b[j] == b[1..][j - 1]; }
          }
        }
        Ok([Segment(b[0], b[1])] + rest)
  }

  /** The labels 0, 1, ..., n-1. */
  function RangeIndex(n: nat): seq<int> {
    seq(n, i => i)
  }

  /** Points-like output to segments-like output. An empty input gives an
      empty frame with both columns; otherwise the labels column is present
      exactly when includeLabels is set. */
  function ConvertPointsToSegments(points: seq<int>, lenX: Option<int>, includeLabels: bool)
    : (r: Result<SegmentsFrame, ConvertError>)
    ensures points == [] ==> r == Ok(SegmentsFrame([], Some([])))
    ensures points != [] && r.Ok? ==> (r.value.labels.Some? <==> includeLabels)
    ensures r.Ok? && r.value.labels.Some? ==>
              |r.value.labels.value| == |r.value.ilocs| &&
              forall i :: 0 <= i < |r.value.ilocs| ==> r.value.labels.value[i] == i
  {
    if points == [] then Ok(SegmentsFrame([], Some([])))
    else
      match FromBreaks(Breaks(points, lenX))
      case Err(e) => Err(e)
      case Ok(ilocs) =>
        Ok(SegmentsFrame(ilocs, if includeLabels then Some(RangeIndex(|ilocs|)) else None))
  }

  /** The locations at which consecutive segments meet, from the first left
      end to the last right end. */
  function Boundaries(segs: seq<Segment>): (b: seq<int>)
    requires segs != []
  {
    [segs[0].left] + seq(|segs|, i requires 0 <= i < |segs| => segs[i].right)
  }

  // ---------------------------------------------------------------------
  // Properties of the conversion
  // ---------------------------------------------------------------------

  lemma PrependZeroKeepsOrder(s: seq<int>)
    requires s != [] && NonDecreasing(s) && s[0] >= 0
    ensures NonDecreasing([0] + s)
  {
    var t := [0] + s;
    forall i, j | 0 <= i < j < |t| ensures t[i] <= t[j] {
      assert t[j] == s[j - 1];
      if 0 < i { assert t[i] == s[i - 1]; }
    }
  }

  lemma AppendKeepsOrder(s: seq<int>, x: int)
    requires s != [] && NonDecreasing(s) && s[|s| - 1] <= x
    ensures NonDecreasing(s + [x])
  {
    var t := s + [x];
    forall i, j | 0 <= i < j < |t| ensures t[i] <= t[j] {
      assert t[i] == s[i];
      if j < |s| { assert t[j] == s[j]; }
      else if i < |s| - 1 { assert s[i] <= s[|s| - 1]; }
    }
  }

  /** Points that are non-decreasing, non-negative and not beyond len_X
      always convert without error. */
  lemma ValidPointsConvert(points: seq<int>, lenX: Option<int>, includeLabels: bool)
    requires points != [] && NonDecreasing(points) && points[0] >= 0
    requires lenX.Some? ==> points[|points| - 1] <= lenX.value
    ensures ConvertPointsToSegments(points, lenX, includeLabels).Ok?
  {
    var withStart := if points[0] != 0 then [0] + points else points;
    if points[0] != 0 { PrependZeroKeepsOrder(points); }
    assert withStart[|withStart| - 1] == points[|points| - 1];
    match lenX
    case None => AppendKeepsOrder(withStart, withStart[|withStart| - 1] + 1);
    case Some(n) => if withStart[|withStart| - 1] != n { AppendKeepsOrder(withStart, n); }
  }

  /** A non-empty conversion fails exactly when the break list descends. */
  lemma ConvertFailsIffBreaksDescend(points: seq<int>, lenX: Option<int>, includeLabels: bool)
    requires points != []
    ensures ConvertPointsToSegments(points, lenX, includeLabels).Err? <==>
            exists i, j :: 0 <= i < j < |Breaks(points, lenX)| && Breaks(points, lenX)[i] > Breaks(points, lenX)[j]
  {
  }

  /** The segments are exactly the intervals over consecutive breaks. */
  lemma SegmentsOverBreaks(points: seq<int>, lenX: Option<int>, includeLabels: bool)
    requires points != []
    requires ConvertPointsToSegments(points, lenX, includeLabels).Ok?
    ensures var segs := ConvertPointsToSegments(points, lenX, includeLabels).value.ilocs;
            var b := Breaks(points, lenX);
            |segs| == |b| - 1 &&
            forall i :: 0 <= i < |segs| ==> segs[i] == Segment(b[i], b[i + 1])
  {
  }

  /** The number of segments: one per point, less one, plus one for a
      prepended 0 and one for an appended end. */
  lemma SegmentCount(points: seq<int>, lenX: Option<int>, includeLabels: bool)
    requires points != []
    requires ConvertPointsToSegments(points, lenX, includeLabels).Ok?
    ensures |ConvertPointsToSegments(points, lenX, includeLabels).value.ilocs| ==
            |points| - 1 + (if points[0] != 0 then 1 else 0) +
            (if lenX == Some(points[|points| - 1]) then 0 else 1)
  {
  }

  /** The first segment starts at 0. */
  lemma FirstSegmentStartsAtZero(points: seq<int>, lenX: Option<int>, includeLabels: bool)
    requires ConvertPointsToSegments(points, lenX, includeLabels).Ok?
    requires ConvertPointsToSegments(points, lenX, includeLabels).value.ilocs != []
    ensures ConvertPointsToSegments(points, lenX, includeLabels).value.ilocs[0].left == 0
  {
  }

  /** The last segment ends at len_X when it is given; otherwise it is the
      segment [last point, last point + 1), of length 1. */
  lemma LastSegmentEnd(points: seq<int>, lenX: Option<int>, includeLabels: bool)
    requires points != []
    requires ConvertPointsToSegments(points, lenX, includeLabels).Ok?
    ensures var segs := ConvertPointsToSegments(points, lenX, includeLabels).value.ilocs;
            (lenX.Some? && segs != [] ==> segs[|segs| - 1].right == lenX.value) &&
            (lenX.None? ==> segs != [] &&
                            segs[|segs| - 1] == Segment(points[|points| - 1], points[|points| - 1] + 1))
  {
    var b := Breaks(points, lenX);
    if lenX.None? {
      var k := Prepended(points);
      assert b[k..k + |points|][|points| - 1] == b[|b| - 2];
    }
  }

  /** Consecutive segments are contiguous: each one ends where the next begins. */
  lemma Contiguous(points: seq<int>, lenX: Option<int>, includeLabels: bool)
    requires ConvertPointsToSegments(points, lenX, includeLabels).Ok?
    ensures var segs := ConvertPointsToSegments(points, lenX, includeLabels).value.ilocs;
            forall i :: 0 <= i < |segs| - 1 ==> segs[i].right == segs[i + 1].left
  {
    if points != [] {
      var b := Breaks(points, lenX);
      var segs := FromBreaks(b).value;
      forall i | 0 <= i < |segs| - 1 ensures segs[i].right == segs[i + 1].left {
        assert segs[i] == Segment(b[i], b[i + 1]) && segs[i + 1] == Segment(b[i + 1], b[i + 2]);
      }
    }
  }

  /** The boundaries of the intervals built from a break list of two or more
      breaks give back that break list. */
  lemma BoundariesOfBreaks(b: seq<int>)
    requires |b| >= 2 && FromBreaks(b).Ok?
    ensures Boundaries(FromBreaks(b).value) == b
  {
    var segs := FromBreaks(b).value;
    var bs := Boundaries(segs);
    forall i | 0 <= i < |b| ensures bs[i] == b[i] {
      if i > 0 { assert bs[i] == segs[i - 1].right; }
    }
  }

  /** The input points appear, in order and consecutively, among the
      boundaries of the segments. */
  lemma PointsAppearInOrder(points: seq<int>, lenX: Option<int>, includeLabels: bool)
    requires ConvertPointsToSegments(points, lenX, includeLabels).Ok?
    requires ConvertPointsToSegments(points, lenX, includeLabels).value.ilocs != []
    ensures var bs := Boundaries(ConvertPointsToSegments(points, lenX, includeLabels).value.ilocs);
            var k := if points[0] != 0 then 1 else 0;
            k + |points| <= |bs| && bs[k..k + |points|] == points
  {
    BoundariesOfBreaks(Breaks(points, lenX));
  }

  /** Every t with b[0] <= t < the last break lies in some interval between
      consecutive breaks. */
  lemma {:induction false} BreaksCover(b: seq<int>, t: int) returns (i: nat)
    requires |b| >= 2 && NonDecreasing(b)
    requires b[0] <= t < b[|b| - 1]
    ensures i < |b| - 1 && b[i] <= t < b[i + 1]
  {
    if t < b[1] {
      i := 0;
    } else {
      var j := BreaksCover(b[1..], t);
      i := j + 1;
    }
  }

  /** Every location from the first break up to the last lies in some
      interval built from the breaks. */
  lemma IntervalsCover(b: seq<int>, t: int)
    requires |b| >= 2 && FromBreaks(b).Ok?
    requires b[0] <= t < b[|b| - 1]
    ensures exists i :: 0 <= i < |FromBreaks(b).value| && Contains(FromBreaks(b).value[i], t)
  {
    var i := BreaksCover(b, t);
    assert Contains(FromBreaks(b).value[i], t);
  }

  /** No location lies in two intervals built from the breaks. */
  lemma IntervalsDisjoint(b: seq<int>, t: int)
    requires FromBreaks(b).Ok?
    ensures var segs := FromBreaks(b).value;
            forall i, j :: 0 <= i < |segs| && 0 <= j < |segs| && Contains(segs[i], t) && Contains(segs[j], t) ==> i == j
  {
    var segs := FromBreaks(b).value;
    forall i, j | 0 <= i < |segs| && 0 <= j < |segs| && Contains(segs[i], t) && Contains(segs[j], t)
      ensures i == j
    {
      assert segs[i] == Segment(b[i], b[i + 1]) && segs[j] == Segment(b[j], b[j + 1]);
    }
  }

  /** A location before the first break or at or after the last lies in no
      interval built from the breaks. */
  lemma IntervalsWithinBreaks(b: seq<int>, t: int)
    requires b != [] && FromBreaks(b).Ok?
    requires t < b[0] || b[|b| - 1] <= t
    ensures forall i :: 0 <= i < |FromBreaks(b).value| ==> !Contains(FromBreaks(b).value[i], t)
  {
    var segs := FromBreaks(b).value;
    forall i | 0 <= i < |segs| ensures !Contains(segs[i], t) {
      assert segs[i] == Segment(b[i], b[i + 1]);
      assert b[0] <= b[i] && b[i + 1] <= b[|b| - 1];
    }
  }

  /** Coverage: every location in [0, end) lies in exactly one segment, and
      no location outside it lies in any. */
  lemma Coverage(points: seq<int>, lenX: Option<int>, includeLabels: bool, t: int)
    requires points != []
    requires ConvertPointsToSegments(points, lenX, includeLabels).Ok?
    ensures var segs := ConvertPointsToSegments(points, lenX, includeLabels).value.ilocs;
            (0 <= t < SeriesEnd(points, lenX) ==> exists i :: 0 <= i < |segs| && Contains(segs[i], t)) &&
            (forall i, j :: 0 <= i < |segs| && 0 <= j < |segs| && Contains(segs[i], t) && Contains(segs[j], t) ==> i == j) &&
            (t < 0 || SeriesEnd(points, lenX) <= t ==> forall i :: 0 <= i < |segs| ==> !Contains(segs[i], t))
  {
    var b := Breaks(points, lenX);
    if 0 <= t < SeriesEnd(points, lenX) {
      IntervalsCover(b, t);
    }
    IntervalsDisjoint(b, t);
    if t < 0 || SeriesEnd(points, lenX) <= t {
      IntervalsWithinBreaks(b, t);
    }
  }

  /** The worked example: change points 2, 3, 7 in a series of length 10. */
  lemma WorkedExample()
    ensures ConvertPointsToSegments([2, 3, 7], Some(10), true) ==
            Ok(SegmentsFrame([Segment(0, 2), Segment(2, 3), Segment(3, 7), Segment(7, 10)], Some([0, 1, 2, 3])))
    ensures ConvertPointsToSegments([2, 3, 7], Some(10), false) ==
            Ok(SegmentsFrame([Segment(0, 2), Segment(2, 3), Segment(3, 7), Segment(7, 10)], None))
  {
    var b := Breaks([2, 3, 7], Some(10));
    assert b == [0, 2, 3, 7, 10];
    var segs := FromBreaks(b).value;
    assert segs == [Segment(0, 2), Segment(2, 3), Segment(3, 7), Segment(7, 10)];
    assert RangeIndex(4) == [0, 1, 2, 3];
  }
}
