/** The naive pairwise Intersection-over-Union oracle of the IoU benchmark:
    the per-pair value `getvalue`, the nested-loop matrix builder
    `iou_matrix_naive_version`, and the random box generator of `benchmark`.
    Coordinates are exact reals; a division by zero raises, as in Python. */
module IouBenchmark {
  import opened PyModel

  /** An axis-aligned box `Box2d(xmin, ymin, xmax, ymax)`. */
  datatype Box = Box(xmin: real, ymin: real, xmax: real, ymax: real)

  /** The boxes the benchmark generates: no extent is negative. */
  predicate WellFormed(b: Box) {
    b.xmin <= b.xmax && b.ymin <= b.ymax
  }

  /** `Box2d.area`, which is defined outside this model: width times height,
      with no clamping of negative extents. */
  function Area(b: Box): real {
    (b.xmax - b.xmin) * (b.ymax - b.ymin)
  }

  function Max(x: real, y: real): real { if x >= y then x else y }

  function Min(x: real, y: real): real { if x <= y then x else y }

  /** The length of the overlap of the intervals [lo1, hi1] and [lo2, hi2],
      clamped at zero. */
  function Overlap(lo1: real, hi1: real, lo2: real, hi2: real): (e: real)
    ensures e >= 0.0
    ensures e > 0.0 <==> lo1 < hi1 && lo2 < hi2 && lo1 < hi2 && lo2 < hi1
    ensures lo1 <= hi1 ==> e <= hi1 - lo1
    ensures lo2 <= hi2 ==> e <= hi2 - lo2
  {
    Max(0.0, Min(hi1, hi2) - Max(lo1, lo2))
  }

  /** `inter_area`: the area of the overlap rectangle of `a` and `b`. */
  function InterArea(a: Box, b: Box): (r: real)
    ensures r >= 0.0
    ensures a.xmax <= b.xmin || b.xmax <= a.xmin || a.ymax <= b.ymin || b.ymax <= a.ymin ==> r == 0.0
  {
    Overlap(a.xmin, a.xmax, b.xmin, b.xmax) * Overlap(a.ymin, a.ymax, b.ymin, b.ymax)
  }

  /** The denominator of `getvalue`: `a.area + b.area - inter_area`. */
  function Union(a: Box, b: Box): real {
    Area(a) + Area(b) - InterArea(a, b)
  }

  /** What Python raises for a float division by zero. */
  const DivisionByZero := ZeroDivisionError("float division by zero")

  /** `getvalue(a, b)`: intersection over union, raising ZeroDivisionError
      when the denominator is zero (the code has no guard for that case). */
  function GetValue(a: Box, b: Box): (r: Result<real>)
    ensures r.Raise? <==> Union(a, b) == 0.0
    ensures r.Raise? ==> r.error == DivisionByZero
  {
    if Union(a, b) == 0.0 then Raise(DivisionByZero)
    else Ok(InterArea(a, b) / Union(a, b))
  }

  // ---------------------------------------------------------------------------
  // Properties of one pair

  /** Every ingredient of `getvalue` is symmetric in its two boxes. */
  lemma GetValueSymmetric(a: Box, b: Box)
    ensures GetValue(a, b) == GetValue(b, a)
  {
    assert InterArea(a, b) == InterArea(b, a);
  }

  /** `0 <= x <= c` and `0 <= y <= d` give `x * y <= c * d`. */
  lemma MulMonotone(x: real, y: real, c: real, d: real)
    requires 0.0 <= x <= c && 0.0 <= y <= d
    ensures x * y <= c * d
  {
    calc {
      x * y;
    <= { assert (c - x) * y >= 0.0; }
      c * y;
    <= { assert c * (d - y) >= 0.0; }
      c * d;
    }
  }

  lemma NegativeTimesNegative(x: real, y: real)
    requires x < 0.0 && y < 0.0
    ensures x * y > 0.0
  {
  }

  /** Extents within a box's width and height span no more than its area. */
  lemma ExtentsWithinBox(ex: real, ey: real, box: Box)
    requires 0.0 <= ex <= box.xmax - box.xmin && 0.0 <= ey <= box.ymax - box.ymin
    ensures ex * ey <= Area(box)
  {
    var w, h := box.xmax - box.xmin, box.ymax - box.ymin;
    MulMonotone(ex, ey, w, h);
    assert Area(box) == w * h;
  }

  /** For well-formed boxes the overlap is no larger than either box. */
  lemma InterAreaAtMostAreas(a: Box, b: Box)
    requires WellFormed(a) && WellFormed(b)
    ensures InterArea(a, b) <= Area(a) && InterArea(a, b) <= Area(b)
  {
    var ex := Overlap(a.xmin, a.xmax, b.xmin, b.xmax);
    var ey := Overlap(a.ymin, a.ymax, b.ymin, b.ymax);
    assert InterArea(a, b) == ex * ey;
    ExtentsWithinBox(ex, ey, a);
    ExtentsWithinBox(ex, ey, b);
  }

  /** For well-formed boxes the denominator is at least the area of each box,
      so it is zero only when both areas are. */
  lemma UnionAtLeastAreas(a: Box, b: Box)
    requires WellFormed(a) && WellFormed(b)
    ensures Union(a, b) >= Area(a) && Union(a, b) >= Area(b)
  {
    InterAreaAtMostAreas(a, b);
  }

  /** A quotient of `0 <= i <= u` by a positive `u` lies in [0, 1]. */
  lemma QuotientAtMostOne(i: real, u: real)
    requires 0.0 <= i <= u && u > 0.0
    ensures 0.0 <= i / u <= 1.0
  {
    assert i / u == i * (1.0 / u);
    assert u * (1.0 / u) == 1.0;
    MulMonotone(i, 1.0 / u, u, 1.0 / u);
  }

  /** For well-formed boxes `getvalue` raises exactly when both boxes have zero
      area, and otherwise lies between 0 and 1. */
  lemma GetValueBounds(a: Box, b: Box)
    requires WellFormed(a) && WellFormed(b)
    ensures GetValue(a, b).Raise? <==> Area(a) == 0.0 && Area(b) == 0.0
    ensures GetValue(a, b).Ok? ==> 0.0 <= GetValue(a, b).value <= 1.0
  {
    InterAreaAtMostAreas(a, b);
    MulMonotone(0.0, 0.0, a.xmax - a.xmin, a.ymax - a.ymin);
    MulMonotone(0.0, 0.0, b.xmax - b.xmin, b.ymax - b.ymin);
    if Union(a, b) != 0.0 {
      var i, u := InterArea(a, b), Union(a, b);
      QuotientAtMostOne(i, u);
    }
  }

  /** A well-formed box with positive area overlaps itself completely. */
  lemma SelfIouIsOne(a: Box)
    requires WellFormed(a) && Area(a) > 0.0
    ensures GetValue(a, a) == Ok(1.0)
  {
    assert Overlap(a.xmin, a.xmax, a.xmin, a.xmax) == a.xmax - a.xmin;
    assert Overlap(a.ymin, a.ymax, a.ymin, a.ymax) == a.ymax - a.ymin;
    assert InterArea(a, a) == Area(a);
    assert Union(a, a) == Area(a);
    assert Area(a) / Area(a) == 1.0;
  }

  /** Boxes that do not overlap on some axis score 0, unless the denominator
      is zero, in which case the division raises. */
  lemma DisjointScoresZero(a: Box, b: Box)
    requires a.xmax <= b.xmin || b.xmax <= a.xmin || a.ymax <= b.ymin || b.ymax <= a.ymin
    ensures GetValue(a, b) == if Area(a) + Area(b) == 0.0 then Raise(DivisionByZero) else Ok(0.0)
  {
  }

  /** Without well-formedness self-overlap fails: a box with both extents
      negative has positive area but no overlap with itself. */
  lemma SelfIouOfMalformedBox(a: Box)
    requires a.xmax < a.xmin && a.ymax < a.ymin
    ensures Area(a) > 0.0 && GetValue(a, a) == Ok(0.0)
  {
    NegativeTimesNegative(a.xmax - a.xmin, a.ymax - a.ymin);
  }

  /** `getvalue` from a known overlap `i` and denominator `u`. */
  lemma GetValueOf(a: Box, b: Box, i: real, u: real)
    requires InterArea(a, b) == i && Union(a, b) == u
    ensures GetValue(a, b) == if u == 0.0 then Raise(DivisionByZero) else Ok(i / u)
  {
  }

  lemma OneSeventhFacts(a: Box, b: Box)
    requires a == Box(0.0, 0.0, 2.0, 2.0) && b == Box(1.0, 1.0, 3.0, 3.0)
    ensures InterArea(a, b) == 1.0 && Union(a, b) == 7.0
  {
    assert Overlap(a.xmin, a.xmax, b.xmin, b.xmax) == 1.0;
    assert Overlap(a.ymin, a.ymax, b.ymin, b.ymax) == 1.0;
    assert Area(a) == 4.0 && Area(b) == 4.0;
  }

  /** (0,0,2,2) and (1,1,3,3): overlap 1, union 4 + 4 - 1 = 7. */
  lemma OneSeventhExample()
    ensures GetValue(Box(0.0, 0.0, 2.0, 2.0), Box(1.0, 1.0, 3.0, 3.0)) == Ok(1.0 / 7.0)
  {
    var a, b := Box(0.0, 0.0, 2.0, 2.0), Box(1.0, 1.0, 3.0, 3.0);
    OneSeventhFacts(a, b);
    GetValueOf(a, b, 1.0, 7.0);
  }

  // ---------------------------------------------------------------------------
  // The matrix

  /** One row of the matrix: `score(a, b)` for each `b` in order; the first
      failing pair's exception propagates. */
  function Row(score: (Box, Box) -> Result<real>, a: Box, boxes: seq<Box>): (r: Result<seq<real>>)
    ensures r.Ok? ==> |r.value| == |boxes|
    decreases |boxes|
  {
    if boxes == [] then Ok([])
    else
      var row :- Row(score, a, boxes[..|boxes| - 1]);
      var v :- score(a, boxes[|boxes| - 1]);
      Ok(row + [v])
  }

  /** The whole matrix, one row per box of the first list. */
  function Matrix(score: (Box, Box) -> Result<real>, boxList1: seq<Box>, boxList2: seq<Box>): (r: Result<seq<seq<real>>>)
    ensures r.Ok? ==> |r.value| == |boxList1|
    decreases |boxList1|
  {
    if boxList1 == [] then Ok([])
    else
      var rows :- Matrix(score, boxList1[..|boxList1| - 1], boxList2);
      var row :- Row(score, boxList1[|boxList1| - 1], boxList2);
      Ok(rows + [row])
  }

  /** A row is built iff every pair in it scores; it then holds the score of
      each pair, in order.  Otherwise it raises what some pair raised. */
  lemma {:induction false} RowCells(score: (Box, Box) -> Result<real>, a: Box, boxes: seq<Box>)
    ensures Row(score, a, boxes).Ok? <==> forall j :: 0 <= j < |boxes| ==> score(a, boxes[j]).Ok?
    ensures Row(score, a, boxes).Ok? ==>
      |Row(score, a, boxes).value| == |boxes| &&
      forall j :: 0 <= j < |boxes| ==> score(a, boxes[j]) == Ok(Row(score, a, boxes).value[j])
    ensures Row(score, a, boxes).Raise? ==>
      exists j :: 0 <= j < |boxes| && score(a, boxes[j]) == Raise(Row(score, a, boxes).error)
    decreases |boxes|
  {
    if boxes != [] {
      var n := |boxes| - 1;
      var init := boxes[..n];
      RowCells(score, a, init);
      assert forall j :: 0 <= j < n ==> init[j] == boxes[j];
    }
  }

  /** The matrix is built iff every pair scores; it then has `|boxList1|`
      rows of `|boxList2|` entries, entry [i][j] being the score of
      `boxList1[i]` against `boxList2[j]`.  Otherwise it raises what some
      pair raised. */
  lemma {:induction false} MatrixCells(score: (Box, Box) -> Result<real>, boxList1: seq<Box>, boxList2: seq<Box>)
    ensures Matrix(score, boxList1, boxList2).Ok? <==>
      forall i, j :: 0 <= i < |boxList1| && 0 <= j < |boxList2| ==> score(boxList1[i], boxList2[j]).Ok?
    ensures Matrix(score, boxList1, boxList2).Ok? ==>
      var m := Matrix(score, boxList1, boxList2).value;
      |m| == |boxList1| &&
      forall i :: 0 <= i < |boxList1| ==>
        |m[i]| == |boxList2| &&
        forall j :: 0 <= j < |boxList2| ==> score(boxList1[i], boxList2[j]) == Ok(m[i][j])
    ensures Matrix(score, boxList1, boxList2).Raise? ==>
      exists i, j :: 0 <= i < |boxList1| && 0 <= j < |boxList2| &&
        score(boxList1[i], boxList2[j]) == Raise(Matrix(score, boxList1, boxList2).error)
    decreases |boxList1|
  {
    if boxList1 != [] {
      var n := |boxList1| - 1;
      var init := boxList1[..n];
      MatrixCells(score, init, boxList2);
      RowCells(score, boxList1[n], boxList2);
      assert forall i :: 0 <= i < n ==> init[i] == boxList1[i];
      if Matrix(score, init, boxList2).Raise? {
        var i, j :| 0 <= i < n && 0 <= j < |boxList2| &&
          score(init[i], boxList2[j]) == Raise(Matrix(score, init, boxList2).error);
        assert score(boxList1[i], boxList2[j]) == Raise(Matrix(score, boxList1, boxList2).error);
      } else if Row(score, boxList1[n], boxList2).Raise? {
        var j :| 0 <= j < |boxList2| &&
          score(boxList1[n], boxList2[j]) == Raise(Row(score, boxList1[n], boxList2).error);
        assert score(boxList1[n], boxList2[j]) == Raise(Matrix(score, boxList1, boxList2).error);
      }
    }
  }

  /** Every pair of boxes has a non-zero denominator. */
  predicate AllDefined(boxList1: seq<Box>, boxList2: seq<Box>) {
    forall i, j :: 0 <= i < |boxList1| && 0 <= j < |boxList2| ==> Union(boxList1[i], boxList2[j]) != 0.0
  }

  /** The IoU matrix: it is built iff no pair has a zero denominator, and it
      then holds `getvalue` of each pair in input order; otherwise it raises
      ZeroDivisionError. */
  lemma IouMatrixCells(boxList1: seq<Box>, boxList2: seq<Box>)
    ensures Matrix(GetValue, boxList1, boxList2).Ok? <==> AllDefined(boxList1, boxList2)
    ensures Matrix(GetValue, boxList1, boxList2).Ok? ==>
      var m := Matrix(GetValue, boxList1, boxList2).value;
      |m| == |boxList1| &&
      forall i :: 0 <= i < |boxList1| ==>
        |m[i]| == |boxList2| &&
        forall j :: 0 <= j < |boxList2| ==> GetValue(boxList1[i], boxList2[j]) == Ok(m[i][j])
    ensures Matrix(GetValue, boxList1, boxList2).Raise? ==>
      Matrix(GetValue, boxList1, boxList2).error == DivisionByZero
  {
    MatrixCells(GetValue, boxList1, boxList2);
  }

  /** An empty first list gives no rows; an empty second list gives one empty
      row per box of the first. */
  lemma EmptyInputs(score: (Box, Box) -> Result<real>, boxList1: seq<Box>, boxList2: seq<Box>)
    ensures Matrix(score, [], boxList2) == Ok([])
    ensures Matrix(score, boxList1, []) == Ok(seq(|boxList1|, _ => []))
  {
    MatrixCells(score, boxList1, []);
    assert Matrix(score, boxList1, []).value == seq(|boxList1|, _ => []);
  }

  /** `iou_matrix_naive_version`: nested loops appending each `getvalue` to a
      row and each row to the result. */
  method IouMatrixNaiveVersion(boxList1: seq<Box>, boxList2: seq<Box>) returns (r: Result<seq<seq<real>>>)
    ensures r == Matrix(GetValue, boxList1, boxList2)
  {
    var result: seq<seq<real>> := [];
    for i := 0 to |boxList1|
      invariant Matrix(GetValue, boxList1[..i], boxList2) == Ok(result)
    {
      var a := boxList1[i];
      var row: seq<real> := [];
      for j := 0 to |boxList2|
        invariant Row(GetValue, a, boxList2[..j]) == Ok(row)
      {
        var v := GetValue(a, boxList2[j]);
        if v.Raise? {
          IouMatrixCells(boxList1, boxList2);
          return v.PropagateFailure();
        }
        assert boxList2[..j + 1][..j] == boxList2[..j];
        row := row + [v.value];
      }
      assert boxList2[..|boxList2|] == boxList2;
      assert boxList1[..i + 1][..i] == boxList1[..i];
      result := result + [row];
    }
    assert boxList1[..|boxList1|] == boxList1;
    r := Ok(result);
  }

  // ---------------------------------------------------------------------------
  // The benchmark's box generator

  /** `random.uniform(lo, hi)` given the draw `u` of `random.random()`. */
  function Uniform(lo: real, hi: real, u: real): real {
    lo + (hi - lo) * u
  }

  /** A draw of `random.random()`. */
  predicate IsDraw(u: real) { 0.0 <= u < 1.0 }

  /** `a_random_box2d`, given its four draws of `random.random()`: a
      well-formed box inside the unit square. */
  function RandomBox(u1: real, u2: real, u3: real, u4: real): (b: Box)
    requires IsDraw(u1) && IsDraw(u2) && IsDraw(u3) && IsDraw(u4)
    ensures WellFormed(b)
    ensures 0.0 <= b.xmin && b.xmax <= 1.0 && 0.0 <= b.ymin && b.ymax <= 1.0
  {
    var xmin := Uniform(0.0, 1.0, u1);
    var ymin := Uniform(0.0, 1.0, u2);
    var xmax := Uniform(xmin, 1.0, u3);
    var ymax := Uniform(ymin, 1.0, u4);
    MulMonotone(0.0, 0.0, 1.0 - xmin, u3);
    MulMonotone(0.0, 0.0, 1.0 - ymin, u4);
    MulMonotone(1.0 - xmin, u3, 1.0 - xmin, 1.0);
    MulMonotone(1.0 - ymin, u4, 1.0 - ymin, 1.0);
    Box(xmin, ymin, xmax, ymax)
  }
}
