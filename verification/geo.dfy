/** Points, sums and means: the arithmetic of `_calcular_centroide` and of the
    mean distances. Floating point is modelled by exact reals. */
module Geo {
  import opened Wrappers

  datatype Point = Point(lat: real, lon: real)

  /** The great-circle distance in kilometres between `(lat1, lon1)` and
      `(lat2, lon2)`; the haversine formula itself is not modelled. */
  type Haversine = (real, real, real, real) -> real

  function Km(hav: Haversine, a: Point, b: Point): real {
    hav(a.lat, a.lon, b.lat, b.lon)
  }

  /** Python's `sum(xs)`. */
  function Sum(xs: seq<real>): real
    decreases |xs|
  {
    if |xs| == 0 then 0.0 else xs[0] + Sum(xs[1..])
  }

  /** `sum(xs) / len(xs)`, also `statistics.mean(xs)`. */
  function Mean(xs: seq<real>): real
    requires |xs| > 0
  {
    Sum(xs) / |xs| as real
  }

  /** If every element exceeds `m`, the sum exceeds `|xs| * m`. */
  lemma {:induction false} SumAbove(xs: seq<real>, m: real)
    requires |xs| > 0 && forall i :: 0 <= i < |xs| ==> xs[i] > m
    ensures Sum(xs) > |xs| as real * m
    decreases |xs|
  {
    if |xs| > 1 {
      SumAbove(xs[1..], m);
      assert (|xs| - 1) as real * m + m == |xs| as real * m;
    }
  }

  /** If every element is below `m`, the sum is below `|xs| * m`. */
  lemma {:induction false} SumBelow(xs: seq<real>, m: real)
    requires |xs| > 0 && forall i :: 0 <= i < |xs| ==> xs[i] < m
    ensures Sum(xs) < |xs| as real * m
    decreases |xs|
  {
    if |xs| > 1 {
      SumBelow(xs[1..], m);
      assert (|xs| - 1) as real * m + m == |xs| as real * m;
    }
  }

  /** Some element is at most the mean: a threshold at or above the mean keeps
      at least one element. */
  lemma SomeAtMostMean(xs: seq<real>)
    requires |xs| > 0
    ensures exists i :: 0 <= i < |xs| && xs[i] <= Mean(xs)
  {
    var m := Mean(xs);
    if forall k :: 0 <= k < |xs| ==> xs[k] > m {
      SumAbove(xs, m);
      assert false;
    }
  }

  /** Some element is at least the mean. */
  lemma SomeAtLeastMean(xs: seq<real>)
    requires |xs| > 0
    ensures exists i :: 0 <= i < |xs| && xs[i] >= Mean(xs)
  {
    var m := Mean(xs);
    if forall k :: 0 <= k < |xs| ==> xs[k] < m {
      SumBelow(xs, m);
      assert false;
    }
  }

  function Lats(ps: seq<Point>): (r: seq<real>)
    ensures |r| == |ps| && forall i :: 0 <= i < |ps| ==> r[i] == ps[i].lat
  {
    seq(|ps|, i requires 0 <= i < |ps| => ps[i].lat)
  }

  function Lons(ps: seq<Point>): (r: seq<real>)
    ensures |r| == |ps| && forall i :: 0 <= i < |ps| ==> r[i] == ps[i].lon
  {
    seq(|ps|, i requires 0 <= i < |ps| => ps[i].lon)
  }

  /** `_calcular_centroide`: the mean latitude and mean longitude, or
      `(None, None)` for no points. The centroid lies inside the points'
      bounding box. */
  function Centroid(ps: seq<Point>): (c: Option<Point>)
    ensures c.None? <==> |ps| == 0
    ensures c.Some? ==>
              && (exists i :: 0 <= i < |ps| && ps[i].lat <= c.value.lat)
              && (exists i :: 0 <= i < |ps| && ps[i].lat >= c.value.lat)
              && (exists i :: 0 <= i < |ps| && ps[i].lon <= c.value.lon)
              && (exists i :: 0 <= i < |ps| && ps[i].lon >= c.value.lon)
  {
    if |ps| == 0 then None
    else
      var c := Point(Mean(Lats(ps)), Mean(Lons(ps)));
      SomeAtMostMean(Lats(ps));
      SomeAtLeastMean(Lats(ps));
      SomeAtMostMean(Lons(ps));
      SomeAtLeastMean(Lons(ps));
      Some(c)
  }
}
