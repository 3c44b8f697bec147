/** Steps 2 to 4 of the detailed scan: a statistical pre-filter around the
    naive centroid, a robust centroid of what survives, and the final 10 km
    radius test of every raw sample against it. */
module Outliers {
  import opened Wrappers
  import opened Geo
  import opened Seqs
  import opened Collect
  import opened Events

  /** `statistics.stdev` (never reached with fewer than two values). */
  type Stdev = seq<real> -> real

  const DeviationFactor: real := 2.0
  const MaxRadiusKm: real := 10.0

  function Points(xs: seq<Sample>): (ps: seq<Point>)
    ensures |ps| == |xs| && forall i :: 0 <= i < |xs| ==> ps[i] == xs[i].at
  {
    seq(|xs|, i requires 0 <= i < |xs| => xs[i].at)
  }

  /** The distance of every sample from the centre `c`. */
  function DistancesTo(xs: seq<Sample>, c: Point, hav: Haversine): (ds: seq<real>)
    ensures |ds| == |xs| && forall i :: 0 <= i < |xs| ==> ds[i] == Km(hav, xs[i].at, c)
  {
    seq(|xs|, i requires 0 <= i < |xs| => Km(hav, xs[i].at, c))
  }

  /** "Within `limit` km of `c`". */
  function Within(c: Point, hav: Haversine, limit: real): Sample -> bool {
    (x: Sample) => Km(hav, x.at, c) <= limit
  }

  /** `_calcular_centroide` of a non-empty sample list. */
  function CentreOf(xs: seq<Sample>): Point
    requires |xs| > 0
  {
    Centroid(Points(xs)).value
  }

  /** The cut-off `mean + 2 * stdev` of the distances to the naive centroid. */
  function Limit(raw: seq<Sample>, hav: Haversine, stdev: Stdev): real
    requires |raw| > 0
  {
    var ds := DistancesTo(raw, CentreOf(raw), hav);
    Mean(ds) + DeviationFactor * stdev(ds)
  }

  /** Whether the statistical pre-filter applies: more than one sample and a
      positive deviation. */
  predicate Spread(raw: seq<Sample>, hav: Haversine, stdev: Stdev)
    requires |raw| > 0
  {
    |raw| > 1 && stdev(DistancesTo(raw, CentreOf(raw), hav)) > 0.0
  }

  /** `pontos_preliminares`: the samples within `mean + 2 * stdev` of the naive
      centroid when the distances are spread out, all samples otherwise. Never
      empty, because some distance is at most the mean. */
  function Preliminary(raw: seq<Sample>, hav: Haversine, stdev: Stdev): (r: seq<Sample>)
    requires |raw| > 0
    ensures |r| > 0 && IsSubsequence(r, raw)
    ensures !Spread(raw, hav, stdev) ==> r == raw
    ensures Spread(raw, hav, stdev) ==>
              forall x :: x in r <==> x in raw && Km(hav, x.at, CentreOf(raw)) <= Limit(raw, hav, stdev)
  {
    if Spread(raw, hav, stdev) then
      var c := CentreOf(raw);
      var p := Within(c, hav, Limit(raw, hav, stdev));
      var r := Filter(raw, p);
      PreliminaryNonEmpty(raw, hav, stdev);
      FilterIsSubsequence(raw, p);
      forall x ensures x in r <==> x in raw && Km(hav, x.at, c) <= Limit(raw, hav, stdev) {
        FilterMembers(raw, p, x);
      }
      r
    else
      SubsequenceRefl(raw);
      raw
  }

  /** Some sample lies within the mean distance, hence within the cut-off. */
  lemma PreliminaryNonEmpty(raw: seq<Sample>, hav: Haversine, stdev: Stdev)
    requires |raw| > 0 && Spread(raw, hav, stdev)
    ensures |Filter(raw, Within(CentreOf(raw), hav, Limit(raw, hav, stdev)))| > 0
  {
    var c := CentreOf(raw);
    var ds := DistancesTo(raw, c, hav);
    var p := Within(c, hav, Limit(raw, hav, stdev));
    SomeAtMostMean(ds);
    var i :| 0 <= i < |ds| && ds[i] <= Mean(ds);
    assert p(raw[i]);
    FilterMembers(raw, p, raw[i]);
  }

  /** The robust centroid: the centroid of the preliminary samples. */
  function RobustCentre(raw: seq<Sample>, hav: Haversine, stdev: Stdev): Point
    requires |raw| > 0
  {
    CentreOf(Preliminary(raw, hav, stdev))
  }

  /** `resultados_confiaveis`: the raw samples within 10 km of `centre`, in order. */
  function Reliable(raw: seq<Sample>, centre: Point, hav: Haversine): (r: seq<Sample>)
    ensures IsSubsequence(r, raw)
    ensures forall x :: x in r <==> x in raw && Km(hav, x.at, centre) <= MaxRadiusKm
  {
    var p := Within(centre, hav, MaxRadiusKm);
    FilterIsSubsequence(raw, p);
    forall x ensures x in Filter(raw, p) <==> x in raw && Km(hav, x.at, centre) <= MaxRadiusKm {
      FilterMembers(raw, p, x);
    }
    Filter(raw, p)
  }

  /** One warning per raw sample farther than 10 km from `centre`, in order. */
  function OutlierLogs(raw: seq<Sample>, centre: Point, hav: Haversine): (r: seq<Event>)
    ensures forall i :: 0 <= i < |r| ==> r[i].Log? && r[i].msg.OutlierDropped? && r[i].msg.km > MaxRadiusKm
    decreases |raw|
  {
    if |raw| == 0 then []
    else
      var d := Km(hav, raw[0].at, centre);
      (if d <= MaxRadiusKm then [] else [Log(OutlierDropped(raw[0].cep, d))]) + OutlierLogs(raw[1..], centre, hav)
  }

  /** Every raw sample is either kept or reported: none is lost or counted twice. */
  lemma {:induction false} KeptPlusDropped(raw: seq<Sample>, centre: Point, hav: Haversine)
    ensures |Reliable(raw, centre, hav)| + |OutlierLogs(raw, centre, hav)| == |raw|
    decreases |raw|
  {
    if |raw| > 0 {
      KeptPlusDropped(raw[1..], centre, hav);
    }
  }
}
