/** Step 5 of the detailed scan: the reliable samples grouped by neighbourhood,
    each group thinned to the members near its own centre, one row per group
    copied from its sample nearest to the origin, a summary row, and the final
    stable sort. */
module Aggregation {
  import opened Wrappers
  import opened PyJson
  import opened Text
  import opened Geo
  import opened Seqs
  import opened Grouping
  import opened StableSort
  import opened Rows
  import opened Collect
  import opened Outliers

  const Unidentified := "Bairro não identificado"
  const GroupRadiusKm: real := 3.0

  /** The dict key of a sample: its neighbourhood when that is a string with
      some non-blank character, the sentinel for a falsy or blank one; any other
      truthy value has no `.strip` and raises. */
  function GroupLabel(b: Json): (r: Result<string, Exc>)
    ensures !Truthy(b) ==> r == Ok(Unidentified)
    ensures b.Str? && Blank(b.s) ==> r == Ok(Unidentified)
    ensures b.Str? && !Blank(b.s) ==> r == Ok(b.s)
    ensures Truthy(b) && !b.Str? ==> r == Err(AttributeError)
  {
    if !Truthy(b) then Ok(Unidentified)
    else if b.Str? then
      StripEmptyIffBlank(b.s);
      if Strip(b.s) != [] then Ok(b.s) else Ok(Unidentified)
    else Err(AttributeError)
  }

  /** Every sample has a usable key. */
  predicate Labelled(xs: seq<Sample>) {
    forall i :: 0 <= i < |xs| ==> GroupLabel(xs[i].bairro).Ok?
  }

  /** The key of a sample whose label is usable. */
  function Label(s: Sample): string {
    match GroupLabel(s.bairro)
    case Ok(k) => k
    case Err(_) => Unidentified
  }

  /** "Strictly within 3 km of `c`". */
  function Near(c: Point, hav: Haversine): Sample -> bool {
    (x: Sample) => Km(hav, x.at, c) < GroupRadiusKm
  }

  /** `pontos_bairro_filtrados`: groups of one or two stay whole; a larger group
      keeps its members strictly within 3 km of its own centroid, or stays whole
      when none is. */
  function Refine(pts: seq<Sample>, hav: Haversine): (r: seq<Sample>)
    requires |pts| > 0
    ensures |r| > 0 && IsSubsequence(r, pts)
    ensures |pts| <= 2 ==> r == pts
    ensures |pts| > 2 && (exists i :: 0 <= i < |pts| && Km(hav, pts[i].at, CentreOf(pts)) < GroupRadiusKm) ==>
              forall x :: x in r <==> x in pts && Km(hav, x.at, CentreOf(pts)) < GroupRadiusKm
    ensures |pts| > 2 && (forall i :: 0 <= i < |pts| ==> Km(hav, pts[i].at, CentreOf(pts)) >= GroupRadiusKm) ==>
              r == pts
  {
    if |pts| <= 2 then
      SubsequenceRefl(pts);
      pts
    else
      var c := CentreOf(pts);
      var f := Filter(pts, Near(c, hav));
      forall x ensures x in f <==> x in pts && Km(hav, x.at, c) < GroupRadiusKm {
        FilterMembers(pts, Near(c, hav), x);
      }
      if |f| == 0 then
        SubsequenceRefl(pts);
        pts
      else
        FilterIsSubsequence(pts, Near(c, hav));
        f
  }

  /** `xs[i]` is what `min(xs, key=distancia)` picks: a minimal distance, and
      the first position holding one. */
  predicate IsChampion(xs: seq<Sample>, i: nat) {
    && i < |xs|
    && (forall j :: 0 <= j < |xs| ==> xs[i].distance <= xs[j].distance)
    && (forall j :: 0 <= j < i ==> xs[i].distance < xs[j].distance)
  }

  function Champion(xs: seq<Sample>): (i: nat)
    requires |xs| > 0
    ensures IsChampion(xs, i)
    decreases |xs|
  {
    if |xs| == 1 then 0
    else
      var m := Champion(xs[..|xs| - 1]);
      if xs[|xs| - 1].distance < xs[m].distance then |xs| - 1 else m
  }

  /** There is only one champion. */
  lemma ChampionUnique(xs: seq<Sample>, i: nat, j: nat)
    requires IsChampion(xs, i) && IsChampion(xs, j)
    ensures i == j
  {
    assert xs[i].distance <= xs[j].distance && xs[j].distance <= xs[i].distance;
  }

  /** `r` copies distance, time, position and code of sample `s`. */
  predicate Copies(r: Row, s: Sample, round: Round) {
    && r.distance == Value(s.distance)
    && r.minutes == Value(round(s.distance * 2.0, 1))
    && r.lat == Some(s.at.lat) && r.lon == Some(s.at.lon)
    && r.reference == Some(s.cep)
  }

  /** The row copied from the champion of `f`, counting `f`. */
  function ChampionRow(raiz: string, place: string, f: seq<Sample>, round: Round): (r: Row)
    requires |f| > 0
    ensures r.kind == Neighbourhood && r.raiz == raiz && r.place == place && r.sampled == |f|
    ensures exists i: nat :: IsChampion(f, i) && Copies(r, f[i], round)
  {
    var i := Champion(f);
    var s := f[i];
    var r := Row(Neighbourhood, raiz, place, Value(s.distance), Value(round(s.distance * 2.0, 1)),
                 |f|, Some(s.at.lat), Some(s.at.lon), Some(s.cep));
    assert Copies(r, f[i], round);
    r
  }

  /** The `bairro` row of one group: its refined members counted, the member
      nearest to the origin copied. */
  function PlaceRow(raiz: string, place: string, members: seq<Sample>, hav: Haversine, round: Round): (r: Row)
    requires |members| > 0
    ensures r.kind == Neighbourhood && r.raiz == raiz && r.place == place && r.distance.Value?
    ensures r.sampled == |Refine(members, hav)|
    ensures exists i: nat :: IsChampion(Refine(members, hav), i) && Copies(r, Refine(members, hav)[i], round)
  {
    ChampionRow(raiz, place, Refine(members, hav), round)
  }

  function Distances(xs: seq<Sample>): (ds: seq<real>)
    ensures |ds| == |xs| && forall i :: 0 <= i < |xs| ==> ds[i] == xs[i].distance
  {
    seq(|xs|, i requires 0 <= i < |xs| => xs[i].distance)
  }

  /** The `resumo_raiz` row: the rounded mean distance of all reliable samples. */
  function SummaryRow(raiz: string, reliable: seq<Sample>, round: Round): (r: Row)
    requires |reliable| > 0
    ensures r.kind == Summary && r.raiz == raiz && r.place == SummaryLabel
    ensures r.sampled == |reliable|
    ensures r.distance == Value(round(Mean(Distances(reliable)), 2))
    ensures r.minutes == Value(round(round(Mean(Distances(reliable)), 2) * 2.0, 1))
    ensures r.lat.None? && r.lon.None? && r.reference.None?
  {
    var m := round(Mean(Distances(reliable)), 2);
    Row(Summary, raiz, SummaryLabel, Value(m), Value(round(m * 2.0, 1)), |reliable|, None, None, None)
  }

  /** One `bairro` row per group, in group order. */
  function PlaceRows(raiz: string, gs: seq<Group<string, Sample>>, hav: Haversine, round: Round): (r: seq<Row>)
    requires forall i :: 0 <= i < |gs| ==> |gs[i].members| > 0
    ensures |r| == |gs|
    ensures forall i :: 0 <= i < |gs| ==> r[i] == PlaceRow(raiz, gs[i].key, gs[i].members, hav, round)
  {
    seq(|gs|, i requires 0 <= i < |gs| => PlaceRow(raiz, gs[i].key, gs[i].members, hav, round))
  }

  /** The groups of the reliable samples. */
  function Groups(reliable: seq<Sample>): (gs: seq<Group<string, Sample>>)
    ensures GroupsOf(reliable, Label, gs)
    ensures FirstSeenOrder(reliable, Label, gs)
  {
    GroupBy(reliable, Label)
  }

  /** The rows before sorting: the summary, then one row per group. */
  function Unsorted(raiz: string, reliable: seq<Sample>, hav: Haversine, round: Round): seq<Row>
    requires |reliable| > 0
  {
    [SummaryRow(raiz, reliable, round)] + PlaceRows(raiz, Groups(reliable), hav, round)
  }

  /** What the detailed scan returns once the reliable samples are known:
      the error row when there are none, AttributeError when a label cannot be
      stripped, otherwise the sorted summary and neighbourhood rows. */
  function Aggregate(raiz: string, reliable: seq<Sample>, hav: Haversine, round: Round): (r: Result<seq<Row>, Exc>)
    ensures |reliable| == 0 ==> r == Ok([ErrorRow(raiz, NoReliablePoint)])
    ensures r.Err? <==> |reliable| > 0 && !Labelled(reliable)
    ensures r.Err? ==> r.error == AttributeError
  {
    if |reliable| == 0 then Ok([ErrorRow(raiz, NoReliablePoint)])
    else if !Labelled(reliable) then Err(AttributeError)
    else Ok(Sort(Unsorted(raiz, reliable, hav, round), RowKey))
  }

  /** The rows returned are the summary row and the group rows, rearranged. */
  lemma AggregatePermutes(raiz: string, reliable: seq<Sample>, hav: Haversine, round: Round)
    requires |reliable| > 0 && Labelled(reliable)
    ensures multiset(Aggregate(raiz, reliable, hav, round).value) ==
              multiset([SummaryRow(raiz, reliable, round)] + PlaceRows(raiz, Groups(reliable), hav, round))
  {
    SortSortedPermutation(Unsorted(raiz, reliable, hav, round), RowKey);
  }

  /** The summary row comes first; the neighbourhood rows after it are the
      group rows sorted on their own. */
  lemma SummaryFirst(raiz: string, reliable: seq<Sample>, hav: Haversine, round: Round)
    requires |reliable| > 0 && Labelled(reliable)
    ensures var rows := Aggregate(raiz, reliable, hav, round).value;
            && |rows| == 1 + |Groups(reliable)|
            && rows[0] == SummaryRow(raiz, reliable, round)
            && rows[1..] == Sort(PlaceRows(raiz, Groups(reliable), hav, round), RowKey)
  {
    var h := SummaryRow(raiz, reliable, round);
    var t := PlaceRows(raiz, Groups(reliable), hav, round);
    assert Unsorted(raiz, reliable, hav, round) == [h] + t;
    SortLeastFirst(h, t, RowKey);
  }

  /** "A neighbourhood row with a distance". */
  function IsPlaceRow(r: Row): bool {
    r.kind == Neighbourhood && r.distance.Value?
  }

  /** After the summary, only neighbourhood rows, in non-decreasing distance. */
  lemma PlaceRowsAscending(raiz: string, reliable: seq<Sample>, hav: Haversine, round: Round)
    requires |reliable| > 0 && Labelled(reliable)
    ensures var rows := Aggregate(raiz, reliable, hav, round).value;
            && (forall i :: 1 <= i < |rows| ==> rows[i].kind == Neighbourhood && rows[i].distance.Value?)
            && (forall i, j :: 1 <= i < j < |rows| ==> rows[i].distance.x <= rows[j].distance.x)
  {
    SummaryFirst(raiz, reliable, hav, round);
    var rows := Aggregate(raiz, reliable, hav, round).value;
    var t := PlaceRows(raiz, Groups(reliable), hav, round);
    var sorted := Sort(t, RowKey);
    SortSortedPermutation(t, RowKey);
    SortKeepsAll(t, RowKey, IsPlaceRow);
    assert rows[1..] == sorted;
    forall i | 1 <= i < |rows|
      ensures rows[i].kind == Neighbourhood && rows[i].distance.Value?
    {
      assert rows[i] == sorted[i - 1];
      assert IsPlaceRow(sorted[i - 1]);
    }
    forall i, j | 1 <= i < j < |rows|
      ensures rows[i].distance.x <= rows[j].distance.x
    {
      assert rows[i] == sorted[i - 1] && rows[j] == sorted[j - 1];
      assert IsPlaceRow(sorted[i - 1]) && IsPlaceRow(sorted[j - 1]);
      assert KeyLe(RowKey(sorted[i - 1]), RowKey(sorted[j - 1]));
    }
  }

  /** Rows of equal distance keep the order of their groups (first appearance
      of the neighbourhood among the reliable samples). */
  lemma PlaceRowsStable(raiz: string, reliable: seq<Sample>, hav: Haversine, round: Round, k: SortKey)
    requires |reliable| > 0 && Labelled(reliable)
    ensures WithKey(Aggregate(raiz, reliable, hav, round).value[1..], RowKey, k) ==
              WithKey(PlaceRows(raiz, Groups(reliable), hav, round), RowKey, k)
  {
    SummaryFirst(raiz, reliable, hav, round);
    SortStable(PlaceRows(raiz, Groups(reliable), hav, round), RowKey, k);
  }

  /** "Has place name `p`". */
  function HasPlace(p: string): Row -> bool {
    (r: Row) => r.place == p
  }

  /** Rows named after groups with distinct keys: one row per key. */
  lemma {:induction false} CountByKey(rows: seq<Row>, gs: seq<Group<string, Sample>>, p: string)
    requires |rows| == |gs| && DistinctKeys(gs)
    requires forall i :: 0 <= i < |gs| ==> rows[i].place == gs[i].key
    ensures |Filter(rows, HasPlace(p))| == if HasGroup(gs, p) then 1 else 0
    decreases |gs|
  {
    if |gs| > 0 {
      DistinctKeysTail(gs);
      CountByKey(rows[1..], gs[1..], p);
      HasGroupCons(gs, p);
    }
  }

  /** A label has a group exactly when some reliable sample carries it. */
  lemma LabelPresent(reliable: seq<Sample>, p: string)
    ensures HasGroup(Groups(reliable), p) <==> exists i :: 0 <= i < |reliable| && Label(reliable[i]) == p
  {
    var gs := Groups(reliable);
    if HasGroup(gs, p) {
      var g :| 0 <= g < |gs| && gs[g].key == p;
      var m := gs[g].members[0];
      WithKeyMembers(reliable, Label, p, m);
      var i :| 0 <= i < |reliable| && reliable[i] == m;
      assert Label(reliable[i]) == p;
    }
    if exists i :: 0 <= i < |reliable| && Label(reliable[i]) == p {
      var i :| 0 <= i < |reliable| && Label(reliable[i]) == p;
      assert HasGroup(gs, Label(reliable[i]));
    }
  }

  /** Exactly one neighbourhood row per distinct label among the reliable samples,
      and none for any other name. */
  lemma OneRowPerPlace(raiz: string, reliable: seq<Sample>, hav: Haversine, round: Round, p: string)
    requires |reliable| > 0 && Labelled(reliable)
    ensures |Filter(Aggregate(raiz, reliable, hav, round).value[1..], HasPlace(p))| ==
              if exists i :: 0 <= i < |reliable| && Label(reliable[i]) == p then 1 else 0
  {
    SummaryFirst(raiz, reliable, hav, round);
    var gs := Groups(reliable);
    var t := PlaceRows(raiz, gs, hav, round);
    SortCount(t, RowKey, HasPlace(p));
    CountByKey(t, gs, p);
    LabelPresent(reliable, p);
  }
}
