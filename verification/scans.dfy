/** The two scans of one prefix as complete generator runs: the detailed scan
    (300 probes, outlier filtering, one row per neighbourhood) and the fast scan
    (10 probes, one centroid row). */
module Scans {
  import opened Wrappers
  import opened PyJson
  import opened Digits
  import opened Seqs
  import opened Providers
  import opened Geo
  import opened Sampler
  import opened Rows
  import opened Events
  import opened Collect
  import opened Outliers
  import opened Aggregation

  /** `Verificados {t}/{total} CEPs...` for each tick. */
  function VerifiedLogs(ticks: seq<nat>, total: nat): (es: seq<Event>)
    ensures |es| == |ticks| && forall j :: 0 <= j < |ticks| ==> es[j] == Log(Verified(ticks[j], total))
  {
    seq(|ticks|, j requires 0 <= j < |ticks| => Log(Verified(ticks[j], total)))
  }

  /** `Processadas {t}/{total} amostras...` for each tick. */
  function ProcessedLogs(ticks: seq<nat>, total: nat): (es: seq<Event>)
    ensures |es| == |ticks| && forall j :: 0 <= j < |ticks| ==> es[j] == Log(Processed(ticks[j], total))
  {
    seq(|ticks|, j requires 0 <= j < |ticks| => Log(Processed(ticks[j], total)))
  }

  /** The raw samples of the detailed scan, in completion order. */
  function Raw(raiz: string, resolve: Resolver, order: seq<nat>, origin: Point, hav: Haversine, round: Round): seq<Sample>
    requires IsPermutation(order, 300)
  {
    Collected(Completed(Dense(raiz), order), resolve, origin, hav, round)
  }

  /** The logs of steps 2 to 4 on a non-empty raw sample: the robust-centroid
      log, one warning per outlier, then the reliable count. */
  function AnalysisLogs(raw: seq<Sample>, hav: Haversine, stdev: Stdev): seq<Yield>
    requires |raw| > 0
  {
    var centre := RobustCentre(raw, hav, stdev);
    Items([Log(RobustCentroid(|Preliminary(raw, hav, stdev)|, |raw|))] + OutlierLogs(raw, centre, hav)
          + [Log(ReliableCount(|Reliable(raw, centre, hav)|))])
  }

  /** The analysis logs count every raw sample once: the reliable count plus
      one warning per sample beyond 10 km of the robust centroid. */
  lemma AnalysisLogsShape(raw: seq<Sample>, hav: Haversine, stdev: Stdev)
    requires |raw| > 0
    ensures var items := AnalysisLogs(raw, hav, stdev);
            && 2 <= |items| <= |raw| + 2
            && items[0] == Item(Log(RobustCentroid(|Preliminary(raw, hav, stdev)|, |raw|)))
            && 0 < |Preliminary(raw, hav, stdev)| <= |raw|
            && items[|items| - 1] == Item(Log(ReliableCount(|raw| - (|items| - 2))))
  {
    var prelim := Preliminary(raw, hav, stdev);
    SubsequenceLength(prelim, raw);
    var centre := RobustCentre(raw, hav, stdev);
    var drops := OutlierLogs(raw, centre, hav);
    KeptPlusDropped(raw, centre, hav);
    BracketedItems(Log(RobustCentroid(|prelim|, |raw|)), drops, Log(ReliableCount(|Reliable(raw, centre, hav)|)));
  }

  /** Between the centroid log and the reliable count, only outlier warnings,
      each for a sample beyond 10 km. */
  lemma AnalysisLogsWarnings(raw: seq<Sample>, hav: Haversine, stdev: Stdev)
    requires |raw| > 0
    ensures var items := AnalysisLogs(raw, hav, stdev);
            forall i :: 1 <= i < |items| - 1 ==>
              items[i].Item? && items[i].e.Log? && items[i].e.msg.OutlierDropped?
              && items[i].e.msg.km > MaxRadiusKm
  {
    var centre := RobustCentre(raw, hav, stdev);
    var drops := OutlierLogs(raw, centre, hav);
    var first, last := Log(RobustCentroid(|Preliminary(raw, hav, stdev)|, |raw|)), Log(ReliableCount(|Reliable(raw, centre, hav)|));
    BracketedItems(first, drops, last);
  }

  /** How a generator ends once its return value has been computed or an
      exception raised while computing it. */
  function Ended(r: Result<seq<Row>, Exc>): (end: GenEnd)
    ensures r.Ok? ==> end == Returned(Some(r.value))
    ensures r.Err? ==> end == Raised(r.error)
  {
    match r
    case Ok(rows) => Returned(Some(rows))
    case Err(e) => Raised(e)
  }

  lemma BracketedItems(first: Event, middle: seq<Event>, last: Event)
    ensures var its := Items([first] + middle + [last]);
            && |its| == |middle| + 2 && its[0] == Item(first) && its[|its| - 1] == Item(last)
            && forall i :: 1 <= i < |its| - 1 ==> its[i] == Item(middle[i - 1])
  {
    var es := [first] + middle + [last];
    assert forall i :: 1 <= i < |es| - 1 ==> es[i] == middle[i - 1];
  }

  /** `_calcular_por_varredura_detalhada`: the start log, one progress log per
      ten completed probes, then either the "no valid code" row or the
      analysis of the raw samples. */
  function DetailedScan(origin: Point, raiz: string, resolve: Resolver, order: seq<nat>,
                        hav: Haversine, stdev: Stdev, round: Round): (g: Gen)
    requires IsPermutation(order, 300)
  {
    var head := DetailedHead(raiz);
    var raw := Raw(raiz, resolve, order, origin, hav, round);
    if |raw| == 0 then Gen(head, Returned(Some([ErrorRow(raiz, NoValidCep)])))
    else
      var reliable := Reliable(raw, RobustCentre(raw, hav, stdev), hav);
      Gen(head + AnalysisLogs(raw, hav, stdev), Ended(Aggregate(raiz, reliable, hav, round)))
  }

  /** The detailed scan opens with its start log and thirty progress logs
      10/300, 20/300, ..., 300/300, whatever the probes answer. */
  lemma DetailedScanProgress(origin: Point, raiz: string, resolve: Resolver, order: seq<nat>,
                             hav: Haversine, stdev: Stdev, round: Round)
    requires IsPermutation(order, 300)
    ensures var g := DetailedScan(origin, raiz, resolve, order, hav, stdev, round);
            && |g.items| >= 31
            && g.items[0] == Item(Log(ScanStarted(raiz)))
            && forall j :: 1 <= j <= 30 ==> g.items[j] == Item(Log(Verified(10 * j, 300)))
  {
    var g := DetailedScan(origin, raiz, resolve, order, hav, stdev, round);
    var head := DetailedHead(raiz);
    assert g.items[..31] == head;
    forall j | 1 <= j <= 30
      ensures g.items[j] == Item(Log(Verified(10 * j, 300)))
    {
      assert g.items[j] == head[j];
    }
  }

  /** The start log and the thirty progress logs of the detailed scan:
      10/300, 20/300, ..., 300/300. */
  function DetailedHead(raiz: string): (items: seq<Yield>)
    ensures |items| == 31 && items[0] == Item(Log(ScanStarted(raiz)))
    ensures forall j :: 1 <= j <= 30 ==> items[j] == Item(Log(Verified(10 * j, 300)))
    ensures AllLogs(items)
  {
    var ticks := Ticks(300, 10);
    var es := [Log(ScanStarted(raiz))] + VerifiedLogs(ticks, 300);
    forall j | 1 <= j <= 30
      ensures es[j] == Log(Verified(10 * j, 300))
    {
      assert es[j] == VerifiedLogs(ticks, 300)[j - 1];
    }
    Items(es)
  }

  lemma AnalysisAllLogs(raw: seq<Sample>, hav: Haversine, stdev: Stdev)
    requires |raw| > 0
    ensures AllLogs(AnalysisLogs(raw, hav, stdev))
  {
    AnalysisLogsShape(raw, hav, stdev);
    AnalysisLogsWarnings(raw, hav, stdev);
    var items := AnalysisLogs(raw, hav, stdev);
    forall i | 0 <= i < |items|
      ensures items[i].Item? && items[i].e.Log?
    {
      if 0 < i < |items| - 1 {
        assert items[i].e.msg.OutlierDropped?;
      }
    }
  }

  /** The detailed scan yields nothing but log events. */
  lemma DetailedScanLogs(origin: Point, raiz: string, resolve: Resolver, order: seq<nat>,
                         hav: Haversine, stdev: Stdev, round: Round)
    requires IsPermutation(order, 300)
    ensures AllLogs(DetailedScan(origin, raiz, resolve, order, hav, stdev, round).items)
  {
    var raw := Raw(raiz, resolve, order, origin, hav, round);
    if |raw| > 0 {
      AnalysisAllLogs(raw, hav, stdev);
      AllLogsConcat(DetailedHead(raiz), AnalysisLogs(raw, hav, stdev));
    }
  }

  /** No raw sample exactly when no probe resolves. */
  lemma {:induction false} CollectedEmpty(done: seq<string>, resolve: Resolver, origin: Point, hav: Haversine,
                                          round: Round)
    ensures |Collected(done, resolve, origin, hav, round)| == 0 <==>
              forall i :: 0 <= i < |done| ==> resolve(done[i]).None?
    decreases |done|
  {
    if |done| > 0 {
      var init := done[..|done| - 1];
      CollectedEmpty(init, resolve, origin, hav, round);
      assert forall i :: 0 <= i < |init| ==> init[i] == done[i];
    }
  }

  lemma DistinctErrorPlaces()
    ensures NoValidCep != NoReliablePoint
  {
    assert NoValidCep[8] != NoReliablePoint[8];
  }

  /** The analysis of the samples never ends in the "no valid code" row. */
  lemma NeverNoValidCep(raiz: string, reliable: seq<Sample>, hav: Haversine, round: Round)
    ensures Ended(Aggregate(raiz, reliable, hav, round)) != Returned(Some([ErrorRow(raiz, NoValidCep)]))
  {
    if |reliable| == 0 {
      DistinctErrorPlaces();
    } else if Labelled(reliable) {
      SummaryFirst(raiz, reliable, hav, round);
    }
  }

  /** The detailed scan returns the "no valid code" row exactly when none of
      the 300 sampled codes resolves. */
  lemma DetailedScanNoSample(origin: Point, raiz: string, resolve: Resolver, order: seq<nat>,
                             hav: Haversine, stdev: Stdev, round: Round)
    requires IsPermutation(order, 300)
    ensures (DetailedScan(origin, raiz, resolve, order, hav, stdev, round).end == Returned(Some([ErrorRow(raiz, NoValidCep)])))
            <==> (forall k :: 0 <= k < 300 ==> resolve(Dense(raiz)[k]).None?)
  {
    var raw := Raw(raiz, resolve, order, origin, hav, round);
    RawEmpty(raiz, resolve, order, origin, hav, round);
    if |raw| > 0 {
      var rel := Reliable(raw, RobustCentre(raw, hav, stdev), hav);
      NeverNoValidCep(raiz, rel, hav, round);
    }
  }

  lemma RawEmpty(raiz: string, resolve: Resolver, order: seq<nat>, origin: Point, hav: Haversine, round: Round)
    requires IsPermutation(order, 300)
    ensures |Raw(raiz, resolve, order, origin, hav, round)| == 0 <==>
              forall k :: 0 <= k < 300 ==> resolve(Dense(raiz)[k]).None?
  {
    var codes := Dense(raiz);
    CompletedEmpty(codes, order, resolve, origin, hav, round);
  }

  /** Whatever the completion order, nothing is collected exactly when no code resolves. */
  lemma CompletedEmpty(codes: seq<string>, order: seq<nat>, resolve: Resolver, origin: Point, hav: Haversine,
                       round: Round)
    requires IsPermutation(order, |codes|)
    ensures |Collected(Completed(codes, order), resolve, origin, hav, round)| == 0 <==>
              forall k :: 0 <= k < |codes| ==> resolve(codes[k]).None?
  {
    var done := Completed(codes, order);
    CollectedEmpty(done, resolve, origin, hav, round);
    assert (forall i :: 0 <= i < |done| ==> resolve(done[i]).None?) <==>
           (forall k :: 0 <= k < |codes| ==> resolve(codes[k]).None?) by {
      assert forall i :: 0 <= i < |done| ==> done[i] in codes;
      assert forall k :: 0 <= k < |codes| ==> codes[k] in done;
    }
  }

  /** Every raw sample of a detailed scan that found some is accounted for:
      the reliable count and the outlier warnings add up to the raw count, and
      the stream holds exactly those logs after the progress logs. */
  lemma DetailedScanAccounting(origin: Point, raiz: string, resolve: Resolver, order: seq<nat>,
                               hav: Haversine, stdev: Stdev, round: Round)
    requires IsPermutation(order, 300)
    requires |Raw(raiz, resolve, order, origin, hav, round)| > 0
    ensures var g := DetailedScan(origin, raiz, resolve, order, hav, stdev, round);
            var raw := Raw(raiz, resolve, order, origin, hav, round);
            var reliable := Reliable(raw, RobustCentre(raw, hav, stdev), hav);
            && |g.items| == 33 + (|raw| - |reliable|)
            && g.items[31] == Item(Log(RobustCentroid(|Preliminary(raw, hav, stdev)|, |raw|)))
            && g.items[|g.items| - 1] == Item(Log(ReliableCount(|reliable|)))
  {
    var raw := Raw(raiz, resolve, order, origin, hav, round);
    AnalysisLogsShape(raw, hav, stdev);
  }

  /** The codes whose lookup gave a result. */
  function Resolves(resolve: Resolver): string -> bool {
    (c: string) => resolve(c).Some?
  }

  /** The coordinates of the fast scan's probes that resolved, in submission
      order (`executor.map` keeps it). */
  function Coordinates(codes: seq<string>, resolve: Resolver): (ps: seq<Point>)
    ensures |ps| <= |codes|
    ensures |ps| == 0 <==> forall i :: 0 <= i < |codes| ==> resolve(codes[i]).None?
    ensures forall i :: 0 <= i < |codes| && resolve(codes[i]).Some? ==>
              Point(resolve(codes[i]).value.lat, resolve(codes[i]).value.lon) in ps
    decreases |codes|
  {
    if |codes| == 0 then []
    else
      var rest := Coordinates(codes[1..], resolve);
      assert forall i :: 1 <= i < |codes| ==> codes[i] == codes[1..][i - 1];
      match resolve(codes[0])
      case Some(v) => [Point(v.lat, v.lon)] + rest
      case None => rest
  }

  /** How many of the codes resolved. */
  function ResolvedCount(codes: seq<string>, resolve: Resolver): (n: nat)
    ensures n <= |codes|
    decreases |codes|
  {
    if |codes| == 0 then 0 else (if resolve(codes[0]).Some? then 1 else 0) + ResolvedCount(codes[1..], resolve)
  }

  /** `coordenadas` holds one point per code that resolved, that code's
      coordinate, in the order of the codes and repeated points included: its
      length is the number of codes that resolved. */
  lemma {:induction false} CoordinatesOfResolved(codes: seq<string>, resolve: Resolver)
    ensures var found, ps := Filter(codes, Resolves(resolve)), Coordinates(codes, resolve);
            && |ps| == |found| == ResolvedCount(codes, resolve)
            && forall i :: 0 <= i < |found| ==>
                 resolve(found[i]).Some? && ps[i] == Point(resolve(found[i]).value.lat, resolve(found[i]).value.lon)
    decreases |codes|
  {
    if |codes| > 0 {
      var tail := codes[1..];
      CoordinatesOfResolved(tail, resolve);
      var found, ps := Filter(codes, Resolves(resolve)), Coordinates(codes, resolve);
      var found1, ps1 := Filter(tail, Resolves(resolve)), Coordinates(tail, resolve);
      if resolve(codes[0]).Some? {
        assert found == [codes[0]] + found1;
        assert ps == [Point(resolve(codes[0]).value.lat, resolve(codes[0]).value.lon)] + ps1;
        forall i | 1 <= i < |found|
          ensures resolve(found[i]).Some? && ps[i] == Point(resolve(found[i]).value.lat, resolve(found[i]).value.lon)
        {
          assert found[i] == found1[i - 1] && ps[i] == ps1[i - 1];
        }
      } else {
        assert found == found1 && ps == ps1;
      }
    }
  }

  /** The place name `Centro da Raiz ({n} amostras)`. */
  function CentreLabel(n: nat): string {
    "Centro da Raiz (" + NatToString(n) + " amostras)"
  }

  /** The label gives back the number of samples. */
  lemma CentreLabelInjective(m: nat, n: nat)
    ensures CentreLabel(m) == CentreLabel(n) <==> m == n
  {
    if CentreLabel(m) == CentreLabel(n) {
      var p, q := "Centro da Raiz (", " amostras)";
      var a, b := NatToString(m), NatToString(n);
      assert |a| == |b|;
      assert a == CentreLabel(m)[|p|..|p| + |a|];
      assert b == CentreLabel(n)[|p|..|p| + |b|];
      NatToStringInjective(m, n);
    }
  }

  /** The single row of the fast scan. */
  function CentreRow(origin: Point, raiz: string, coords: seq<Point>, hav: Haversine, round: Round): (r: Row)
    ensures |coords| == 0 ==> r == ErrorRow(raiz, NoSample)
    ensures |coords| > 0 ==>
              var c := Centroid(coords).value;
              && r.kind == Neighbourhood && r.raiz == raiz && r.place == CentreLabel(|coords|)
              && r.sampled == |coords|
              && r.distance == Value(round(Km(hav, origin, c), 2))
              && r.minutes == Value(round(round(Km(hav, origin, c), 2) * 2.0, 1))
              && r.lat == Some(c.lat) && r.lon == Some(c.lon) && r.reference == Some("N/A")
  {
    if |coords| == 0 then ErrorRow(raiz, NoSample)
    else
      var c := Centroid(coords).value;
      var d := round(Km(hav, origin, c), 2);
      Row(Neighbourhood, raiz, CentreLabel(|coords|), Value(d), Value(round(d * 2.0, 1)),
          |coords|, Some(c.lat), Some(c.lon), Some("N/A"))
  }

  /** `_calcular_por_centroide_rapido`: the start log, one progress log per two
      samples, then a single row. */
  function FastScan(origin: Point, raiz: string, resolve: Resolver, hav: Haversine, round: Round): (g: Gen)
  {
    var es := [Log(FastStarted(raiz))] + ProcessedLogs(Ticks(10, 2), 10);
    Gen(Items(es), Returned(Some([CentreRow(origin, raiz, Coordinates(Sparse(raiz), resolve), hav, round)])))
  }

  /** The fast scan yields its start log and five progress logs 2/10 ...
      10/10, then returns exactly one row. */
  lemma FastScanLogs(origin: Point, raiz: string, resolve: Resolver, hav: Haversine, round: Round)
    ensures var g := FastScan(origin, raiz, resolve, hav, round);
            && |g.items| == 6
            && g.items[0] == Item(Log(FastStarted(raiz)))
            && (forall j :: 1 <= j <= 5 ==> g.items[j] == Item(Log(Processed(2 * j, 10))))
            && g.end.Returned? && g.end.value.Some? && |g.end.value.value| == 1
  {
    var ticks := Ticks(10, 2);
    var es := [Log(FastStarted(raiz))] + ProcessedLogs(ticks, 10);
    assert |ticks| == 5;
    forall j | 1 <= j <= 5
      ensures es[j] == Log(Processed(2 * j, 10))
    {
      assert es[j] == ProcessedLogs(ticks, 10)[j - 1];
    }
  }

  /** The fast scan's row is the "no sample" row exactly when none of the ten
      codes resolves; otherwise it is a centre row counting between 1 and 10
      samples, labelled with that count and without a reference code. */
  lemma FastScanRow(origin: Point, raiz: string, resolve: Resolver, hav: Haversine, round: Round)
    ensures var row := FastScan(origin, raiz, resolve, hav, round).end.value.value[0];
            && (row == ErrorRow(raiz, NoSample) <==> forall k :: 0 <= k < 10 ==> resolve(Sparse(raiz)[k]).None?)
            && (row.kind == Neighbourhood ==>
                  && 1 <= row.sampled <= 10
                  && row.place == CentreLabel(row.sampled)
                  && row.reference == Some("N/A"))
  {
    var coords := Coordinates(Sparse(raiz), resolve);
    var row := CentreRow(origin, raiz, coords, hav, round);
    assert FastScan(origin, raiz, resolve, hav, round).end.value.value[0] == row;
  }

  /** The fast scan's `ceps_consultados` is the number of the ten codes that
      resolved, and its centroid is taken over exactly their coordinates. */
  lemma FastScanCount(origin: Point, raiz: string, resolve: Resolver, hav: Haversine, round: Round)
    ensures var row := FastScan(origin, raiz, resolve, hav, round).end.value.value[0];
            && row.sampled == ResolvedCount(Sparse(raiz), resolve)
            && (row.kind == Neighbourhood ==>
                  row.lat == Some(Centroid(Coordinates(Sparse(raiz), resolve)).value.lat)
                  && row.lon == Some(Centroid(Coordinates(Sparse(raiz), resolve)).value.lon))
  {
    var coords := Coordinates(Sparse(raiz), resolve);
    CoordinatesOfResolved(Sparse(raiz), resolve);
    var row := CentreRow(origin, raiz, coords, hav, round);
    assert FastScan(origin, raiz, resolve, hav, round).end.value.value[0] == row;
  }
}
