/** The web layer of app.py: the orchestrator that looks the origin up, picks
    a scan, forwards the scan's events and closes with one `fim`, and the
    `/stream-calculo` route that checks its query parameters first. */
module App {
  import opened Wrappers
  import opened PyJson
  import opened Seqs
  import opened Text
  import opened Geo
  import opened Providers
  import opened Sampler
  import opened Rows
  import opened Events
  import opened Collect
  import opened Outliers
  import opened Scans
  import opened CepService

  /** What the browser receives: the events in order, and the exception that
      cut the stream short, if one did. */
  datatype Stream = Stream(events: seq<Event>, aborted: Option<Exc>)

  // ----- forwarding a calculation generator -----

  /** How many items the calculation yields before its first list. */
  function LeadingEvents(items: seq<Yield>): (n: nat)
    ensures n <= |items|
    ensures forall i :: 0 <= i < n ==> items[i].Item?
    ensures n < |items| ==> items[n].ListItem?
    decreases |items|
  {
    if |items| == 0 || items[0].ListItem? then 0 else 1 + LeadingEvents(items[1..])
  }

  /** `resultados_finais` after `StopIteration`: the return value, `[]` for None. */
  function FinalRows(v: Option<seq<Row>>): (rows: seq<Row>)
    ensures v.Some? ==> rows == v.value
    ensures v.None? ==> rows == []
  {
    match v
    case Some(rows) => rows
    case None => []
  }

  /** The `while True: item = next(calculo_gen)` loop and the `fim` after it. */
  function Forward(g: Gen): (s: Stream)
    // the loop reaches `fim` exactly when the calculation yields a list or returns
    ensures s.aborted.None? <==> LeadingEvents(g.items) < |g.items| || g.end.Returned?
    ensures s.aborted.Some? ==> g.end.Raised? && s.aborted.value == g.end.e
    ensures s.aborted.None? ==> |s.events| > 0 && s.events[|s.events| - 1].Fim?
    decreases |g.items|
  {
    if |g.items| == 0 then
      match g.end
      case Returned(v) => Stream([Fim(FinalRows(v))], None)
      case Raised(e) => Stream([], Some(e))
    else
      match g.items[0]
      case ListItem(rows) => Stream([Fim(rows)], None)
      case Item(e) =>
        var rest := Forward(Gen(g.items[1..], g.end));
        Stream([e] + rest.events, rest.aborted)
  }

  /** Every event before the first list is passed on unchanged; a list, or
      the generator's return value, becomes the single `fim`; an exception
      other than `StopIteration` ends the stream without one. */
  lemma {:induction false} ForwardSpec(g: Gen)
    ensures var s, n := Forward(g), LeadingEvents(g.items);
            && |s.events| == n + (if s.aborted.None? then 1 else 0)
            && (forall i :: 0 <= i < n ==> s.events[i] == g.items[i].e)
            && (n < |g.items| ==> s.aborted.None? && s.events[n] == Fim(g.items[n].rows))
            && (n == |g.items| && g.end.Returned? ==>
                  s.aborted.None? && s.events[n] == Fim(FinalRows(g.end.value)))
            && (n == |g.items| && g.end.Raised? ==> s.aborted == Some(g.end.e))
    decreases |g.items|
  {
    if |g.items| > 0 && g.items[0].Item? {
      var tail := Gen(g.items[1..], g.end);
      ForwardSpec(tail);
      assert forall i :: 1 <= i < |g.items| ==> tail.items[i - 1] == g.items[i];
      var s, rest := Forward(g), Forward(tail);
      assert s.events == [g.items[0].e] + rest.events;
      assert LeadingEvents(g.items) == 1 + LeadingEvents(tail.items);
    }
  }

  /** The events of items that are all events. */
  function LogEvents(items: seq<Yield>): (es: seq<Event>)
    requires forall i :: 0 <= i < |items| ==> items[i].Item?
    ensures |es| == |items| && forall i :: 0 <= i < |items| ==> es[i] == items[i].e
  {
    seq(|items|, i requires 0 <= i < |items| => items[i].e)
  }

  /** How a calculation that yields only logs is relayed: all its logs, then
      `fim` with its return value (`[]` for None), or no `fim` if it raised. */
  function Whole(g: Gen): Stream
    requires AllLogs(g.items)
  {
    match g.end
    case Returned(v) => Stream(LogEvents(g.items) + [Fim(FinalRows(v))], None)
    case Raised(e) => Stream(LogEvents(g.items), Some(e))
  }

  /** A calculation that yields only logs is forwarded whole. */
  lemma {:induction false} ForwardLogs(g: Gen)
    requires AllLogs(g.items)
    ensures Forward(g) == Whole(g)
    decreases |g.items|
  {
    if |g.items| > 0 {
      var tail := Gen(g.items[1..], g.end);
      assert AllLogs(tail.items) by {
        assert forall i :: 0 <= i < |tail.items| ==> tail.items[i] == g.items[i + 1];
      }
      ForwardLogs(tail);
      assert LogEvents(g.items) == [g.items[0].e] + LogEvents(tail.items);
    }
  }

  // ----- the orchestrator -----

  /** The request as the orchestrator receives it. */
  datatype Query = Query(cep: string, raizInicial: string, raizAtual: string, kind: string)

  /** What the orchestrator calls: `get_info_from_cep` as a function of the
      code, and the two calculations as functions of the origin and the
      prefix. `Deploy` builds the ones the application uses. */
  datatype Oracles = Oracles(lookup: Resolver, fast: (Point, string) -> Gen, detailed: (Point, string) -> Gen)

  /** Both calculations yield nothing but log events. */
  ghost predicate LogsOnly(o: Oracles) {
    && (forall p, raiz :: AllLogs(o.fast(p, raiz).items))
    && (forall p, raiz :: AllLogs(o.detailed(p, raiz).items))
  }

  /** The fast calculation is the fast scan over the oracle's lookups. */
  ghost predicate FastDeployed(o: Oracles, hav: Haversine, round: Round) {
    forall p, raiz {:trigger FastScan(p, raiz, o.lookup, hav, round)} ::
      o.fast(p, raiz) == FastScan(p, raiz, o.lookup, hav, round)
  }

  /** The detailed calculation is the detailed scan over the oracle's
      lookups, whose lookups complete in the given order. */
  ghost predicate DetailedDeployed(o: Oracles, order: seq<nat>, hav: Haversine, stdev: Stdev, round: Round) {
    && IsPermutation(order, 300)
    && forall p, raiz {:trigger DetailedScan(p, raiz, o.lookup, order, hav, stdev, round)} ::
         o.detailed(p, raiz) == DetailedScan(p, raiz, o.lookup, order, hav, stdev, round)
  }

  /** The oracles are those of a deployment. */
  ghost predicate Deployed(o: Oracles, order: seq<nat>, hav: Haversine, stdev: Stdev, round: Round) {
    FastDeployed(o, hav, round) && DetailedDeployed(o, order, hav, stdev, round)
  }

  /** The application's oracles: lookups answered by `get_info_from_cep`
      over the given services, and the two scans of the scans module over
      those lookups. */
  function Deploy(env: Env, order: seq<nat>, hav: Haversine, stdev: Stdev, round: Round): (o: Oracles)
    requires ValidEnv(env) && IsPermutation(order, 300)
    ensures forall code :: o.lookup(code) == GetInfo(code, env)
    ensures Deployed(o, order, hav, stdev, round)
  {
    var lookup := Resolve(env);
    Oracles(lookup,
            (p: Point, raiz: string) => FastScan(p, raiz, lookup, hav, round),
            (p: Point, raiz: string) => DetailedScan(p, raiz, lookup, order, hav, stdev, round))
  }

  /** The deployed scans yield nothing but log events. */
  lemma DeployedLogsOnly(o: Oracles, order: seq<nat>, hav: Haversine, stdev: Stdev, round: Round)
    requires Deployed(o, order, hav, stdev, round)
    ensures LogsOnly(o)
  {
    forall p, raiz ensures AllLogs(o.fast(p, raiz).items) {
      FastLogs(p, raiz, o.lookup, hav, round);
      assert o.fast(p, raiz) == FastScan(p, raiz, o.lookup, hav, round);
    }
    forall p, raiz ensures AllLogs(o.detailed(p, raiz).items) {
      DetailedScanLogs(p, raiz, o.lookup, order, hav, stdev, round);
    }
  }

  /** `if not lat_partida`: no answer, or a latitude of 0.0, which is falsy. */
  predicate OriginMissing(info: Option<Resolved>) {
    info.None? || info.value.lat == 0.0
  }

  lemma FastLogs(origin: Point, raiz: string, resolve: Resolver, hav: Haversine, round: Round)
    ensures AllLogs(FastScan(origin, raiz, resolve, hav, round).items)
  {
    var g := FastScan(origin, raiz, resolve, hav, round);
    FastScanLogs(origin, raiz, resolve, hav, round);
    forall i | 0 <= i < |g.items|
      ensures g.items[i].Item? && g.items[i].e.Log?
    {
      if i > 0 {
        assert g.items[i] == Item(Log(Processed(2 * i, 10)));
      }
    }
  }

  /** The `partida_info` event, sent first when the current prefix is the initial one. */
  function Opening(q: Query, info: Resolved): (es: seq<Event>)
    ensures |es| <= 1
    ensures |es| == 1 <==> q.raizAtual == q.raizInicial
    ensures |es| == 1 ==> es[0] == PartidaInfo(info.bairro, q.cep, info.lat, info.lon)
  {
    if q.raizAtual == q.raizInicial then [PartidaInfo(info.bairro, q.cep, info.lat, info.lon)] else []
  }

  /** What `calcular_distancias_stream` sends once the origin `info` is
      known and the calculation `g` has been chosen. */
  function Relay(q: Query, info: Resolved, g: Gen): (s: Stream)
    ensures s.aborted.None? <==> LeadingEvents(g.items) < |g.items| || g.end.Returned?
    ensures s.aborted.None? ==> |s.events| > 0 && s.events[|s.events| - 1].Fim?
    ensures q.raizAtual == q.raizInicial ==> |s.events| > 0 && s.events[0] == PartidaInfo(info.bairro, q.cep, info.lat, info.lon)
  {
    var rest := Forward(g);
    Stream(Opening(q, info) + rest.events, rest.aborted)
  }

  /** After the optional `partida_info`, the stream is every log of the
      calculation in order, then `fim` with the rows it returned, or no `fim`
      if it raised. */
  lemma RelayForwards(q: Query, info: Resolved, g: Gen)
    requires AllLogs(g.items)
    ensures var s := Relay(q, info, g);
            var k := if q.raizAtual == q.raizInicial then 1 else 0;
            && |s.events| == k + |g.items| + (if g.end.Returned? then 1 else 0)
            && (k == 1 ==> s.events[0] == PartidaInfo(info.bairro, q.cep, info.lat, info.lon))
            && (forall j :: 0 <= j < |g.items| ==> g.items[j].Item? && s.events[k + j] == g.items[j].e)
            && (g.end.Returned? ==> s.aborted.None? && s.events[k + |g.items|] == Fim(FinalRows(g.end.value)))
            && (g.end.Raised? ==> s.aborted == Some(g.end.e))
  {
    ForwardLogs(g);
    var head, es := Opening(q, info), LogEvents(g.items);
    var s := Relay(q, info, g);
    if g.end.Returned? {
      assert s.events == head + es + [Fim(FinalRows(g.end.value))];
    } else {
      assert s.events == head + es;
    }
    forall j | 0 <= j < |g.items|
      ensures s.events[|head| + j] == g.items[j].e
    {
      assert s.events[|head| + j] == es[j];
    }
  }

  /** The stream of a calculation that yields only logs, as three parts:
      the optional `partida_info`, the logs, and the `fim` unless it raised. */
  lemma RelayParts(q: Query, info: Resolved, g: Gen)
    requires AllLogs(g.items)
    ensures var s := Relay(q, info, g);
            && s.events == Opening(q, info) + LogEvents(g.items) + (if g.end.Returned? then [Fim(FinalRows(g.end.value))] else [])
            && (s.aborted.None? <==> g.end.Returned?)
  {
    ForwardLogs(g);
    if g.end.Returned? {
      assert Opening(q, info) + (LogEvents(g.items) + [Fim(FinalRows(g.end.value))])
             == Opening(q, info) + LogEvents(g.items) + [Fim(FinalRows(g.end.value))];
    } else {
      assert Opening(q, info) + LogEvents(g.items) == Opening(q, info) + LogEvents(g.items) + [];
    }
  }

  /** `calcular_distancias_stream`: a lone `erro` when the origin is not
      found; otherwise the relayed calculation the kind selects, the fast one
      for exactly 'rapida' (the kind is not stripped), the detailed one for
      anything else. */
  function Run(q: Query, o: Oracles): (s: Stream)
    // unless the calculation raised, the stream closes with `fim`, or is the lone `erro`
    ensures s.aborted.None? ==>
              |s.events| > 0 && (s.events[|s.events| - 1].Fim? || s.events == [Erro(OriginNotFound(q.cep))])
    ensures OriginMissing(o.lookup(q.cep)) ==> s.aborted.None? && |s.events| == 1 && s.events[0].Erro?
  {
    var info := o.lookup(q.cep);
    if OriginMissing(info) then Stream([Erro(OriginNotFound(q.cep))], None)
    else
      var origin := Point(info.value.lat, info.value.lon);
      Relay(q, info.value, if q.kind == "rapida" then o.fast(origin, q.raizAtual) else o.detailed(origin, q.raizAtual))
  }

  /** The protocol the browser relies on: a lone `erro` exactly when the
      origin is not found; otherwise `partida_info` first exactly when the
      current prefix is the initial one and nowhere else, no `erro`, and a
      single `fim`, last, present exactly when the calculation did not raise. */
  lemma RunProtocol(q: Query, o: Oracles)
    requires LogsOnly(o)
    ensures var s := Run(q, o);
            && (OriginMissing(o.lookup(q.cep)) <==> s == Stream([Erro(OriginNotFound(q.cep))], None))
            && (!OriginMissing(o.lookup(q.cep)) ==>
                  && (|s.events| > 0 && s.events[0].PartidaInfo? <==> q.raizAtual == q.raizInicial)
                  && (forall i :: 0 <= i < |s.events| ==> !s.events[i].Erro?)
                  && (forall i :: 0 < i < |s.events| ==> !s.events[i].PartidaInfo?)
                  && (s.aborted.None? <==> |s.events| > 0 && s.events[|s.events| - 1].Fim?)
                  && (forall i :: 0 <= i < |s.events| - 1 ==> !s.events[i].Fim?))
  {
    var info := o.lookup(q.cep);
    if !OriginMissing(info) {
      var origin := Point(info.value.lat, info.value.lon);
      var g := if q.kind == "rapida" then o.fast(origin, q.raizAtual) else o.detailed(origin, q.raizAtual);
      assert AllLogs(g.items);
      RelayProtocol(q, info.value, g);
      assert Run(q, o) == Relay(q, info.value, g);
    }
  }

  lemma RelayProtocol(q: Query, info: Resolved, g: Gen)
    requires AllLogs(g.items)
    ensures var s := Relay(q, info, g);
            && (|s.events| > 0 && s.events[0].PartidaInfo? <==> q.raizAtual == q.raizInicial)
            && (forall i :: 0 <= i < |s.events| ==> !s.events[i].Erro?)
            && (forall i :: 0 < i < |s.events| ==> !s.events[i].PartidaInfo?)
            && (s.aborted.None? <==> |s.events| > 0 && s.events[|s.events| - 1].Fim?)
            && (forall i :: 0 <= i < |s.events| - 1 ==> !s.events[i].Fim?)
  {
    RelayParts(q, info, g);
    var tail := if g.end.Returned? then [Fim(FinalRows(g.end.value))] else [];
    assert forall i :: 0 <= i < |g.items| ==> LogEvents(g.items)[i].Log?;
    Layout(Opening(q, info), LogEvents(g.items), tail);
  }

  /** A stream laid out as at most one `partida_info`, then logs, then at
      most one `fim`. */
  lemma Layout(head: seq<Event>, logs: seq<Event>, tail: seq<Event>)
    requires |head| <= 1 && forall i :: 0 <= i < |head| ==> head[i].PartidaInfo?
    requires forall i :: 0 <= i < |logs| ==> logs[i].Log?
    requires |tail| <= 1 && forall i :: 0 <= i < |tail| ==> tail[i].Fim?
    ensures var es := head + logs + tail;
            && (|es| > 0 && es[0].PartidaInfo? <==> |head| == 1)
            && (forall i :: 0 <= i < |es| ==> !es[i].Erro?)
            && (forall i :: 0 < i < |es| ==> !es[i].PartidaInfo?)
            && (|tail| == 1 <==> |es| > 0 && es[|es| - 1].Fim?)
            && (forall i :: 0 <= i < |es| - 1 ==> !es[i].Fim?)
  {
    var es := head + logs + tail;
    forall i | 0 <= i < |es|
      ensures (i < |head| ==> es[i].PartidaInfo?)
              && (|head| <= i < |head| + |logs| ==> es[i] == logs[i - |head|])
              && (|head| + |logs| <= i ==> es[i].Fim?)
    {
      if i >= |head| + |logs| {
        assert es[i] == tail[i - |head| - |logs|];
      }
    }
  }

  /** The fast path of the orchestrator: after the optional `partida_info`,
      the start log, five progress logs and one `fim` carrying exactly one
      row, which is the "no sample" row exactly when none of the ten codes
      resolves. */
  lemma RunFast(q: Query, o: Oracles, hav: Haversine, round: Round)
    requires FastDeployed(o, hav, round)
    requires q.kind == "rapida" && !OriginMissing(o.lookup(q.cep))
    ensures var s := Run(q, o);
            var k := if q.raizAtual == q.raizInicial then 1 else 0;
            && s.aborted.None? && |s.events| == k + 7
            && s.events[k] == Log(FastStarted(q.raizAtual))
            && (forall j :: 1 <= j <= 5 ==> s.events[k + j] == Log(Processed(2 * j, 10)))
            && s.events[k + 6].Fim? && |s.events[k + 6].rows| == 1
            && (s.events[k + 6].rows[0] == ErrorRow(q.raizAtual, NoSample) <==>
                  forall c :: 0 <= c < 10 ==> o.lookup(Sparse(q.raizAtual)[c]).None?)
  {
    var info := o.lookup(q.cep).value;
    var origin := Point(info.lat, info.lon);
    var g := FastScan(origin, q.raizAtual, o.lookup, hav, round);
    assert o.fast(origin, q.raizAtual) == g;
    FastScanLogs(origin, q.raizAtual, o.lookup, hav, round);
    FastScanRow(origin, q.raizAtual, o.lookup, hav, round);
    FastLogs(origin, q.raizAtual, o.lookup, hav, round);
    RelayForwards(q, info, g);
  }

  /** The row the fast path sends in its `fim` has `ceps_consultados` equal
      to the number of the ten codes that resolved. */
  lemma RunFastCount(q: Query, o: Oracles, hav: Haversine, round: Round)
    requires FastDeployed(o, hav, round)
    requires q.kind == "rapida" && !OriginMissing(o.lookup(q.cep))
    ensures var s := Run(q, o);
            var k := if q.raizAtual == q.raizInicial then 1 else 0;
            && |s.events| == k + 7 && s.events[k + 6].Fim? && |s.events[k + 6].rows| == 1
            && s.events[k + 6].rows[0].sampled == ResolvedCount(Sparse(q.raizAtual), o.lookup)
  {
    var info := o.lookup(q.cep).value;
    var origin := Point(info.lat, info.lon);
    var g := FastScan(origin, q.raizAtual, o.lookup, hav, round);
    assert o.fast(origin, q.raizAtual) == g;
    FastScanLogs(origin, q.raizAtual, o.lookup, hav, round);
    FastScanCount(origin, q.raizAtual, o.lookup, hav, round);
    FastLogs(origin, q.raizAtual, o.lookup, hav, round);
    RelayForwards(q, info, g);
  }

  /** What the stream shows of a calculation that opens like the detailed
      scan: the start log and the thirty progress logs after the optional
      `partida_info`, and a last event that is `fim` with `rows` exactly when
      the calculation returned `rows`. */
  lemma RelayDetailed(q: Query, info: Resolved, g: Gen, rows: seq<Row>)
    requires |rows| > 0
    requires AllLogs(g.items) && |g.items| >= 31
    requires g.items[0] == Item(Log(ScanStarted(q.raizAtual)))
    requires forall j :: 1 <= j <= 30 ==> g.items[j] == Item(Log(Verified(10 * j, 300)))
    ensures var s := Relay(q, info, g);
            var k := if q.raizAtual == q.raizInicial then 1 else 0;
            && |s.events| >= k + 31
            && s.events[k] == Log(ScanStarted(q.raizAtual))
            && (forall j :: 1 <= j <= 30 ==> s.events[k + j] == Log(Verified(10 * j, 300)))
            && ((s.aborted.None? && s.events[|s.events| - 1] == Fim(rows)) <==> g.end == Returned(Some(rows)))
  {
    RelayForwards(q, info, g);
  }

  /** The detailed path of the orchestrator: after the optional
      `partida_info`, the start log and the thirty progress logs; the stream
      closes on the "no valid code" row exactly when none of the 300 sampled
      codes resolves. */
  lemma RunDetailed(q: Query, o: Oracles, order: seq<nat>, hav: Haversine, stdev: Stdev, round: Round)
    requires DetailedDeployed(o, order, hav, stdev, round)
    requires q.kind != "rapida" && !OriginMissing(o.lookup(q.cep))
    ensures var s := Run(q, o);
            var k := if q.raizAtual == q.raizInicial then 1 else 0;
            && |s.events| >= k + 31
            && s.events[k] == Log(ScanStarted(q.raizAtual))
            && (forall j :: 1 <= j <= 30 ==> s.events[k + j] == Log(Verified(10 * j, 300)))
            && ((s.aborted.None? && s.events[|s.events| - 1] == Fim([ErrorRow(q.raizAtual, NoValidCep)])) <==>
                  forall c :: 0 <= c < 300 ==> o.lookup(Dense(q.raizAtual)[c]).None?)
  {
    var info := o.lookup(q.cep).value;
    var origin := Point(info.lat, info.lon);
    var g := o.detailed(origin, q.raizAtual);
    assert Run(q, o) == Relay(q, info, g);
    DetailedFacts(o, order, hav, stdev, round, origin, q.raizAtual);
    RelayDetailed(q, info, g, [ErrorRow(q.raizAtual, NoValidCep)]);
  }

  /** What the scans module proves about the detailed scan, for the
      deployed detailed calculation. */
  lemma DetailedFacts(o: Oracles, order: seq<nat>, hav: Haversine, stdev: Stdev, round: Round,
                      origin: Point, raiz: string)
    requires DetailedDeployed(o, order, hav, stdev, round)
    ensures var g := o.detailed(origin, raiz);
            && AllLogs(g.items) && |g.items| >= 31
            && g.items[0] == Item(Log(ScanStarted(raiz)))
            && (forall j :: 1 <= j <= 30 ==> g.items[j] == Item(Log(Verified(10 * j, 300))))
            && (g.end == Returned(Some([ErrorRow(raiz, NoValidCep)])) <==>
                  forall c :: 0 <= c < 300 ==> o.lookup(Dense(raiz)[c]).None?)
  {
    assert o.detailed(origin, raiz) == DetailedScan(origin, raiz, o.lookup, order, hav, stdev, round);
    DetailedScanProgress(origin, raiz, o.lookup, order, hav, stdev, round);
    DetailedScanNoSample(origin, raiz, o.lookup, order, hav, stdev, round);
    DetailedScanLogs(origin, raiz, o.lookup, order, hav, stdev, round);
  }

  // ----- the route -----

  /** `request.args.get(k, default)`. */
  function Arg(args: map<string, string>, k: string, default: string): (v: string)
    ensures k in args ==> v == args[k]
    ensures k !in args ==> v == default
  {
    if k in args then args[k] else default
  }

  /** Some parameter is missing or empty after stripping; `tipo_consulta` is
      not stripped and defaults to 'detalhada'. */
  predicate Incomplete(args: map<string, string>) {
    || Blank(Arg(args, "cep_partida", ""))
    || Blank(Arg(args, "raiz_inicial", ""))
    || Blank(Arg(args, "raiz_atual", ""))
    || Arg(args, "tipo_consulta", "detalhada") == ""
  }

  /** The query the route hands to the orchestrator. */
  function QueryOf(args: map<string, string>): Query {
    Query(Strip(Arg(args, "cep_partida", "")), Strip(Arg(args, "raiz_inicial", "")),
          Strip(Arg(args, "raiz_atual", "")), Arg(args, "tipo_consulta", "detalhada"))
  }

  /** `stream_calculo`: a single `erro` when a parameter is missing, and the
      orchestrator's stream for the stripped parameters otherwise. */
  function StreamCalculo(args: map<string, string>, o: Oracles): (s: Stream)
    ensures Incomplete(args) ==> s == Stream([Erro(MissingParameters)], None)
    ensures !Incomplete(args) ==>
              && s == Run(QueryOf(args), o)
              && |QueryOf(args).cep| > 0 && |QueryOf(args).raizInicial| > 0 && |QueryOf(args).raizAtual| > 0
  {
    var q := QueryOf(args);
    StripEmptyIffBlank(Arg(args, "cep_partida", ""));
    StripEmptyIffBlank(Arg(args, "raiz_inicial", ""));
    StripEmptyIffBlank(Arg(args, "raiz_atual", ""));
    if q.cep == [] || q.raizInicial == [] || q.raizAtual == [] || q.kind == [] then
      Stream([Erro(MissingParameters)], None)
    else
      Run(q, o)
  }

  /** With calculations that only log, the "missing parameters" error is
      sent exactly when a parameter is missing. */
  lemma MissingParametersIff(args: map<string, string>, o: Oracles)
    requires LogsOnly(o)
    ensures StreamCalculo(args, o) == Stream([Erro(MissingParameters)], None) <==> Incomplete(args)
  {
    RunProtocol(QueryOf(args), o);
  }

  /** A request without `tipo_consulta` runs the detailed scan: once the
      origin is found, its stream opens (after the optional `partida_info`)
      with the detailed scan's start log. */
  lemma DefaultIsDetailed(args: map<string, string>, o: Oracles, order: seq<nat>, hav: Haversine,
                          stdev: Stdev, round: Round)
    requires DetailedDeployed(o, order, hav, stdev, round)
    requires "tipo_consulta" !in args && !Incomplete(args)
    requires !OriginMissing(o.lookup(QueryOf(args).cep))
    ensures var s := StreamCalculo(args, o);
            var k := if QueryOf(args).raizAtual == QueryOf(args).raizInicial then 1 else 0;
            |s.events| > k && s.events[k] == Log(ScanStarted(QueryOf(args).raizAtual))
  {
    var q := QueryOf(args);
    assert q.kind == "detalhada";
    RunDetailed(q, o, order, hav, stdev, round);
  }
}
