/** `calcular_distancias_stream` of logic/calculadora.py: the older stream that
    probes 300 codes per prefix through the round-robin lookup, reports one
    progress log per code, and averages the distances per neighbourhood. */
module LegacyStream {
  import opened Wrappers
  import opened PyJson
  import opened Text
  import opened Digits
  import opened Seqs
  import opened Geo
  import opened Grouping
  import opened Sampler
  import opened Providers
  import opened CepLookup
  import opened Collect

  /** The message of one progress log. */
  datatype Message = Located(cep: string, place: Json, km: real) | NotLocated(cep: string)

  /** A result row: prefix, neighbourhood, rounded mean distance, time, and the
      group's codes joined by ", ". */
  datatype LegacyRow = LegacyRow(raiz: string, place: Json, distance: real, minutes: real, ceps: string)

  datatype LegacyEvent =
    | Progress(msg: Message, percent: real)   // {'tipo': 'log', 'msg', 'progresso'}
    | OriginError                             // 'Erro: CEP de partida inválido ou não encontrado.'
    | Finished(rows: seq<LegacyRow>)          // {'tipo': 'fim', 'resultados', 'download_link'}

  /** A located code of the current prefix. */
  datatype Hit = Hit(place: Json, km: real, cep: string)

  datatype Counters = Counters(processed: nat, success: nat, failure: nat)

  /** `ceps_sucesso + ceps_falha == ceps_processados`. */
  predicate Balanced(c: Counters) {
    c.success + c.failure == c.processed
  }

  /** The loop state: the shared cycle cursor, the counters, and the hits of
      the current prefix. */
  datatype State = State(cursor: nat, counters: Counters, hits: seq<Hit>)

  /** The state reached, the events yielded on the way, and the exception that
      ended the run if one did. */
  datatype Run = Run(state: State, events: seq<LegacyEvent>, raised: Option<Exc>)

  /** What the loops need: the origin, the total behind the percentage, the
      codes of a prefix, the lookup (cursor, lookup number and code to its
      result), the distance and `round`. */
  datatype Ctx = Ctx(origin: Point, total: int, codes: int -> seq<string>,
                     lookup: (nat, nat, string) -> Lookup, hav: Haversine, round: Round)

  /** Only hashable values can be dict keys; lists and dicts raise TypeError. */
  predicate Hashable(v: Json) {
    !v.Arr? && !v.Obj?
  }

  /** `round(processed / total * 100, 2)`. */
  function Percent(n: nat, ctx: Ctx): real
    requires ctx.total > 0
  {
    ctx.round(n as real / ctx.total as real * 100.0, 2)
  }

  /** `es` are progress logs for the codes processed after the first `p`:
      the `k`-th carries the percentage of `p + k + 1` codes. */
  predicate ProgressFrom(es: seq<LegacyEvent>, p: nat, ctx: Ctx)
    requires ctx.total > 0
  {
    forall k :: 0 <= k < |es| ==> es[k].Progress? && es[k].percent == Percent(p + k + 1, ctx)
  }

  lemma ProgressConcat(a: seq<LegacyEvent>, b: seq<LegacyEvent>, p: nat, ctx: Ctx)
    requires ctx.total > 0
    requires ProgressFrom(a, p, ctx) && ProgressFrom(b, p + |a|, ctx)
    ensures ProgressFrom(a + b, p, ctx)
  {
    forall k | 0 <= k < |a + b|
      ensures (a + b)[k].Progress? && (a + b)[k].percent == Percent(p + k + 1, ctx)
    {
      if k >= |a| {
        assert (a + b)[k] == b[k - |a|];
      }
    }
  }

  /** The `k`-th log names the `k`-th code. */
  predicate NamesCodes(es: seq<LegacyEvent>, codes: seq<string>) {
    && |es| == |codes|
    && forall k :: 0 <= k < |es| ==> es[k].Progress? && es[k].msg.cep == codes[k]
  }

  /** One code: count it, look it up, count a success or a failure, and log it.
      An exception from the lookup, or a neighbourhood that cannot be a dict key,
      ends the run before the log. */
  function CodeStep(st: State, code: string, ctx: Ctx): (r: Run)
    requires ctx.total > 0
    // the outcome is the lookup's: `if lat2 and lon2` decides success or failure
    ensures var n, c := st.counters.processed + 1, st.counters;
            var look := ctx.lookup(st.cursor, n, code);
            var o := look.outcome;
            && r.state.cursor == look.cursor
            && (o.Raised? ==> r.raised == Some(o.e) && r.state.counters == Counters(n, c.success, c.failure))
            && (o.Found? && o.lat != 0.0 && o.lon != 0.0 ==>
                  && r.state.counters == Counters(n, c.success + 1, c.failure)
                  && (Hashable(o.bairro) ==>
                        && r.raised.None?
                        && r.events == [Progress(Located(code, o.bairro, ctx.round(Km(ctx.hav, ctx.origin, Point(o.lat, o.lon)), 2)),
                                                 Percent(n, ctx))])
                  && (!Hashable(o.bairro) ==> r.raised == Some(TypeError)))
            && (!o.Raised? && !(o.Found? && o.lat != 0.0 && o.lon != 0.0) ==>
                  && r.raised.None? && r.events == [Progress(NotLocated(code), Percent(n, ctx))]
                  && r.state.counters == Counters(n, c.success, c.failure + 1))
    ensures r.raised.Some? ==> r.events == []
    ensures Accounts(r, st, [code], ctx)
    ensures r.raised.None? && r.events[0].msg.Located? ==>
              r.state.hits == st.hits + [Hit(r.events[0].msg.place, r.events[0].msg.km, code)]
              && Hashable(r.events[0].msg.place)
    ensures r.raised.None? && r.events[0].msg.NotLocated? ==> r.state.hits == st.hits
  {
    var n := st.counters.processed + 1;
    var look := ctx.lookup(st.cursor, n, code);
    var c := st.counters;
    if look.outcome.Raised? then
      Run(State(look.cursor, Counters(n, c.success, c.failure), st.hits), [], Some(look.outcome.e))
    // `if lat2 and lon2`
    else if look.outcome.Found? && look.outcome.lat != 0.0 && look.outcome.lon != 0.0 then
      var place := look.outcome.bairro;
      var km := ctx.round(Km(ctx.hav, ctx.origin, Point(look.outcome.lat, look.outcome.lon)), 2);
      if !Hashable(place) then
        Run(State(look.cursor, Counters(n, c.success + 1, c.failure), st.hits), [], Some(TypeError))
      else
        var ev := Progress(Located(code, place, km), Percent(n, ctx));
        Run(State(look.cursor, Counters(n, c.success + 1, c.failure), st.hits + [Hit(place, km, code)]), [ev], None)
    else
      var ev := Progress(NotLocated(code), Percent(n, ctx));
      Run(State(look.cursor, Counters(n, c.success, c.failure + 1), st.hits), [ev], None)
  }

  lemma NamesConcat(a: seq<LegacyEvent>, b: seq<LegacyEvent>, codes: seq<string>)
    requires |codes| > 0 && NamesCodes(a, [codes[0]]) && NamesCodes(b, codes[1..])
    ensures NamesCodes(a + b, codes)
  {
    forall k | 0 <= k < |a + b|
      ensures (a + b)[k].Progress? && (a + b)[k].msg.cep == codes[k]
    {
      if k >= 1 {
        assert (a + b)[k] == b[k - 1];
      }
    }
  }

  function PlaceOf(h: Hit): Json {
    h.place
  }

  function Kms(hs: seq<Hit>): (ds: seq<real>)
    ensures |ds| == |hs| && forall i :: 0 <= i < |hs| ==> ds[i] == hs[i].km
  {
    seq(|hs|, i requires 0 <= i < |hs| => hs[i].km)
  }

  function Ceps(hs: seq<Hit>): (cs: seq<string>)
    ensures |cs| == |hs| && forall i :: 0 <= i < |hs| ==> cs[i] == hs[i].cep
  {
    seq(|hs|, i requires 0 <= i < |hs| => hs[i].cep)
  }

  /** The row of one neighbourhood of prefix `raiz`. */
  function GroupRow(raiz: string, g: Group<Json, Hit>, round: Round): (row: LegacyRow)
    requires |g.members| > 0
    ensures row.raiz == raiz && row.place == g.key
    ensures row.distance == round(Mean(Kms(g.members)), 2)
    ensures row.minutes == round(row.distance * 2.0, 1)
    ensures row.ceps == Join(Ceps(g.members), ", ")
  {
    var media := round(Mean(Kms(g.members)), 2);
    LegacyRow(raiz, g.key, media, round(media * 2.0, 1), Join(Ceps(g.members), ", "))
  }

  /** The rows of one prefix, one per neighbourhood in first-seen order. */
  function PrefixRows(raiz: string, hits: seq<Hit>, round: Round): (rows: seq<LegacyRow>)
    ensures var gs := GroupBy(hits, PlaceOf);
            |rows| == |gs| && forall i :: 0 <= i < |gs| ==> rows[i] == GroupRow(raiz, gs[i], round)
  {
    var gs := GroupBy(hits, PlaceOf);
    seq(|gs|, i requires 0 <= i < |gs| => GroupRow(raiz, gs[i], round))
  }

  /** Each row of a prefix averages the distances of exactly the hits with its
      neighbourhood and lists their codes in the order they were probed. */
  lemma PrefixRowsFaithful(raiz: string, hits: seq<Hit>, round: Round, i: nat)
    requires i < |PrefixRows(raiz, hits, round)|
    ensures var row := PrefixRows(raiz, hits, round)[i];
            var hs := WithKey(hits, PlaceOf, row.place);
            |hs| > 0 && row == GroupRow(raiz, Group(row.place, hs), round)
  {
    var gs := GroupBy(hits, PlaceOf);
    var row := PrefixRows(raiz, hits, round)[i];
    assert row == GroupRow(raiz, gs[i], round);
    assert gs[i].members == WithKey(hits, PlaceOf, row.place);
  }

  /** No neighbourhood has two rows in a prefix, and every hit's neighbourhood has one. */
  lemma PrefixRowsOnePerPlace(raiz: string, hits: seq<Hit>, round: Round)
    ensures var rows := PrefixRows(raiz, hits, round);
            && (forall i, j :: 0 <= i < j < |rows| ==> rows[i].place != rows[j].place)
            && (forall k :: 0 <= k < |hits| ==> exists i :: 0 <= i < |rows| && rows[i].place == hits[k].place)
  {
    var gs := GroupBy(hits, PlaceOf);
    var rows := PrefixRows(raiz, hits, round);
    forall i, j | 0 <= i < j < |rows|
      ensures rows[i].place != rows[j].place
    {
      assert rows[i].place == gs[i].key && rows[j].place == gs[j].key;
    }
    forall k | 0 <= k < |hits|
      ensures exists i :: 0 <= i < |rows| && rows[i].place == hits[k].place
    {
      assert HasGroup(gs, PlaceOf(hits[k]));
      var i :| 0 <= i < |gs| && gs[i].key == PlaceOf(hits[k]);
      assert rows[i].place == hits[k].place;
    }
  }

  /** The hits a sequence of progress logs reports: one per `Located` log, in order. */
  function HitsOf(es: seq<LegacyEvent>): seq<Hit>
    decreases |es|
  {
    if |es| == 0 then []
    else
      (if es[0].Progress? && es[0].msg.Located? then [Hit(es[0].msg.place, es[0].msg.km, es[0].msg.cep)] else [])
      + HitsOf(es[1..])
  }

  /** The rows the prefixes `a .. b` give from their progress logs `es`: the
      first `|codes(a)|` logs belong to prefix `a`, whose rows group the hits
      among them; the rest belong to the following prefixes. */
  function PlanRows(es: seq<LegacyEvent>, codes: int -> seq<string>, a: int, b: int, round: Round): seq<LegacyRow>
    decreases Span(a, b)
  {
    if a > b then []
    else
      var n := if |codes(a)| <= |es| then |codes(a)| else |es|;
      PrefixRows(IntToString(a), HitsOf(es[..n]), round) + PlanRows(es[n..], codes, a + 1, b, round)
  }

  /** The result of the prefix loop: the run, and the rows gathered. */
  datatype Sweep = Sweep(run: Run, rows: seq<LegacyRow>)

  /** `len(range(raiz, last + 1))`. */
  function Span(raiz: int, last: int): nat {
    if raiz <= last then last - raiz + 1 else 0
  }

  /** The codes probed for the prefixes `raiz .. last`, in the order of the loops. */
  function Planned(codes: int -> seq<string>, raiz: int, last: int): seq<string>
    decreases Span(raiz, last)
  {
    if raiz > last then [] else codes(raiz) + Planned(codes, raiz + 1, last)
  }

  /** With 300 codes per prefix, the plan has 300 codes per prefix of the range. */
  lemma {:induction false} PlannedLength(codes: int -> seq<string>, raiz: int, last: int)
    requires forall p :: raiz <= p <= last ==> |codes(p)| == 300
    ensures |Planned(codes, raiz, last)| == 300 * Span(raiz, last)
    decreases Span(raiz, last)
  {
    if raiz <= last {
      PlannedLength(codes, raiz + 1, last);
    }
  }

  /** `for raiz in range(raiz, last + 1)` with its inner loops: `todo` are the
      codes of prefix `raiz` still to probe and `st.hits` its hits so far; when
      `todo` runs out the prefix's rows are built and the next prefix starts
      with an empty dict. */
  function Scan(raiz: int, last: int, todo: seq<string>, st: State, ctx: Ctx): (r: Sweep)
    requires ctx.total > 0
    requires raiz > last ==> todo == []
    ensures Accounts(r.run, st, todo + Planned(ctx.codes, raiz + 1, last), ctx)
    decreases Span(raiz, last), |todo|
  {
    if raiz > last then Sweep(Run(st, [], None), [])
    else if |todo| == 0 then
      var rows := PrefixRows(IntToString(raiz), st.hits, ctx.round);
      var next := if raiz + 1 <= last then ctx.codes(raiz + 1) else [];
      var rest := Scan(raiz + 1, last, next, State(st.cursor, st.counters, []), ctx);
      assert next + Planned(ctx.codes, raiz + 2, last) == todo + Planned(ctx.codes, raiz + 1, last);
      Sweep(rest.run, rows + rest.rows)
    else
      var r := CodeStep(st, todo[0], ctx);
      if r.raised.Some? then Sweep(r, [])
      else
        var rest := Scan(raiz, last, todo[1..], r.state, ctx);
        var planned := todo + Planned(ctx.codes, raiz + 1, last);
        DropFirst(todo, Planned(ctx.codes, raiz + 1, last));
        AccountsCons(st, r, rest.run, planned, ctx);
        Sweep(Run(rest.run.state, r.events + rest.run.events, rest.run.raised), rest.rows)
  }

  /** Dropping the first element of `a + b` drops it from `a`. */
  lemma DropFirst<T>(a: seq<T>, b: seq<T>)
    requires |a| > 0
    ensures (a + b)[1..] == a[1..] + b
  {
  }

  /** The hits of a code that did not raise are those its single log reports. */
  lemma CodeStepHits(st: State, code: string, ctx: Ctx)
    requires ctx.total > 0 && CodeStep(st, code, ctx).raised.None?
    ensures var c := CodeStep(st, code, ctx);
            |c.events| == 1 && c.state.hits == st.hits + HitsOf(c.events)
  {
    var c := CodeStep(st, code, ctx);
    assert c.events[0].msg.cep == code;
    assert c.events[1..] == [];
  }

  /** A single log's hits, then the rest's. */
  lemma HitsOfConcat(a: seq<LegacyEvent>, b: seq<LegacyEvent>)
    requires |a| == 1
    ensures HitsOf(a + b) == HitsOf(a) + HitsOf(b)
  {
    assert (a + b)[1..] == b && a[1..] == [];
  }

  /** One more probed code: its log joins the current prefix's logs. */
  lemma StepRows(raiz: int, last: int, codes: int -> seq<string>, round: Round,
                 hits0: seq<Hit>, hits1: seq<Hit>, e: seq<LegacyEvent>, ev1: seq<LegacyEvent>, n: nat)
    requires |e| == 1 && hits1 == hits0 + HitsOf(e) && 1 <= n && n - 1 <= |ev1|
    ensures PrefixRows(IntToString(raiz), hits1 + HitsOf(ev1[..n - 1]), round)
              + PlanRows(ev1[n - 1..], codes, raiz + 1, last, round)
            == PrefixRows(IntToString(raiz), hits0 + HitsOf((e + ev1)[..n]), round)
              + PlanRows((e + ev1)[n..], codes, raiz + 1, last, round)
  {
    assert (e + ev1)[..n] == e + ev1[..n - 1];
    assert (e + ev1)[n..] == ev1[n - 1..];
    HitsOfConcat(e, ev1[..n - 1]);
    assert hits0 + HitsOf(e + ev1[..n - 1]) == hits1 + HitsOf(ev1[..n - 1]);
  }

  /** `StepRows` for a sweep whose events are one log followed by those of `rest`. */
  lemma StepCombine(r: Sweep, rest: Sweep, e: seq<LegacyEvent>, hits0: seq<Hit>, hits1: seq<Hit>,
                    raiz: int, last: int, codes: int -> seq<string>, round: Round, n: nat)
    requires |e| == 1 && hits1 == hits0 + HitsOf(e) && 1 <= n
    requires r.run.events == e + rest.run.events && r.rows == rest.rows
    requires n - 1 <= |rest.run.events|
    requires rest.rows == PrefixRows(IntToString(raiz), hits1 + HitsOf(rest.run.events[..n - 1]), round)
                          + PlanRows(rest.run.events[n - 1..], codes, raiz + 1, last, round)
    ensures n <= |r.run.events|
    ensures r.rows == PrefixRows(IntToString(raiz), hits0 + HitsOf(r.run.events[..n]), round)
                      + PlanRows(r.run.events[n..], codes, raiz + 1, last, round)
  {
    StepRows(raiz, last, codes, round, hits0, hits1, e, rest.run.events, n);
  }

  /** The end of a prefix: its rows, then those of the prefixes after it. */
  lemma BoundaryRows(raiz: int, last: int, codes: int -> seq<string>, round: Round,
                     hits: seq<Hit>, ev: seq<LegacyEvent>, next: seq<string>, rows1: seq<LegacyRow>)
    requires raiz <= last
    requires raiz + 1 <= last ==>
               && next == codes(raiz + 1) && |next| <= |ev|
               && rows1 == PrefixRows(IntToString(raiz + 1), [] + HitsOf(ev[..|next|]), round)
                           + PlanRows(ev[|next|..], codes, raiz + 2, last, round)
    requires raiz + 1 > last ==> rows1 == []
    ensures PrefixRows(IntToString(raiz), hits, round) + rows1
            == PrefixRows(IntToString(raiz), hits + HitsOf(ev[..0]), round) + PlanRows(ev[0..], codes, raiz + 1, last, round)
  {
    assert ev[..0] == [] && ev[0..] == ev && hits + [] == hits;
    if raiz + 1 <= last {
      assert [] + HitsOf(ev[..|next|]) == HitsOf(ev[..|next|]);
    }
  }

  /** The rows a scan that raised nothing gathers: the rows of prefix `raiz`
      group the hits it already had with those of the logs for `todo`, and
      each later prefix's rows group the hits of its own logs. */
  lemma {:induction false} ScanRows(raiz: int, last: int, todo: seq<string>, st: State, ctx: Ctx)
    requires ctx.total > 0
    requires raiz > last ==> todo == []
    ensures RowsOfScan(raiz, last, todo, st, ctx)
    decreases Span(raiz, last), |todo|, 1
  {
    if raiz <= last {
      if |todo| == 0 {
        ScanRowsBoundary(raiz, last, st, ctx);
      } else {
        ScanRowsStep(raiz, last, todo, st, ctx);
      }
    }
  }

  /** What `ScanRows` states about one scan. */
  predicate RowsOfScan(raiz: int, last: int, todo: seq<string>, st: State, ctx: Ctx)
    requires ctx.total > 0
    requires raiz > last ==> todo == []
  {
    var r := Scan(raiz, last, todo, st, ctx);
    r.run.raised.None? ==>
      && |todo| <= |r.run.events|
      && r.rows == (if raiz > last then []
                    else PrefixRows(IntToString(raiz), st.hits + HitsOf(r.run.events[..|todo|]), ctx.round)
                         + PlanRows(r.run.events[|todo|..], ctx.codes, raiz + 1, last, ctx.round))
  }

  /** `ScanRows` where prefix `raiz` has no code left. */
  lemma {:induction false} ScanRowsBoundary(raiz: int, last: int, st: State, ctx: Ctx)
    requires ctx.total > 0 && raiz <= last
    ensures RowsOfScan(raiz, last, [], st, ctx)
    decreases Span(raiz, last), 0, 0
  {
    var r := Scan(raiz, last, [], st, ctx);
    if r.run.raised.None? {
      var next := if raiz + 1 <= last then ctx.codes(raiz + 1) else [];
      var st1 := State(st.cursor, st.counters, []);
      var rest := Scan(raiz + 1, last, next, st1, ctx);
      ScanRows(raiz + 1, last, next, st1, ctx);
      assert r.run.events == rest.run.events && r.rows == PrefixRows(IntToString(raiz), st.hits, ctx.round) + rest.rows;
      BoundaryRows(raiz, last, ctx.codes, ctx.round, st.hits, r.run.events, next, rest.rows);
    }
  }

  /** One step of `Scan` on prefix `raiz`: the code's log, then the rest of the scan. */
  lemma ScanStepEq(raiz: int, last: int, todo: seq<string>, st: State, ctx: Ctx)
    requires ctx.total > 0 && raiz <= last && |todo| > 0
    ensures var r, c := Scan(raiz, last, todo, st, ctx), CodeStep(st, todo[0], ctx);
            r.run.raised.None? ==>
              var rest := Scan(raiz, last, todo[1..], c.state, ctx);
              && c.raised.None? && rest.run.raised.None?
              && r.run.events == c.events + rest.run.events && r.rows == rest.rows
  {
  }

  /** `ScanRows` where prefix `raiz` still has `todo` to probe. */
  lemma {:induction false} ScanRowsStep(raiz: int, last: int, todo: seq<string>, st: State, ctx: Ctx)
    requires ctx.total > 0 && raiz <= last && |todo| > 0
    ensures RowsOfScan(raiz, last, todo, st, ctx)
    decreases Span(raiz, last), |todo|, 0
  {
    ScanRows(raiz, last, todo[1..], CodeStep(st, todo[0], ctx).state, ctx);
    StepFacts(raiz, last, todo, st, ctx);
  }

  /** The rows of a scan follow from those of the scan after its first code. */
  lemma StepFacts(raiz: int, last: int, todo: seq<string>, st: State, ctx: Ctx)
    requires ctx.total > 0 && raiz <= last && |todo| > 0
    requires RowsOfScan(raiz, last, todo[1..], CodeStep(st, todo[0], ctx).state, ctx)
    ensures RowsOfScan(raiz, last, todo, st, ctx)
  {
    var r := Scan(raiz, last, todo, st, ctx);
    ScanStepEq(raiz, last, todo, st, ctx);
    if r.run.raised.None? {
      var c := CodeStep(st, todo[0], ctx);
      var rest := Scan(raiz, last, todo[1..], c.state, ctx);
      CodeStepHits(st, todo[0], ctx);
      StepCombine(r, rest, c.events, st.hits, c.state.hits, raiz, last, ctx.codes, ctx.round, |todo|);
    }
  }

  /** If `run` raised nothing, it probed exactly `planned` from `st`: one
      counted code and one progress log per planned code, in order. */
  predicate Accounts(run: Run, st: State, planned: seq<string>, ctx: Ctx)
    requires ctx.total > 0
  {
    run.raised.None? ==>
      && run.state.counters.processed == st.counters.processed + |planned|
      && run.state.counters.success + run.state.counters.failure ==
           st.counters.success + st.counters.failure + |planned|
      && NamesCodes(run.events, planned)
      && ProgressFrom(run.events, st.counters.processed, ctx)
  }

  /** One probed code followed by the rest of the plan accounts for the whole plan. */
  lemma AccountsCons(st: State, r: Run, rest: Run, planned: seq<string>, ctx: Ctx)
    requires ctx.total > 0 && |planned| > 0
    requires r.raised.None? && Accounts(r, st, [planned[0]], ctx)
    requires Accounts(rest, r.state, planned[1..], ctx)
    ensures Accounts(Run(rest.state, r.events + rest.events, rest.raised), st, planned, ctx)
  {
    if rest.raised.None? {
      ProgressConcat(r.events, rest.events, st.counters.processed, ctx);
      NamesConcat(r.events, rest.events, planned);
    }
  }

  /** The answers the `n`-th lookup of a run sees. */
  function Answers(fetch: (nat, string) -> Option<Json>, n: nat): string -> Option<Json> {
    (url: string) => fetch(n, url)
  }

  /** The lookup of the stream: `get_coord_from_cep` on the shared cycle. */
  function CycleLookup(fetch: (nat, string) -> Option<Json>, parse: string -> Option<real>): (look: (nat, nat, string) -> Lookup)
    // each lookup asks one to four services and leaves the shared cursor just after the last one asked
    ensures forall c: nat, n: nat, code: string :: CycleStep(look(c, n, code), c, n, code, fetch, parse)
  {
    assert forall c: nat, n: nat, code: string :: CycleStep(GetCoord(c % |Apis|, code, Answers(fetch, n), parse), c, n, code, fetch, parse) by {
      forall c: nat, n: nat, code: string
        ensures CycleStep(GetCoord(c % |Apis|, code, Answers(fetch, n), parse), c, n, code, fetch, parse)
      {
        CycleStepHolds(c, n, code, fetch, parse);
      }
    }
    (c: nat, n: nat, code: string) => GetCoord(c % |Apis|, code, Answers(fetch, n), parse)
  }

  /** The lookup from the shared cursor `c` starts at service `c % 4`. */
  lemma CycleStepHolds(c: nat, n: nat, code: string, fetch: (nat, string) -> Option<Json>, parse: string -> Option<real>)
    ensures CycleStep(GetCoord(c % |Apis|, code, Answers(fetch, n), parse), c, n, code, fetch, parse)
  {
    var look := GetCoord(c % |Apis|, code, Answers(fetch, n), parse);
    NotFoundMeansEveryServiceSkipped(c % |Apis|, code, Answers(fetch, n), parse);
    ModShift(c, look.attempts);
  }

  lemma ModShift(c: nat, k: nat)
    ensures (c % |Apis| + k) % |Apis| == (c + k) % |Apis|
  {
  }

  /** What the lookup from cursor `c` promises its caller. */
  predicate CycleStep(look: Lookup, c: nat, n: nat, code: string,
                      fetch: (nat, string) -> Option<Json>, parse: string -> Option<real>) {
    && 1 <= look.attempts <= |Apis|
    && look.cursor == (c + look.attempts) % |Apis|
    && (look.outcome.Skipped? <==>
          forall p :: 0 <= p < |Apis| ==> Interpret(fetch(n, Url(Apis[p], code)), parse).Skipped?)
  }

  /** A complete run of the stream: what it yielded, the exception that ended
      it if any, the final counters, and where it left the shared cycle cursor. */
  datatype LegacyRun = LegacyRun(events: seq<LegacyEvent>, raised: Option<Exc>, counters: Counters, cursor: nat)

  /** The `k`-th event reports `round((k + 1) / total * 100, 2)`. */
  predicate Percentages(es: seq<LegacyEvent>, total: int, round: Round)
    requires total > 0
  {
    forall k :: 0 <= k < |es| ==> es[k].Progress? && es[k].percent == round((k + 1) as real / total as real * 100.0, 2)
  }

  /** How a run that got past the origin ends, given the prefixes `a .. b`:
      nothing to do for an empty range; otherwise one progress log per planned
      code, in order, with balanced counters, then a single `fim`. */
  predicate Completed(r: LegacyRun, codes: int -> seq<string>, a: int, b: int, round: Round) {
    if a > b then r.events == [Finished([])]
    else
      var total := (b - a + 1) * 300;
      && |r.events| == total + 1
      && NamesCodes(r.events[..total], Planned(codes, a, b))
      && Percentages(r.events[..total], total, round)
      && r.events[total].Finished?
      && r.counters.processed == total && Balanced(r.counters)
  }

  /** The `fim` of a completed run over the prefixes `a .. b` carries, prefix by
      prefix, the neighbourhood rows of the codes its logs report as located. */
  predicate RowsReported(r: LegacyRun, codes: int -> seq<string>, a: int, b: int, round: Round) {
    var total := if a <= b then (b - a + 1) * 300 else 0;
    && total < |r.events| && r.events[total].Finished?
    && r.events[total].rows == PlanRows(r.events[..total], codes, a, b, round)
  }

  /** A scan of the whole range that raised nothing, followed by `fim`, is a completed run. */
  lemma ScanCompleted(a: int, b: int, ctx: Ctx, run: Run, rows: seq<LegacyRow>, r: LegacyRun)
    requires a <= b && ctx.total == (b - a + 1) * 300
    requires |ctx.codes(a)| == 300
    requires run.raised.None?
    requires Accounts(run, State(run.state.cursor, Counters(0, 0, 0), []), ctx.codes(a) + Planned(ctx.codes, a + 1, b), ctx)
    requires |Planned(ctx.codes, a, b)| == ctx.total
    requires r == LegacyRun(run.events + [Finished(rows)], None, run.state.counters, run.state.cursor)
    ensures Completed(r, ctx.codes, a, b, ctx.round)
  {
    var total := ctx.total;
    assert ctx.codes(a) + Planned(ctx.codes, a + 1, b) == Planned(ctx.codes, a, b);
    assert r.events[..total] == run.events;
  }

  /** The loops over the prefixes `a .. b` from the origin, then `fim` with
      the rows gathered. */
  function Probe(origin: Point, a: int, b: int, cursor: nat, codes: int -> seq<string>,
                 lookup: (nat, nat, string) -> Lookup, hav: Haversine, round: Round): (r: LegacyRun)
    requires a <= b && forall p :: a <= p <= b ==> |codes(p)| == 300
    ensures r.raised.None? ==> Completed(r, codes, a, b, round) && RowsReported(r, codes, a, b, round)
  {
    var total := (b - a + 1) * 300;
    var ctx := Ctx(origin, total, codes, lookup, hav, round);
    var sw := Scan(a, b, codes(a), State(cursor, Counters(0, 0, 0), []), ctx);
    var run := sw.run;
    if run.raised.Some? then LegacyRun(run.events, run.raised, run.state.counters, run.state.cursor)
    else
      var r := LegacyRun(run.events + [Finished(sw.rows)], None, run.state.counters, run.state.cursor);
      PlannedLength(codes, a, b);
      ScanRows(a, b, codes(a), State(cursor, Counters(0, 0, 0), []), ctx);
      assert [] + HitsOf(run.events[..300]) == HitsOf(run.events[..300]);
      ScanCompleted(a, b, ctx, run, sw.rows, r);
      r
  }

  /** `calcular_distancias_stream(cep_partida, raiz_inicio, raiz_fim)`. The
      starting point is looked up first (lookup number 0); `int()` of a prefix
      text is the oracle `intOf`, None standing for the ValueError it raises. */
  function Stream(origin: string, first: string, last: string, cursor: nat,
                  fetch: (nat, string) -> Option<Json>, parse: string -> Option<real>,
                  intOf: string -> Option<int>, hav: Haversine, round: Round): (r: LegacyRun)
    requires cursor < |Apis|
    ensures var o := GetCoord(cursor, origin, Answers(fetch, 0), parse).outcome;
            && (o.Skipped? ==> r.events == [OriginError] && r.raised.None?)
            && (o.Raised? ==> r.events == [] && r.raised == Some(o.e))
            && (o.Found? && (intOf(first).None? || intOf(last).None?) ==> r.events == [] && r.raised == Some(ValueError))
            && (o.Found? && intOf(first).Some? && intOf(last).Some? && r.raised.None? ==>
                  && Completed(r, LegacyCodes, intOf(first).value, intOf(last).value, round)
                  && RowsReported(r, LegacyCodes, intOf(first).value, intOf(last).value, round))
  {
    var look := GetCoord(cursor, origin, Answers(fetch, 0), parse);
    var zero := Counters(0, 0, 0);
    match look.outcome
    case Raised(e) => LegacyRun([], Some(e), zero, look.cursor)
    case Skipped => LegacyRun([OriginError], None, zero, look.cursor)
    case Found(lat, lon, _) =>
      if intOf(last).None? || intOf(first).None? then LegacyRun([], Some(ValueError), zero, look.cursor)
      else
        var a, b := intOf(first).value, intOf(last).value;
        if a > b then LegacyRun([Finished([])], None, zero, look.cursor)
        else Probe(Point(lat, lon), a, b, look.cursor, LegacyCodes, CycleLookup(fetch, parse), hav, round)
  }

  /** `round(_, 2)` never reverses the order of two numbers. */
  ghost predicate RoundMonotone(round: Round) {
    forall x: real, y: real :: x <= y ==> round(x, 2) <= round(y, 2)
  }

  lemma Share(i: nat, j: nat, t: nat)
    requires 0 < t && i <= j
    ensures i as real / t as real * 100.0 <= j as real / t as real * 100.0
    ensures t as real / t as real * 100.0 == 100.0
  {
  }

  /** The progress of a completed run never goes down, and its last value is
      `round(100, 2)`. */
  lemma ProgressMonotone(r: LegacyRun, codes: int -> seq<string>, a: int, b: int, round: Round)
    requires a <= b && Completed(r, codes, a, b, round) && RoundMonotone(round)
    ensures var total := (b - a + 1) * 300;
            && (forall i, j :: 0 <= i < j < total ==> r.events[i].percent <= r.events[j].percent)
            && r.events[total - 1].percent == round(100.0, 2)
  {
    var total := (b - a + 1) * 300;
    var es := r.events[..total];
    forall i, j | 0 <= i < j < total
      ensures r.events[i].percent <= r.events[j].percent
    {
      assert es[i] == r.events[i] && es[j] == r.events[j];
      Share(i + 1, j + 1, total);
    }
    assert es[total - 1] == r.events[total - 1];
    Share(total, total, total);
  }

  /** The `k`-th code of the `j`-th prefix of the range is the `300 * j + k`-th planned code. */
  lemma {:induction false} PlannedCodes(codes: int -> seq<string>, a: int, b: int, j: nat, k: nat)
    requires forall p :: a <= p <= b ==> |codes(p)| == 300
    requires j < Span(a, b) && k < 300
    ensures 300 * j + k < |Planned(codes, a, b)|
    ensures Planned(codes, a, b)[300 * j + k] == codes(a + j)[k]
    decreases j
  {
    PlannedLength(codes, a, b);
    PlannedLength(codes, a + 1, b);
    if j > 0 {
      PlannedCodes(codes, a + 1, b, j - 1, k);
      assert Planned(codes, a, b)[300 * j + k] == Planned(codes, a + 1, b)[300 * (j - 1) + k];
    }
  }
}
