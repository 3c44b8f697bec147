/** The server-sent events of the calculation stream, as data rather than
    `data: {...}` strings, and the shape of a Python generator's run. */
module Events {
  import opened Wrappers
  import opened PyJson
  import opened Rows

  /** The `msg` of a `log` event. */
  datatype LogMsg =
    | ScanStarted(raiz: string)                 // 'Iniciando varredura de alta precisão ...'
    | Verified(done: nat, total: nat)           // 'Verificados {done}/{total} CEPs...'
    | RobustCentroid(kept: nat, raw: nat)       // 'Calculando centroide robusto com {kept}/{raw} amostras.'
    | OutlierDropped(cep: string, km: real)     // 'Outlier descartado: CEP ... está a {km} km ...'
    | ReliableCount(n: nat)                     // 'Processo final com {n} pontos confiáveis.'
    | FastStarted(raiz: string)                 // 'Iniciando consulta rápida ...'
    | Processed(done: nat, total: nat)          // 'Processadas {done}/{total} amostras...'

  /** Why an `erro` event was sent. */
  datatype ErrorReason = OriginNotFound(cep: string) | MissingParameters

  datatype Event =
    | Log(msg: LogMsg)
    | PartidaInfo(bairro: Json, cep: string, lat: real, lon: real)
    | Fim(rows: seq<Row>)
    | Erro(reason: ErrorReason)

  /** What a calculation generator yields: an event, or a list (taken as the result). */
  datatype Yield = Item(e: Event) | ListItem(rows: seq<Row>)

  /** How a generator finishes: `return value` (None for a bare return) or an exception. */
  datatype GenEnd = Returned(value: Option<seq<Row>>) | Raised(e: Exc)

  /** A complete run of a generator: everything it yields, then how it ends. */
  datatype Gen = Gen(items: seq<Yield>, end: GenEnd)

  /** Wrap events as yielded items. */
  function Items(es: seq<Event>): (r: seq<Yield>)
    ensures |r| == |es| && forall i :: 0 <= i < |es| ==> r[i] == Item(es[i])
  {
    seq(|es|, i requires 0 <= i < |es| => Item(es[i]))
  }

  /** Items that are all log events. */
  predicate AllLogs(items: seq<Yield>) {
    forall i :: 0 <= i < |items| ==> items[i].Item? && items[i].e.Log?
  }

  lemma AllLogsConcat(a: seq<Yield>, b: seq<Yield>)
    requires AllLogs(a) && AllLogs(b)
    ensures AllLogs(a + b)
  {
    forall i | 0 <= i < |a + b|
      ensures (a + b)[i].Item? && (a + b)[i].e.Log?
    {
      if i >= |a| {
        assert (a + b)[i] == b[i - |a|];
      }
    }
  }

  /** The progress steps the scans use: every 10 probes in the detailed scan,
      every 2 samples in the fast one. */
  predicate ProgressStep(step: nat) {
    step == 10 || step == 2
  }

  /** The counters `i + 1` at which a loop of `n` rounds with
      `if (i + 1) % step == 0` reports progress: the multiples of `step` up to `n`. */
  function Ticks(n: nat, step: nat): (r: seq<nat>)
    requires ProgressStep(step)
    ensures |r| == n / step
    ensures forall j :: 0 <= j < |r| ==> r[j] == step * (j + 1)
    decreases n
  {
    if n == 0 then []
    else
      var t := Ticks(n - 1, step);
      TicksStep(n, step);
      if n % step == 0 then t + [n] else t
  }

  lemma TicksStep(n: nat, step: nat)
    requires n > 0 && ProgressStep(step)
    ensures n % step == 0 ==> n / step == (n - 1) / step + 1 && n == step * (n / step)
    ensures n % step != 0 ==> n / step == (n - 1) / step
  {
    if step == 10 {
      assert n % 10 == 0 ==> n / 10 == (n - 1) / 10 + 1;
    } else {
      assert n % 2 == 0 ==> n / 2 == (n - 1) / 2 + 1;
    }
  }
}
