/** The result rows both scans return for a prefix: a summary row, one row per
    neighbourhood, or an error row. */
module Rows {
  import opened Wrappers
  import opened StableSort

  /** `tipo_linha`: 'resumo_raiz', 'bairro' or 'erro_raiz'. */
  datatype RowKind = Summary | Neighbourhood | RootError

  /** A number, or the placeholder '-' of an error row. */
  datatype Measure = Value(x: real) | Dash

  /** One dict of the result list: `raiz`, `bairro` (the place name), `distancia`,
      `tempo`, `ceps_consultados`, `lat`, `lon` and `cep_referencia`. */
  datatype Row = Row(kind: RowKind, raiz: string, place: string, distance: Measure,
                     minutes: Measure, sampled: nat, lat: Option<real>, lon: Option<real>,
                     reference: Option<string>)

  const NoValidCep := "NENHUM CEP VÁLIDO ENCONTRADO"
  const NoReliablePoint := "NENHUM PONTO CONFIÁVEL ENCONTRADO"
  const NoSample := "NENHUMA AMOSTRA ENCONTRADA"
  const SummaryLabel := "MÉDIA GERAL DA RAIZ"

  /** The `erro_raiz` row: no distance, no time, nothing sampled, no position. */
  function ErrorRow(raiz: string, place: string): (r: Row)
    ensures r.kind == RootError && r.raiz == raiz && r.place == place
    ensures r.distance == Dash && r.minutes == Dash && r.sampled == 0
    ensures r.lat.None? && r.lon.None? && r.reference.None?
  {
    Row(RootError, raiz, place, Dash, Dash, 0, None, None, None)
  }

  /** The key of the final `sorted`: summary rows first, then by distance, with
      9999 for a distance that is not a number. */
  function RowKey(r: Row): (k: SortKey)
    ensures !k.late <==> r.kind == Summary
    ensures r.distance.Value? ==> k.value == r.distance.x
    ensures r.distance.Dash? ==> k.value == 9999.0
  {
    SortKey(r.kind != Summary, match r.distance case Value(x) => x case Dash => 9999.0)
  }
}
