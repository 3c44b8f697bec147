/** The round-robin lookup `get_coord_from_cep` of logic/calculadora.py: a
    process-wide cursor over four postal-code services, advanced once per
    request, and the interpretation of each service's answer. */
module CepLookup {
  import opened Wrappers
  import opened PyJson
  import opened Providers

  /** The services in `APIS`, in the order `itertools.cycle` walks them. */
  const Apis: seq<Endpoint> := [AwesomeApi, BrasilApi, OpenCep, ViaCep]

  /** What one request contributes: nothing (try the next service), a
      coordinate, or an exception the loop does not catch. */
  datatype Attempt = Skipped | Found(lat: real, lon: real, bairro: Json) | Raised(e: Exc)

  /** The loop body catches `ValueError` and `KeyError` (and request failures). */
  predicate Caught(e: Exc) {
    e == ValueError || e == KeyError
  }

  /** `float(data.get(primary) or data.get(secondary) or 0)`. */
  function Coordinate(m: map<string, Json>, primary: string, secondary: string,
                      parse: string -> Option<real>): Result<real, Exc>
  {
    ToFloat(Or(Or(Field(m, primary), Field(m, secondary)), Num(0.0)), parse)
  }

  /** One service's answer; None is a failed request, a bad status or a body
      that is not JSON. */
  function Interpret(answer: Option<Json>, parse: string -> Option<real>): (a: Attempt)
    ensures answer.None? ==> a == Skipped
    // a JSON body that is not an object has no `.get`: the AttributeError escapes
    ensures answer.Some? && !answer.value.Obj? ==> a == Raised(AttributeError)
    ensures answer.Some? && answer.value.Obj? && Truthy(Field(answer.value.fields, "erro")) ==> a == Skipped
    ensures a.Found? ==>
              && answer.Some? && answer.value.Obj?
              && !Truthy(Field(answer.value.fields, "erro"))
              && a.lat != 0.0 && a.lon != 0.0
              && Coordinate(answer.value.fields, "lat", "latitude", parse) == Ok(a.lat)
              && Coordinate(answer.value.fields, "lng", "longitude", parse) == Ok(a.lon)
              && a.bairro == NeighbourhoodOf(answer.value.fields)
    ensures a.Raised? ==> !Caught(a.e)
    // a dict without a truthy `erro`: the two `float` conversions decide
    ensures answer.Some? && answer.value.Obj? && !Truthy(Field(answer.value.fields, "erro")) ==>
              var m := answer.value.fields;
              var lat, lon := Coordinate(m, "lat", "latitude", parse), Coordinate(m, "lng", "longitude", parse);
              && (lat.Ok? && lon.Ok? && lat.value != 0.0 && lon.value != 0.0 ==>
                    a == Found(lat.value, lon.value, NeighbourhoodOf(m)))
              && (lat.Ok? && lon.Ok? && (lat.value == 0.0 || lon.value == 0.0) ==> a == Skipped)
              && (lat.Err? ==> a == (if Caught(lat.error) then Skipped else Raised(lat.error)))
              && (lat.Ok? && lon.Err? ==> a == (if Caught(lon.error) then Skipped else Raised(lon.error)))
  {
    match answer
    case None => Skipped
    case Some(data) =>
      match Get(data, "erro")
      case Err(e) => Raised(e)
      case Ok(erro) =>
        if Truthy(erro) then Skipped
        else
          var m := data.fields;
          match Coordinate(m, "lat", "latitude", parse)
          case Err(e) => if Caught(e) then Skipped else Raised(e)
          case Ok(lat) =>
            match Coordinate(m, "lng", "longitude", parse)
            case Err(e) => if Caught(e) then Skipped else Raised(e)
            case Ok(lon) =>
              if lat != 0.0 && lon != 0.0 then Found(lat, lon, NeighbourhoodOf(m)) else Skipped
  }

  /** The answer of the service `j` steps after `cursor` in the cycle. */
  function AttemptAt(cursor: nat, j: nat, code: string, fetch: string -> Option<Json>,
                     parse: string -> Option<real>): Attempt
  {
    Interpret(fetch(Url(Apis[(cursor + j) % |Apis|], code)), parse)
  }

  /** The result of a lookup: `outcome` is Skipped when `(None, None, None)` is
      returned; `attempts` requests were made; `cursor` is the cycle's new position. */
  datatype Lookup = Lookup(outcome: Attempt, attempts: nat, cursor: nat)

  /** The answers of the four services in the order the cycle visits them
      from `cursor`. */
  function Ring(cursor: nat, code: string, fetch: string -> Option<Json>,
                parse: string -> Option<real>): (answers: seq<Attempt>)
    ensures |answers| == |Apis|
    ensures forall j :: 0 <= j < |Apis| ==> answers[j] == AttemptAt(cursor, j, code, fetch, parse)
  {
    seq(|Apis|, j requires 0 <= j < |Apis| => AttemptAt(cursor, j, code, fetch, parse))
  }

  /** How many leading attempts are skipped: the position of the first
      attempt that ends the loop, or `|answers|` when none does. */
  function Skips(answers: seq<Attempt>): (k: nat)
    ensures k <= |answers|
    ensures forall j :: 0 <= j < k ==> answers[j].Skipped?
    ensures k < |answers| ==> !answers[k].Skipped?
    decreases |answers|
  {
    if |answers| == 0 || !answers[0].Skipped? then 0 else 1 + Skips(answers[1..])
  }

  /** `get_coord_from_cep(cep)`: at most one request per service, stopping at the
      first usable coordinate or uncaught exception; the cursor advances once
      per request made. */
  function GetCoord(cursor: nat, code: string, fetch: string -> Option<Json>,
                    parse: string -> Option<real>): (r: Lookup)
    requires cursor < |Apis|
    ensures 1 <= r.attempts <= |Apis|
    ensures r.cursor == (cursor + r.attempts) % |Apis|
    ensures r.outcome.Skipped? <==> forall j :: 0 <= j < |Apis| ==> AttemptAt(cursor, j, code, fetch, parse).Skipped?
    ensures r.outcome.Skipped? ==> r.attempts == |Apis|
    ensures r.outcome.Found? ==> r.outcome.lat != 0.0 && r.outcome.lon != 0.0
    ensures !r.outcome.Skipped? ==>
              r.outcome == AttemptAt(cursor, r.attempts - 1, code, fetch, parse)
              && forall j :: 0 <= j < r.attempts - 1 ==> AttemptAt(cursor, j, code, fetch, parse).Skipped?
  {
    var answers := Ring(cursor, code, fetch, parse);
    var k := Skips(answers);
    if k == |Apis| then Lookup(Skipped, k, (cursor + k) % |Apis|)
    else Lookup(answers[k], k + 1, (cursor + k + 1) % |Apis|)
  }

  /** `(None, None, None)` comes back only when every one of the four services,
      whatever the cursor's starting point, gave nothing usable. */
  lemma NotFoundMeansEveryServiceSkipped(cursor: nat, code: string, fetch: string -> Option<Json>,
                                         parse: string -> Option<real>)
    requires cursor < |Apis|
    ensures GetCoord(cursor, code, fetch, parse).outcome.Skipped? <==>
              forall p :: 0 <= p < |Apis| ==> Interpret(fetch(Url(Apis[p], code)), parse).Skipped?
  {
    var r := GetCoord(cursor, code, fetch, parse);
    if r.outcome.Skipped? {
      forall p | 0 <= p < |Apis|
        ensures Interpret(fetch(Url(Apis[p], code)), parse).Skipped?
      {
        var j := (p - cursor + |Apis|) % |Apis|;
        assert (cursor + j) % |Apis| == p;
        assert AttemptAt(cursor, j, code, fetch, parse).Skipped?;
      }
    } else {
      var j := r.attempts - 1;
      assert !AttemptAt(cursor, j, code, fetch, parse).Skipped?;
    }
  }

  /** Within one lookup no service is asked twice. */
  lemma AttemptsVisitDistinctServices(cursor: nat, i: nat, j: nat)
    requires cursor < |Apis| && i < j < |Apis|
    ensures (cursor + i) % |Apis| != (cursor + j) % |Apis|
  {
  }
}
