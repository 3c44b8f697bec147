/** `get_info_from_cep` and `get_coord_fallback` of logic/cep_service.py: an
    enrichment pass over two address services, a precise geocode checked by
    reverse geocoding, the enrichment's own coordinate, and a shuffled pool of
    five services as the last resort. Every answer from the network or the
    geocoder is an input. */
module CepService {
  import opened Wrappers
  import opened PyJson
  import opened Text
  import opened Seqs
  import opened Geo
  import opened Providers

  /** `APIS_ENDERECO`, asked in this order. */
  const EnrichApis: seq<Endpoint> := [BrasilApi, ViaCep]

  /** `APIS_COMPLETA`, asked in the order of a random permutation. */
  const PoolApis: seq<Endpoint> := [ViaCep, BrasilApi, Nominatim, OpenCep, AwesomeApi]

  /** `cep.replace('-', '')`: the code placed into every URL. */
  function StripDashes(code: string): (r: string)
    ensures '-' !in r
    ensures forall c :: c != '-' ==> (c in r <==> c in code)
    ensures '-' !in code ==> r == code
  {
    if '-' !in code then
      WithoutAbsent(code, '-');
      Without(code, '-')
    else
      Without(code, '-')
  }

  // ----- the shuffled pool (get_coord_fallback) -----

  /** `x and x['coordinates'].get(k)` for the `location` value `x`. */
  function NestedCoordinate(loc: Json, k: string): Result<Json, Exc> {
    if !Truthy(loc) then Ok(loc)
    else
      match Index(loc, "coordinates")
      case Err(e) => Err(e)
      case Ok(c) => Get(c, k)
  }

  /** `data.get(a) or data.get(b) or (data.get('location') and data['location']['coordinates'].get(k))`. */
  function PoolCoordinate(m: map<string, Json>, a: string, b: string, k: string): (r: Result<Json, Exc>)
    ensures Truthy(Field(m, a)) ==> r == Ok(m[a])
    ensures !Truthy(Field(m, a)) && Truthy(Field(m, b)) ==> r == Ok(m[b])
    ensures !Truthy(Field(m, a)) && !Truthy(Field(m, b)) ==> r == NestedCoordinate(Field(m, "location"), k)
  {
    var x := Or(Field(m, a), Field(m, b));
    if Truthy(x) then Ok(x) else NestedCoordinate(Field(m, "location"), k)
  }

  /** A list answer: the first element's `lat` and `lon` converted by `float`,
      and the second comma-separated part of its `display_name`, stripped.
      Any exception on the way means "try the next service". */
  function ListAnswer(r: Json, parse: string -> Option<real>): (res: Option<Resolved>)
    ensures res.Some? ==>
              && r.Obj?
              && Index(r, "lat").Ok? && ToFloat(Index(r, "lat").value, parse) == Ok(res.value.lat)
              && Index(r, "lon").Ok? && ToFloat(Index(r, "lon").value, parse) == Ok(res.value.lon)
              && FieldOr(r.fields, "display_name", Str("N/A")).Str?
              && var parts := Split(FieldOr(r.fields, "display_name", Str("N/A")).s, ',');
                 |parts| >= 2 && res.value.bairro == Str(Strip(parts[1]))
    ensures r.Obj? && Index(r, "lat").Ok? && ToFloat(Index(r, "lat").value, parse).Ok?
            && Index(r, "lon").Ok? && ToFloat(Index(r, "lon").value, parse).Ok?
            && FieldOr(r.fields, "display_name", Str("N/A")).Str?
            && |Split(FieldOr(r.fields, "display_name", Str("N/A")).s, ',')| >= 2 ==>
              res == Some(Resolved(ToFloat(Index(r, "lat").value, parse).value,
                                   ToFloat(Index(r, "lon").value, parse).value,
                                   Str(Strip(Split(FieldOr(r.fields, "display_name", Str("N/A")).s, ',')[1]))))
  {
    match Index(r, "lat")
    case Err(_) => None
    case Ok(a) =>
      match ToFloat(a, parse)
      case Err(_) => None
      case Ok(lat) =>
        match Index(r, "lon")
        case Err(_) => None
        case Ok(b) =>
          match ToFloat(b, parse)
          case Err(_) => None
          case Ok(lon) =>
            var name := FieldOr(r.fields, "display_name", Str("N/A"));
            if !name.Str? then None
            else
              var parts := Split(name.s, ',');
              if |parts| < 2 then None else Some(Resolved(lat, lon, Str(Strip(parts[1]))))
  }

  /** A dict answer: skipped when it carries a truthy `erro`; otherwise a
      result only when both coordinate chains give truthy values that `float`
      accepts, with the neighbourhood chain as label. */
  function DictAnswer(m: map<string, Json>, parse: string -> Option<real>): (res: Option<Resolved>)
    ensures Truthy(Field(m, "erro")) ==> res.None?
    ensures res.Some? ==>
              && PoolCoordinate(m, "lat", "latitude", "latitude").Ok?
              && PoolCoordinate(m, "lng", "longitude", "longitude").Ok?
              && Truthy(PoolCoordinate(m, "lat", "latitude", "latitude").value)
              && Truthy(PoolCoordinate(m, "lng", "longitude", "longitude").value)
              && ToFloat(PoolCoordinate(m, "lat", "latitude", "latitude").value, parse) == Ok(res.value.lat)
              && ToFloat(PoolCoordinate(m, "lng", "longitude", "longitude").value, parse) == Ok(res.value.lon)
              && res.value.bairro == NeighbourhoodOf(m)
    ensures var lat, lon := PoolCoordinate(m, "lat", "latitude", "latitude"), PoolCoordinate(m, "lng", "longitude", "longitude");
            !Truthy(Field(m, "erro")) && lat.Ok? && lon.Ok? && Truthy(lat.value) && Truthy(lon.value)
            && ToFloat(lat.value, parse).Ok? && ToFloat(lon.value, parse).Ok? ==>
              res == Some(Resolved(ToFloat(lat.value, parse).value, ToFloat(lon.value, parse).value, NeighbourhoodOf(m)))
  {
    if Truthy(Field(m, "erro")) then None
    else
      match PoolCoordinate(m, "lat", "latitude", "latitude")
      case Err(_) => None
      case Ok(lat) =>
        match PoolCoordinate(m, "lng", "longitude", "longitude")
        case Err(_) => None
        case Ok(lon) =>
          if !(Truthy(lat) && Truthy(lon)) then None
          else
            match ToFloat(lat, parse)
            case Err(_) => None
            case Ok(x) =>
              match ToFloat(lon, parse)
              case Err(_) => None
              case Ok(y) => Some(Resolved(x, y, NeighbourhoodOf(m)))
  }

  /** One pool service's answer (None: the request failed). A non-empty list
      and a dict are read; anything else is passed over. */
  function PoolAnswer(answer: Option<Json>, parse: string -> Option<real>): (res: Option<Resolved>)
    ensures answer.None? ==> res.None?
    ensures answer.Some? && answer.value.Arr? && |answer.value.items| > 0 ==>
              res == ListAnswer(answer.value.items[0], parse)
    ensures answer.Some? && answer.value.Obj? ==> res == DictAnswer(answer.value.fields, parse)
    ensures answer.Some? && !answer.value.Obj? && !(answer.value.Arr? && |answer.value.items| > 0) ==> res.None?
  {
    match answer
    case None => None
    case Some(Arr(items)) => if |items| > 0 then ListAnswer(items[0], parse) else None
    case Some(Obj(m)) => DictAnswer(m, parse)
    case Some(_) => None
  }

  /** A list answer whose `display_name` has no comma is passed over. */
  lemma ListNeedsSecondComponent(r: Json, parse: string -> Option<real>)
    requires r.Obj? && FieldOr(r.fields, "display_name", Str("N/A")).Str?
    requires ',' !in FieldOr(r.fields, "display_name", Str("N/A")).s
    ensures ListAnswer(r, parse).None?
  {
    SplitHasSecond(FieldOr(r.fields, "display_name", Str("N/A")).s, ',');
  }

  /** The services in the order `random.sample` drew them. */
  function Shuffled(order: seq<nat>): (apis: seq<Endpoint>)
    requires IsPermutation(order, |PoolApis|)
    ensures |apis| == |PoolApis| && forall k :: 0 <= k < |apis| ==> apis[k] == PoolApis[order[k]]
  {
    seq(|order|, k requires 0 <= k < |order| => PoolApis[order[k]])
  }

  /** What asking the pool service `api` about `code` gives. */
  function PoolAt(code: string, pool: string -> Option<Json>, parse: string -> Option<real>): Endpoint -> Option<Resolved> {
    (api: Endpoint) => PoolAnswer(pool(Url(api, StripDashes(code))), parse)
  }

  /** `get_coord_fallback(cep)`: the first service, in shuffled order, whose
      answer gives a result; None for `(None, None, None)`. */
  function Fallback(code: string, order: seq<nat>, pool: string -> Option<Json>,
                    parse: string -> Option<real>): (r: Search<Resolved>)
    requires IsPermutation(order, |PoolApis|)
    ensures r.tried <= |PoolApis|
    ensures r.found.None? <==> forall k :: 0 <= k < |PoolApis| ==> PoolAt(code, pool, parse)(PoolApis[k]).None?
    ensures r.found.Some? ==>
              && 1 <= r.tried
              && r.found == PoolAt(code, pool, parse)(Shuffled(order)[r.tried - 1])
              && forall i :: 0 <= i < r.tried - 1 ==> PoolAt(code, pool, parse)(Shuffled(order)[i]).None?
  {
    var apis := Shuffled(order);
    var r := FirstSuccess(apis, PoolAt(code, pool, parse));
    assert (forall i :: 0 <= i < |apis| ==> PoolAt(code, pool, parse)(apis[i]).None?) <==>
           (forall k :: 0 <= k < |PoolApis| ==> PoolAt(code, pool, parse)(PoolApis[k]).None?) by {
      forall k | 0 <= k < |PoolApis| ensures PoolApis[k] in apis {
        assert k in order;
        var i :| 0 <= i < |order| && order[i] == k;
        assert apis[i] == PoolApis[k];
      }
    }
    r
  }

  lemma PoolApisDistinct()
    ensures NoDuplicates(PoolApis)
  {
    assert ViaCep.head[8] == 'v';
    assert BrasilApi.head[8] == 'b';
    assert Nominatim.tail[0] == '&' && ViaCep.tail[0] == '/';
    assert |Nominatim.tail| > 0 && |BrasilApi.tail| == |OpenCep.tail| == |AwesomeApi.tail| == 0;
    assert OpenCep.head[8] == 'o';
    assert AwesomeApi.head[8] == 'c';
  }

  /** The pool never asks a service twice: the services tried are distinct. */
  lemma FallbackVisitsEachOnce(code: string, order: seq<nat>, pool: string -> Option<Json>,
                               parse: string -> Option<real>)
    requires IsPermutation(order, |PoolApis|)
    ensures var apis := Shuffled(order);
            forall i, j :: 0 <= i < j < Fallback(code, order, pool, parse).tried ==> apis[i] != apis[j]
  {
    PoolApisDistinct();
  }

  // ----- the enrichment pass -----

  /** `endereco_info`: street, neighbourhood, city and state. */
  datatype Info = Info(street: Json, bairro: Json, city: Json, uf: Json)

  /** The dict built from an answer without `erro`. */
  function InfoOf(m: map<string, Json>): (i: Info)
    ensures i.bairro == Or(Field(m, "bairro"), Field(m, "neighborhood"))
    ensures i.city == Or(Field(m, "localidade"), Field(m, "city"))
  {
    Info(Or(Field(m, "logradouro"), Field(m, "street")), Or(Field(m, "bairro"), Field(m, "neighborhood")),
         Or(Field(m, "localidade"), Field(m, "city")), Or(Field(m, "uf"), Field(m, "state")))
  }

  /** `(float(a), float(b))`, or the first exception. */
  function FloatPair(a: Json, b: Json, parse: string -> Option<real>): (r: Result<Point, Exc>)
    ensures r.Ok? <==> ToFloat(a, parse).Ok? && ToFloat(b, parse).Ok?
    ensures r.Ok? ==> r.value == Point(ToFloat(a, parse).value, ToFloat(b, parse).value)
  {
    match ToFloat(a, parse)
    case Err(e) => Err(e)
    case Ok(x) =>
      match ToFloat(b, parse)
      case Err(e) => Err(e)
      case Ok(y) => Ok(Point(x, y))
  }

  /** `(float(coords['latitude']), float(coords['longitude']))`, evaluated
      left to right: the first lookup or conversion that fails raises. */
  function LocationPair(coords: Json, parse: string -> Option<real>): (r: Result<Point, Exc>)
    ensures r.Ok? <==> && Index(coords, "latitude").Ok? && ToFloat(Index(coords, "latitude").value, parse).Ok?
                       && Index(coords, "longitude").Ok? && ToFloat(Index(coords, "longitude").value, parse).Ok?
    ensures r.Ok? ==> r.value == Point(ToFloat(Index(coords, "latitude").value, parse).value,
                                       ToFloat(Index(coords, "longitude").value, parse).value)
    ensures Index(coords, "latitude").Ok? && ToFloat(Index(coords, "latitude").value, parse).Err? ==>
              r == Err(ToFloat(Index(coords, "latitude").value, parse).error)
  {
    match Index(coords, "latitude")
    case Err(e) => Err(e)
    case Ok(a) =>
      match ToFloat(a, parse)
      case Err(e) => Err(e)
      case Ok(x) =>
        match Index(coords, "longitude")
        case Err(e) => Err(e)
        case Ok(b) =>
          match ToFloat(b, parse)
          case Err(e) => Err(e)
          case Ok(y) => Ok(Point(x, y))
  }

  /** `data.get('location') and data['location'].get('coordinates')` is truthy
      (and so `location` is a dict holding `coordinates`). */
  predicate ViaLocation(m: map<string, Json>) {
    var loc := Field(m, "location");
    Truthy(loc) && loc.Obj? && Truthy(Field(loc.fields, "coordinates"))
  }

  /** A coordinate that may be missing, with the exception that reading it raised. */
  function SomePoint(p: Result<Point, Exc>): (r: Result<Option<Point>, Exc>)
    ensures r.Ok? <==> p.Ok?
    ensures p.Ok? ==> r.value == Some(p.value)
    ensures p.Err? ==> r.error == p.error
  {
    match p
    case Ok(v) => Ok(Some(v))
    case Err(e) => Err(e)
  }

  /** The coordinate an enrichment answer offers: Ok(None) when it has
      neither a `location.coordinates` nor a `lat`/`latitude`, Err when reading
      it raises. */
  function Captured(m: map<string, Json>, parse: string -> Option<real>): (r: Result<Option<Point>, Exc>)
    ensures r.Ok? && r.value.None? ==>
              !Truthy(Or(Field(m, "lat"), Field(m, "latitude")))
    ensures r.Ok? && r.value.Some? && !Truthy(Field(m, "location")) ==>
              FloatPair(Or(Field(m, "lat"), Field(m, "latitude")), Or(Field(m, "lng"), Field(m, "longitude")), parse)
                == Ok(r.value.value)
    // a truthy `location` without `.get` raises AttributeError
    ensures Truthy(Field(m, "location")) && !Field(m, "location").Obj? ==> r == Err(AttributeError)
    // the `location.coordinates` path
    ensures ViaLocation(m) ==>
              r == SomePoint(LocationPair(Field(m, "location").fields["coordinates"], parse))
    // the `lat`/`latitude` path
    ensures !Truthy(Field(m, "location")) || (Field(m, "location").Obj? && !ViaLocation(m)) ==>
              var lat := Or(Field(m, "lat"), Field(m, "latitude"));
              && (!Truthy(lat) ==> r == Ok(None))
              && (Truthy(lat) ==> r == SomePoint(FloatPair(lat, Or(Field(m, "lng"), Field(m, "longitude")), parse)))
  {
    var loc := Field(m, "location");
    var viaLocation :=
      if !Truthy(loc) then Ok(false)
      else match Get(loc, "coordinates")
           case Err(e) => Err(e)
           case Ok(c) => Ok(Truthy(c));
    if viaLocation.Err? then Err(viaLocation.error)
    else if viaLocation.value then
      // `data['location'].get('coordinates')` was truthy, so `loc` is a dict holding it
      SomePoint(LocationPair(loc.fields["coordinates"], parse))
    else
      var lat := Or(Field(m, "lat"), Field(m, "latitude"));
      if !Truthy(lat) then Ok(None)
      else SomePoint(FloatPair(lat, Or(Field(m, "lng"), Field(m, "longitude")), parse))
  }

  /** The enrichment state: `endereco_info` (None while still `{}`) and
      `fallback_coords`. */
  datatype Enriched = Enriched(info: Option<Info>, coords: Option<Point>)

  /** The state after one enrichment answer, and whether the loop breaks. */
  datatype Step = Step(state: Enriched, stop: bool)

  /** One pass of the enrichment loop body. A failed request or a non-dict
      body raises before anything is assigned; an exception while reading the
      coordinate leaves the new info assigned but skips the break test. */
  function EnrichStep(s: Enriched, answer: Option<Json>, parse: string -> Option<real>): (r: Step)
    ensures answer.None? || !answer.value.Obj? ==> r == Step(s, false)
    ensures answer.Some? && answer.value.Obj? && Truthy(Field(answer.value.fields, "erro")) ==>
              r == Step(s, s.info.Some? && s.coords.Some?)
    ensures answer.Some? && answer.value.Obj? && !Truthy(Field(answer.value.fields, "erro")) ==>
              r.state.info == Some(InfoOf(answer.value.fields))
    ensures r.stop ==> r.state.info.Some? && r.state.coords.Some?
    ensures r.state.coords.None? ==> s.coords.None?
    // a dict without a truthy `erro`: the captured coordinate decides
    ensures answer.Some? && answer.value.Obj? && !Truthy(Field(answer.value.fields, "erro")) ==>
              var info, c := Some(InfoOf(answer.value.fields)), Captured(answer.value.fields, parse);
              && (c.Ok? && c.value.Some? ==> r == Step(Enriched(info, c.value), true))
              && (c.Ok? && c.value.None? ==> r == Step(Enriched(info, s.coords), s.coords.Some?))
              && (c.Err? ==> r == Step(Enriched(info, s.coords), false))
  {
    match answer
    case None => Step(s, false)
    case Some(data) =>
      if !data.Obj? then Step(s, false)
      else if Truthy(Field(data.fields, "erro")) then Step(s, s.info.Some? && s.coords.Some?)
      else
        var info := Some(InfoOf(data.fields));
        match Captured(data.fields, parse)
        case Err(_) => Step(Enriched(info, s.coords), false)
        case Ok(c) =>
          var coords := if c.Some? then c else s.coords;
          Step(Enriched(info, coords), coords.Some?)
  }

  /** The outcome of the enrichment loop and how many services it asked. */
  datatype Enrichment = Enrichment(state: Enriched, asked: nat)

  function EnrichFrom(apis: seq<Endpoint>, s: Enriched, code: string, fetch: string -> Option<Json>,
                      parse: string -> Option<real>): (r: Enrichment)
    ensures r.asked <= |apis|
    ensures r.state.coords.None? ==> s.coords.None?
    decreases |apis|
  {
    if |apis| == 0 then Enrichment(s, 0)
    else
      var st := EnrichStep(s, fetch(Url(apis[0], StripDashes(code))), parse);
      if st.stop then Enrichment(st.state, 1)
      else
        var rest := EnrichFrom(apis[1..], st.state, code, fetch, parse);
        Enrichment(rest.state, rest.asked + 1)
  }

  /** The enrichment loop over `APIS_ENDERECO`, from `{}` and no coordinate. */
  function Enrich(code: string, fetch: string -> Option<Json>, parse: string -> Option<real>): (r: Enrichment)
    ensures 1 <= r.asked <= 2
  {
    EnrichFrom(EnrichApis, Enriched(None, None), code, fetch, parse)
  }

  /** The loop stops after the first service when its answer yields both the
      address and a coordinate; otherwise the second service is asked too. */
  lemma EnrichStopsEarly(code: string, fetch: string -> Option<Json>, parse: string -> Option<real>)
    ensures var first := EnrichStep(Enriched(None, None), fetch(Url(BrasilApi, StripDashes(code))), parse);
            && (first.stop <==> first.state.info.Some? && first.state.coords.Some?)
            && (first.stop ==> Enrich(code, fetch, parse) == Enrichment(first.state, 1))
            && (!first.stop ==>
                  Enrich(code, fetch, parse) ==
                    Enrichment(EnrichStep(first.state, fetch(Url(ViaCep, StripDashes(code))), parse).state, 2))
  {
    var first := EnrichStep(Enriched(None, None), fetch(Url(BrasilApi, StripDashes(code))), parse);
    if !first.stop {
      var second := EnrichStep(first.state, fetch(Url(ViaCep, StripDashes(code))), parse);
      assert EnrichApis[1..][1..] == [];
      assert EnrichFrom(EnrichApis[1..], first.state, code, fetch, parse) == Enrichment(second.state, 1);
    }
  }

  // ----- the staged decision -----

  /** The answers `get_info_from_cep` depends on: the enrichment services and
      the pool services by URL, `float` of a text, the shuffle of the pool for
      each code, and the geocoding module's precise geocode and reverse-geocode
      validation. */
  datatype Env = Env(
    enrich: string -> Option<Json>,
    pool: string -> Option<Json>,
    parse: string -> Option<real>,
    shuffle: string -> seq<nat>,
    precise: (string, Info) -> (Option<real>, Option<real>),
    validate: (real, real, Json, Json) -> bool)

  /** The shuffles `random.sample` can produce. */
  ghost predicate ValidEnv(env: Env) {
    forall code :: IsPermutation(env.shuffle(code), |PoolApis|)
  }

  /** The pool's result for `code`. */
  function PoolResult(code: string, env: Env): Option<Resolved>
    requires ValidEnv(env)
  {
    Fallback(code, env.shuffle(code), env.pool, env.parse).found
  }

  /** `lat_precisa and lon_precisa`: both present and non-zero. */
  predicate PreciseTruthy(p: (Option<real>, Option<real>)) {
    p.0.Some? && p.1.Some? && p.0.value != 0.0 && p.1.value != 0.0
  }

  /** Some city was captured (`endereco_info.get('localidade')` is truthy). */
  predicate HasCity(e: Enriched) {
    e.info.Some? && Truthy(e.info.value.city)
  }

  /** The precise geocode is used: a city, both coordinates truthy, and the
      reverse geocode confirms neighbourhood and city. */
  predicate PreciseAccepted(code: string, env: Env, e: Enriched) {
    && HasCity(e)
    && var p := env.precise(code, e.info.value);
       PreciseTruthy(p) && env.validate(p.0.value, p.1.value, e.info.value.bairro, e.info.value.city)
  }

  /** `bairro_final`. */
  function FinalBairro(i: Info): (b: Json)
    ensures Truthy(i.bairro) ==> b == i.bairro
    ensures !Truthy(i.bairro) ==> b == Str("N/A")
  {
    Or(i.bairro, Str("N/A"))
  }

  /** `get_info_from_cep(cep)`: None stands for `(None, None, None)`. */
  function GetInfo(code: string, env: Env): (r: Option<Resolved>)
    requires ValidEnv(env)
    ensures var e := Enrich(code, env.enrich, env.parse).state;
            && (!HasCity(e) ==> r == PoolResult(code, env))
            && (PreciseAccepted(code, env, e) ==>
                  var p := env.precise(code, e.info.value);
                  r == Some(Resolved(p.0.value, p.1.value, FinalBairro(e.info.value))))
            && (HasCity(e) && !PreciseAccepted(code, env, e) && e.coords.Some? ==>
                  r == Some(Resolved(e.coords.value.lat, e.coords.value.lon, FinalBairro(e.info.value))))
            && (HasCity(e) && !PreciseAccepted(code, env, e) && e.coords.None? ==> r == PoolResult(code, env))
  {
    var e := Enrich(code, env.enrich, env.parse).state;
    if !HasCity(e) then PoolResult(code, env)
    else
      var info := e.info.value;
      var p := env.precise(code, info);
      if PreciseTruthy(p) && env.validate(p.0.value, p.1.value, info.bairro, info.city) then
        Some(Resolved(p.0.value, p.1.value, FinalBairro(info)))
      else if e.coords.Some? then
        Some(Resolved(e.coords.value.lat, e.coords.value.lon, FinalBairro(info)))
      else PoolResult(code, env)
  }

  /** `(None, None, None)` comes back only from the pool, after every pool
      service failed; a precise or enrichment result always has coordinates. */
  lemma NothingMeansPoolFailed(code: string, env: Env)
    requires ValidEnv(env)
    ensures GetInfo(code, env).None? ==>
              forall k :: 0 <= k < |PoolApis| ==> PoolAt(code, env.pool, env.parse)(PoolApis[k]).None?
    ensures (forall k :: 0 <= k < |PoolApis| ==> PoolAt(code, env.pool, env.parse)(PoolApis[k]).None?) ==>
              (GetInfo(code, env).None? <==>
                 var e := Enrich(code, env.enrich, env.parse).state;
                 !HasCity(e) || (!PreciseAccepted(code, env, e) && e.coords.None?))
  {
  }

  /** A precise coordinate is returned only when the reverse geocode validated it. */
  lemma PreciseOnlyWhenValidated(code: string, env: Env)
    requires ValidEnv(env)
    ensures var e := Enrich(code, env.enrich, env.parse).state;
            HasCity(e) && PreciseTruthy(env.precise(code, e.info.value)) &&
            !env.validate(env.precise(code, e.info.value).0.value, env.precise(code, e.info.value).1.value,
                          e.info.value.bairro, e.info.value.city) ==>
              GetInfo(code, env) == (if e.coords.Some?
                                     then Some(Resolved(e.coords.value.lat, e.coords.value.lon, FinalBairro(e.info.value)))
                                     else PoolResult(code, env))
  {
  }

  /** `get_info_from_cep` as the resolver the scans call for each code. */
  function Resolve(env: Env): (resolve: string -> Option<Resolved>)
    requires ValidEnv(env)
    ensures forall code :: resolve(code) == GetInfo(code, env)
  {
    (code: string) => GetInfo(code, env)
  }
}
