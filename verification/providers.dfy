/** The third-party postal-code services both resolvers talk to, their URL
    templates, and the neighbourhood field chain they share. */
module Providers {
  import opened PyJson

  /** A resolved postal code `(lat, lon, bairro)`; `(None, None, None)` is
      modelled as the absence of one. */
  datatype Resolved = Resolved(lat: real, lon: real, bairro: Json)

  /** A URL template `head{cep}tail`. */
  datatype Endpoint = Endpoint(head: string, tail: string)

  const AwesomeApi := Endpoint("https://cep.awesomeapi.com.br/json/", "")
  const BrasilApi := Endpoint("https://brasilapi.com.br/api/cep/v2/", "")
  const OpenCep := Endpoint("https://opencep.com/v1/", "")
  const ViaCep := Endpoint("https://viacep.com.br/ws/", "/json/")
  const Nominatim := Endpoint("https://nominatim.openstreetmap.org/search?postalcode=", "&country=Brasil&format=json")

  /** `template.format(cep=code)`. */
  function Url(e: Endpoint, code: string): string {
    e.head + code + e.tail
  }

  /** `data.get('bairro') or data.get('district') or data.get('neighborhood', 'N/A')`:
      the first truthy of `bairro` and `district`, else whatever `neighborhood`
      holds, else the text "N/A". */
  function NeighbourhoodOf(m: map<string, Json>): (b: Json)
    ensures Truthy(Field(m, "bairro")) ==> b == m["bairro"]
    ensures !Truthy(Field(m, "bairro")) && Truthy(Field(m, "district")) ==> b == m["district"]
    ensures !Truthy(Field(m, "bairro")) && !Truthy(Field(m, "district")) ==>
              b == (if "neighborhood" in m then m["neighborhood"] else Str("N/A"))
    // the label can only be falsy when the provider sent a falsy `neighborhood`
    ensures !Truthy(b) ==> "neighborhood" in m && b == m["neighborhood"]
  {
    Or(Or(Field(m, "bairro"), Field(m, "district")), FieldOr(m, "neighborhood", Str("N/A")))
  }
}
