/** Step 1 of the detailed scan: probing the sampled codes concurrently and
    keeping those that resolved as raw samples. The thread pool's completion
    order is an input. */
module Collect {
  import opened Wrappers
  import opened PyJson
  import opened Providers
  import opened Geo
  import opened Seqs

  /** A raw sample `{'cep', 'bairro', 'distancia', 'lat', 'lon'}`. */
  datatype Sample = Sample(cep: string, bairro: Json, distance: real, at: Point)

  /** `get_info_from_cep` for each probed code. */
  type Resolver = string -> Option<Resolved>

  /** Python's `round(x, ndigits)`. */
  type Round = (real, nat) -> real

  /** The sample a completed lookup contributes, if any: only a result whose
      latitude is not None counts, at its rounded distance from the origin. */
  function Probe(code: string, resolve: Resolver, origin: Point, hav: Haversine, round: Round): (s: Option<Sample>)
    ensures s.Some? <==> resolve(code).Some?
    ensures s.Some? ==>
              && s.value.cep == code
              && s.value.at == Point(resolve(code).value.lat, resolve(code).value.lon)
              && s.value.bairro == resolve(code).value.bairro
              && s.value.distance == round(Km(hav, origin, s.value.at), 2)
  {
    match resolve(code)
    case None => None
    case Some(v) =>
      var at := Point(v.lat, v.lon);
      Some(Sample(code, v.bairro, round(Km(hav, origin, at), 2), at))
  }

  /** The codes in completion order. */
  function Completed(codes: seq<string>, order: seq<nat>): (r: seq<string>)
    requires IsPermutation(order, |codes|)
    ensures |r| == |codes|
    ensures forall c :: c in r <==> c in codes
  {
    var r := seq(|order|, k requires 0 <= k < |order| => codes[order[k]]);
    assert forall c :: c in codes ==> c in r by {
      forall c | c in codes
        ensures c in r
      {
        var i :| 0 <= i < |codes| && codes[i] == c;
        assert i in order;
        var k :| 0 <= k < |order| && order[k] == i;
        assert r[k] == c;
      }
    }
    r
  }

  /** `resultados_brutos`: the samples in the order their lookups completed. */
  function Collected(done: seq<string>, resolve: Resolver, origin: Point, hav: Haversine, round: Round): (r: seq<Sample>)
    ensures |r| <= |done|
    decreases |done|
  {
    if |done| == 0 then []
    else
      Collected(done[..|done| - 1], resolve, origin, hav, round)
      + match Probe(done[|done| - 1], resolve, origin, hav, round) case Some(s) => [s] case None => []
  }

  /** A sample is collected exactly when its code was probed and resolved to it. */
  lemma {:induction false} CollectedMembers(done: seq<string>, resolve: Resolver, origin: Point, hav: Haversine,
                                            round: Round, s: Sample)
    ensures s in Collected(done, resolve, origin, hav, round) <==>
              s.cep in done && Probe(s.cep, resolve, origin, hav, round) == Some(s)
    decreases |done|
  {
    if |done| > 0 {
      var init, c := done[..|done| - 1], done[|done| - 1];
      CollectedMembers(init, resolve, origin, hav, round, s);
      assert done == init + [c];
    }
  }

  /** No code yields two samples: with distinct codes, the samples have distinct codes. */
  lemma {:induction false} CollectedCodesDistinct(done: seq<string>, resolve: Resolver, origin: Point,
                                                  hav: Haversine, round: Round)
    requires forall i, j :: 0 <= i < j < |done| ==> done[i] != done[j]
    ensures var r := Collected(done, resolve, origin, hav, round);
            forall i, j :: 0 <= i < j < |r| ==> r[i].cep != r[j].cep
    decreases |done|
  {
    if |done| > 0 {
      var init, c := done[..|done| - 1], done[|done| - 1];
      CollectedCodesDistinct(init, resolve, origin, hav, round);
      var r0 := Collected(init, resolve, origin, hav, round);
      forall i | 0 <= i < |r0|
        ensures r0[i].cep != c
      {
        CollectedMembers(init, resolve, origin, hav, round, r0[i]);
      }
    }
  }

  /** Distinct codes complete as distinct codes. */
  lemma CompletedDistinct(codes: seq<string>, order: seq<nat>)
    requires IsPermutation(order, |codes|) && NoDuplicates(codes)
    ensures NoDuplicates(Completed(codes, order))
  {
  }

  /** The set of raw samples does not depend on the completion order. */
  lemma OrderIrrelevant(codes: seq<string>, order1: seq<nat>, order2: seq<nat>, resolve: Resolver,
                        origin: Point, hav: Haversine, round: Round, s: Sample)
    requires IsPermutation(order1, |codes|) && IsPermutation(order2, |codes|)
    ensures s in Collected(Completed(codes, order1), resolve, origin, hav, round) <==>
              s in Collected(Completed(codes, order2), resolve, origin, hav, round)
  {
    CollectedMembers(Completed(codes, order1), resolve, origin, hav, round, s);
    CollectedMembers(Completed(codes, order2), resolve, origin, hav, round, s);
  }
}
