# CEP distance calculator — a Dafny model

This project models the core of a small web application. Given a Brazilian
postal code (CEP) as the starting point and a five-digit CEP prefix (a
"raiz"), it estimates how far the prefix's neighbourhoods are from that
starting point. It streams progress to the browser as server-sent events.

What is modelled:

- **The orchestrator and the route** (`app.py`). The route reads and strips
  the query parameters. It sends a lone `erro` when a parameter is missing.
  Otherwise it resolves the starting point and sends `partida_info` for the
  first prefix. It then relays the chosen calculation's logs and closes with a
  single `fim` that carries the result rows.
- **The detailed scan** (`logic/distance_calc.py`):
  - 300 codes are probed concurrently and collected in completion order;
  - a statistical pre-filter (mean + 2 standard deviations), a robust
    centroid, and a 10 km radius;
  - grouping by neighbourhood, a 3 km thinning per group, and one row per group
    copied from its sample nearest to the origin;
  - a summary row, and a stable sort with the summary first.
- **The fast scan** (`logic/distance_calc.py`). Ten codes are probed and their
  centroid becomes a single row.
- **The resolver** `get_info_from_cep` (`logic/cep_service.py`). It asks two
  address services, accepts a precise geocode only if reverse geocoding
  validates it, falls back to the address service's own coordinate, and as a
  last resort asks a shuffled pool of five services.
- **The older stream** (`logic/calculadora.py`). It uses a process-wide
  round-robin lookup over four services, one progress log per code with a
  percentage, and per-neighbourhood averages.

The model is a set of pure functions over immutable data. Events are data,
not `data: {...}` strings. A Python generator's run is a value `Gen`: the
items it yields, then how it ends (a return value or an exception). Every
service answer, the thread pool's completion order, the random shuffle,
`haversine`, `statistics.stdev`, `round` and `float()` of a text are
parameters.

Where the prose description of the system and the code disagree, the model
follows the code:

- **Neighbourhood representative.** The description picks the member nearest
  to the group's centroid. The code (`min(..., key=distancia)`) picks the
  member nearest to the origin, and `Aggregation.Champion` models that.
- **Summary row.** The description averages the distances of all raw
  samples. The code averages only the reliable samples (those within 10 km of
  the robust centroid), and `Aggregation.SummaryRow` models that.
- **"No point" rows.** The description uses an error row only when nothing
  resolved. The code also returns `NENHUM PONTO CONFIÁVEL ENCONTRADO` when
  samples exist but none is reliable, and `Aggregation.Aggregate` models that.

## Model

| member | source | states |
|---|---|---|
| Text.Strip | app.py:48-50 | neither end of `s.strip()` is whitespace, and it is no longer than `s` |
| Text.StripIsSlice | app.py:48-50 | `strip` keeps one contiguous slice and removes only whitespace on both sides |
| Text.StripEmptyIffBlank | app.py:53-54 | a parameter strips to the empty string exactly when it is all whitespace |
| Text.StripIdempotent | app.py:48-50 | stripping an already stripped parameter changes nothing |
| Text.Split | logic/cep_service.py:36 | `split(',')` gives at least one part and no part contains the separator |
| Text.JoinSplit | logic/cep_service.py:36 | re-joining the parts of `split` with the separator gives back the text |
| Text.SplitHasSecond | logic/cep_service.py:36 | `split(',')[1]` exists exactly when the text contains a comma |
| Text.Without | logic/cep_service.py:29 | `replace('-', '')` removes every dash and keeps every other character |
| Text.WithoutAbsent | logic/cep_service.py:29 | a code without dashes is left unchanged |
| Digits.NatToString | logic/calculadora.py:74 | `str(n)` is a non-empty digit string without a leading zero |
| Digits.ParseNatToString | logic/calculadora.py:74 | reading back `str(n)` gives `n` |
| Digits.NatToStringInjective | logic/calculadora.py:74 | distinct prefixes render as distinct texts |
| Digits.IntToString | logic/calculadora.py:74 | `str(i)` of a negative integer is a minus sign followed by `str(-i)` |
| Digits.ZFill | logic/calculadora.py:86 | `zfill(w)` pads on the left to width `w` and keeps the text as its suffix |
| Digits.Pad3IsZFill | logic/calculadora.py:86 | `f"{n:03d}"` and `str(n).zfill(3)` agree for every suffix below 1000 |
| Digits.ParsePad3 | logic/distance_calc.py:28 | reading back the three-digit suffix gives the number |
| Digits.Pad3Injective | logic/distance_calc.py:28 | distinct suffixes give distinct codes |
| Digits.Pad3Ordered | logic/distance_calc.py:28 | zero padding makes string order agree with numeric order |
| Sampler.DenseSuffixesFrom | logic/distance_calc.py:28 | the nested comprehension yields offsets 0, 1, 2 of each block of ten, in order |
| Sampler.Dense | logic/distance_calc.py:28-29 | the detailed scan probes 300 codes, the `k`-th being the prefix plus the padded `k`-th suffix |
| Sampler.DenseMembers | logic/distance_calc.py:28 | `raiz + f"{n:03d}"` is probed exactly when the last digit of `n` is 0, 1 or 2 |
| Sampler.DenseIncreasing | logic/distance_calc.py:28 | the 300 codes strictly increase in string order, so none is probed twice |
| Sampler.Sparse | logic/distance_calc.py:148 | the fast scan probes ten codes with suffixes 000, 100, …, 900 |
| Sampler.SparseIncreasing | logic/distance_calc.py:148 | the ten fast-scan codes strictly increase |
| Sampler.SparseWithinDense | logic/distance_calc.py:148 | every fast-scan code is also a detailed-scan code |
| Sampler.LegacyCodes | logic/calculadora.py:73-86 | the older stream probes 300 codes, `str(raiz)` followed by `str(d + i).zfill(3)` |
| Sampler.LegacyLeadingZero | logic/calculadora.py:73-74 | a prefix written with a leading zero loses it: prefix 01310 yields the 7-character code 1310000 where the detailed scan probes 01310000 |
| Geo.Centroid | logic/distance_calc.py:11-18 | `(None, None)` exactly for no points; otherwise the centroid lies within the points' latitude and longitude range |
| Seqs.FirstSuccess | logic/cep_service.py:27-49 | trying candidates in order yields nothing exactly when all fail; otherwise the first success, after failures only |
| Grouping.GroupBy | logic/distance_calc.py:100-105 | the dict of lists has distinct keys, each list is exactly the items with that key in input order, and keys appear in first-seen order |
| Grouping.ExactlyOneGroup | logic/distance_calc.py:100-105 | every item lands in exactly one group, the one of its own key |
| StableSort.SortSortedPermutation | logic/distance_calc.py:138-141 | `sorted` returns a permutation of its input, ordered by the key |
| StableSort.SortStable | logic/distance_calc.py:138-141 | rows with equal keys keep their relative order |
| StableSort.SortLeastFirst | logic/distance_calc.py:138-139 | a row whose key is least stays first and the rest are sorted among themselves |
| Collect.Probe | logic/distance_calc.py:36-45 | a completed lookup contributes a sample exactly when it resolved, with its code, neighbourhood, point and rounded distance |
| Collect.Completed | logic/distance_calc.py:33-35 | the codes in completion order are as many as were submitted, and exactly those codes |
| Collect.CollectedMembers | logic/distance_calc.py:35-45 | a sample is collected exactly when its code was probed and resolved to it |
| Collect.CollectedCodesDistinct | logic/distance_calc.py:35-45 | no code contributes two samples |
| Collect.OrderIrrelevant | logic/distance_calc.py:32-45 | the set of raw samples does not depend on the order in which lookups complete |
| Outliers.Preliminary | logic/distance_calc.py:59-75 | the pre-filter keeps every sample when there is one sample or no spread; otherwise it keeps exactly those within mean + 2·stdev of the naive centroid; never empty |
| Outliers.PreliminaryNonEmpty | logic/distance_calc.py:72-75 | some sample lies within the cut-off, so the robust centroid is always defined |
| Outliers.Reliable | logic/distance_calc.py:83-88 | the reliable samples are exactly the raw samples within 10 km of the robust centroid, in order |
| Outliers.OutlierLogs | logic/distance_calc.py:89-91 | every warning reports a sample farther than 10 km |
| Outliers.KeptPlusDropped | logic/distance_calc.py:85-93 | every raw sample is either kept or reported, never both and never neither |
| Aggregation.GroupLabel | logic/distance_calc.py:102 | a falsy or blank label becomes "Bairro não identificado"; a truthy non-string label raises AttributeError |
| Aggregation.Refine | logic/distance_calc.py:109-115 | groups of at most two stay whole; a larger group keeps exactly its members strictly within 3 km of its centroid, or stays whole if none is |
| Aggregation.Champion | logic/distance_calc.py:117 | `min(key=distancia)` picks a minimal distance at its first position |
| Aggregation.ChampionUnique | logic/distance_calc.py:117 | that choice is unique |
| Aggregation.ChampionRow | logic/distance_calc.py:117-123 | a neighbourhood row copies distance, time, point and code of the champion and counts the thinned group |
| Aggregation.PlaceRow | logic/distance_calc.py:107-123 | a group's row counts the thinned group and copies the champion of the thinned group |
| Aggregation.SummaryRow | logic/distance_calc.py:125-130 | the summary row holds the rounded mean distance of the reliable samples, twice it as time, and their count |
| Aggregation.Groups | logic/distance_calc.py:100-105 | the reliable samples grouped by label, in first-seen order |
| Aggregation.Aggregate | logic/distance_calc.py:98-141 | no reliable sample gives the single "no reliable point" row; the step raises exactly when some reliable label is truthy but not a string |
| Aggregation.AggregatePermutes | logic/distance_calc.py:125-141 | the rows returned are the summary row and one row per group, rearranged |
| Aggregation.SummaryFirst | logic/distance_calc.py:125-141 | the summary row comes first, followed by the group rows sorted among themselves |
| Aggregation.PlaceRowsAscending | logic/distance_calc.py:138-141 | after the summary come only neighbourhood rows, in non-decreasing distance |
| Aggregation.PlaceRowsStable | logic/distance_calc.py:138-141 | rows of equal distance keep the order in which their neighbourhoods were first seen |
| Aggregation.LabelPresent | logic/distance_calc.py:100-105 | a label has a group exactly when some reliable sample carries it |
| Aggregation.OneRowPerPlace | logic/distance_calc.py:100-123 | exactly one row per distinct label among the reliable samples, and none for any other name |
| Events.Ticks | logic/distance_calc.py:47-48 | `if (i+1) % step == 0` reports at exactly the multiples of the step |
| Scans.AnalysisLogsShape | logic/distance_calc.py:78-93 | after the progress logs come the robust-centroid log, then the warnings, then the reliable count, which is the raw count minus the warnings |
| Scans.AnalysisLogsWarnings | logic/distance_calc.py:85-91 | between those two logs there are only outlier warnings for samples beyond 10 km |
| Scans.DetailedHead | logic/distance_calc.py:25-48 | the detailed scan opens with the start log and thirty progress logs 10/300 … 300/300 |
| Scans.DetailedScanProgress | logic/distance_calc.py:25-48 | whatever the probes answer, the scan's stream begins with that head |
| Scans.DetailedScanLogs | logic/distance_calc.py:20-141 | the detailed scan yields only log events and never a list |
| Scans.DetailedScanNoSample | logic/distance_calc.py:50-54 | the scan returns the "no valid code" row exactly when none of the 300 codes resolves |
| Scans.NeverNoValidCep | logic/distance_calc.py:98-141 | the analysis of samples never ends in the "no valid code" row |
| Scans.CompletedEmpty | logic/distance_calc.py:33-50 | whatever the completion order, nothing is collected exactly when no code resolves |
| Scans.CollectedEmpty | logic/distance_calc.py:39-50 | no raw sample exactly when no probed code resolves |
| Scans.DetailedScanAccounting | logic/distance_calc.py:78-93 | the stream has 33 logs plus one per outlier; the centroid log and the reliable count sit at its two ends |
| Scans.Coordinates | logic/distance_calc.py:151-154 | every point collected is the point of some sample code that resolved; no point at all exactly when no code resolves |
| Scans.CoordinatesOfResolved | logic/distance_calc.py:151-154 | the points collected are, in order, exactly the points of the codes that resolved, one per resolved code |
| Scans.CentreLabelInjective | logic/distance_calc.py:163 | the label "Centro da Raiz (n amostras)" determines `n` |
| Scans.CentreRow | logic/distance_calc.py:158-171 | no point gives the "no sample" row; otherwise a row at the centroid, with its rounded distance and the count |
| Scans.FastScanLogs | logic/distance_calc.py:144-173 | the fast scan yields the start log and five progress logs 2/10 … 10/10, then returns one row |
| Scans.FastScanRow | logic/distance_calc.py:158-173 | the row is the "no sample" row exactly when none of the ten codes resolves; otherwise it counts 1 to 10 samples |
| Scans.FastScanCount | logic/distance_calc.py:151-166 | `ceps_consultados` is the number of sample codes that resolved, and a centre row sits at the centroid of exactly their points |
| Scans.FastScan | logic/distance_calc.py:144-173 | `_calcular_por_centroide_rapido`; its contract is carried by `Scans.FastScanLogs`, `Scans.FastScanRow` and `Scans.FastScanCount` |
| Scans.DetailedScan | logic/distance_calc.py:20-141 | `_calcular_por_varredura_detalhada`; its contract is carried by `Scans.DetailedScanProgress`, `Scans.DetailedScanLogs`, `Scans.DetailedScanNoSample` and `Scans.DetailedScanAccounting` |
| CepLookup.Interpret | logic/calculadora.py:30-51 | a failed request or `erro` moves on; a non-dict body raises; a dict without `erro` gives the coordinate exactly when both field chains read as non-zero floats, with its neighbourhood, moves on when one is zero or a read fails with a caught error, and raises any other error |
| CepLookup.GetCoord | logic/calculadora.py:27-53 | at most one request per service, stopping at the first result or uncaught exception; `(None, None, None)` exactly when all four skip; the cursor advances once per request |
| CepLookup.NotFoundMeansEveryServiceSkipped | logic/calculadora.py:28-53 | whatever the cursor, nothing is found exactly when every one of the four services gives nothing usable |
| CepLookup.AttemptsVisitDistinctServices | logic/calculadora.py:24-29 | within one lookup, no service is asked twice |
| CepService.StripDashes | logic/cep_service.py:29 | the code placed in a URL has no dash and otherwise the same characters |
| CepService.PoolCoordinate | logic/cep_service.py:40-41 | the coordinate chain takes the first truthy of two fields, else the nested `location.coordinates` value |
| CepService.ListAnswer | logic/cep_service.py:34-36 | a list answer gives a result exactly when the first element has `lat` and `lon` that `float` accepts and a `display_name` with a second part; the result is those floats and the stripped second part |
| CepService.ListNeedsSecondComponent | logic/cep_service.py:36 | a `display_name` without a comma makes the list answer fail |
| CepService.DictAnswer | logic/cep_service.py:37-44 | a dict answer with `erro` is skipped; otherwise it gives a result exactly when both coordinate chains are truthy and accepted by `float`, with those floats and the neighbourhood chain |
| CepService.PoolAnswer | logic/cep_service.py:32-47 | a failed request is skipped; a non-empty list and a dict are read; anything else is passed over |
| CepService.Shuffled | logic/cep_service.py:27 | the pool is asked in the order of a permutation of its five services |
| CepService.Fallback | logic/cep_service.py:25-49 | the fallback finds nothing exactly when every pool service fails; otherwise the first success in shuffled order |
| CepService.FallbackVisitsEachOnce | logic/cep_service.py:27 | the fallback never asks a service twice |
| CepService.InfoOf | logic/cep_service.py:63-69 | the address takes `bairro` or `neighborhood`, and `localidade` or `city` |
| CepService.FloatPair | logic/cep_service.py:72-74 | a coordinate pair is read only when `float` accepts both parts |
| CepService.Captured | logic/cep_service.py:70-74 | a truthy `location` with truthy `coordinates` offers its `latitude` and `longitude` floats or the first error; a truthy non-dict `location` raises; otherwise no coordinate unless `lat`/`latitude` is truthy, and then those floats or the first error |
| CepService.LocationPair | logic/cep_service.py:71-72 | the `location.coordinates` pair is read exactly when both keys can be read and `float` accepts both values; a bad latitude is the error reported first |
| CepService.EnrichStep | logic/cep_service.py:57-79 | a failed request changes nothing; an answer with `erro` keeps the state; otherwise the address is rebuilt from the answer, a captured coordinate replaces the old one and an absent one keeps it; a failed request, a non-dict answer or an error while reading the coordinate never breaks the loop, and otherwise it breaks exactly when address and coordinate are both present |
| CepService.Enrich | logic/cep_service.py:56-79 | the enrichment asks one or two services |
| CepService.EnrichStopsEarly | logic/cep_service.py:56-79 | it stops after the first service exactly when that service gave both address and coordinate |
| CepService.FinalBairro | logic/cep_service.py:85 | the neighbourhood is the captured one, or "N/A" when it is falsy |
| CepService.GetInfo | logic/cep_service.py:51-94 | no city goes to the pool; a validated precise geocode wins; then the enrichment coordinate; then the pool |
| CepService.NothingMeansPoolFailed | logic/cep_service.py:81-94 | `(None, None, None)` comes back only after every pool service failed |
| CepService.PreciseOnlyWhenValidated | logic/cep_service.py:87-94 | a precise geocode that fails validation is never returned |
| CepService.Resolve | logic/cep_service.py:51 | the resolver the scans call is `get_info_from_cep` |
| LegacyStream.CodeStep | logic/calculadora.py:82-106 | the lookup decides: a coordinate with both parts non-zero counts a success and logs the code, its neighbourhood and the rounded distance (an unhashable neighbourhood raises TypeError instead); anything else counts a failure and logs "not located"; a lookup exception ends the run; the log carries the percentage of codes processed |
| LegacyStream.GroupRow | logic/calculadora.py:109-115 | a neighbourhood row holds the rounded mean distance, twice it as time, and the codes joined by ", " |
| LegacyStream.PrefixRows | logic/calculadora.py:109-115 | one row per neighbourhood of the prefix, in first-seen order |
| LegacyStream.PrefixRowsFaithful | logic/calculadora.py:95-115 | each row averages exactly the hits of its neighbourhood, in probe order |
| LegacyStream.PrefixRowsOnePerPlace | logic/calculadora.py:95-115 | no neighbourhood has two rows, and every hit's neighbourhood has one |
| LegacyStream.PlannedLength | logic/calculadora.py:69-70 | the plan holds 300 codes per prefix of the range |
| LegacyStream.PlannedCodes | logic/calculadora.py:73-86 | the `k`-th code of the `j`-th prefix is planned at position `300 j + k` |
| LegacyStream.Scan | logic/calculadora.py:73-115 | a run that raised nothing probed exactly the planned codes, one log each in order, with balanced counters |
| LegacyStream.ScanRows | logic/calculadora.py:73-115 | the rows gathered are, prefix by prefix, one row per neighbourhood among the located codes of that prefix's logs, in first-seen order |
| LegacyStream.ScanCompleted | logic/calculadora.py:73-126 | a scan of the whole range followed by `fim` is a completed run |
| LegacyStream.Probe | logic/calculadora.py:67-126 | a run that raised nothing has one progress log per planned code, the `k`-th at `round((k+1)/total*100, 2)`, then a single `fim` whose rows are each prefix's neighbourhood rows built from the located codes of its own logs |
| LegacyStream.Stream | logic/calculadora.py:56-126 | an origin not found gives the lone error; an uncaught lookup exception, a TypeError from an unhashable neighbourhood or a non-integer prefix ends the run without `fim`; a run that raised nothing completes, and its `fim` carries each prefix's neighbourhood rows built from its located codes |
| LegacyStream.ProgressMonotone | logic/calculadora.py:104-106 | the percentage never decreases and ends at `round(100, 2)` |
| LegacyStream.CycleLookup | logic/calculadora.py:20-53 | each lookup on the shared cycle asks one to four services and leaves the cursor just after the last one asked; it finds nothing exactly when all four services give nothing usable |
| App.Forward | app.py:26-40 | the stream reaches `fim`, as its last event, exactly when the calculation yields a list or returns; otherwise it ends with the calculation's own exception |
| App.ForwardSpec | app.py:26-40 | events before the first list are passed on; a list or the return value becomes the single `fim` (`[]` for None); another exception ends the stream without `fim` |
| App.ForwardLogs | app.py:26-40 | a calculation that yields only logs is relayed whole: all logs, then `fim` unless it raised |
| App.Opening | app.py:21-22 | `partida_info` is sent exactly when the current prefix is the initial one |
| App.RelayForwards | app.py:21-40 | after the optional `partida_info`, every log in order, then `fim` with the returned rows, or no `fim` if it raised |
| App.Relay | app.py:21-40 | `partida_info` opens the stream when the current prefix is the initial one; `fim` closes it exactly when the calculation yields a list or returns |
| App.RelayParts | app.py:21-40 | the stream is `partida_info`, the logs, and `fim`; it is aborted exactly when the calculation raised |
| App.RelayProtocol | app.py:21-40 | `partida_info` only first; a single `fim`, last, exactly when not aborted; no `erro` |
| App.RunProtocol | app.py:12-40 | a lone `erro` exactly when the origin is missing; otherwise `partida_info` first iff first prefix, no `erro`, and a single final `fim` iff nothing raised |
| App.Run | app.py:12-40 | unless the calculation raised, the stream closes with `fim` or is the lone `erro`; a missing origin gives exactly one `erro` |
| App.RunFast | app.py:24-40 | with 'rapida', the start log, five progress logs and `fim` with one row, which is the "no sample" row iff none of the ten codes resolves |
| App.RunFastCount | app.py:24-40 | with 'rapida', the single row of `fim` counts exactly the sample codes that resolved |
| App.RelayDetailed | app.py:26-40 | the stream shows the detailed head, and ends in `fim` with given rows exactly when the calculation returned them |
| App.RunDetailed | app.py:24-40 | any other kind runs the detailed scan: its head, and a final "no valid code" `fim` iff none of the 300 codes resolves |
| App.Deploy | app.py:6-7 | the deployed oracles are `get_info_from_cep` and the two scans over it |
| App.DeployedLogsOnly | app.py:24-35 | both deployed calculations yield only logs, never a list |
| App.StreamCalculo | app.py:46-56 | a missing parameter gives the lone error; otherwise the orchestrator runs on non-empty stripped parameters |
| App.MissingParametersIff | app.py:53-56 | the "missing parameters" error is sent exactly when a parameter is missing |
| App.DefaultIsDetailed | app.py:51 | without `tipo_consulta` the detailed scan runs |

## Left out

- HTTP requests, timeouts, status checks and JSON decoding are not modelled. Each service answer is an input (`fetch`, `enrich`, `pool`), and None stands for any failure before a decoded body. The process-wide cycle cursor is threaded through explicitly.
- Concurrency is not modelled. `ThreadPoolExecutor` with `as_completed` becomes a permutation `order` of the 300 probes. `executor.map` keeps submission order, so the fast scan needs none.
- `random.sample` is an input permutation (`Env.shuffle`).
- Floating point is not modelled: distances are `real`. `haversine`, `statistics.stdev` and `round(x, n)` are uninterpreted function parameters. The `StatisticsError` branch cannot arise, because stdev is only taken with more than one distance.
- `float()` of a text and `int()` of a prefix are oracles (`parse`, `intOf`).
- `logic.geocoding` (`get_precise_coord`, `reverse_geocode_and_validate`) is not part of this model. Its two functions are inputs (`Env.precise`, `Env.validate`).
- Logging, `print`, the CSV file written by the older stream and its `download_link`, the JSON text of each `data:` line, Flask routing, templates and `mimetype` are not modelled.
- The exact text of each log message is not modelled; a constructor carries its numbers and names instead.
- Python's equality between `True` and `1` (and `1.0`) as dict keys is not modelled: neighbourhood labels that are different `Json` values are different keys.
- The scans and the resolver reach the orchestrator as functions inside `App.Oracles`. `App.Deploy` builds the ones the application uses. `App.RunProtocol` holds for any calculations that only log, and `App.RunFast` and `App.RunDetailed` for the deployed ones.
- LegacyStream.ProgressMonotone: holds only for a `round` that preserves order, an assumption stated as `RoundMonotone`.
- LegacyStream.Probe: states what a run that raised nothing yields; a run cut short by an exception is described only by `LegacyStream.Scan` (events so far, no `fim`).
- CepLookup.GetCoord: a failed request, an error status and a body that is not JSON are the same `None` answer, so which of them occurred is not tracked.
- App.DefaultIsDetailed: states only the first log of the detailed scan; the rest follows from `App.RunDetailed`.
- App.Deploy: one resolver answers every lookup of a request, so the origin lookup and a scan's lookup of the same code get the same answer. The program asks the services afresh on each call. When the origin code lies in the scanned prefix (01310100 with prefix 01310 is detailed-scan suffix 100), the model cannot show that code found as the origin and then missed by the scan. For example, a found origin whose code is probed never ends in the "no valid code" `fim`.
- CepService.GetInfo: `Env.enrich` and `Env.pool` answer by URL and `Env.shuffle` by code, so repeated lookups of one code see the same answers and the same `random.sample` order. The program makes fresh requests and draws a fresh sample on each call (logic/cep_service.py:27, 30, 59).
- CepService.GetInfo: `get_precise_coord` and `reverse_geocode_and_validate` are total inputs (`Env.precise`, `Env.validate`). In the program they run outside any `try` (logic/cep_service.py:84, 88), so an exception from either leaves `get_info_from_cep`. It aborts the stream, either directly from the origin lookup (app.py:15) or through the scans' thread pool. That path is not modelled.
- The `index` route and `app.run` are not modelled.
