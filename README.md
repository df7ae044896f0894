# Software network analysis gateway: fetch coordination and rank merging

This project models the core of a Go gateway that sits in front of two analysis
back ends. The software network analysis (SNA) back end computes per-project
metrics. The dependency network analysis (DNA) back end computes a project's
artifact dependency graph and a global PageRank table. For a project
`owner/repo`, the gateway does one of three things. It answers from its
in-memory caches, it reports the status of an analysis already under way, or
it launches a background request to a back end and answers at once.

The model has six modules:

- `Payloads` (`payloads.dfy`): the records exchanged with the back ends and the
  clients. These are `ArtifactStats`, `Artifacts`, `ArtifactsResponse`, `Ranks`
  and `Project` with its parts. `float32` fields are carried as 32-bit
  patterns (`bv32`), because the gateway only ever copies them.
- `Gateway` (`gateway.dfy`, main.go): the five status constants and `Status`.
  `ProjectKey` builds `owner + "/" + repo`. The class `Store` holds the
  package-level maps: project statuses, artifact statuses, the project cache,
  the artifact cache and the PageRank table. Its `Set*`/`Get*` accessors and
  the status callback `UpdateProjectStatus` are here too. Each setter's
  `modifies` clause names the one field it writes, so every other map is
  provably unchanged. A failed lookup returns Go's zero value together with
  `found == false`.
- `RankMerge` (`rank_merge.dfy`, dna.go): `addRank`, `artifactsWithRank`,
  `artifactsInCache` and `getProjectOverallStats` as loops over the id-keyed
  maps. The caller passes the PageRank table snapshot in; the Go code reads it
  under its lock. Go walks a map in an unspecified order. So a merged list is
  specified by `IsRankMerge`: it is what the walk produces for *some*
  enumeration of the keys. The lemmas show that the entries, up to order, and
  the length do not depend on that order.
- `Dna` (`dna.go`): `getArtifacts`, `fetchArtifacts` and `fetchPageRanks`.
- `Sna` (`sna.go`): `getMetrics` and `triggerAnalysis`.
- `Scenarios`: request sequences built only from the contracts above. They cover
  deduplication and self-healing of artifact fetches, repeated analyses, the
  path from a cold start to a ranked answer, and the callback.

A `go f(...)` launch becomes an entry in one of two multisets in the store:
`artifactFetches` and `analyses`. These hold the background calls launched and
not yet run, by project key. The background call itself (`FetchArtifacts` or
`TriggerAnalysis`) is a separate method, called later. The back end's HTTP
status code and decoded body are its parameters. It requires that its launch
was recorded, and it removes that record. `FetchArtifacts` also takes the code
and table of the PageRank request that it may need to make.

`Store.ArtifactsCoherent` is the invariant of the artifact side. It says three
things:

- A dependency graph is cached exactly when its status is `complete`.
- Each pending fetch is the only one for its key.
- A key with a pending fetch is `in_progress` and not cached.

The store starts out satisfying it. `GetArtifacts`, `FetchArtifacts` and
`FetchPageRanks` preserve it. The single-map setters do not preserve it on
their own; the handlers call them in an order that does. The scenarios use it to show that two back-to-back requests never launch
two fetches for one project.

On the project side, `Store.ProjectsCoherent` says that `complete` implies a
cached result. `GetMetrics` and `TriggerAnalysis` preserve it. The status
callback does not preserve it.

Only `ArtifactsCoherent` carries the converse, "cached implies complete". On
the project side it does not hold. A project analysed twice, first with a 200
answer and then with a 500 answer, stays cached with status `error`
(`Scenarios.SecondAnalysisLeavesCachedError`). `getMetrics` answers from the
cache first, so such a project is still served.

The program behaves as follows in some corner cases:

- `triggerAnalysis` caches the decoded body and sets `complete` for every code
  other than 500, 404 and 503. It does not leave the state alone for unlisted
  codes.
- `getMetrics` never writes `in_progress`. So two metrics requests for an
  unanalysed project launch two analyses (`Scenarios.RequestMetricsTwice`).
  Metrics requests get no deduplication, unlike artifact requests.
- `getMetrics` answers a known status, `not_found` included, with HTTP 200. It
  does not use 404 for it.
- The status callback can record `complete` for a project that has no cached
  metrics (`Scenarios.CallbackCompletesUncachedProject`). After that, a
  `complete` project status no longer implies a cached result.
- `fetchArtifacts` checks only the project's own artifacts (the `Artifacts`
  collection) against the PageRank table before deciding to refresh it. It
  does not check the dependency collections. It answers every non-200 code
  with the same `not_found` status.

## Model

| member | source | states |
|---|---|---|
| `Gateway.StatusConstantsDistinct` | main.go:13-19 | the five status strings are pairwise distinct, and the empty status `Status{}` is none of them |
| `Gateway.ProjectKeyInjective` | sna.go:64 | the `owner/repo` key, which both handlers form (also dna.go:59 and sna.go:101), determines owner and repo whenever the owner holds no slash |
| `Gateway.Store.constructor` | main.go:150-154 | every map starts empty and nothing is in flight, so any get on a key never set reports not found; both coherence invariants hold from the start |
| `Gateway.Store.SetProjectStatus` | main.go:81-85 | the project-status map is overwritten at one key, and no other map changes |
| `Gateway.Store.GetProjectStatus` | main.go:87-92 | found exactly when the key is present, with the stored status, else Go's zero status; with the setter this is the round trip `(s, true)` |
| `Gateway.Store.SetArtifactsStatus` | main.go:94-98 | the artifact-status map is overwritten at one key, independently of project statuses |
| `Gateway.Store.GetArtifactsStatus` | main.go:100-105 | found exactly when the key is present in the artifact-status map, with the stored status, else the zero status |
| `Gateway.Store.SetProjectCache` | main.go:107-111 | the project cache is overwritten at one key, and no other map changes |
| `Gateway.Store.GetProjectFromCache` | main.go:113-118 | found exactly when the key is cached, with the cached project, else the zero project |
| `Gateway.Store.SetArtifactsCache` | main.go:120-124 | the artifact cache is overwritten at one key, and no other map changes |
| `Gateway.Store.GetArtifactFromCache` | main.go:126-131 | found exactly when the key is cached, with the cached graph, else the zero graph |
| `Gateway.UpdateProjectStatus` | main.go:67-79 | a decoded body sets the status at `ProjectName` to the posted `{Status, Msg}`; a decode error answers 400 and writes nothing |
| `RankMerge.AddRank` | dna.go:133-151 | the result is the walk over the collection's keys in some order that keeps exactly the ids found in the table |
| `RankMerge.ArtifactsWithRank` | dna.go:106-116 | each of the four collections is merged independently against the same table snapshot, with zero aggregates |
| `RankMerge.GetProjectOverallStats` | dna.go:118-131 | max rank follows the literal `<` / `max == -1` scan: -1 for no artifacts, the smallest overall rank when all are non-negative; the three counts are the list lengths |
| `RankMerge.ArtifactsInCache` | dna.go:174-183 | true exactly when every key of the collection is a key of the table (so true for an empty collection); the table is a value and is not changed |
| `RankMerge.KeepRankedPermutation` | dna.go:135-149 | visiting the same keys in another order keeps the same multiset of entries |
| `RankMerge.RankMergeOrderIndependent` | dna.go:135-149 | map iteration order does not matter: two merges of one collection against one table hold the same entries |
| `RankMerge.RankMergeLength` | dna.go:133-151 | a merge has one entry per ranked key: at most the collection's size, and equal to it exactly when every key is ranked |
| `RankMerge.RankMergeContents` | dna.go:136-145 | for every ranked key the merge holds the artifact's id, name, group, type and internal id with the table's PageRank and overall rank, and holds nothing else |
| `RankMerge.RankMergeDropsUnranked` | dna.go:136-148 | when artifacts are filed under their own ids, no unranked artifact appears, and each entry carries its table entry's figures |
| `RankMerge.RankMergeSingleton` | dna.go:133-151 | a one-artifact collection merges to that artifact ranked, or to nothing if it is unranked |
| `RankMerge.ScanRankFromSentinel` | dna.go:119-123 | over non-negative ranks, the scan from -1 returns a rank in the list that no rank in the list undercuts |
| `RankMerge.ScanRankForgetsMinusOne` | dna.go:119-123 | an artifact whose overall rank equals the -1 sentinel is overwritten by the next one, so the scan need not return the minimum |
| `Dna.GetArtifacts` | dna.go:59-103 | in_progress answers 202 and changes nothing; not_found answers 404 and resets the status to `Status{}`; otherwise a cached graph answers 200 with the ranked response and changes nothing; otherwise the status becomes in_progress "Fetching artifacts.", one fetch is launched, and the answer is 202; the coherence invariant is preserved |
| `Dna.FetchPageRanks` | dna.go:153-172 | a 200 answer replaces the whole table; any other code leaves it; the coherence invariant is preserved |
| `Dna.FetchArtifacts` | dna.go:185-208 | on 200: caches the graph, replaces the table only if one of the project's artifacts is unranked, then sets complete. Any other code sets not_found with the fixed message and leaves the cache and table. The pending fetch is consumed and coherence is preserved |
| `Sna.GetMetrics` | sna.go:64-98 | a cache hit answers the project and launches nothing; otherwise a status other than error is reported and nothing is launched; otherwise one analysis is launched with 202 "initiating_parsing"; no status or cache is ever written, so "complete implies cached" is preserved |
| `Sna.TriggerAnalysis` | sna.go:100-132 | 500 sets error, 404 sets not_found and 503 sets cannot_parse with its fixed message, none touching the cache; any other code caches the project, then sets complete; "complete implies cached" is preserved |
| `Scenarios.RequestArtifactsTwice` | dna.go:64-98 | of two back-to-back requests at most one launches a fetch; a cold key launches exactly one; a not_found key answers 404 once, then re-launches; a coherent store never has two pending fetches per key |
| `Scenarios.RequestMetricsTwice` | sna.go:76-97 | for a project with no cache entry and no status, two back-to-back metrics requests both launch an analysis |
| `Scenarios.SecondAnalysisLeavesCachedError` | sna.go:100-132 | two metrics requests launch two analyses; a 200 answer then a 500 answer leave the project cached with status error, so a cached project need not be complete |
| `Scenarios.AccessorsRoundTrip` | main.go:81-131 | a value set under a name in each of the four keyed maps is read back as `(value, true)`; each map changes at that name only, with every other key and value kept, and the PageRank table and pending calls are untouched |
| `Scenarios.ColdStartToRankedAnswer` | dna.go:59-208 | cold request answers 202 in progress; a fetch of one unranked artifact refreshes the table; the next request answers 200 with the artifact ranked 3, PageRank 0.5 and max rank 3 |
| `Scenarios.CallbackCompletesUncachedProject` | main.go:67-79 | the callback can post complete for an uncached project, after which "complete implies cached" fails |

## Left out

- HTTP routing, the CORS/content-type middleware, `main`, and extraction of `owner`/`repo` from the route are not modelled. A missing route variable makes the handler return without writing anything, which the HTTP server sends as an empty 200. These parts are plumbing.
- JSON encoding and decoding is not modelled. A back-end body enters as the value the decoder produced. The Go code only logs a decode error and goes on with that value, so a parameter stands for either case. Only the status callback turns a decode error into an answer (400), and that is modelled with `Decoded`.
- Transport failures are not modelled. When a back-end request fails, the Go code dereferences a nil response and the goroutine panics. That is a crash, not behaviour to model.
- Mutexes and goroutine interleavings are not modelled. A launched call runs, in full, at a later method call. This hides three effects. First, `getArtifacts` starts its fetch before it writes `in_progress`, so a fast fetch can be overwritten. Second, `getArtifactsStatus` locks the project-status mutex (main.go:101) while it reads the artifact-status map. Third, the status read (dna.go:64) and the `in_progress` write (dna.go:94) are separate critical sections, so two overlapping requests for a cold project can both pass the check and both run `go fetchArtifacts` (dna.go:92). The deduplication proved here holds only for requests that do not overlap.
- Logging, `logTime` and the handling of response write errors are not modelled. They have no effect on state.
- PageRank, network complexity and code churn are `float32` bit patterns and are never interpreted.
- Go's 64-bit `int` wrap-around is not modelled for overall ranks, internal ids and counts. The gateway only copies and compares them, and the counts are collection lengths.
