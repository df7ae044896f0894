/**
 * The dependency-network side of the gateway (dna.go): the request
 * handler for a project's ranked artifacts, and the background fetch of
 * its dependency graph with the PageRank bootstrap refresh.
 *
 * `go fetchArtifacts(owner, repo)` is modelled as recording the project
 * key in `store.artifactFetches`; the fetch itself is `FetchArtifacts`,
 * called later with the back end's HTTP status code and decoded body as
 * parameters (and, for the refresh it may need, those of the PageRank
 * request).
 */
module Dna {
  import opened Payloads
  import opened Gateway
  import RankMerge

  const FetchingArtifactsMsg := "Fetching artifacts."
  const InvalidGraphMsg := "Cannot parse invalid project's dependency graph."

  /**
   * getArtifacts. The artifact status is checked first: in progress is
   * answered 202, not found is answered 404 and reset to the empty status.
   * Otherwise a cached graph is answered 200, merged against the current
   * PageRank table. Otherwise a fetch is launched and the key marked in
   * progress. Only the artifact status map and the pending fetches change.
   */
  method GetArtifacts(store: Store, owner: string, repo: string) returns (reply: Reply, launched: bool)
    modifies store`artifactsStatuses, store`artifactFetches
    ensures var key := ProjectKey(owner, repo);
            var statuses := old(store.artifactsStatuses);
            if key in statuses && statuses[key].status == StatusInProgress then
              && reply == StatusBody(HttpAccepted, StatusInProgress, statuses[key].msg)
              && !launched
              && store.artifactsStatuses == statuses
              && store.artifactFetches == old(store.artifactFetches)
            else if key in statuses && statuses[key].status == StatusNotFound then
              && reply == StatusBody(HttpNotFound, StatusNotFound, statuses[key].msg)
              && !launched
              && store.artifactsStatuses == statuses[key := ZeroStatus]
              && store.artifactFetches == old(store.artifactFetches)
            else if key in store.artifactsCache then
              && reply.ArtifactsBody? && reply.code == HttpOk
              && RankMerge.IsRankedResponse(reply.response, store.artifactsCache[key], store.pageRanks)
              && !launched
              && store.artifactsStatuses == statuses
              && store.artifactFetches == old(store.artifactFetches)
            else
              && reply == StatusBody(HttpAccepted, StatusInProgress, FetchingArtifactsMsg)
              && launched
              && store.artifactsStatuses == statuses[key := Status(StatusInProgress, FetchingArtifactsMsg)]
              && store.artifactFetches == old(store.artifactFetches) + multiset{key}
    ensures old(store.ArtifactsCoherent()) ==> store.ArtifactsCoherent()
  {
    var key := ProjectKey(owner, repo);
    var status, found := store.GetArtifactsStatus(key);
    if found && (status.status == StatusInProgress || status.status == StatusNotFound) {
      if status.status == StatusNotFound {
        reply := StatusBody(HttpNotFound, status.status, status.msg);
        // Reset so that a later request may fetch the graph again.
        store.SetArtifactsStatus(key, ZeroStatus);
      } else {
        reply := StatusBody(HttpAccepted, status.status, status.msg);
      }
      return reply, false;
    }

    var artifacts, cached := store.GetArtifactFromCache(key);
    if cached {
      var response := RankMerge.ArtifactsWithRank(artifacts, store.pageRanks);
      var stats := RankMerge.GetProjectOverallStats(response);
      response := response.(projectStats := stats);
      return ArtifactsBody(HttpOk, response), false;
    }

    store.artifactFetches := store.artifactFetches + multiset{key};
    var inProgress := Status(StatusInProgress, FetchingArtifactsMsg);
    store.SetArtifactsStatus(key, inProgress);
    reply := StatusBody(HttpAccepted, inProgress.status, inProgress.msg);
    launched := true;
  }

  /** fetchPageRanks: a 200 answer replaces the whole table; any other code leaves it. */
  method FetchPageRanks(store: Store, code: int, ranks: map<string, Ranks>)
    modifies store`pageRanks
    ensures store.pageRanks == if code == HttpOk then ranks else old(store.pageRanks)
    ensures old(store.ArtifactsCoherent()) ==> store.ArtifactsCoherent()
  {
    if code == HttpOk {
      store.pageRanks := ranks;
    }
  }

  /**
   * fetchArtifacts, run as a launched background fetch. On 200 the graph
   * is cached, the PageRank table is refreshed (with `rankCode` and
   * `rankTable`, the answer of the PageRank request) only if one of the
   * project's own artifacts is unranked, and the status becomes complete.
   * Any other code marks the project not found and leaves the cache and
   * the table alone.
   */
  method FetchArtifacts(store: Store, owner: string, repo: string, code: int, artifacts: Artifacts,
                        rankCode: int, rankTable: map<string, Ranks>) returns (ok: bool)
    requires ProjectKey(owner, repo) in store.artifactFetches
    modifies store`artifactsCache, store`artifactsStatuses, store`pageRanks, store`artifactFetches
    ensures ok <==> code == HttpOk
    ensures store.artifactFetches == old(store.artifactFetches) - multiset{ProjectKey(owner, repo)}
    ensures code == HttpOk ==>
              && store.artifactsCache == old(store.artifactsCache)[ProjectKey(owner, repo) := artifacts]
              && store.artifactsStatuses == old(store.artifactsStatuses)[ProjectKey(owner, repo) := Status(StatusComplete, "")]
              && store.pageRanks == if artifacts.artifacts.Keys <= old(store.pageRanks).Keys || rankCode != HttpOk
                                    then old(store.pageRanks) else rankTable
    ensures code != HttpOk ==>
              && store.artifactsCache == old(store.artifactsCache)
              && store.pageRanks == old(store.pageRanks)
              && store.artifactsStatuses == old(store.artifactsStatuses)[ProjectKey(owner, repo) := Status(StatusNotFound, InvalidGraphMsg)]
    ensures old(store.ArtifactsCoherent()) ==> store.ArtifactsCoherent()
  {
    var key := ProjectKey(owner, repo);
    store.artifactFetches := store.artifactFetches - multiset{key};
    if code == HttpOk {
      store.SetArtifactsCache(key, artifacts);
      // A project new to the system: rebuild the table so that its artifacts are ranked.
      var allRanked := RankMerge.ArtifactsInCache(artifacts.artifacts, store.pageRanks);
      if !allRanked {
        FetchPageRanks(store, rankCode, rankTable);
      }
      store.SetArtifactsStatus(key, Status(StatusComplete, ""));
      return true;
    }
    store.SetArtifactsStatus(key, Status(StatusNotFound, InvalidGraphMsg));
    return false;
  }
}
