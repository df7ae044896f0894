/**
 * Request sequences against the store, showing what callers can rely on
 * from the handlers' contracts alone: deduplication and self-healing of
 * artifact fetches, the absence of deduplication for analyses, the
 * first-request-to-ranked-answer sequence, and the status callback's
 * ability to report completion before any metrics are cached.
 */
module Scenarios {
  import opened Payloads
  import opened Gateway
  import Dna
  import Sna
  import RankMerge

  /**
   * Two artifact requests in a row, with no fetch completing between them.
   * A request that launches a fetch leaves the key in progress, so the next
   * one launches nothing; a not-found answer resets the key, so the next
   * request of an uncached project launches a fresh fetch; and on a
   * coherent store at most one fetch per key is ever pending.
   */
  method RequestArtifactsTwice(store: Store, owner: string, repo: string)
    returns (first: Reply, launched1: bool, second: Reply, launched2: bool)
    modifies store`artifactsStatuses, store`artifactFetches
    ensures launched1 ==> !launched2
    ensures var key := ProjectKey(owner, repo);
            key !in old(store.artifactsStatuses) && key !in store.artifactsCache ==>
              launched1 && !launched2 && store.artifactFetches[key] == old(store.artifactFetches)[key] + 1
    ensures var key := ProjectKey(owner, repo);
            key in old(store.artifactsStatuses) && old(store.artifactsStatuses)[key].status == StatusNotFound
            && key !in store.artifactsCache ==>
              first.code == HttpNotFound && !launched1 && launched2
    ensures old(store.ArtifactsCoherent()) ==>
              store.ArtifactsCoherent() && store.artifactFetches[ProjectKey(owner, repo)] <= 1
  {
    first, launched1 := Dna.GetArtifacts(store, owner, repo);
    second, launched2 := Dna.GetArtifacts(store, owner, repo);
  }

  /**
   * Two metrics requests in a row for a project with neither a cached
   * result nor a status: both launch an analysis.
   */
  method RequestMetricsTwice(store: Store, owner: string, repo: string)
    returns (launched1: bool, launched2: bool)
    requires ProjectKey(owner, repo) !in store.projectCache
    requires ProjectKey(owner, repo) !in store.projectStatuses
    modifies store`analyses
    ensures launched1 && launched2
    ensures store.analyses[ProjectKey(owner, repo)] == old(store.analyses)[ProjectKey(owner, repo)] + 2
  {
    var reply1, reply2;
    reply1, launched1 := Sna.GetMetrics(store, owner, repo);
    reply2, launched2 := Sna.GetMetrics(store, owner, repo);
  }

  /**
   * Two metrics requests for a fresh project launch two analyses; the
   * first answers 200 and caches the project as complete, the second
   * answers 500 and marks it error. The cached project stays, so on the
   * project side a cached result does not imply a complete status.
   */
  method SecondAnalysisLeavesCachedError(project: Project) returns (store: Store)
    ensures ProjectKey("acme", "widget") in store.projectCache
    ensures store.projectCache[ProjectKey("acme", "widget")] == project
    ensures ProjectKey("acme", "widget") in store.projectStatuses
    ensures store.projectStatuses[ProjectKey("acme", "widget")] == Status(StatusError, "")
    ensures store.analyses == multiset{}
    ensures store.ProjectsCoherent()
  {
    store := new Store();
    var reply1, launched1 := Sna.GetMetrics(store, "acme", "widget");
    var reply2, launched2 := Sna.GetMetrics(store, "acme", "widget");
    Sna.TriggerAnalysis(store, "acme", "widget", HttpOk, project);
    Sna.TriggerAnalysis(store, "acme", "widget", HttpInternalServerError, project);
  }

  /**
   * The four keyed stores are independent: writing a status, a project
   * status, a cached project and a cached graph under one name and reading
   * them back returns each value found, and the PageRank table and the
   * pending background calls are untouched.
   */
  method AccessorsRoundTrip(store: Store, projectName: string, projectStatus: Status, artifactsStatus: Status,
                            project: Project, artifacts: Artifacts)
    returns (s1: Status, found1: bool, s2: Status, found2: bool,
             p: Project, found3: bool, a: Artifacts, found4: bool)
    modifies store`projectStatuses, store`artifactsStatuses, store`projectCache, store`artifactsCache
    ensures (s1, found1) == (projectStatus, true)
    ensures (s2, found2) == (artifactsStatus, true)
    ensures (p, found3) == (project, true)
    ensures (a, found4) == (artifacts, true)
    ensures store.projectStatuses == old(store.projectStatuses)[projectName := projectStatus]
    ensures store.artifactsStatuses == old(store.artifactsStatuses)[projectName := artifactsStatus]
    ensures store.projectCache == old(store.projectCache)[projectName := project]
    ensures store.artifactsCache == old(store.artifactsCache)[projectName := artifacts]
    ensures store.pageRanks == old(store.pageRanks)
    ensures store.artifactFetches == old(store.artifactFetches) && store.analyses == old(store.analyses)
  {
    store.SetProjectStatus(projectName, projectStatus);
    store.SetArtifactsStatus(projectName, artifactsStatus);
    store.SetProjectCache(projectName, project);
    store.SetArtifactsCache(projectName, artifacts);
    s1, found1 := store.GetProjectStatus(projectName);
    s2, found2 := store.GetArtifactsStatus(projectName);
    p, found3 := store.GetProjectFromCache(projectName);
    a, found4 := store.GetArtifactFromCache(projectName);
  }

  /**
   * A cold gateway asked for acme/widget answers 202 in progress; the
   * dependency back end then returns one artifact "x" that the empty
   * PageRank table lacks, so the table is refreshed to one that ranks "x"
   * 3 with PageRank 0.5; the next request answers 200 with "x" ranked and
   * a max rank of 3.
   */
  method ColdStartToRankedAnswer() returns (first: Reply, last: Reply)
    ensures first == StatusBody(HttpAccepted, StatusInProgress, Dna.FetchingArtifactsMsg)
    ensures last.ArtifactsBody? && last.code == HttpOk
    ensures last.response.artifacts == [ArtifactStats("x", "widget-core", "com.acme", "library", 7, 0x3F00_0000, 3)]
    ensures last.response.projectStats == ProjectArtifactsStats(3, 0, 0, 0)
  {
    StatusConstantsDistinct();
    var store := new Store();
    var key := ProjectKey("acme", "widget");
    var launched;
    first, launched := Dna.GetArtifacts(store, "acme", "widget");
    assert key in store.artifactFetches;

    var raw := ArtifactStats("x", "widget-core", "com.acme", "library", 7, 0, 0);
    var graph := Artifacts(map["x" := raw], map[], map[], map[]);
    var table := map["x" := Ranks(3, 0x3F00_0000)];
    var ok := Dna.FetchArtifacts(store, "acme", "widget", HttpOk, graph, HttpOk, table);
    assert store.pageRanks == table;
    assert store.artifactsCache == map[key := graph];
    assert store.artifactsStatuses[key] == Status(StatusComplete, "");

    last, launched := Dna.GetArtifacts(store, "acme", "widget");
    SingleArtifactResponse(last.response, "x", raw, table);
  }

  /** The ranked response for a graph of one ranked artifact and nothing else. */
  lemma SingleArtifactResponse(response: ArtifactsResponse, id: string, artifact: ArtifactStats, ranks: map<string, Ranks>)
    requires RankMerge.IsRankedResponse(response, Artifacts(map[id := artifact], map[], map[], map[]), ranks)
    requires id in ranks
    ensures response.artifacts == [RankMerge.Ranked(artifact, ranks[id])]
    ensures response.projectStats == ProjectArtifactsStats(ranks[id].overallRank, 0, 0, 0)
  {
    RankMerge.RankMergeSingleton(response.artifacts, id, artifact, ranks);
    RankMerge.RankMergeLength(response.directDependencies, map[], ranks);
    RankMerge.RankMergeLength(response.transitiveDependencies, map[], ranks);
    RankMerge.RankMergeLength(response.dependents, map[], ranks);
    assert response.artifacts[1..] == [];
    assert RankMerge.ScanRank(-1, response.artifacts) == RankMerge.ScanRank(ranks[id].overallRank, []);
  }

  /**
   * The status callback may post "complete" for a project whose metrics
   * are not cached, after which a complete status no longer implies a
   * cached result.
   */
  method CallbackCompletesUncachedProject() returns (store: Store, reply: Reply)
    ensures reply == BareReply(HttpOk)
    ensures store.projectStatuses == map["acme/widget" := Status(StatusComplete, "")]
    ensures store.projectCache == map[]
    ensures !store.ProjectsCoherent()
  {
    store := new Store();
    reply := UpdateProjectStatus(store, Decoded(IncomingStatus(StatusComplete, "", "acme/widget")));
    assert store.projectStatuses["acme/widget"].status == StatusComplete;
  }
}
