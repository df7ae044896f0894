/**
 * The gateway's shared state (main.go): the lifecycle status of every
 * project for each of the two resource kinds, the two result caches and
 * the global PageRank table, with their accessors and the status
 * callback that the software network back end posts to.
 *
 * The Go program keeps these in package-level variables, each map behind
 * its own mutex; here they are the fields of one `Store` object that the
 * handlers are given. Each accessor's `modifies` clause names the single
 * field it writes, so every other map is unchanged by it.
 */
module Gateway {
  import opened Payloads

  // ---------------------------------------------------------------------
  // Status values
  // ---------------------------------------------------------------------

  const StatusError := "error"
  const StatusNotFound := "not_found"
  const StatusComplete := "complete"
  const StatusInProgress := "in_progress"
  const StatusCannotParse := "cannot_parse"

  /** The lifecycle status of one project for one resource kind. */
  datatype Status = Status(status: string, msg: string)

  /** Go's zero `Status{}`: what a reset writes and what a failed lookup returns. */
  const ZeroStatus := Status("", "")

  lemma StatusConstantsDistinct()
    ensures StatusError != StatusNotFound && StatusError != StatusComplete
    ensures StatusError != StatusInProgress && StatusError != StatusCannotParse
    ensures StatusNotFound != StatusComplete && StatusNotFound != StatusInProgress
    ensures StatusNotFound != StatusCannotParse
    ensures StatusComplete != StatusInProgress && StatusComplete != StatusCannotParse
    ensures StatusInProgress != StatusCannotParse
    ensures ZeroStatus.status !in {StatusError, StatusNotFound, StatusComplete, StatusInProgress, StatusCannotParse}
  {
  }

  // ---------------------------------------------------------------------
  // Keys
  // ---------------------------------------------------------------------

  /** The key of a project in every status map and cache. */
  function ProjectKey(owner: string, repo: string): string
  {
    owner + "/" + repo
  }

  /**
   * Distinct (owner, repo) pairs get distinct keys, as long as the owner
   * holds no slash (the router never extracts an owner holding one).
   */
  lemma ProjectKeyInjective(owner1: string, repo1: string, owner2: string, repo2: string)
    requires '/' !in owner1 && '/' !in owner2
    ensures ProjectKey(owner1, repo1) == ProjectKey(owner2, repo2) <==> owner1 == owner2 && repo1 == repo2
  {
    var k1, k2 := ProjectKey(owner1, repo1), ProjectKey(owner2, repo2);
    if k1 == k2 {
      // The first slash of the shared key sits right after either owner.
      assert forall j :: 0 <= j < |owner1| ==> k1[j] == owner1[j] != '/';
      assert forall j :: 0 <= j < |owner2| ==> k2[j] == owner2[j] != '/';
      assert k1[|owner1|] == '/' && k2[|owner2|] == '/';
      assert |owner1| == |owner2|;
      assert owner1 == k1[..|owner1|] == k2[..|owner2|] == owner2;
      assert repo1 == k1[|owner1| + 1..] == k2[|owner2| + 1..] == repo2;
    }
  }

  // ---------------------------------------------------------------------
  // Requests and replies at the HTTP boundary
  // ---------------------------------------------------------------------

  const HttpOk := 200
  const HttpAccepted := 202
  const HttpBadRequest := 400
  const HttpNotFound := 404
  const HttpInternalServerError := 500
  const HttpServiceUnavailable := 503

  /** The outcome of decoding a JSON body. */
  datatype Decoded<T> = Decoded(value: T) | DecodeError

  /** The body the software network back end posts to the status callback. */
  datatype IncomingStatus = IncomingStatus(status: string, msg: string, projectName: string)

  /** What a handler writes back: an HTTP code and one kind of JSON body. */
  datatype Reply =
    | StatusBody(code: int, status: string, msg: string)
    | ProjectBody(code: int, project: Project)
    | ArtifactsBody(code: int, response: ArtifactsResponse)
    | BareReply(code: int)   // no JSON body: an empty 200, or the plain-text error of a 400

  // ---------------------------------------------------------------------
  // The store
  // ---------------------------------------------------------------------

  class Store {
    var projectStatuses: map<string, Status>
    var artifactsStatuses: map<string, Status>
    var projectCache: map<string, Project>
    var artifactsCache: map<string, Artifacts>
    var pageRanks: map<string, Ranks>

    /**
     * The background calls launched by the handlers and not yet run, by
     * project key: dependency-graph fetches and analysis triggers.
     */
    var artifactFetches: multiset<string>
    var analyses: multiset<string>

    /** Every map starts empty and nothing is in flight. */
    constructor ()
      ensures projectStatuses == map[] && artifactsStatuses == map[]
      ensures projectCache == map[] && artifactsCache == map[] && pageRanks == map[]
      ensures artifactFetches == multiset{} && analyses == multiset{}
      ensures ArtifactsCoherent() && ProjectsCoherent()
    {
      projectStatuses, artifactsStatuses := map[], map[];
      projectCache, artifactsCache, pageRanks := map[], map[], map[];
      artifactFetches, analyses := multiset{}, multiset{};
    }

    /**
     * A dependency graph is cached exactly when its status is complete,
     * and every pending fetch is the only one for its key, which is
     * marked in progress and not cached.
     */
    ghost predicate ArtifactsCoherent()
      reads this
    {
      && (forall k :: k in artifactsCache ==> k in artifactsStatuses && artifactsStatuses[k].status == StatusComplete)
      && (forall k :: k in artifactsStatuses && artifactsStatuses[k].status == StatusComplete ==> k in artifactsCache)
      && (forall k :: k in artifactFetches ==>
            && artifactFetches[k] == 1
            && k in artifactsStatuses && artifactsStatuses[k].status == StatusInProgress
            && k !in artifactsCache)
    }

    /** A project whose status is complete has its metrics cached. */
    ghost predicate ProjectsCoherent()
      reads this
    {
      forall k :: k in projectStatuses && projectStatuses[k].status == StatusComplete ==> k in projectCache
    }

    method SetProjectStatus(projectName: string, status: Status)
      modifies this`projectStatuses
      ensures projectStatuses == old(projectStatuses)[projectName := status]
    {
      projectStatuses := projectStatuses[projectName := status];
    }

    method GetProjectStatus(projectName: string) returns (status: Status, found: bool)
      ensures found <==> projectName in projectStatuses
      ensures found ==> status == projectStatuses[projectName]
      ensures !found ==> status == ZeroStatus
    {
      found := projectName in projectStatuses;
      status := if found then projectStatuses[projectName] else ZeroStatus;
    }

    method SetArtifactsStatus(projectName: string, status: Status)
      modifies this`artifactsStatuses
      ensures artifactsStatuses == old(artifactsStatuses)[projectName := status]
    {
      artifactsStatuses := artifactsStatuses[projectName := status];
    }

    method GetArtifactsStatus(projectName: string) returns (status: Status, found: bool)
      ensures found <==> projectName in artifactsStatuses
      ensures found ==> status == artifactsStatuses[projectName]
      ensures !found ==> status == ZeroStatus
    {
      found := projectName in artifactsStatuses;
      status := if found then artifactsStatuses[projectName] else ZeroStatus;
    }

    method SetProjectCache(projectName: string, project: Project)
      modifies this`projectCache
      ensures projectCache == old(projectCache)[projectName := project]
    {
      projectCache := projectCache[projectName := project];
    }

    method GetProjectFromCache(projectName: string) returns (project: Project, found: bool)
      ensures found <==> projectName in projectCache
      ensures found ==> project == projectCache[projectName]
      ensures !found ==> project == ZeroProject
    {
      found := projectName in projectCache;
      project := if found then projectCache[projectName] else ZeroProject;
    }

    method SetArtifactsCache(projectName: string, artifacts: Artifacts)
      modifies this`artifactsCache
      ensures artifactsCache == old(artifactsCache)[projectName := artifacts]
    {
      artifactsCache := artifactsCache[projectName := artifacts];
    }

    method GetArtifactFromCache(projectName: string) returns (artifacts: Artifacts, found: bool)
      ensures found <==> projectName in artifactsCache
      ensures found ==> artifacts == artifactsCache[projectName]
      ensures !found ==> artifacts == ZeroArtifacts
    {
      found := projectName in artifactsCache;
      artifacts := if found then artifactsCache[projectName] else ZeroArtifacts;
    }
  }

  /**
   * The status callback: a body that decodes sets the named project's
   * status to the posted status and message; one that does not is
   * answered 400 and writes nothing.
   */
  method UpdateProjectStatus(store: Store, body: Decoded<IncomingStatus>) returns (reply: Reply)
    modifies store`projectStatuses
    ensures body.DecodeError? ==> reply == BareReply(HttpBadRequest) && store.projectStatuses == old(store.projectStatuses)
    ensures body.Decoded? ==>
              && reply == BareReply(HttpOk)
              && store.projectStatuses == old(store.projectStatuses)[body.value.projectName := Status(body.value.status, body.value.msg)]
  {
    if body.DecodeError? {
      return BareReply(HttpBadRequest);
    }
    var incoming := body.value;
    store.SetProjectStatus(incoming.projectName, Status(incoming.status, incoming.msg));
    reply := BareReply(HttpOk);
  }
}
