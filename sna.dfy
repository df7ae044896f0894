/**
 * The software-network side of the gateway (sna.go): the request handler
 * for a project's metrics and the background request that triggers its
 * analysis.
 *
 * `go triggerAnalysis(owner, repo)` is modelled as recording the project
 * key in `store.analyses`; the request itself is `TriggerAnalysis`,
 * called later with the back end's HTTP status code and decoded body.
 */
module Sna {
  import opened Payloads
  import opened Gateway

  const InitiatingParsing := "initiating_parsing"
  const AnalysingMsg := "Analysing project."
  const StandaloneMsg := "Project cannot be analysed as it has not been parsed and system is running in standalone mode."

  /**
   * getMetrics. The cache is checked first; then any status other than
   * error is reported as it is; otherwise an analysis is launched. It
   * never writes a status, so nothing stops a second analysis of a
   * project whose first has not answered yet.
   */
  method GetMetrics(store: Store, owner: string, repo: string) returns (reply: Reply, launched: bool)
    modifies store`analyses
    ensures var key := ProjectKey(owner, repo);
            if key in store.projectCache then
              && reply == ProjectBody(HttpOk, store.projectCache[key])
              && !launched
              && store.analyses == old(store.analyses)
            else if key in store.projectStatuses && store.projectStatuses[key].status != StatusError then
              && reply == StatusBody(HttpOk, store.projectStatuses[key].status, store.projectStatuses[key].msg)
              && !launched
              && store.analyses == old(store.analyses)
            else
              && reply == StatusBody(HttpAccepted, InitiatingParsing, AnalysingMsg)
              && launched
              && store.analyses == old(store.analyses) + multiset{key}
    ensures old(store.ProjectsCoherent()) ==> store.ProjectsCoherent()
  {
    var key := ProjectKey(owner, repo);
    var project, cached := store.GetProjectFromCache(key);
    if cached {
      return ProjectBody(HttpOk, project), false;
    }

    var status, found := store.GetProjectStatus(key);
    if found && status.status != StatusError {
      return StatusBody(HttpOk, status.status, status.msg), false;
    }

    store.analyses := store.analyses + multiset{key};
    reply := StatusBody(HttpAccepted, InitiatingParsing, AnalysingMsg);
    launched := true;
  }

  /**
   * triggerAnalysis, run as a launched background request. 500, 404 and
   * 503 set the error, not-found and cannot-parse statuses and leave the
   * cache alone; any other code caches the decoded project and then marks
   * it complete.
   */
  method TriggerAnalysis(store: Store, owner: string, repo: string, code: int, project: Project)
    requires ProjectKey(owner, repo) in store.analyses
    modifies store`projectStatuses, store`projectCache, store`analyses
    ensures store.analyses == old(store.analyses) - multiset{ProjectKey(owner, repo)}
    ensures var key := ProjectKey(owner, repo);
            var statuses := old(store.projectStatuses);
            if code == HttpInternalServerError then
              && store.projectStatuses == statuses[key := Status(StatusError, "")]
              && store.projectCache == old(store.projectCache)
            else if code == HttpNotFound then
              && store.projectStatuses == statuses[key := Status(StatusNotFound, "")]
              && store.projectCache == old(store.projectCache)
            else if code == HttpServiceUnavailable then
              && store.projectStatuses == statuses[key := Status(StatusCannotParse, StandaloneMsg)]
              && store.projectCache == old(store.projectCache)
            else
              && store.projectCache == old(store.projectCache)[key := project]
              && store.projectStatuses == statuses[key := Status(StatusComplete, "")]
    ensures old(store.ProjectsCoherent()) ==> store.ProjectsCoherent()
  {
    var key := ProjectKey(owner, repo);
    store.analyses := store.analyses - multiset{key};
    if code == HttpInternalServerError {
      store.SetProjectStatus(key, Status(StatusError, ""));
      return;
    } else if code == HttpNotFound {
      store.SetProjectStatus(key, Status(StatusNotFound, ""));
      return;
    } else if code == HttpServiceUnavailable {
      store.SetProjectStatus(key, Status(StatusCannotParse, StandaloneMsg));
      return;
    }
    store.SetProjectCache(key, project);
    store.SetProjectStatus(key, Status(StatusComplete, ""));
  }
}
