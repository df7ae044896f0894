/**
 * The rank merger of dna.go: joins a project's raw dependency graph with
 * the global PageRank table and computes the aggregate figures of the
 * ranked response.
 *
 * The Go code reads the table from a global while holding its lock; here
 * the caller passes that snapshot as `ranks`. The Go code walks each
 * id-keyed collection in map order, which is unspecified, so a merged
 * list is characterised by `IsRankMerge`: it is what the walk yields for
 * SOME enumeration of the keys. The lemmas below show that everything
 * observable up to order is fixed by the inputs.
 */
module RankMerge {
  import opened Payloads

  // ---------------------------------------------------------------------
  // Specification
  // ---------------------------------------------------------------------

  /**
   * The entry emitted for an artifact found in the table: the artifact's
   * own id, name, group, type and internal id, with the table's PageRank
   * and overall rank.
   */
  function Ranked(artifact: ArtifactStats, rank: Ranks): ArtifactStats
  {
    ArtifactStats(artifact.artifactId, artifact.artifactName, artifact.artifactGroup,
                  artifact.artifactType, artifact.internalId, rank.pageRank, rank.overallRank)
  }

  /** The entries the walk appends when it visits the keys `ids` in that order. */
  function KeepRanked(ids: seq<string>, m: map<string, ArtifactStats>, ranks: map<string, Ranks>): seq<ArtifactStats>
  {
    if ids == [] then []
    else
      var id := ids[|ids| - 1];
      KeepRanked(ids[..|ids| - 1], m, ranks) + (if id in m && id in ranks then [Ranked(m[id], ranks[id])] else [])
  }

  /** `ids` lists every element of `keys` exactly once. */
  ghost predicate Enumerates(ids: seq<string>, keys: set<string>)
  {
    multiset(ids) == multiset(keys)
  }

  /** `r` is what walking `m` in some key order and keeping the ranked entries yields. */
  ghost predicate IsRankMerge(r: seq<ArtifactStats>, m: map<string, ArtifactStats>, ranks: map<string, Ranks>)
  {
    exists ids :: Enumerates(ids, m.Keys) && r == KeepRanked(ids, m, ranks)
  }

  /** Scans `s` from the front with the source's update rule, starting from `max`. */
  function ScanRank(max: int, s: seq<ArtifactStats>): int
    decreases |s|
  {
    if s == [] then max
    else ScanRank(if s[0].overallRank < max || max == -1 then s[0].overallRank else max, s[1..])
  }

  /** `v` is the smallest overall rank of the entries of `s`, and one of them has it. */
  ghost predicate IsLowestRank(v: int, s: seq<ArtifactStats>)
  {
    && (exists a :: a in s && a.overallRank == v)
    && (forall a :: a in s ==> v <= a.overallRank)
  }

  /** A ranked response built from `artifacts` against `ranks`, with its aggregates. */
  ghost predicate IsRankedResponse(response: ArtifactsResponse, artifacts: Artifacts, ranks: map<string, Ranks>)
  {
    && IsRankMerge(response.artifacts, artifacts.artifacts, ranks)
    && IsRankMerge(response.directDependencies, artifacts.directDependencies, ranks)
    && IsRankMerge(response.transitiveDependencies, artifacts.transitiveDependencies, ranks)
    && IsRankMerge(response.dependents, artifacts.dependents, ranks)
    && response.projectStats == ProjectArtifactsStats(
         ScanRank(-1, response.artifacts),
         |response.directDependencies|,
         |response.transitiveDependencies|,
         |response.dependents|)
  }

  // ---------------------------------------------------------------------
  // Operations
  // ---------------------------------------------------------------------

  /** addRank: the ranked entries of one collection, unranked ids dropped. */
  method AddRank(artifacts: map<string, ArtifactStats>, ranks: map<string, Ranks>) returns (r: seq<ArtifactStats>)
    ensures IsRankMerge(r, artifacts, ranks)
  {
    r := [];
    ghost var visited: seq<string> := [];
    var remaining := artifacts.Keys;
    while remaining != {}
      invariant remaining <= artifacts.Keys
      invariant Enumerates(visited, artifacts.Keys - remaining)
      invariant r == KeepRanked(visited, artifacts, ranks)
      decreases remaining
    {
      var id :| id in remaining;
      if id in ranks {
        r := r + [Ranked(artifacts[id], ranks[id])];
      }
      VisitOneMore(visited, artifacts.Keys, remaining, id, artifacts, ranks);
      visited := visited + [id];
      remaining := remaining - {id};
    }
    assert artifacts.Keys - remaining == artifacts.Keys;
  }

  /** artifactsWithRank: the four collections merged against one table snapshot. */
  method ArtifactsWithRank(artifacts: Artifacts, ranks: map<string, Ranks>) returns (response: ArtifactsResponse)
    ensures response.projectStats == ZeroProjectArtifactsStats
    ensures IsRankMerge(response.artifacts, artifacts.artifacts, ranks)
    ensures IsRankMerge(response.directDependencies, artifacts.directDependencies, ranks)
    ensures IsRankMerge(response.transitiveDependencies, artifacts.transitiveDependencies, ranks)
    ensures IsRankMerge(response.dependents, artifacts.dependents, ranks)
  {
    var own := AddRank(artifacts.artifacts, ranks);
    var direct := AddRank(artifacts.directDependencies, ranks);
    var transitive := AddRank(artifacts.transitiveDependencies, ranks);
    var dependents := AddRank(artifacts.dependents, ranks);
    response := ArtifactsResponse(ZeroProjectArtifactsStats, own, direct, transitive, dependents);
  }

  /**
   * getProjectOverallStats: the "max rank" (the smallest overall rank, -1
   * for no artifacts) and the sizes of the other three lists.
   */
  method GetProjectOverallStats(response: ArtifactsResponse) returns (stats: ProjectArtifactsStats)
    ensures stats.maxRank == ScanRank(-1, response.artifacts)
    ensures response.artifacts == [] ==> stats.maxRank == -1
    ensures response.artifacts != [] && (forall a :: a in response.artifacts ==> a.overallRank >= 0) ==>
              IsLowestRank(stats.maxRank, response.artifacts)
    ensures stats.numOfDirectDependencies == |response.directDependencies|
    ensures stats.numOfTransitiveDependencies == |response.transitiveDependencies|
    ensures stats.numOfDependents == |response.dependents|
  {
    var s := response.artifacts;
    var max := -1;
    for i := 0 to |s|
      invariant ScanRank(max, s[i..]) == ScanRank(-1, s)
    {
      assert s[i..][1..] == s[i + 1..];
      if s[i].overallRank < max || max == -1 {
        max := s[i].overallRank;
      }
    }
    if s != [] && forall a :: a in s ==> a.overallRank >= 0 {
      ScanRankFromSentinel(s);
    }
    stats := ProjectArtifactsStats(max, |response.directDependencies|,
                                   |response.transitiveDependencies|, |response.dependents|);
  }

  /** artifactsInCache: whether every key of `artifacts` is in the table. */
  method ArtifactsInCache(artifacts: map<string, ArtifactStats>, ranks: map<string, Ranks>) returns (allRanked: bool)
    ensures allRanked <==> artifacts.Keys <= ranks.Keys
  {
    var remaining := artifacts.Keys;
    while remaining != {}
      invariant remaining <= artifacts.Keys
      invariant artifacts.Keys - remaining <= ranks.Keys
      decreases remaining
    {
      var id :| id in remaining;
      if id !in ranks {
        return false;
      }
      remaining := remaining - {id};
    }
    return true;
  }

  // ---------------------------------------------------------------------
  // Lemmas about the walk
  // ---------------------------------------------------------------------

  /**
   * One step of the walk: visiting `id` appends its entry, if ranked, and
   * enumerates one key more. Stated apart so that `AddRank` reasons about
   * one step at a time and stays within its resource budget.
   */
  lemma VisitOneMore(visited: seq<string>, keys: set<string>, remaining: set<string>, id: string,
                     m: map<string, ArtifactStats>, ranks: map<string, Ranks>)
    requires remaining <= keys && id in remaining
    requires Enumerates(visited, keys - remaining)
    ensures Enumerates(visited + [id], keys - (remaining - {id}))
    ensures KeepRanked(visited + [id], m, ranks)
            == KeepRanked(visited, m, ranks) + (if id in m && id in ranks then [Ranked(m[id], ranks[id])] else [])
  {
  }

  lemma {:induction false} KeepRankedAppend(a: seq<string>, b: seq<string>, m: map<string, ArtifactStats>, ranks: map<string, Ranks>)
    ensures KeepRanked(a + b, m, ranks) == KeepRanked(a, m, ranks) + KeepRanked(b, m, ranks)
    decreases |b|
  {
    if b == [] {
      assert a + b == a;
    } else {
      var b' := b[..|b| - 1];
      assert (a + b)[..|a + b| - 1] == a + b';
      KeepRankedAppend(a, b', m, ranks);
    }
  }

  /** Taking `x` out of the middle of a visit order takes its entry out of the kept entries. */
  lemma KeepRankedSplice(before: seq<string>, x: string, after: seq<string>, m: map<string, ArtifactStats>, ranks: map<string, Ranks>)
    ensures multiset(KeepRanked(before + [x] + after, m, ranks))
            == multiset(KeepRanked(before + after, m, ranks)) + multiset(KeepRanked([x], m, ranks))
  {
    KeepRankedAppend(before, after, m, ranks);
    KeepRankedAppend(before + [x], after, m, ranks);
    KeepRankedAppend(before, [x], m, ranks);
  }

  /** Visiting the same keys in another order keeps the same entries. */
  lemma {:induction false} KeepRankedPermutation(ids1: seq<string>, ids2: seq<string>, m: map<string, ArtifactStats>, ranks: map<string, Ranks>)
    requires multiset(ids1) == multiset(ids2)
    ensures multiset(KeepRanked(ids1, m, ranks)) == multiset(KeepRanked(ids2, m, ranks))
    decreases |ids1|
  {
    if ids1 == [] {
      assert |ids2| == |multiset(ids2)| == 0;
    } else {
      var n := |ids1| - 1;
      var x := ids1[n];
      assert x in multiset(ids2);
      var j :| 0 <= j < |ids2| && ids2[j] == x;
      var before, after := ids2[..j], ids2[j + 1..];
      assert ids2 == before + [x] + after;
      assert multiset(ids1[..n]) == multiset(before + after) by {
        assert ids1 == ids1[..n] + [x];
        assert multiset(ids1[..n]) == multiset(ids1) - multiset{x};
        assert multiset(before + after) == multiset(ids2) - multiset{x};
      }
      KeepRankedPermutation(ids1[..n], before + after, m, ranks);
      KeepRankedSplice(before, x, after, m, ranks);
      KeepRankedAppend(ids1[..n], [x], m, ranks);
      assert ids1 == ids1[..n] + [x];
    }
  }

  /** The walk keeps one entry per visited key that the table ranks. */
  lemma {:induction false} KeepRankedCount(ids: seq<string>, keys: set<string>, m: map<string, ArtifactStats>, ranks: map<string, Ranks>)
    requires Enumerates(ids, keys) && keys <= m.Keys
    ensures |KeepRanked(ids, m, ranks)| == |keys * ranks.Keys|
    decreases |ids|
  {
    if ids == [] {
      assert |keys| == |multiset(keys)| == 0;
    } else {
      var n := |ids| - 1;
      var x := ids[n];
      assert ids == ids[..n] + [x];
      assert x in multiset(keys);
      var keys' := keys - {x};
      assert multiset(keys') == multiset(keys) - multiset{x};
      KeepRankedCount(ids[..n], keys', m, ranks);
      if x in ranks {
        assert keys * ranks.Keys == (keys' * ranks.Keys) + {x};
      } else {
        assert keys * ranks.Keys == keys' * ranks.Keys;
      }
    }
  }

  /** Everything the walk emits comes from a visited, ranked key, and every such key is emitted. */
  lemma {:induction false} KeepRankedMembers(ids: seq<string>, m: map<string, ArtifactStats>, ranks: map<string, Ranks>, x: ArtifactStats)
    ensures x in KeepRanked(ids, m, ranks) <==>
              exists id :: id in ids && id in m && id in ranks && x == Ranked(m[id], ranks[id])
    decreases |ids|
  {
    if ids != [] {
      var n := |ids| - 1;
      assert ids == ids[..n] + [ids[n]];
      KeepRankedMembers(ids[..n], m, ranks, x);
      if exists id :: id in ids && id in m && id in ranks && x == Ranked(m[id], ranks[id]) {
        var id :| id in ids && id in m && id in ranks && x == Ranked(m[id], ranks[id]);
        if id != ids[n] {
          assert id in ids[..n];
        }
      }
    }
  }

  // ---------------------------------------------------------------------
  // Properties of a merged list
  // ---------------------------------------------------------------------

  /** Key order does not matter: two merges of the same collection hold the same entries. */
  lemma RankMergeOrderIndependent(r1: seq<ArtifactStats>, r2: seq<ArtifactStats>, m: map<string, ArtifactStats>, ranks: map<string, Ranks>)
    requires IsRankMerge(r1, m, ranks) && IsRankMerge(r2, m, ranks)
    ensures multiset(r1) == multiset(r2)
  {
    var ids1 :| Enumerates(ids1, m.Keys) && r1 == KeepRanked(ids1, m, ranks);
    var ids2 :| Enumerates(ids2, m.Keys) && r2 == KeepRanked(ids2, m, ranks);
    KeepRankedPermutation(ids1, ids2, m, ranks);
  }

  /**
   * A merged list has one entry per ranked key: never more entries than
   * the collection, and as many exactly when every key is ranked.
   */
  lemma RankMergeLength(r: seq<ArtifactStats>, m: map<string, ArtifactStats>, ranks: map<string, Ranks>)
    requires IsRankMerge(r, m, ranks)
    ensures |r| == |m.Keys * ranks.Keys|
    ensures |r| <= |m|
    ensures |r| == |m| <==> m.Keys <= ranks.Keys
  {
    var ids :| Enumerates(ids, m.Keys) && r == KeepRanked(ids, m, ranks);
    KeepRankedCount(ids, m.Keys, m, ranks);
    assert |m| == |m.Keys|;
    assert |m.Keys| == |m.Keys - ranks.Keys| + |m.Keys * ranks.Keys|;
    if m.Keys - ranks.Keys == {} {
      forall k | k in m.Keys
        ensures k in ranks.Keys
      {
        assert k !in m.Keys - ranks.Keys;
      }
    }
  }

  /**
   * The merged list holds, for every key the table ranks, the artifact with
   * the table's PageRank and overall rank, and nothing else.
   */
  lemma RankMergeContents(r: seq<ArtifactStats>, m: map<string, ArtifactStats>, ranks: map<string, Ranks>)
    requires IsRankMerge(r, m, ranks)
    ensures forall id :: id in m && id in ranks ==> Ranked(m[id], ranks[id]) in r
    ensures forall x :: x in r ==> exists id :: id in m && id in ranks && x == Ranked(m[id], ranks[id])
  {
    var ids :| Enumerates(ids, m.Keys) && r == KeepRanked(ids, m, ranks);
    forall id | id in m && id in ranks
      ensures Ranked(m[id], ranks[id]) in r
    {
      assert id in multiset(ids);
      KeepRankedMembers(ids, m, ranks, Ranked(m[id], ranks[id]));
    }
    forall x | x in r
      ensures exists id :: id in m && id in ranks && x == Ranked(m[id], ranks[id])
    {
      KeepRankedMembers(ids, m, ranks, x);
    }
  }

  /**
   * When each artifact is filed under its own id, every merged entry is
   * an artifact the table ranks and carries that table entry's figures:
   * an unranked artifact never appears.
   */
  lemma RankMergeDropsUnranked(r: seq<ArtifactStats>, m: map<string, ArtifactStats>, ranks: map<string, Ranks>)
    requires IsRankMerge(r, m, ranks)
    requires forall id :: id in m ==> m[id].artifactId == id
    ensures forall x :: x in r ==>
              && x.artifactId in m && x.artifactId in ranks
              && x.pageRank == ranks[x.artifactId].pageRank
              && x.overallRank == ranks[x.artifactId].overallRank
  {
    RankMergeContents(r, m, ranks);
  }

  /** The merge of a single-artifact collection. */
  lemma RankMergeSingleton(r: seq<ArtifactStats>, id: string, artifact: ArtifactStats, ranks: map<string, Ranks>)
    requires IsRankMerge(r, map[id := artifact], ranks)
    ensures r == if id in ranks then [Ranked(artifact, ranks[id])] else []
  {
    var m := map[id := artifact];
    var ids :| Enumerates(ids, m.Keys) && r == KeepRanked(ids, m, ranks);
    assert m.Keys == {id};
    assert |ids| == |multiset(ids)| == 1;
    assert ids[0] in multiset(ids);
    assert ids == [id];
    assert ids[..0] == [];
    assert r == KeepRanked([], m, ranks) + (if id in ranks then [Ranked(artifact, ranks[id])] else []);
  }

  // ---------------------------------------------------------------------
  // Properties of the "max rank" scan
  // ---------------------------------------------------------------------

  /** From a non-negative start, the scan keeps the smallest rank seen. */
  lemma {:induction false} ScanRankLowest(start: int, s: seq<ArtifactStats>)
    requires start >= 0
    requires forall a :: a in s ==> a.overallRank >= 0
    ensures ScanRank(start, s) <= start
    ensures forall a :: a in s ==> ScanRank(start, s) <= a.overallRank
    ensures ScanRank(start, s) == start || exists a :: a in s && a.overallRank == ScanRank(start, s)
  {
    if s != [] {
      var next := if s[0].overallRank < start then s[0].overallRank else start;
      assert forall a :: a in s[1..] ==> a in s;
      ScanRankLowest(next, s[1..]);
      assert forall a :: a in s ==> a == s[0] || a in s[1..];
    }
  }

  /**
   * Over non-negative ranks, the scan from the -1 sentinel yields the
   * smallest overall rank of a non-empty list.
   */
  lemma {:induction false} ScanRankFromSentinel(s: seq<ArtifactStats>)
    requires s != []
    requires forall a :: a in s ==> a.overallRank >= 0
    ensures IsLowestRank(ScanRank(-1, s), s)
  {
    assert forall a :: a in s[1..] ==> a in s;
    ScanRankLowest(s[0].overallRank, s[1..]);
    assert forall a :: a in s ==> a == s[0] || a in s[1..];
  }

  /**
   * The sentinel is an ordinary rank value too: an artifact ranked -1 is
   * overwritten by the next one, so the scan does not return the minimum.
   */
  lemma ScanRankForgetsMinusOne(first: ArtifactStats, second: ArtifactStats)
    requires first.overallRank == -1 && second.overallRank >= 0
    ensures ScanRank(-1, [first, second]) == second.overallRank
    ensures ScanRank(-1, [first, second]) > first.overallRank
  {
    assert [first, second][1..] == [second];
    assert [second][1..] == [];
    assert ScanRank(-1, [first, second]) == ScanRank(-1, [second]);
    assert ScanRank(-1, [second]) == ScanRank(second.overallRank, []);
  }
}
