/**
 * The records the gateway receives from its two analysis back ends and
 * sends to its clients: the dependency-network records of dna.go and the
 * software-network records of sna.go.
 *
 * A `float32` field is only ever copied from one record to another, so it
 * is carried as its 32-bit pattern and never interpreted.
 */
module Payloads {

  /** The bit pattern of an IEEE-754 single-precision number. */
  type Float32 = bv32

  // ---------------------------------------------------------------------
  // Dependency network analysis (dna.go)
  // ---------------------------------------------------------------------

  /** One artifact, as the back end reports it and as the client sees it. */
  datatype ArtifactStats = ArtifactStats(
    artifactId: string,
    artifactName: string,
    artifactGroup: string,
    artifactType: string,
    internalId: int,
    pageRank: Float32,
    overallRank: int)

  /** The aggregate figures of a ranked response. */
  datatype ProjectArtifactsStats = ProjectArtifactsStats(
    maxRank: int,
    numOfDirectDependencies: int,
    numOfTransitiveDependencies: int,
    numOfDependents: int)

  /** The raw dependency graph of a project: four collections keyed by artifact id. */
  datatype Artifacts = Artifacts(
    artifacts: map<string, ArtifactStats>,
    directDependencies: map<string, ArtifactStats>,
    transitiveDependencies: map<string, ArtifactStats>,
    dependents: map<string, ArtifactStats>)

  /** The ranked response: the four collections as lists, plus aggregates. */
  datatype ArtifactsResponse = ArtifactsResponse(
    projectStats: ProjectArtifactsStats,
    artifacts: seq<ArtifactStats>,
    directDependencies: seq<ArtifactStats>,
    transitiveDependencies: seq<ArtifactStats>,
    dependents: seq<ArtifactStats>)

  /** One entry of the global PageRank table. */
  datatype Ranks = Ranks(overallRank: int, pageRank: Float32)

  /** Go's zero values of the records above. */
  const ZeroProjectArtifactsStats := ProjectArtifactsStats(0, 0, 0, 0)
  const ZeroArtifacts := Artifacts(map[], map[], map[], map[])

  // ---------------------------------------------------------------------
  // Software network analysis (sna.go)
  // ---------------------------------------------------------------------

  datatype ProjectStats = ProjectStats(
    projectId: string,
    internalId: int,
    projectType: string,
    networkComp: Float32,
    codeChurn: Float32,
    networkCompMsg: string,
    codeChurnMsg: string)

  datatype PackageStats = PackageStats(
    packageId: string,
    packageName: string,
    packageType: string,
    internalId: int,
    networkComp: Float32)

  datatype ClassOrInterfaceStats = ClassOrInterfaceStats(
    classOrInterfaceId: string,
    classOrInterfaceName: string,
    classOrInterfaceType: string,
    internalId: int,
    networkComp: Float32)

  datatype MethodStats = MethodStats(
    methodId: string,
    methodName: string,
    methodType: string,
    internalId: int,
    networkComp: Float32)

  /** The metrics of one project, as the software network back end reports them. */
  datatype Project = Project(
    project: ProjectStats,
    packages: seq<PackageStats>,
    classOrInterfaces: seq<ClassOrInterfaceStats>,
    methods: seq<MethodStats>)

  const ZeroProject := Project(ProjectStats("", 0, "", 0, 0, "", ""), [], [], [])
}
