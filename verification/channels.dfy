/** The values a resolution session works on: Maven coordinates, the
    artifacts it hands back, the single error kind it raises, and the
    channels it consults. */
module Channels {
  import opened Results
  import opened Versions

  /** groupId and artifactId are required; extension and classifier may be
      absent (`null` in Java). */
  datatype Coordinates = Coordinates(
    groupId: string,
    artifactId: string,
    extension: Option<string>,
    classifier: Option<string>)

  /** The file a backend resolved an artifact to; opaque to the session. */
  datatype FileHandle = FileHandle(path: string)

  /** `UnresolvedMavenArtifactException`, carrying its message. */
  datatype Unresolved = Unresolved(message: string)

  /** A resolved Maven artifact: coordinates, concrete version and file. */
  datatype MavenArtifact = MavenArtifact(
    groupId: string,
    artifactId: string,
    extension: Option<string>,
    classifier: Option<string>,
    version: Version,
    file: FileHandle)

  /** A channel, seen from the session: two operations whose internals
      (stream matching, version patterns, the Maven backend) are opaque.
      `resolveArtifact` resolves an exact version or raises `Unresolved`;
      `resolveLatestVersion` yields this channel's latest version for the
      coordinates, or nothing when the channel has no opinion. */
  datatype Channel = Channel(
    resolveArtifact: (Coordinates, Version) -> Result<FileHandle, Unresolved>,
    resolveLatestVersion: (Coordinates, Option<Version>) -> Option<Version>)

  /** The artifact built from the requested coordinates, a version and a file. */
  function ArtifactOf(c: Coordinates, v: Version, f: FileHandle): MavenArtifact {
    MavenArtifact(c.groupId, c.artifactId, c.extension, c.classifier, v, f)
  }

  /** `a` names exactly the coordinates `c` at version `v`. */
  ghost predicate Carries(a: MavenArtifact, c: Coordinates, v: Version) {
    && a.groupId == c.groupId
    && a.artifactId == c.artifactId
    && a.extension == c.extension
    && a.classifier == c.classifier
    && a.version == v
  }

  /** How `String.format("%s", x)` renders an optional string. */
  function Text(o: Option<string>): string {
    match o
    case None => "null"
    case Some(s) => s
  }

  /** `groupId:artifactId:extension:classifier`. */
  function CoordinatesText(c: Coordinates): string {
    c.groupId + ":" + c.artifactId + ":" + Text(c.extension) + ":" + Text(c.classifier)
  }

  function ExactFailureMessage(c: Coordinates, v: Version): string {
    "Can not resolve Maven artifact : " + CoordinatesText(c) + ":" + v
  }

  function NoStreamMessage(c: Coordinates): string {
    "Can not resolve latest Maven artifact (no stream found) : " + CoordinatesText(c)
  }
}
