# wildfly-channel: the channel resolution session, in Dafny

This project models the resolution session of wildfly-channel (`ChannelSession`).
A session resolves one Maven component (groupId, artifactId, optional extension
and classifier) across an ordered list of channels. It credits every successful
resolution to a channel in a recorder. The recorder can then be turned into a
synthetic channel that pins every resolved version.

- **Exact resolution** (`resolveExactMavenArtifact`) asks the channels in list
  order. The first one that resolves the exact version wins. If none does, it
  raises `UnresolvedMavenArtifactException`, and the message names
  `groupId:artifactId:extension:classifier:version`.
- **Latest resolution** (`resolveLatestMavenArtifact`) asks every channel for
  its latest version and puts each answer into a `HashMap` keyed by version
  string. With no answer, it falls back to exact resolution at `baseVersion`,
  or fails with "no stream found" when there is no base version. Otherwise it
  picks the greatest version under the version comparator and asks the channel
  stored for that version to resolve it.
- **Recording**: every success records (groupId, artifactId, version, channel).
  `getRecordedChannels` returns one synthetic channel with one pinned stream per
  recorded (groupId, artifactId).

Modules:

- `Results` (results.dfy): `Option` and `Result`.
- `Versions` (versions.dfy): versions, the injected comparator (a strict total
  order), and the greatest element of a list.
- `Channels` (channels.dfy): coordinates, artifacts, the `Unresolved` error,
  and the `Channel`. A channel is two opaque functions, `resolveArtifact` and
  `resolveLatestVersion`.
- `ChannelRecorder` (recorder.dfy): the recorder. It is a map from
  (groupId, artifactId) to the last resolved version and its channel. Also the
  pinned streams it materialises.
- `ChannelSession` (session.dfy): the session and its three operations, as pure
  functions. Each resolve function returns the session with its updated
  recorder together with the result.
- `SessionProperties` (properties.dfy): properties that relate several
  resolutions.
- `RecorderScenario` (scenario.dfy): the four-resolution scenario of
  `ChannelRecorderTestCase`, using stub channels.

Two behaviours of the code worth stating:

- **Ties between channels.** `found.put` at ChannelSession.java:105 overwrites
  an earlier entry for the same version. So the last channel in list order that
  proposes the winning version is the one asked to resolve it, and the one
  credited (`TieCreditsLaterChannel`).
- **No retry.** A failure of the winner's `resolveArtifact` at
  ChannelSession.java:122 propagates. No other channel or version is tried.

## Model

| member | source | states |
|---|---|---|
| Versions.MaxOf | core/src/main/java/org/wildfly/channel/ChannelSession.java:116-119 | the version picked by sorting in reverse comparator order and taking the first is one of the candidates, and no candidate sorts after it |
| Versions.GreatestIsUnique | core/src/main/java/org/wildfly/channel/ChannelSession.java:116-119 | under a strict total order the greatest found version is unique, so the pick does not depend on the iteration order of the key set |
| ChannelRecorder.RecordStream | core/src/main/java/org/wildfly/channel/ChannelSession.java:76 | recording sets the record for (groupId, artifactId) to the version and channel, adds only that key, and leaves every other record unchanged |
| ChannelRecorder.RecordStreamOverwrites | core/src/main/java/org/wildfly/channel/ChannelSession.java:123 | recording the same (groupId, artifactId) twice leaves one record, the most recent one |
| ChannelRecorder.PinCount | core/src/test/java/org/wildfly/channel/ChannelRecorderTestCase.java:97-98 | there are exactly as many pinned streams as recorded (groupId, artifactId) pairs |
| ChannelRecorder.RecordedStreams | core/src/main/java/org/wildfly/channel/ChannelSession.java:134-146 | the synthetic streams are one pin per recorded pair, each at its recorded version, and every stream comes from a record |
| ChannelSession.NewSession | core/src/main/java/org/wildfly/channel/ChannelSession.java:47-54 | a new session keeps the given channels and has nothing recorded |
| ChannelSession.FirstResolving | core/src/main/java/org/wildfly/channel/ChannelSession.java:72-81 | the search returns the first channel in list order that resolves the version, or nothing exactly when every channel fails |
| ChannelSession.ResolveExactMavenArtifact | core/src/main/java/org/wildfly/channel/ChannelSession.java:67-83 | fails if and only if every channel fails, with the message naming g:a:ext:cls:version and the recorder unchanged; on success the artifact carries exactly the requested coordinates and version, and the file and the record come from the first channel that resolves |
| ChannelSession.ExactIgnoresLaterChannels | core/src/main/java/org/wildfly/channel/ChannelSession.java:73-77 | channels after the first resolving one are never consulted: replacing them changes neither the result nor the record |
| ChannelSession.ProposedVersions | core/src/main/java/org/wildfly/channel/ChannelSession.java:100-107 | the collected versions are exactly those some channel proposes |
| ChannelSession.Found | core/src/main/java/org/wildfly/channel/ChannelSession.java:100-107 | the found map holds exactly the proposed versions, each mapped to the last channel in list order that proposed it |
| ChannelSession.FoundStep | core/src/main/java/org/wildfly/channel/ChannelSession.java:104-106 | one put for a channel keeps the found map exact and last-proposer-wins |
| ChannelSession.WinnerIsUnique | core/src/main/java/org/wildfly/channel/ChannelSession.java:116-120 | at most one channel holds the greatest proposed version as its last proposer |
| ChannelSession.LatestWinnerIsFoundChannel | core/src/main/java/org/wildfly/channel/ChannelSession.java:116-120 | the channel stored in the found map under the greatest version is the unique winner, and that channel proposed that version |
| ChannelSession.ResolveLatestMavenArtifact | core/src/main/java/org/wildfly/channel/ChannelSession.java:96-125 | with no proposal, equals exact resolution at baseVersion, or fails with "no stream found" when there is none; otherwise the winner's version is greatest among the proposals and last proposed by the winner; the winner's success is returned and recorded, and the winner's failure propagates with nothing recorded and no retry |
| ChannelSession.GetRecordedChannels | core/src/main/java/org/wildfly/channel/ChannelSession.java:134-147 | one synthetic channel with exactly one pinned stream per recorded pair, each at the version last resolved for it |
| SessionProperties.ProposalSet | core/src/main/java/org/wildfly/channel/ChannelSession.java:117 | the key set of the found map: exactly the versions some channel proposes |
| SessionProperties.WinnersProposeSameVersion | core/src/main/java/org/wildfly/channel/ChannelSession.java:116-120 | the winners of two channel lists that propose the same versions propose the same version |
| SessionProperties.WinnerExists | core/src/main/java/org/wildfly/channel/ChannelSession.java:116-120 | whenever some channel proposes a version, a winning channel exists |
| SessionProperties.FallbackResolvesBaseVersion | core/src/main/java/org/wildfly/channel/ChannelSession.java:109-114 | with no proposal, a successful latest resolution is at the base version, and there is one |
| SessionProperties.LatestResolvesWinnerVersion | core/src/main/java/org/wildfly/channel/ChannelSession.java:117-124 | a successful latest resolution is at the version the winning channel proposed |
| SessionProperties.LatestVersionIndependentOfOrder | core/src/main/java/org/wildfly/channel/ChannelSession.java:100-124 | latest resolutions over two channel lists that propose the same versions, in any order, return the same version whenever both succeed |
| SessionProperties.TieCreditsLaterChannel | core/src/main/java/org/wildfly/channel/ChannelSession.java:101-123 | when two channels propose the same version, the later one resolves it and is credited, not the first one |
| SessionProperties.RecordedChannelReproduces | core/src/main/java/org/wildfly/channel/ChannelSession.java:134-146 | a new session whose only channel is the recorded channel resolves each recorded pair to the recorded version again |
| RecorderScenario.ChannelAnswers | core/src/test/java/org/wildfly/channel/ChannelRecorderTestCase.java:42-74 | the scenario's two channels propose 24.0.0.Final for org.wildfly, 2.2.0.Final for org.wildfly.core (first channel) and 2.2.0.Final for io.undertow (second channel only) |
| RecorderScenario.ResolvesFromSoleProposer | core/src/main/java/org/wildfly/channel/ChannelSession.java:100-124 | in the scenario, when exactly one channel proposes a version, latest resolution returns that version from /tmp and credits that channel |
| RecorderScenario.GalleonPackResolves | core/src/test/java/org/wildfly/channel/ChannelRecorderTestCase.java:89-102 | latest for org.wildfly:wildfly-ee-galleon-pack resolves to 24.0.0.Final from the first channel |
| RecorderScenario.CoreCliResolves | core/src/test/java/org/wildfly/channel/ChannelRecorderTestCase.java:90-105 | latest for org.wildfly.core:wildfly.core.cli resolves to 2.2.0.Final from the first channel |
| RecorderScenario.UndertowResolves | core/src/test/java/org/wildfly/channel/ChannelRecorderTestCase.java:91-111 | latest for io.undertow:undertow-core and io.undertow:undertow-servlet both resolve to 2.2.0.Final from the second channel |
| RecorderScenario.FourResolutionsRecorded | core/src/test/java/org/wildfly/channel/ChannelRecorderTestCase.java:89-98 | after the four resolutions the recorder holds exactly the four resolved pairs with their versions and channels |
| RecorderScenario.FourRecordsPinFourStreams | core/src/test/java/org/wildfly/channel/ChannelRecorderTestCase.java:97-111 | those four records pin exactly the four expected streams |
| RecorderScenario.RecordedChannelHoldsFourStreams | core/src/test/java/org/wildfly/channel/ChannelRecorderTestCase.java:94-111 | the recorded channel holds exactly four streams, each pinning the resolved version of one resolved artifact |

## Left out

- `close()` and `initResolver`: backend lifecycle and resource release, not resolution logic.
- `requireNonNull` checks on the constructor and resolve arguments: Dafny strings and sequences cannot be null. Nullable extension, classifier and baseVersion are `Option`.
- `MavenVersionsResolver` and real `File` handles: the Maven and filesystem backend is external. A file is an opaque `FileHandle`.
- `Channel` internals are not part of this model: stream matching, `versionPattern` regexes, and how `baseVersion` is used. A channel is two opaque functions. The channel a `ResolveLatestVersionResult` carries is taken to be the channel that produced it.
- `VersionMatcher.COMPARATOR` is not part of this model. It is an injected strict total order. Ties between distinct version strings, where the pick would depend on `HashMap` iteration order, are excluded by that assumption.
- `ChannelRecorder` is not part of this model. It is modelled as a map keyed by (groupId, artifactId). The order of the synthetic streams is not modelled, so they are a set.
- GetRecordedChannels: returns exactly one synthetic channel, following `getRecordedChannel()` at ChannelRecorderTestCase.java:94. The pinned streams do not carry the credited channel.
- Exceptions from `resolveLatestVersion`: `Channel` is not modelled. Such an exception would propagate out of `resolveLatestMavenArtifact` with nothing recorded, and this is not modelled.
- YAML parsing and printing (`ChannelMapper`): a format concern outside the session.
- The `resolveWithLocalCache` caveat on reproducibility: a channel property outside the session.
- RecorderScenario: the regex version patterns are stubbed by predicates that accept exactly the backend-reported versions each pattern matches. The pattern `2\.\1\.\d+.Final` refers back to a group that does not exist, so it matches nothing.
