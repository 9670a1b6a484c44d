/** The recorder scenario of ChannelRecorderTestCase: two channels, a dummy
    backend, four latest resolutions and the recorded channel they leave.
    The regex version patterns are stubbed by predicates that accept exactly
    the backend-reported versions the pattern matches. */
module RecorderScenario {
  import opened Results
  import opened Versions
  import opened Channels
  import opened ChannelRecorder
  import opened ChannelSession

  /** A stream `groupId: g, artifactId: '*'` with a version pattern. */
  datatype StubStream = StubStream(groupId: string, accepts: Version -> bool)

  /** The dummy backend: every artifact resolves to `/tmp`. */
  const Tmp := FileHandle("/tmp")

  /** The dummy backend's only known version for a group. */
  function BackendVersion(groupId: string): Version {
    if groupId == "org.wildfly" then "24.0.0.Final" else "2.2.0.Final"
  }

  /** The latest version a channel with these streams proposes: the first
      stream matching the group decides, offering the backend's version if its
      pattern accepts it. */
  function StubLatest(streams: seq<StubStream>, c: Coordinates): Option<Version> {
    if |streams| == 0 then None
    else if streams[0].groupId == c.groupId then
      var v := BackendVersion(c.groupId);
      if streams[0].accepts(v) then Some(v) else None
    else StubLatest(streams[1..], c)
  }

  function StubChannel(streams: seq<StubStream>): Channel {
    Channel((c: Coordinates, v: Version) => Success(Tmp),
            (c: Coordinates, base: Option<Version>) => StubLatest(streams, c))
  }

  /** `24\.\d+\.\d+.Final`, `2\.\d+\.\d+.Final` and `2\.\1\.\d+.Final` (whose
      back-reference to a missing group matches nothing). */
  const Wildfly24 := (v: Version) => v == "24.0.0.Final"
  const Two := (v: Version) => v == "2.2.0.Final"
  const Nothing := (v: Version) => false

  const Channel1 := StubChannel([StubStream("org.wildfly", Wildfly24),
                                 StubStream("org.wildfly.core", Two),
                                 StubStream("io.undertow", Nothing)])
  const Channel2 := StubChannel([StubStream("io.undertow", Two)])

  function Gav(groupId: string, artifactId: string): Coordinates {
    Coordinates(groupId, artifactId, None, None)
  }

  const GalleonPack := Gav("org.wildfly", "wildfly-ee-galleon-pack")
  const CoreCli := Gav("org.wildfly.core", "wildfly.core.cli")
  const UndertowCore := Gav("io.undertow", "undertow-core")
  const UndertowServlet := Gav("io.undertow", "undertow-servlet")

  const SessionChannels := [Channel1, Channel2]

  /** What each channel proposes for the four coordinates. */
  lemma ChannelAnswers()
    ensures Channel1.resolveLatestVersion(GalleonPack, None) == Some("24.0.0.Final")
    ensures Channel2.resolveLatestVersion(GalleonPack, None) == None
    ensures Channel1.resolveLatestVersion(CoreCli, None) == Some("2.2.0.Final")
    ensures Channel2.resolveLatestVersion(CoreCli, None) == None
    ensures Channel1.resolveLatestVersion(UndertowCore, None) == None
    ensures Channel2.resolveLatestVersion(UndertowCore, None) == Some("2.2.0.Final")
    ensures Channel1.resolveLatestVersion(UndertowServlet, None) == None
    ensures Channel2.resolveLatestVersion(UndertowServlet, None) == Some("2.2.0.Final")
  {
    var s1 := [StubStream("org.wildfly", Wildfly24), StubStream("org.wildfly.core", Two), StubStream("io.undertow", Nothing)];
    var s2 := [StubStream("io.undertow", Two)];
    assert s1[1..] == [StubStream("org.wildfly.core", Two), StubStream("io.undertow", Nothing)];
    assert s1[1..][1..] == [StubStream("io.undertow", Nothing)];
    assert s2[1..] == [];
    assert StubLatest(s1, GalleonPack) == Some("24.0.0.Final");
    assert StubLatest(s1, CoreCli) == Some("2.2.0.Final");
    assert StubLatest(s1[1..][1..], UndertowCore) == None;
    assert StubLatest(s1[1..], UndertowCore) == None;
    assert StubLatest(s1, UndertowCore) == None;
    assert StubLatest(s1[1..][1..], UndertowServlet) == None;
    assert StubLatest(s1[1..], UndertowServlet) == None;
    assert StubLatest(s1, UndertowServlet) == None;
    assert StubLatest(s2, GalleonPack) == None;
    assert StubLatest(s2, CoreCli) == None;
    assert StubLatest(s2, UndertowCore) == Some("2.2.0.Final");
    assert StubLatest(s2, UndertowServlet) == Some("2.2.0.Final");
  }

  /** Latest resolution of `c` over the two channels, when channel `i` alone
      proposes `v`: the artifact at `v` from `/tmp`, credited to channel `i`. */
  lemma ResolvesFromSoleProposer(s: Session, older: Comparator, c: Coordinates, i: nat, v: Version)
    requires StrictTotalOrder(older)
    requires s.channels == SessionChannels
    requires i < 2
    requires SessionChannels[i].resolveLatestVersion(c, None) == Some(v)
    requires SessionChannels[1 - i].resolveLatestVersion(c, None) == None
    ensures var r := ResolveLatestMavenArtifact(s, older, c, None);
            && r.result == Success(ArtifactOf(c, v, Tmp))
            && r.session == Session(SessionChannels, RecordStream(s.recorder, c.groupId, c.artifactId, v, SessionChannels[i]))
  {
  }

  function Step1(older: Comparator): Resolution
    requires StrictTotalOrder(older)
  {
    ResolveLatestMavenArtifact(NewSession(SessionChannels), older, GalleonPack, None)
  }

  function Step2(older: Comparator): Resolution
    requires StrictTotalOrder(older)
  {
    ResolveLatestMavenArtifact(Step1(older).session, older, CoreCli, None)
  }

  function Step3(older: Comparator): Resolution
    requires StrictTotalOrder(older)
  {
    ResolveLatestMavenArtifact(Step2(older).session, older, UndertowCore, None)
  }

  function Step4(older: Comparator): Resolution
    requires StrictTotalOrder(older)
  {
    ResolveLatestMavenArtifact(Step3(older).session, older, UndertowServlet, None)
  }

  /** org.wildfly:wildfly-ee-galleon-pack resolves to 24.0.0.Final, from the
      first channel. */
  lemma GalleonPackResolves(older: Comparator)
    requires StrictTotalOrder(older)
    ensures Step1(older).result == Success(ArtifactOf(GalleonPack, "24.0.0.Final", Tmp))
    ensures Step1(older).session == Session(SessionChannels, map[Key("org.wildfly", "wildfly-ee-galleon-pack") := Record("24.0.0.Final", Channel1)])
  {
    ChannelAnswers();
    ResolvesFromSoleProposer(NewSession(SessionChannels), older, GalleonPack, 0, "24.0.0.Final");
  }

  /** org.wildfly.core:wildfly.core.cli resolves to 2.2.0.Final, from the
      first channel. */
  lemma CoreCliResolves(older: Comparator)
    requires StrictTotalOrder(older)
    ensures Step2(older).result == Success(ArtifactOf(CoreCli, "2.2.0.Final", Tmp))
    ensures Step2(older).session ==
              Session(SessionChannels, Step1(older).session.recorder[Key("org.wildfly.core", "wildfly.core.cli") := Record("2.2.0.Final", Channel1)])
  {
    GalleonPackResolves(older);
    ChannelAnswers();
    ResolvesFromSoleProposer(Step1(older).session, older, CoreCli, 0, "2.2.0.Final");
  }

  /** Both io.undertow artifacts resolve to 2.2.0.Final, from the second
      channel: the first channel's io.undertow stream accepts no version. */
  lemma UndertowResolves(older: Comparator)
    requires StrictTotalOrder(older)
    ensures Step3(older).result == Success(ArtifactOf(UndertowCore, "2.2.0.Final", Tmp))
    ensures Step4(older).result == Success(ArtifactOf(UndertowServlet, "2.2.0.Final", Tmp))
    ensures Step4(older).session.recorder ==
              Step2(older).session.recorder[Key("io.undertow", "undertow-core") := Record("2.2.0.Final", Channel2)]
                                           [Key("io.undertow", "undertow-servlet") := Record("2.2.0.Final", Channel2)]
  {
    CoreCliResolves(older);
    ChannelAnswers();
    ResolvesFromSoleProposer(Step2(older).session, older, UndertowCore, 1, "2.2.0.Final");
    ResolvesFromSoleProposer(Step3(older).session, older, UndertowServlet, 1, "2.2.0.Final");
  }

  const FourRecords := map[Key("org.wildfly", "wildfly-ee-galleon-pack") := Record("24.0.0.Final", Channel1),
                           Key("org.wildfly.core", "wildfly.core.cli") := Record("2.2.0.Final", Channel1),
                           Key("io.undertow", "undertow-core") := Record("2.2.0.Final", Channel2),
                           Key("io.undertow", "undertow-servlet") := Record("2.2.0.Final", Channel2)]

  const FourStreams := {Stream("org.wildfly", "wildfly-ee-galleon-pack", "24.0.0.Final"),
                        Stream("org.wildfly.core", "wildfly.core.cli", "2.2.0.Final"),
                        Stream("io.undertow", "undertow-core", "2.2.0.Final"),
                        Stream("io.undertow", "undertow-servlet", "2.2.0.Final")}

  /** The recorder after the four resolutions. */
  lemma FourResolutionsRecorded(older: Comparator)
    requires StrictTotalOrder(older)
    ensures Step4(older).session.recorder == FourRecords
  {
    GalleonPackResolves(older);
    CoreCliResolves(older);
    UndertowResolves(older);
    var r1 := Step1(older).session.recorder;
    var r2 := Step2(older).session.recorder;
    var r4 := Step4(older).session.recorder;
    assert r1 == map[Key("org.wildfly", "wildfly-ee-galleon-pack") := Record("24.0.0.Final", Channel1)];
    assert r2 == r1[Key("org.wildfly.core", "wildfly.core.cli") := Record("2.2.0.Final", Channel1)];
    assert r4 == r2[Key("io.undertow", "undertow-core") := Record("2.2.0.Final", Channel2)]
                   [Key("io.undertow", "undertow-servlet") := Record("2.2.0.Final", Channel2)];
    BuiltUpIsFourRecords(r4);
  }

  lemma BuiltUpIsFourRecords(r: Recorder)
    requires r == map[Key("org.wildfly", "wildfly-ee-galleon-pack") := Record("24.0.0.Final", Channel1)]
                     [Key("org.wildfly.core", "wildfly.core.cli") := Record("2.2.0.Final", Channel1)]
                     [Key("io.undertow", "undertow-core") := Record("2.2.0.Final", Channel2)]
                     [Key("io.undertow", "undertow-servlet") := Record("2.2.0.Final", Channel2)]
    ensures r == FourRecords
  {
  }

  /** The four records pin exactly the four expected streams. */
  lemma FourRecordsPinFourStreams()
    ensures RecordedStreams(FourRecords) == FourStreams
  {
  }

  /** The four pinned streams are pairwise distinct. */
  lemma FourStreamsAreDistinct()
    ensures |FourStreams| == 4
  {
  }

  /** After the four resolutions the recorded channel holds exactly four
      streams, one per resolved artifact, each pinning its resolved version. */
  lemma RecordedChannelHoldsFourStreams(older: Comparator)
    requires StrictTotalOrder(older)
    ensures var recorded := GetRecordedChannels(Step4(older).session);
            && |recorded| == 1
            && recorded[0].streams == FourStreams
            && |recorded[0].streams| == 4
  {
    FourResolutionsRecorded(older);
    FourRecordsPinFourStreams();
    FourStreamsAreDistinct();
  }
}
