/** Properties relating several resolutions: order independence of the
    chosen latest version, the tie-break between channels proposing the same
    version, and the reproducibility of a session from its recorded channel. */
module SessionProperties {
  import opened Results
  import opened Versions
  import opened Channels
  import opened ChannelRecorder
  import opened ChannelSession

  /** The versions some channel proposes, as a set. */
  function ProposalSet(cs: seq<Channel>, c: Coordinates, base: Option<Version>): (vs: set<Version>)
    ensures forall v :: v in vs <==> Proposed(cs, c, base, v)
  {
    set w | w in ProposedVersions(cs, c, base)
  }

  /** The winners of two channel lists that propose the same versions propose
      the same version: the greatest one, which is unique. */
  lemma WinnersProposeSameVersion(cs1: seq<Channel>, cs2: seq<Channel>, older: Comparator,
                                  c: Coordinates, base: Option<Version>, i1: int, i2: int)
    requires StrictTotalOrder(older)
    requires forall v :: Proposed(cs1, c, base, v) <==> Proposed(cs2, c, base, v)
    requires IsLatestWinner(cs1, older, c, base, i1) && IsLatestWinner(cs2, older, c, base, i2)
    ensures cs1[i1].resolveLatestVersion(c, base) == cs2[i2].resolveLatestVersion(c, base)
  {
    var vs := ProposalSet(cs1, c, base);
    assert vs == ProposalSet(cs2, c, base);
    var v1 := cs1[i1].resolveLatestVersion(c, base).value;
    var v2 := cs2[i2].resolveLatestVersion(c, base).value;
    assert Proposed(cs1, c, base, v1) && Proposed(cs2, c, base, v2);
    forall w | w in vs ensures w == v1 || older(w, v1) {
      var j :| 0 <= j < |cs1| && cs1[j].resolveLatestVersion(c, base) == Some(w);
    }
    forall w | w in vs ensures w == v2 || older(w, v2) {
      var j :| 0 <= j < |cs2| && cs2[j].resolveLatestVersion(c, base) == Some(w);
    }
    GreatestIsUnique(older, v1, v2, vs);
  }

  /** With no proposal, a successful latest resolution is at the base version. */
  lemma FallbackResolvesBaseVersion(s: Session, older: Comparator, c: Coordinates, base: Option<Version>)
    requires StrictTotalOrder(older)
    requires NoProposal(s.channels, c, base)
    ensures var r := ResolveLatestMavenArtifact(s, older, c, base);
            r.result.Success? ==> base.Some? && r.result.value.version == base.value
  {
  }

  /** A successful latest resolution is at the winner's proposed version. */
  lemma LatestResolvesWinnerVersion(s: Session, older: Comparator, c: Coordinates, base: Option<Version>, i: int)
    requires StrictTotalOrder(older)
    requires IsLatestWinner(s.channels, older, c, base, i)
    ensures var r := ResolveLatestMavenArtifact(s, older, c, base);
            r.result.Success? ==> Some(r.result.value.version) == s.channels[i].resolveLatestVersion(c, base)
  {
  }

  /** Whenever some channel proposes a version, latest resolution has a winner. */
  lemma WinnerExists(cs: seq<Channel>, older: Comparator, c: Coordinates, base: Option<Version>)
    requires StrictTotalOrder(older)
    requires !NoProposal(cs, c, base)
    ensures exists i :: IsLatestWinner(cs, older, c, base, i)
  {
    var i :| 0 <= i < |cs| && cs[i].resolveLatestVersion(c, base).Some?;
    var vs := ProposedVersions(cs, c, base);
    assert Proposed(cs, c, base, cs[i].resolveLatestVersion(c, base).value);
    LatestWinnerIsFoundChannel(cs, older, c, base, MaxOf(older, vs));
  }

  /** Latest resolution over two channel lists that propose the same versions,
      in whatever order, resolves both to the same version when both succeed. */
  lemma LatestVersionIndependentOfOrder(s1: Session, s2: Session, older: Comparator,
                                        c: Coordinates, base: Option<Version>)
    requires StrictTotalOrder(older)
    requires forall v :: Proposed(s1.channels, c, base, v) <==> Proposed(s2.channels, c, base, v)
    ensures var r1 := ResolveLatestMavenArtifact(s1, older, c, base);
            var r2 := ResolveLatestMavenArtifact(s2, older, c, base);
            r1.result.Success? && r2.result.Success? ==> r1.result.value.version == r2.result.value.version
  {
    if NoProposal(s1.channels, c, base) {
      assert NoProposal(s2.channels, c, base) by {
        forall i | 0 <= i < |s2.channels| ensures s2.channels[i].resolveLatestVersion(c, base).None? {
          if s2.channels[i].resolveLatestVersion(c, base).Some? {
            assert Proposed(s2.channels, c, base, s2.channels[i].resolveLatestVersion(c, base).value);
          }
        }
      }
      FallbackResolvesBaseVersion(s1, older, c, base);
      FallbackResolvesBaseVersion(s2, older, c, base);
    } else {
      WinnerExists(s1.channels, older, c, base);
      var i1 :| IsLatestWinner(s1.channels, older, c, base, i1);
      assert !NoProposal(s2.channels, c, base) by {
        assert Proposed(s1.channels, c, base, s1.channels[i1].resolveLatestVersion(c, base).value);
      }
      WinnerExists(s2.channels, older, c, base);
      var i2 :| IsLatestWinner(s2.channels, older, c, base, i2);
      WinnersProposeSameVersion(s1.channels, s2.channels, older, c, base, i1, i2);
      LatestResolvesWinnerVersion(s1, older, c, base, i1);
      LatestResolvesWinnerVersion(s2, older, c, base, i2);
    }
  }

  /** When two channels propose the same version, the later one in list order
      is asked to resolve it and is credited by the recorder. */
  lemma TieCreditsLaterChannel(s: Session, older: Comparator, c: Coordinates, base: Option<Version>,
                               first: Channel, second: Channel, v: Version)
    requires StrictTotalOrder(older)
    requires s.channels == [first, second]
    requires first.resolveLatestVersion(c, base) == Some(v)
    requires second.resolveLatestVersion(c, base) == Some(v)
    requires second.resolveArtifact(c, v).Success?
    ensures var r := ResolveLatestMavenArtifact(s, older, c, base);
            && r.result == Success(ArtifactOf(c, v, second.resolveArtifact(c, v).value))
            && r.session.recorder[Key(c.groupId, c.artifactId)] == Record(v, second)
  {
  }

  /** A live channel built from a channel definition and a backend: its latest
      version for some coordinates is the version its stream for the same
      (groupId, artifactId) pins, and exact resolution goes to the backend. */
  ghost function Replay(def: ChannelDefinition, backend: (Coordinates, Version) -> Result<FileHandle, Unresolved>): Channel {
    Channel(
      backend,
      (c: Coordinates, base: Option<Version>) =>
        if exists st :: st in def.streams && st.groupId == c.groupId && st.artifactId == c.artifactId then
          var st :| st in def.streams && st.groupId == c.groupId && st.artifactId == c.artifactId;
          Some(st.version)
        else
          None)
  }

  /** A new session whose sole channel is the recorded channel of an earlier
      session resolves every recorded (groupId, artifactId) to the version the
      earlier session resolved, and records it again. */
  lemma RecordedChannelReproduces(earlier: Session, later: Recorder, older: Comparator,
                                  backend: (Coordinates, Version) -> Result<FileHandle, Unresolved>,
                                  c: Coordinates, base: Option<Version>)
    requires StrictTotalOrder(older)
    requires Key(c.groupId, c.artifactId) in earlier.recorder
    requires backend(c, earlier.recorder[Key(c.groupId, c.artifactId)].version).Success?
    ensures var v := earlier.recorder[Key(c.groupId, c.artifactId)].version;
            var replayed := Session([Replay(GetRecordedChannels(earlier)[0], backend)], later);
            var r := ResolveLatestMavenArtifact(replayed, older, c, base);
            && r.result == Success(ArtifactOf(c, v, backend(c, v).value))
            && r.session.recorder[Key(c.groupId, c.artifactId)].version == v
  {
  }
}
