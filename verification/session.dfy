/** A resolution session over an ordered list of channels: exact resolution
    (first channel that resolves wins), latest resolution (greatest version
    proposed by any channel), and the recorder every success is credited to. */
module ChannelSession {
  import opened Results
  import opened Versions
  import opened Channels
  import opened ChannelRecorder

  datatype Session = Session(channels: seq<Channel>, recorder: Recorder)

  /** The outcome of one resolve call: the session afterwards, and either the
      resolved artifact or the exception raised. */
  datatype Resolution = Resolution(session: Session, result: Result<MavenArtifact, Unresolved>)

  /** A new session over `channels`; nothing is recorded yet. Backend
      initialisation is not modelled. */
  function NewSession(channels: seq<Channel>): (s: Session)
    ensures s.channels == channels
    ensures RecordedStreams(s.recorder) == {}
  {
    Session(channels, map[])
  }

  // ---------------------------------------------------------------------
  // Exact resolution

  /** Channel `i` resolves version `v` of `c`, and no channel before it does. */
  ghost predicate IsFirstResolving(cs: seq<Channel>, c: Coordinates, v: Version, i: int) {
    && 0 <= i < |cs|
    && cs[i].resolveArtifact(c, v).Success?
    && forall j :: 0 <= j < i ==> cs[j].resolveArtifact(c, v).Failure?
  }

  /** The index of the first channel, in list order, that resolves `v`. */
  function FirstResolving(cs: seq<Channel>, c: Coordinates, v: Version): (r: Option<nat>)
    ensures r.Some? ==> IsFirstResolving(cs, c, v, r.value)
    ensures r.None? ==> forall j :: 0 <= j < |cs| ==> cs[j].resolveArtifact(c, v).Failure?
  {
    if |cs| == 0 then None
    else if cs[0].resolveArtifact(c, v).Success? then Some(0)
    else
      match FirstResolving(cs[1..], c, v)
      case None => None
      case Some(i) => Some(i + 1)
  }

  /** `resolveExactMavenArtifact`: ask each channel in order to resolve the
      exact version; the first that succeeds is recorded and its file
      returned. If every channel fails, raise `Unresolved` naming the
      requested coordinates and version, recording nothing. */
  function ResolveExactMavenArtifact(s: Session, c: Coordinates, v: Version): (r: Resolution)
    ensures r.session.channels == s.channels
    ensures r.result.Failure? <==> forall j :: 0 <= j < |s.channels| ==> s.channels[j].resolveArtifact(c, v).Failure?
    ensures r.result.Failure? ==> r == Resolution(s, Failure(Unresolved(ExactFailureMessage(c, v))))
    ensures r.result.Success? ==> Carries(r.result.value, c, v)
    ensures forall i :: IsFirstResolving(s.channels, c, v, i) ==>
              && r.result == Success(ArtifactOf(c, v, s.channels[i].resolveArtifact(c, v).value))
              && r.session.recorder == RecordStream(s.recorder, c.groupId, c.artifactId, v, s.channels[i])
  {
    match FirstResolving(s.channels, c, v)
    case None =>
      Resolution(s, Failure(Unresolved(ExactFailureMessage(c, v))))
    case Some(i) =>
      var ch := s.channels[i];
      Resolution(Session(s.channels, RecordStream(s.recorder, c.groupId, c.artifactId, v, ch)),
                 Success(ArtifactOf(c, v, ch.resolveArtifact(c, v).value)))
  }

  /** Channels after the first resolving one are never consulted: replacing
      them by anything leaves the outcome unchanged. */
  lemma ExactIgnoresLaterChannels(s: Session, c: Coordinates, v: Version, i: nat, later: seq<Channel>)
    requires IsFirstResolving(s.channels, c, v, i)
    ensures var s' := Session(s.channels[..i + 1] + later, s.recorder);
            && ResolveExactMavenArtifact(s', c, v).result == ResolveExactMavenArtifact(s, c, v).result
            && ResolveExactMavenArtifact(s', c, v).session.recorder == ResolveExactMavenArtifact(s, c, v).session.recorder
  {
    var s' := Session(s.channels[..i + 1] + later, s.recorder);
    assert s'.channels[i] == s.channels[i];
    assert forall j :: 0 <= j < i ==> s'.channels[j] == s.channels[j];
    assert IsFirstResolving(s'.channels, c, v, i);
  }

  // ---------------------------------------------------------------------
  // Latest resolution

  /** No channel has an opinion on the latest version of `c`. */
  ghost predicate NoProposal(cs: seq<Channel>, c: Coordinates, base: Option<Version>) {
    forall i :: 0 <= i < |cs| ==> cs[i].resolveLatestVersion(c, base).None?
  }

  /** Some channel proposes `v` as the latest version of `c`. */
  ghost predicate Proposed(cs: seq<Channel>, c: Coordinates, base: Option<Version>, v: Version) {
    exists i :: 0 <= i < |cs| && cs[i].resolveLatestVersion(c, base) == Some(v)
  }

  /** Channel `i` proposes `v`, and no later channel proposes it too. */
  ghost predicate IsLastProposer(cs: seq<Channel>, c: Coordinates, base: Option<Version>, v: Version, i: int) {
    && 0 <= i < |cs|
    && cs[i].resolveLatestVersion(c, base) == Some(v)
    && forall j :: i < j < |cs| ==> cs[j].resolveLatestVersion(c, base) != Some(v)
  }

  /** Channel `i` is the one latest resolution asks to resolve: it is the last
      channel proposing its version, and that version is not older than any
      other proposal. */
  ghost predicate IsLatestWinner(cs: seq<Channel>, older: Comparator, c: Coordinates, base: Option<Version>, i: int) {
    && 0 <= i < |cs|
    && cs[i].resolveLatestVersion(c, base).Some?
    && IsLastProposer(cs, c, base, cs[i].resolveLatestVersion(c, base).value, i)
    && forall j :: 0 <= j < |cs| && cs[j].resolveLatestVersion(c, base).Some? ==>
         cs[j].resolveLatestVersion(c, base).value == cs[i].resolveLatestVersion(c, base).value
         || older(cs[j].resolveLatestVersion(c, base).value, cs[i].resolveLatestVersion(c, base).value)
  }

  /** The versions proposed by the channels, in channel order. */
  function ProposedVersions(cs: seq<Channel>, c: Coordinates, base: Option<Version>): (vs: seq<Version>)
    ensures forall v :: v in vs <==> Proposed(cs, c, base, v)
  {
    if |cs| == 0 then []
    else
      var front := ProposedVersions(cs[..|cs| - 1], c, base);
      assert forall i :: 0 <= i < |cs| - 1 ==> cs[..|cs| - 1][i] == cs[i];
      match cs[|cs| - 1].resolveLatestVersion(c, base)
      case None => front
      case Some(v) => front + [v]
  }

  /** `m` maps exactly the versions proposed by `cs`, each to the last channel
      proposing it. */
  ghost predicate FoundBy(cs: seq<Channel>, c: Coordinates, base: Option<Version>, m: map<Version, Channel>) {
    && (forall v :: v in m <==> Proposed(cs, c, base, v))
    && (forall v :: v in m ==> exists i :: IsLastProposer(cs, c, base, v, i) && m[v] == cs[i])
  }

  /** The `found` map: each proposed version mapped to the channel that
      proposed it, a later `put` of the same version overwriting an earlier. */
  function Found(cs: seq<Channel>, c: Coordinates, base: Option<Version>): (m: map<Version, Channel>)
    ensures FoundBy(cs, c, base, m)
  {
    if |cs| == 0 then map[]
    else
      var n := |cs| - 1;
      var m := Found(cs[..n], c, base);
      var m' := match cs[n].resolveLatestVersion(c, base)
                case None => m
                case Some(w) => m[w := cs[n]];
      FoundStep(cs, c, base, m);
      m'
  }

  /** One `put` of the loop over channels keeps `FoundBy`. */
  lemma FoundStep(cs: seq<Channel>, c: Coordinates, base: Option<Version>, m: map<Version, Channel>)
    requires |cs| > 0
    requires FoundBy(cs[..|cs| - 1], c, base, m)
    ensures FoundBy(cs, c, base, match cs[|cs| - 1].resolveLatestVersion(c, base)
                                 case None => m
                                 case Some(w) => m[w := cs[|cs| - 1]])
  {
    var n := |cs| - 1;
    var front := cs[..n];
    assert forall i :: 0 <= i < n ==> front[i] == cs[i];
    var m' := match cs[n].resolveLatestVersion(c, base)
              case None => m
              case Some(w) => m[w := cs[n]];
    forall v ensures v in m' <==> Proposed(cs, c, base, v) {
      if Proposed(cs, c, base, v) {
        var i :| 0 <= i < |cs| && cs[i].resolveLatestVersion(c, base) == Some(v);
        if i < n { assert Proposed(front, c, base, v); }
      }
      if v in m {
        var i :| 0 <= i < n && front[i].resolveLatestVersion(c, base) == Some(v);
        assert cs[i].resolveLatestVersion(c, base) == Some(v);
      }
    }
    forall v | v in m' ensures exists i :: IsLastProposer(cs, c, base, v, i) && m'[v] == cs[i] {
      if cs[n].resolveLatestVersion(c, base) == Some(v) {
        assert IsLastProposer(cs, c, base, v, n);
      } else {
        var i :| IsLastProposer(front, c, base, v, i) && m[v] == front[i];
        assert IsLastProposer(cs, c, base, v, i);
      }
    }
  }

  /** Two winners of the same latest resolution are the same channel. */
  lemma WinnerIsUnique(cs: seq<Channel>, older: Comparator, c: Coordinates, base: Option<Version>, i: int, j: int)
    requires StrictTotalOrder(older)
    requires IsLatestWinner(cs, older, c, base, i) && IsLatestWinner(cs, older, c, base, j)
    ensures i == j
  {
  }

  /** `resolveLatestMavenArtifact`: collect every channel's latest version
      into the `found` map. If it is empty, fall back to exact resolution at
      `baseVersion`, or raise "no stream found" when there is none. Otherwise
      take the greatest found version, ask the channel it is mapped to to
      resolve it, and record and return the result; a failure of that
      channel propagates unchanged, without trying any other candidate. */
  function ResolveLatestMavenArtifact(s: Session, older: Comparator, c: Coordinates, base: Option<Version>): (r: Resolution)
    requires StrictTotalOrder(older)
    ensures r.session.channels == s.channels
    ensures NoProposal(s.channels, c, base) && base.Some? ==>
              r == ResolveExactMavenArtifact(s, c, base.value)
    ensures NoProposal(s.channels, c, base) && base.None? ==>
              r == Resolution(s, Failure(Unresolved(NoStreamMessage(c))))
    ensures !NoProposal(s.channels, c, base) ==> exists i :: IsLatestWinner(s.channels, older, c, base, i)
    ensures forall i :: IsLatestWinner(s.channels, older, c, base, i) ==>
              var ch := s.channels[i];
              var v := ch.resolveLatestVersion(c, base).value;
              && (ch.resolveArtifact(c, v).Success? ==>
                    && r.result == Success(ArtifactOf(c, v, ch.resolveArtifact(c, v).value))
                    && r.session.recorder == RecordStream(s.recorder, c.groupId, c.artifactId, v, ch))
              && (ch.resolveArtifact(c, v).Failure? ==>
                    r == Resolution(s, Failure(ch.resolveArtifact(c, v).error)))
  {
    var found := Found(s.channels, c, base);
    if found.Keys == {} then
      assert NoProposal(s.channels, c, base) by {
        forall i | 0 <= i < |s.channels| ensures s.channels[i].resolveLatestVersion(c, base).None? {
          if s.channels[i].resolveLatestVersion(c, base).Some? {
            assert Proposed(s.channels, c, base, s.channels[i].resolveLatestVersion(c, base).value);
            assert false;
          }
        }
      }
      match base
      case Some(b) => ResolveExactMavenArtifact(s, c, b)
      case None => Resolution(s, Failure(Unresolved(NoStreamMessage(c))))
    else
      var vs := ProposedVersions(s.channels, c, base);
      var k :| k in found;
      assert k in vs;
      var latest := MaxOf(older, vs);
      var ch := found[latest];
      LatestWinnerIsFoundChannel(s.channels, older, c, base, latest);
      match ch.resolveArtifact(c, latest)
      case Failure(e) => Resolution(s, Failure(e))
      case Success(f) =>
        Resolution(Session(s.channels, RecordStream(s.recorder, c.groupId, c.artifactId, latest, ch)),
                   Success(ArtifactOf(c, latest, f)))
  }

  /** The greatest proposal's entry in `found` is the unique winner. */
  lemma LatestWinnerIsFoundChannel(cs: seq<Channel>, older: Comparator, c: Coordinates, base: Option<Version>, latest: Version)
    requires StrictTotalOrder(older)
    requires IsGreatest(older, latest, set w | w in ProposedVersions(cs, c, base))
    ensures latest in Found(cs, c, base)
    ensures exists i :: IsLatestWinner(cs, older, c, base, i)
    ensures forall i :: IsLatestWinner(cs, older, c, base, i) ==>
              Found(cs, c, base)[latest] == cs[i] && cs[i].resolveLatestVersion(c, base) == Some(latest)
  {
    var found := Found(cs, c, base);
    var vs := ProposedVersions(cs, c, base);
    var i :| IsLastProposer(cs, c, base, latest, i) && found[latest] == cs[i];
    forall j | 0 <= j < |cs| && cs[j].resolveLatestVersion(c, base).Some?
      ensures cs[j].resolveLatestVersion(c, base).value == latest || older(cs[j].resolveLatestVersion(c, base).value, latest)
    {
      assert Proposed(cs, c, base, cs[j].resolveLatestVersion(c, base).value);
    }
    assert IsLatestWinner(cs, older, c, base, i);
    forall i' | IsLatestWinner(cs, older, c, base, i')
      ensures found[latest] == cs[i'] && cs[i'].resolveLatestVersion(c, base) == Some(latest)
    {
      WinnerIsUnique(cs, older, c, base, i, i');
    }
  }

  // ---------------------------------------------------------------------
  // Recorded channels

  /** `getRecordedChannels`: one synthetic channel whose streams pin, for each
      (groupId, artifactId) resolved in this session, the version last
      resolved. */
  function GetRecordedChannels(s: Session): (r: seq<ChannelDefinition>)
    ensures |r| == 1
    ensures |r[0].streams| == |s.recorder|
    ensures forall k :: k in s.recorder ==> Stream(k.groupId, k.artifactId, s.recorder[k].version) in r[0].streams
    ensures forall st :: st in r[0].streams ==>
              Key(st.groupId, st.artifactId) in s.recorder
              && s.recorder[Key(st.groupId, st.artifactId)].version == st.version
  {
    [ChannelDefinition(RecordedStreams(s.recorder))]
  }
}
