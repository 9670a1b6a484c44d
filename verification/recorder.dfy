/** The session's provenance recorder: one record per (groupId, artifactId),
    holding the version last resolved for it and the channel credited with
    it, and the synthetic channel definition that pins every recorded
    version. */
module ChannelRecorder {
  import opened Versions
  import opened Channels

  datatype Key = Key(groupId: string, artifactId: string)

  datatype Record = Record(version: Version, channel: Channel)

  type Recorder = map<Key, Record>

  /** A stream of a synthetic channel, pinned to one exact version. */
  datatype Stream = Stream(groupId: string, artifactId: string, version: Version)

  /** A channel as a descriptive document: its streams, no backend. */
  datatype ChannelDefinition = ChannelDefinition(streams: set<Stream>)

  /** Records that (groupId, artifactId) was resolved to `version` by
      `channel`, replacing any earlier record for the same pair. */
  function RecordStream(rec: Recorder, groupId: string, artifactId: string, version: Version, channel: Channel): (r: Recorder)
    ensures r.Keys == rec.Keys + {Key(groupId, artifactId)}
    ensures r[Key(groupId, artifactId)] == Record(version, channel)
    ensures forall k :: k in rec && k != Key(groupId, artifactId) ==> r[k] == rec[k]
  {
    rec[Key(groupId, artifactId) := Record(version, channel)]
  }

  /** Recording the same pair twice keeps a single record, the latest one. */
  lemma RecordStreamOverwrites(rec: Recorder, groupId: string, artifactId: string,
                               v1: Version, ch1: Channel, v2: Version, ch2: Channel)
    ensures var r := RecordStream(RecordStream(rec, groupId, artifactId, v1, ch1), groupId, artifactId, v2, ch2);
            && r == RecordStream(rec, groupId, artifactId, v2, ch2)
            && |r| == |RecordStream(rec, groupId, artifactId, v1, ch1)|
  {
  }

  function Pin(k: Key, r: Record): Stream {
    Stream(k.groupId, k.artifactId, r.version)
  }

  /** Pinning is injective on keys, so there are as many pins as records. */
  lemma {:induction false} PinCount(rec: Recorder)
    ensures |set k | k in rec :: Pin(k, rec[k])| == |rec|
    decreases |rec|
  {
    if |rec| > 0 {
      var k :| k in rec;
      var rest := rec - {k};
      PinCount(rest);
      var all := set k' | k' in rec :: Pin(k', rec[k']);
      var pins := set k' | k' in rest :: Pin(k', rest[k']);
      forall st | st in all ensures st in pins + {Pin(k, rec[k])} {
        var k' :| k' in rec && st == Pin(k', rec[k']);
        if k' != k { assert k' in rest && rest[k'] == rec[k']; }
      }
      assert all == pins + {Pin(k, rec[k])};
      assert Pin(k, rec[k]) !in pins;
      assert |rest| == |rec| - 1;
    }
  }

  /** The streams of the synthetic channel: one exact-version pin per
      recorded (groupId, artifactId). */
  function RecordedStreams(rec: Recorder): (streams: set<Stream>)
    ensures |streams| == |rec|
    ensures forall k :: k in rec ==> Stream(k.groupId, k.artifactId, rec[k].version) in streams
    ensures forall st :: st in streams ==>
              Key(st.groupId, st.artifactId) in rec && rec[Key(st.groupId, st.artifactId)].version == st.version
  {
    PinCount(rec);
    set k | k in rec :: Pin(k, rec[k])
  }
}
