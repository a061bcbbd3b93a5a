/** The records of the news application: channels, segments of programming,
    topics detected in segments, and audience readings, with the database
    constraints the reports rely on. */
module Models {

  /** A broadcast channel. Its name is unique, so the name identifies it. */
  datatype Channel = Channel(name: string)

  /** A contiguous block of programming on one channel, over the closed
      window [startTs, endTs] of epoch seconds. */
  datatype Segment = Segment(id: int, channel: Channel, startTs: int, endTs: int)

  /** A named subject detected in a segment. Its occurrence count and
      relevance score are not read by any report. */
  datatype Topic = Topic(name: string, segment: Segment)

  /** One audience sample: the number of viewers of a channel at a moment. */
  datatype Audience = Audience(timestamp: int, channel: Channel, value: int)

  /** The three tables the reports read, each in storage order. */
  datatype Store = Store(segments: seq<Segment>, topics: seq<Topic>, audiences: seq<Audience>)

  /** Segment ids are primary keys. */
  predicate UniqueSegmentIds(segments: seq<Segment>)
  {
    forall i, j :: 0 <= i < j < |segments| ==> segments[i].id != segments[j].id
  }

  /** No two readings share a (timestamp, channel) pair. */
  predicate UniqueReadings(readings: seq<Audience>)
  {
    forall i, j :: 0 <= i < j < |readings| ==>
      readings[i].timestamp != readings[j].timestamp || readings[i].channel != readings[j].channel
  }

  /** The constraints the database keeps: primary keys, the foreign key from
      a topic to its segment, and the uniqueness of readings. */
  predicate Valid(store: Store)
  {
    && UniqueSegmentIds(store.segments)
    && (forall t :: t in store.topics ==> t.segment in store.segments)
    && UniqueReadings(store.audiences)
  }

  /** Two readings of a valid table with the same timestamp and channel are
      the same reading. */
  lemma SameKeySameReading(readings: seq<Audience>, x: Audience, y: Audience)
    requires UniqueReadings(readings)
    requires x in readings && y in readings
    requires x.timestamp == y.timestamp && x.channel == y.channel
    ensures x == y
  {
  }

  /** Two segments of a valid table with the same id are the same segment. */
  lemma SameIdSameSegment(segments: seq<Segment>, x: Segment, y: Segment)
    requires UniqueSegmentIds(segments)
    requires x in segments && y in segments
    requires x.id == y.id
    ensures x == y
  {
  }
}
