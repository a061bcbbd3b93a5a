/** The topic reports: `timeline`, the audience series per channel during a
    topic's segments, and `best_segments`, the segments of a topic per
    channel ranked by their mean audience. */
module TopicViews {
  import opened Wrappers
  import opened Models
  import opened Queries
  import opened Aggregate

  /** The window of every topic's segment, in topic order. */
  function Windows(topics: seq<Topic>): seq<Window>
  {
    seq(|topics|, i requires 0 <= i < |topics| => WindowOf(topics[i].segment))
  }

  /** The reading lies in the window of some topic's segment. */
  ghost predicate CoveredByTopic(topics: seq<Topic>, a: Audience)
  {
    exists t :: t in topics && InWindow(a.timestamp, WindowOf(t.segment))
  }

  lemma WindowsCover(topics: seq<Topic>, ts: int)
    ensures Covered(ts, Windows(topics)) <==> exists t :: t in topics && InWindow(ts, WindowOf(t.segment))
  {
    if Covered(ts, Windows(topics)) {
      var w :| w in Windows(topics) && InWindow(ts, w);
      var i :| 0 <= i < |topics| && Windows(topics)[i] == w;
      assert topics[i] in topics;
    }
    if exists t :: t in topics && InWindow(ts, WindowOf(t.segment)) {
      var t :| t in topics && InWindow(ts, WindowOf(t.segment));
      var i :| 0 <= i < |topics| && topics[i] == t;
      assert Windows(topics)[i] == WindowOf(t.segment);
    }
  }

  // ---------------------------------------------------------------- timeline

  /** One sample of a timeline entry: `{"timestamp": ..., "value": ...}`. */
  datatype Point = Point(timestamp: int, value: int)

  /** `{"channel": name, "audience": [points]}`. */
  datatype Entry = Entry(channel: string, audience: seq<Point>)

  function PointOf(a: Audience): Point
  {
    Point(a.timestamp, a.value)
  }

  function Points(readings: seq<Audience>): seq<Point>
  {
    seq(|readings|, i requires 0 <= i < |readings| => PointOf(readings[i]))
  }

  function ChannelNames(readings: seq<Audience>): seq<string>
  {
    seq(|readings|, i requires 0 <= i < |readings| => readings[i].channel.name)
  }

  /** `groupby('channel__name')`: one entry per key, holding the readings of
      that channel in their original order. */
  function Entries(readings: seq<Audience>, keys: seq<string>): seq<Entry>
  {
    seq(|keys|, j requires 0 <= j < |keys| => Entry(keys[j], Points(ReadingsOfChannel(readings, keys[j]))))
  }

  /** The `timeline` view for the query parameter `topic`. */
  function Timeline(store: Store, topicParam: Option<string>): Result<seq<Entry>>
  {
    match topicParam
    case None => Err(ParseError)
    case Some(name) =>
      var topics := TopicsNamed(store.topics, name);
      if topics == [] then Ok([])
      else
        var readings := ReadingsCovered(store.audiences, Windows(topics));
        Ok(Entries(readings, GroupKeys(ChannelNames(readings))))
  }

  /** A missing topic is a ParseError, and a topic no topic name matches
      gives the empty list. */
  lemma TimelineNoMatch(store: Store, topicParam: Option<string>)
    ensures topicParam.None? ==> Timeline(store, topicParam) == Err(ParseError)
    ensures topicParam.Some? && (forall t :: t in store.topics ==> !IExact(t.name, topicParam.value)) ==>
              Timeline(store, topicParam) == Ok([])
  {
  }

  /** The entry of a reading's channel lists it when it was prefetched. */
  lemma PrefetchedIsListed(readings: seq<Audience>, keys: seq<string>, a: Audience) returns (j: int)
    requires forall x :: x in keys <==> x in ChannelNames(readings)
    requires a in readings
    ensures 0 <= j < |keys| && keys[j] == a.channel.name
    ensures PointOf(a) in Entries(readings, keys)[j].audience
  {
    var p :| 0 <= p < |readings| && readings[p] == a;
    assert ChannelNames(readings)[p] == a.channel.name;
    assert a.channel.name in keys;
    j :| 0 <= j < |keys| && keys[j] == a.channel.name;
    var own := ReadingsOfChannel(readings, keys[j]);
    assert a in own;
    var q :| 0 <= q < |own| && own[q] == a;
    assert Points(own)[q] == PointOf(a);
  }

  /** A point listed under a channel is a prefetched reading of that channel. */
  lemma ListedIsPrefetched(readings: seq<Audience>, keys: seq<string>, j: int, p: Point)
    requires 0 <= j < |keys|
    requires p in Entries(readings, keys)[j].audience
    ensures exists b :: b in readings && b.channel.name == keys[j] && PointOf(b) == p
  {
  }

  /** A reading is listed in an entry exactly when its timestamp lies in the
      window of a segment of a matching topic, and then in the entry of its
      own channel; and every listed point is such a reading of the entry's
      channel. */
  lemma TimelineListsCoveredReadings(store: Store, name: string, entries: seq<Entry>)
    requires Valid(store)
    requires Timeline(store, Some(name)) == Ok(entries)
    ensures forall a :: a in store.audiences ==>
              (CoveredByTopic(TopicsNamed(store.topics, name), a) <==>
               exists j :: 0 <= j < |entries| && entries[j].channel == a.channel.name && PointOf(a) in entries[j].audience)
    ensures forall j, p :: 0 <= j < |entries| && p in entries[j].audience ==>
              exists a :: a in store.audiences && a.channel.name == entries[j].channel &&
                          CoveredByTopic(TopicsNamed(store.topics, name), a) && PointOf(a) == p
  {
    var topics := TopicsNamed(store.topics, name);
    if topics == [] {
      return;
    }
    var readings := ReadingsCovered(store.audiences, Windows(topics));
    var keys := GroupKeys(ChannelNames(readings));
    assert entries == Entries(readings, keys);
    forall a | a in store.audiences
      ensures CoveredByTopic(topics, a) <==>
                exists j :: 0 <= j < |entries| && entries[j].channel == a.channel.name && PointOf(a) in entries[j].audience
    {
      WindowsCover(topics, a.timestamp);
      if CoveredByTopic(topics, a) {
        var j := PrefetchedIsListed(readings, keys, a);
      }
      if exists j :: 0 <= j < |entries| && entries[j].channel == a.channel.name && PointOf(a) in entries[j].audience {
        var j :| 0 <= j < |entries| && entries[j].channel == a.channel.name && PointOf(a) in entries[j].audience;
        ListedIsPrefetched(readings, keys, j, PointOf(a));
        var b :| b in readings && b.channel.name == keys[j] && PointOf(b) == PointOf(a);
        assert b.channel == a.channel;
        SameKeySameReading(store.audiences, a, b);
      }
    }
    forall j, p | 0 <= j < |entries| && p in entries[j].audience
      ensures exists a :: a in store.audiences && a.channel.name == entries[j].channel &&
                          CoveredByTopic(topics, a) && PointOf(a) == p
    {
      ListedIsPrefetched(readings, keys, j, p);
      var b :| b in readings && b.channel.name == keys[j] && PointOf(b) == p;
      WindowsCover(topics, b.timestamp);
    }
  }

  /** Entries come in ascending order of channel name, no two share a
      channel, none is empty, and within an entry no timestamp repeats, so
      each reading is listed once. */
  lemma TimelineEntriesWellFormed(store: Store, name: string, entries: seq<Entry>)
    requires Valid(store)
    requires Timeline(store, Some(name)) == Ok(entries)
    ensures forall i, j :: 0 <= i < j < |entries| ==>
              Less(entries[i].channel, entries[j].channel) && entries[i].channel != entries[j].channel
    ensures forall j :: 0 <= j < |entries| ==> entries[j].audience != []
    ensures forall j, p, q :: 0 <= j < |entries| && 0 <= p < q < |entries[j].audience| ==>
              entries[j].audience[p].timestamp != entries[j].audience[q].timestamp
  {
    var topics := TopicsNamed(store.topics, name);
    if topics == [] {
      return;
    }
    var readings := ReadingsCovered(store.audiences, Windows(topics));
    var keys := GroupKeys(ChannelNames(readings));
    SortedKeysDistinct(keys);
    forall j | 0 <= j < |entries|
      ensures entries[j].audience != []
    {
      assert keys[j] in ChannelNames(readings);
      var p :| 0 <= p < |readings| && readings[p].channel.name == keys[j];
      assert readings[p] in ReadingsOfChannel(readings, keys[j]);
    }
    forall j, p, q | 0 <= j < |entries| && 0 <= p < q < |entries[j].audience|
      ensures entries[j].audience[p].timestamp != entries[j].audience[q].timestamp
    {
      var own := ReadingsOfChannel(readings, keys[j]);
      assert own[p] in own && own[q] in own;
      assert own[p].channel == own[q].channel;
    }
  }

  // ----------------------------------------------------------- best_segments

  /** A row of the segments frame with its `audience` column: the mean of
      the segment's window on its own channel, None where pandas gives NaN. */
  datatype Row = Row(id: int, startTs: int, endTs: int, channelName: string, audience: Option<real>)

  /** The body of `best_segments`: the empty list when no topic matches,
      otherwise the ranked rows under each channel name. */
  datatype BestReport = EmptyList | ByChannel(groups: map<string, seq<Row>>)

  /** `topics.values_list('segment__id')`, used as an `id__in` set. */
  function SegmentIds(topics: seq<Topic>): set<int>
  {
    set t | t in topics :: t.segment.id
  }

  /** The readings `mean_func` averages for a segment: those of its channel
      in its closed window. */
  function SegmentReadings(readings: seq<Audience>, segment: Segment): seq<Audience>
  {
    ReadingsOfChannel(ReadingsIn(readings, WindowOf(segment)), segment.channel.name)
  }

  /** The segment's row, its mean taken over the given readings. */
  function RowOf(segment: Segment, readings: seq<Audience>): Row
  {
    Row(segment.id, segment.startTs, segment.endTs, segment.channel.name,
        Mean(Values(SegmentReadings(readings, segment))))
  }

  /** A row per segment, in order, each mean taken over the given readings. */
  function FrameRows(segments: seq<Segment>, readings: seq<Audience>): seq<Row>
  {
    seq(|segments|, k requires 0 <= k < |segments| => RowOf(segments[k], readings))
  }

  /** The frame after `df['audience'] = df.apply(mean_func, axis=1)`: a row
      for each segment a matching topic refers to, in table order, its mean
      taken over the prefetched readings. */
  function BestRows(store: Store, name: string): seq<Row>
  {
    var topics := TopicsNamed(store.topics, name);
    FrameRows(SegmentsWithIds(store.segments, SegmentIds(topics)), ReadingsCovered(store.audiences, Windows(topics)))
  }

  function RowChannels(rows: seq<Row>): seq<string>
  {
    seq(|rows|, i requires 0 <= i < |rows| => rows[i].channelName)
  }

  /** The rows of one `groupby('channel__name')` group, in frame order. */
  function RowsOfChannel(rows: seq<Row>, channel: string): (r: seq<Row>)
    ensures forall x :: multiset(r)[x] == if x.channelName == channel then multiset(rows)[x] else 0
  {
    if rows == [] then []
    else
      assert rows == [rows[0]] + rows[1..];
      if rows[0].channelName == channel then [rows[0]] + RowsOfChannel(rows[1..], channel)
      else RowsOfChannel(rows[1..], channel)
  }

  /** The order of `sort_values(by='audience', ascending=False)`: larger
      means first, and NaN after every number. */
  predicate AtLeast(a: Option<real>, b: Option<real>)
  {
    b.None? || (a.Some? && a.value >= b.value)
  }

  predicate SortedByAudience(rows: seq<Row>)
  {
    forall i, j :: 0 <= i < j < |rows| ==> AtLeast(rows[i].audience, rows[j].audience)
  }

  lemma AtLeastAllSorted(row: Row, rows: seq<Row>)
    requires SortedByAudience(rows)
    requires forall x :: x in rows ==> AtLeast(row.audience, x.audience)
    ensures SortedByAudience([row] + rows)
  {
  }

  function InsertByAudience(sorted: seq<Row>, row: Row): (r: seq<Row>)
    requires SortedByAudience(sorted)
    ensures SortedByAudience(r)
    ensures multiset(r) == multiset(sorted) + multiset{row}
  {
    if sorted == [] || AtLeast(row.audience, sorted[0].audience) then
      AtLeastAllSorted(row, sorted);
      [row] + sorted
    else
      assert sorted == [sorted[0]] + sorted[1..];
      var rest := InsertByAudience(sorted[1..], row);
      assert forall x :: x in rest ==> x in sorted[1..] || x == row by {
        forall x | x in rest
          ensures x in sorted[1..] || x == row
        {
          assert x in multiset(rest);
        }
      }
      AtLeastAllSorted(sorted[0], rest);
      [sorted[0]] + rest
  }

  /** The rows ordered by audience, NaN last; ties in no particular order. */
  function SortByAudience(rows: seq<Row>): (r: seq<Row>)
    ensures SortedByAudience(r)
    ensures multiset(r) == multiset(rows)
  {
    if rows == [] then []
    else
      assert rows == [rows[0]] + rows[1..];
      InsertByAudience(SortByAudience(rows[1..]), rows[0])
  }

  /** `groups` is the grouping of `rows` by channel name, each group ranked
      by audience. */
  ghost predicate Grouped(groups: map<string, seq<Row>>, rows: seq<Row>)
  {
    && (forall ch :: ch in groups <==> exists i :: 0 <= i < |rows| && rows[i].channelName == ch)
    && (forall ch :: ch in groups ==>
          SortedByAudience(groups[ch]) && multiset(groups[ch]) == multiset(RowsOfChannel(rows, ch)))
  }

  /** The response loop of `best_segments`: for each channel key of the
      frame, store that channel's rows sorted by audience. */
  method GroupByChannel(rows: seq<Row>) returns (groups: map<string, seq<Row>>)
    ensures Grouped(groups, rows)
  {
    var keys := GroupKeys(RowChannels(rows));
    groups := map[];
    for j := 0 to |keys|
      invariant forall ch :: ch in groups <==> ch in keys[..j]
      invariant forall ch :: ch in groups ==>
                  SortedByAudience(groups[ch]) && multiset(groups[ch]) == multiset(RowsOfChannel(rows, ch))
    {
      groups := groups[keys[j] := SortByAudience(RowsOfChannel(rows, keys[j]))];
    }
    assert keys[..|keys|] == keys;
    forall ch
      ensures ch in keys <==> exists i :: 0 <= i < |rows| && rows[i].channelName == ch
    {
      if ch in keys {
        assert ch in RowChannels(rows);
        var i :| 0 <= i < |rows| && RowChannels(rows)[i] == ch;
      }
      if exists i :: 0 <= i < |rows| && rows[i].channelName == ch {
        var i :| 0 <= i < |rows| && rows[i].channelName == ch;
        assert RowChannels(rows)[i] == ch;
      }
    }
  }

  /** `df['audience'] = df.apply(mean_func, axis=1)`: the row of each
      segment in turn, its mean taken over the prefetched readings. */
  method AudienceColumn(segments: seq<Segment>, prefetched: seq<Audience>) returns (rows: seq<Row>)
    ensures |rows| == |segments|
    ensures forall k :: 0 <= k < |segments| ==> rows[k] == RowOf(segments[k], prefetched)
  {
    rows := [];
    for i := 0 to |segments|
      invariant |rows| == i
      invariant forall k :: 0 <= k < i ==> rows[k] == RowOf(segments[k], prefetched)
    {
      rows := rows + [RowOf(segments[i], prefetched)];
    }
  }

  /** The `best_segments` view for the query parameter `topic`: compute the
      audience column row by row over the prefetched readings, then group
      and rank the rows by channel. */
  method BestSegments(store: Store, topicParam: Option<string>) returns (r: Result<BestReport>)
    ensures topicParam.None? ==> r == Err(ParseError)
    ensures topicParam.Some? && TopicsNamed(store.topics, topicParam.value) == [] ==> r == Ok(EmptyList)
    ensures topicParam.Some? && TopicsNamed(store.topics, topicParam.value) != [] ==>
              r.Ok? && r.value.ByChannel? && Grouped(r.value.groups, BestRows(store, topicParam.value))
  {
    if topicParam.None? {
      return Err(ParseError);
    }
    var name := topicParam.value;
    var topics := TopicsNamed(store.topics, name);
    var segments := SegmentsWithIds(store.segments, SegmentIds(topics));
    if topics == [] {
      return Ok(EmptyList);
    }
    var prefetched := ReadingsCovered(store.audiences, Windows(topics));
    var rows := AudienceColumn(segments, prefetched);
    assert rows == BestRows(store, name);
    var groups := GroupByChannel(rows);
    return Ok(ByChannel(groups));
  }

  /** Restricting the prefetched readings to one of the windows they were
      fetched for gives what a query of that window alone gives. */
  lemma {:induction false} PrefetchKeepsWindow(readings: seq<Audience>, windows: seq<Window>, w: Window)
    requires w in windows
    ensures ReadingsIn(ReadingsCovered(readings, windows), w) == ReadingsIn(readings, w)
  {
    if readings != [] {
      PrefetchKeepsWindow(readings[1..], windows, w);
      var rest := ReadingsCovered(readings[1..], windows);
      if Covered(readings[0].timestamp, windows) {
        assert ([readings[0]] + rest)[0] == readings[0] && ([readings[0]] + rest)[1..] == rest;
      }
    }
  }

  /** The batched mean of a segment equals the direct per-segment query,
      because the prefetch covers the segment's window. */
  lemma BatchMeanIsDirect(readings: seq<Audience>, windows: seq<Window>, segment: Segment)
    requires WindowOf(segment) in windows
    ensures RowOf(segment, ReadingsCovered(readings, windows)) == RowOf(segment, readings)
  {
    PrefetchKeepsWindow(readings, windows, WindowOf(segment));
  }

  /** Each row of the frame is what a direct query of its segment gives: the
      mean over the readings of the segment's own channel in its window. */
  lemma BestRowsAreDirect(store: Store, name: string)
    requires Valid(store)
    ensures var segments := SegmentsWithIds(store.segments, SegmentIds(TopicsNamed(store.topics, name)));
            |BestRows(store, name)| == |segments| &&
            forall k :: 0 <= k < |segments| ==> BestRows(store, name)[k] == RowOf(segments[k], store.audiences)
  {
    var topics := TopicsNamed(store.topics, name);
    var segments := SegmentsWithIds(store.segments, SegmentIds(topics));
    forall k | 0 <= k < |segments|
      ensures BestRows(store, name)[k] == RowOf(segments[k], store.audiences)
    {
      var s := segments[k];
      assert s in segments;
      var t :| t in topics && t.segment.id == s.id;
      SameIdSameSegment(store.segments, t.segment, s);
      var i :| 0 <= i < |topics| && topics[i] == t;
      assert Windows(topics)[i] == WindowOf(s);
      BatchMeanIsDirect(store.audiences, Windows(topics), s);
    }
  }

  /** Every segment a matching topic refers to has a row, and no two rows
      share a segment id, however many topics refer to the segment. */
  lemma BestRowsOncePerSegment(store: Store, name: string)
    requires Valid(store)
    ensures forall t :: t in TopicsNamed(store.topics, name) ==>
              exists k :: 0 <= k < |BestRows(store, name)| && BestRows(store, name)[k].id == t.segment.id
    ensures forall i, j :: 0 <= i < j < |BestRows(store, name)| ==> BestRows(store, name)[i].id != BestRows(store, name)[j].id
  {
    var topics := TopicsNamed(store.topics, name);
    var segments := SegmentsWithIds(store.segments, SegmentIds(topics));
    var rows := BestRows(store, name);
    forall t | t in topics
      ensures exists k :: 0 <= k < |rows| && rows[k].id == t.segment.id
    {
      assert t.segment in store.segments && t.segment.id in SegmentIds(topics);
      var k :| 0 <= k < |segments| && segments[k] == t.segment;
      assert rows[k].id == t.segment.id;
    }
  }

  lemma {:induction false} DistinctIdsCountOnce(rows: seq<Row>, k: int)
    requires forall i, j :: 0 <= i < j < |rows| ==> rows[i].id != rows[j].id
    requires 0 <= k < |rows|
    ensures multiset(rows)[rows[k]] == 1
  {
    assert rows == [rows[0]] + rows[1..];
    if k == 0 {
      assert rows[0] !in rows[1..];
    } else {
      assert rows[1..][k - 1] == rows[k];
      DistinctIdsCountOnce(rows[1..], k - 1);
    }
  }

  /** In a grouping of rows with distinct ids, every listed row belongs to
      the group of its own channel, and every row is listed exactly once,
      under its channel. */
  lemma GroupedPlacesEachRowOnce(groups: map<string, seq<Row>>, rows: seq<Row>)
    requires Grouped(groups, rows)
    requires forall i, j :: 0 <= i < j < |rows| ==> rows[i].id != rows[j].id
    ensures forall ch, x :: ch in groups && x in groups[ch] ==> x.channelName == ch && x in rows
    ensures forall k :: 0 <= k < |rows| ==>
              rows[k].channelName in groups && multiset(groups[rows[k].channelName])[rows[k]] == 1
  {
    forall ch, x | ch in groups && x in groups[ch]
      ensures x.channelName == ch && x in rows
    {
      assert x in multiset(groups[ch]);
    }
    forall k | 0 <= k < |rows|
      ensures rows[k].channelName in groups && multiset(groups[rows[k].channelName])[rows[k]] == 1
    {
      DistinctIdsCountOnce(rows, k);
    }
  }
}
