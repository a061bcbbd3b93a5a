/** The record-store queries the report views issue through the ORM, written
    as filters over the tables. Each filter keeps the table's storage order,
    which is the order the views iterate in. */
module Queries {
  import opened Models

  /** The length of the `by_date` window: one day of epoch seconds. */
  const DaySeconds: int := 86400

  /** A closed time window [lo, hi], as Django's `__range` lookup tests it. */
  datatype Window = Window(lo: int, hi: int)

  function WindowOf(segment: Segment): Window
  {
    Window(segment.startTs, segment.endTs)
  }

  predicate InWindow(ts: int, w: Window)
  {
    w.lo <= ts <= w.hi
  }

  /** The timestamp lies in at least one of the windows: the disjunction of
      range filters the topic views build. */
  predicate Covered(ts: int, windows: seq<Window>)
  {
    exists w :: w in windows && InWindow(ts, w)
  }

  function LowerChar(c: char): char
  {
    if 'A' <= c <= 'Z' then (c as int + 32) as char else c
  }

  function Lower(s: string): string
  {
    seq(|s|, i requires 0 <= i < |s| => LowerChar(s[i]))
  }

  /** Django's `iexact` lookup: equal once case is folded. */
  predicate IExact(a: string, b: string)
  {
    Lower(a) == Lower(b)
  }

  /** `Topic.objects.filter(name__iexact=name)`. */
  function TopicsNamed(topics: seq<Topic>, name: string): (r: seq<Topic>)
    ensures forall t :: t in r <==> t in topics && IExact(t.name, name)
    ensures (forall t :: t in topics ==> !IExact(t.name, name)) ==> r == []
  {
    if topics == [] then []
    else if IExact(topics[0].name, name) then [topics[0]] + TopicsNamed(topics[1..], name)
    else TopicsNamed(topics[1..], name)
  }

  /** A timestamp lies in the inclusive day window [dayStart, dayStart + DaySeconds]. */
  predicate InDay(ts: int, dayStart: int)
  {
    dayStart <= ts <= dayStart + DaySeconds
  }

  /** The `by_date` selection: the segment starts or ends inside the day. */
  predicate OnDay(segment: Segment, dayStart: int)
  {
    InDay(segment.startTs, dayStart) || InDay(segment.endTs, dayStart)
  }

  /** Topics whose segment's `start_ts` or `end_ts` is in the day's range. */
  function TopicsOnDay(topics: seq<Topic>, dayStart: int): (r: seq<Topic>)
    ensures forall t :: t in r <==> t in topics && OnDay(t.segment, dayStart)
  {
    if topics == [] then []
    else if OnDay(topics[0].segment, dayStart) then [topics[0]] + TopicsOnDay(topics[1..], dayStart)
    else TopicsOnDay(topics[1..], dayStart)
  }

  /** `Audience.objects.filter(timestamp__range=(w.lo, w.hi))`: readings of
      every channel in the window. */
  function ReadingsIn(readings: seq<Audience>, w: Window): (r: seq<Audience>)
    ensures forall a :: a in r <==> a in readings && InWindow(a.timestamp, w)
  {
    if readings == [] then []
    else if InWindow(readings[0].timestamp, w) then [readings[0]] + ReadingsIn(readings[1..], w)
    else ReadingsIn(readings[1..], w)
  }

  /** The prefetch of the topic views: readings of every channel whose
      timestamp lies in any of the windows, each reading once. */
  function ReadingsCovered(readings: seq<Audience>, windows: seq<Window>): (r: seq<Audience>)
    ensures forall a :: a in r <==> a in readings && Covered(a.timestamp, windows)
    ensures UniqueReadings(readings) ==> UniqueReadings(r)
  {
    if readings == [] then []
    else if Covered(readings[0].timestamp, windows) then [readings[0]] + ReadingsCovered(readings[1..], windows)
    else ReadingsCovered(readings[1..], windows)
  }

  /** Readings whose channel has the given name. */
  function ReadingsOfChannel(readings: seq<Audience>, name: string): (r: seq<Audience>)
    ensures forall a :: a in r <==> a in readings && a.channel.name == name
    ensures UniqueReadings(readings) ==> UniqueReadings(r)
  {
    if readings == [] then []
    else if readings[0].channel.name == name then [readings[0]] + ReadingsOfChannel(readings[1..], name)
    else ReadingsOfChannel(readings[1..], name)
  }

  /** `Segment.objects.filter(id__in=ids)`: each matching row once. */
  function SegmentsWithIds(segments: seq<Segment>, ids: set<int>): (r: seq<Segment>)
    ensures forall s :: s in r <==> s in segments && s.id in ids
    ensures UniqueSegmentIds(segments) ==> UniqueSegmentIds(r)
  {
    if segments == [] then []
    else if segments[0].id in ids then [segments[0]] + SegmentsWithIds(segments[1..], ids)
    else SegmentsWithIds(segments[1..], ids)
  }

  /** `values_list('value', flat=True)`. */
  function Values(readings: seq<Audience>): seq<int>
  {
    seq(|readings|, i requires 0 <= i < |readings| => readings[i].value)
  }
}
