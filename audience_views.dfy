/** The audience report `by_date`: for one day, every topic that aired on it
    with the mean audience during its segment, keyed by topic name and then
    by the segment's channel name. */
module AudienceViews {
  import opened Wrappers
  import opened Models
  import opened Queries
  import opened Aggregate

  /** `report[topic_name][channel_name] = mean`. */
  type Report = map<string, map<string, real>>

  /** The (topic name, channel name) pair a topic's entry is stored under. */
  function Key(t: Topic): (string, string)
  {
    (t.name, t.segment.channel.name)
  }

  predicate HasKey(report: Report, name: string, channel: string)
  {
    name in report && channel in report[name]
  }

  /** `report[name][channel] = v` on a `defaultdict(dict)`. */
  function Put(report: Report, name: string, channel: string, v: real): Report
  {
    report[name := (if name in report then report[name] else map[])[channel := v]]
  }

  /** The mean of every reading, of any channel, in the segment's window;
      None when the window holds no reading. */
  function WindowMean(readings: seq<Audience>, segment: Segment): Option<real>
  {
    Mean(Values(ReadingsIn(readings, WindowOf(segment))))
  }

  /** The aggregation loop of `by_date` as a fold: each topic in turn stores
      its window mean into the report, and the first topic whose window is
      empty raises ZeroDivisionError. */
  function Fill(report: Report, topics: seq<Topic>, readings: seq<Audience>): Result<Report>
    decreases |topics|
  {
    if topics == [] then Ok(report)
    else match WindowMean(readings, topics[0].segment)
      case None => Err(ZeroDivisionError)
      case Some(m) => Fill(Put(report, topics[0].name, topics[0].segment.channel.name, m), topics[1..], readings)
  }

  /** What `by_date` answers. The date parameter is parsed by `parseDay`,
      which gives the epoch second the day starts at, or None for a string
      that is not a `YYYY-MM-DD` date. */
  function ByDateReport(store: Store, dateParam: Option<string>, parseDay: string -> Option<int>): Result<Report>
  {
    match dateParam
    case None => Err(ParseError)
    case Some(date) =>
      match parseDay(date)
      case None => Err(ValueError)
      case Some(dayStart) => Fill(map[], TopicsOnDay(store.topics, dayStart), store.audiences)
  }

  /** The `by_date` view: select the topics of the day, then store each one's
      window mean into the report in a loop. */
  method ByDate(store: Store, dateParam: Option<string>, parseDay: string -> Option<int>)
    returns (r: Result<Report>)
    ensures r == ByDateReport(store, dateParam, parseDay)
  {
    if dateParam.None? {
      return Err(ParseError);
    }
    var parsed := parseDay(dateParam.value);
    if parsed.None? {
      return Err(ValueError);
    }
    var topics := TopicsOnDay(store.topics, parsed.value);
    var report: Report := map[];
    for i := 0 to |topics|
      invariant Fill(report, topics[i..], store.audiences) == Fill(map[], topics, store.audiences)
    {
      var t := topics[i];
      assert topics[i..][0] == t && topics[i..][1..] == topics[i + 1..];
      var audiences := Values(ReadingsIn(store.audiences, WindowOf(t.segment)));
      if |audiences| == 0 {
        return Err(ZeroDivisionError);
      }
      report := Put(report, t.name, t.segment.channel.name, Sum(audiences) as real / |audiences| as real);
    }
    assert topics[|topics|..] == [];
    return Ok(report);
  }

  /** The fold fails, always with ZeroDivisionError, exactly when some topic's
      window holds no reading. */
  lemma {:induction false} FillFailsIffEmptyWindow(report: Report, topics: seq<Topic>, readings: seq<Audience>)
    ensures Fill(report, topics, readings).Err? <==>
              exists i :: 0 <= i < |topics| && ReadingsIn(readings, WindowOf(topics[i].segment)) == []
    ensures Fill(report, topics, readings).Err? ==> Fill(report, topics, readings).error == ZeroDivisionError
    decreases |topics|
  {
    if topics != [] {
      var m := WindowMean(readings, topics[0].segment);
      if m.Some? {
        FillFailsIffEmptyWindow(Put(report, topics[0].name, topics[0].segment.channel.name, m.value), topics[1..], readings);
        assert forall i :: 1 <= i < |topics| ==> topics[i] == topics[1..][i - 1];
      }
    }
  }

  lemma PutKeys(report: Report, name: string, channel: string, v: real)
    ensures forall n, c :: HasKey(Put(report, name, channel, v), n, c) <==> HasKey(report, n, c) || (n, c) == (name, channel)
    ensures forall n :: n in Put(report, name, channel, v) <==> n in report || n == name
  {
  }

  /** The fold's report holds an entry exactly for the keys it started with
      and the keys of the topics it stored. */
  lemma {:induction false} FillKeys(report: Report, topics: seq<Topic>, readings: seq<Audience>, result: Report)
    requires Fill(report, topics, readings) == Ok(result)
    ensures forall n, c :: HasKey(result, n, c) <==>
              HasKey(report, n, c) || exists i :: 0 <= i < |topics| && Key(topics[i]) == (n, c)
    ensures forall n :: n in result ==> n in report || exists i :: 0 <= i < |topics| && topics[i].name == n
    decreases |topics|
  {
    if topics != [] {
      var t := topics[0];
      var m := WindowMean(readings, t.segment).value;
      var next := Put(report, t.name, t.segment.channel.name, m);
      var rest := topics[1..];
      FillKeys(next, rest, readings, result);
      PutKeys(report, t.name, t.segment.channel.name, m);
      forall n, c
        ensures (exists i :: 0 <= i < |topics| && Key(topics[i]) == (n, c)) <==>
                  Key(t) == (n, c) || exists i :: 0 <= i < |rest| && Key(rest[i]) == (n, c)
      {
        if exists i :: 0 <= i < |topics| && Key(topics[i]) == (n, c) {
          var i :| 0 <= i < |topics| && Key(topics[i]) == (n, c);
          if i > 0 {
            assert Key(rest[i - 1]) == (n, c);
          }
        }
        if exists i :: 0 <= i < |rest| && Key(rest[i]) == (n, c) {
          var i :| 0 <= i < |rest| && Key(rest[i]) == (n, c);
          assert Key(topics[i + 1]) == (n, c);
        }
      }
      forall n | n in result
        ensures n in report || exists i :: 0 <= i < |topics| && topics[i].name == n
      {
        if n !in next {
          var i :| 0 <= i < |rest| && rest[i].name == n;
          assert topics[i + 1].name == n;
        } else if n != t.name {
          assert n in report;
        } else {
          assert topics[0].name == n;
        }
      }
    }
  }

  /** The entry for a key holds the window mean of the last topic with that
      key: later topics overwrite earlier ones. */
  lemma {:induction false} FillLastWins(report: Report, topics: seq<Topic>, readings: seq<Audience>, result: Report, i: int)
    requires Fill(report, topics, readings) == Ok(result)
    requires 0 <= i < |topics|
    requires forall j :: i < j < |topics| ==> Key(topics[j]) != Key(topics[i])
    ensures HasKey(result, topics[i].name, topics[i].segment.channel.name)
    ensures WindowMean(readings, topics[i].segment) == Some(result[topics[i].name][topics[i].segment.channel.name])
    decreases |topics|
  {
    var t := topics[0];
    var m := WindowMean(readings, t.segment).value;
    var next := Put(report, t.name, t.segment.channel.name, m);
    if i == 0 {
      FillKeeps(next, topics[1..], readings, result, t.name, t.segment.channel.name);
    } else {
      assert forall j :: i - 1 < j < |topics[1..]| ==> topics[1..][j] == topics[j + 1];
      FillLastWins(next, topics[1..], readings, result, i - 1);
    }
  }

  /** An entry no later topic writes to keeps its value. */
  lemma {:induction false} FillKeeps(report: Report, topics: seq<Topic>, readings: seq<Audience>, result: Report, n: string, c: string)
    requires Fill(report, topics, readings) == Ok(result)
    requires HasKey(report, n, c)
    requires forall j :: 0 <= j < |topics| ==> Key(topics[j]) != (n, c)
    ensures HasKey(result, n, c) && result[n][c] == report[n][c]
    decreases |topics|
  {
    if topics != [] {
      var t := topics[0];
      var m := WindowMean(readings, t.segment).value;
      assert Key(t) != (n, c);
      assert forall j :: 0 <= j < |topics[1..]| ==> topics[1..][j] == topics[j + 1];
      FillKeeps(Put(report, t.name, t.segment.channel.name, m), topics[1..], readings, result, n, c);
    }
  }

  /** A missing date is a ParseError; a date that does not parse is an
      uncaught ValueError. */
  lemma ByDateBadParameter(store: Store, dateParam: Option<string>, parseDay: string -> Option<int>)
    ensures dateParam.None? ==> ByDateReport(store, dateParam, parseDay) == Err(ParseError)
    ensures dateParam.Some? && parseDay(dateParam.value).None? ==>
              ByDateReport(store, dateParam, parseDay) == Err(ValueError)
  {
  }

  /** A segment that starts before the day and ends after it puts none of
      its topics in the report, although it covers the whole day. */
  lemma SpanningSegmentExcluded(topics: seq<Topic>, dayStart: int, t: Topic)
    requires t.segment.startTs < dayStart && t.segment.endTs > dayStart + DaySeconds
    ensures t !in TopicsOnDay(topics, dayStart)
  {
  }

  /** `by_date` fails exactly when a topic of the day has a segment window
      with no reading, and then with ZeroDivisionError. */
  lemma ByDateFailsIffEmptyWindow(store: Store, date: string, parseDay: string -> Option<int>, dayStart: int)
    requires parseDay(date) == Some(dayStart)
    ensures ByDateReport(store, Some(date), parseDay).Err? <==>
              exists t :: t in TopicsOnDay(store.topics, dayStart) && ReadingsIn(store.audiences, WindowOf(t.segment)) == []
    ensures ByDateReport(store, Some(date), parseDay).Err? ==>
              ByDateReport(store, Some(date), parseDay).error == ZeroDivisionError
  {
    var topics := TopicsOnDay(store.topics, dayStart);
    FillFailsIffEmptyWindow(map[], topics, store.audiences);
    if exists t :: t in topics && ReadingsIn(store.audiences, WindowOf(t.segment)) == [] {
      var t :| t in topics && ReadingsIn(store.audiences, WindowOf(t.segment)) == [];
      var i :| 0 <= i < |topics| && topics[i] == t;
    }
  }

  /** The report of a day has an entry under (name, channel) exactly when a
      topic of the day has that name and its segment is on that channel, and
      every topic name in it holds at least one channel. */
  lemma ByDateEntries(store: Store, date: string, parseDay: string -> Option<int>, dayStart: int, report: Report)
    requires parseDay(date) == Some(dayStart)
    requires ByDateReport(store, Some(date), parseDay) == Ok(report)
    ensures forall n, c :: HasKey(report, n, c) <==>
              exists t :: t in TopicsOnDay(store.topics, dayStart) && Key(t) == (n, c)
    ensures forall n :: n in report ==> report[n] != map[]
  {
    var topics := TopicsOnDay(store.topics, dayStart);
    FillKeys(map[], topics, store.audiences, report);
    forall n, c | HasKey(report, n, c)
      ensures exists t :: t in topics && Key(t) == (n, c)
    {
      var i :| 0 <= i < |topics| && Key(topics[i]) == (n, c);
      assert topics[i] in topics;
    }
    forall n | n in report
      ensures report[n] != map[]
    {
      var i :| 0 <= i < |topics| && topics[i].name == n;
      assert HasKey(report, n, topics[i].segment.channel.name);
    }
  }

  /** The value under (name, channel) is the window mean of the last topic of
      the day with that name on that channel. */
  lemma ByDateLastWins(store: Store, date: string, parseDay: string -> Option<int>, dayStart: int, report: Report, i: int)
    requires parseDay(date) == Some(dayStart)
    requires ByDateReport(store, Some(date), parseDay) == Ok(report)
    requires 0 <= i < |TopicsOnDay(store.topics, dayStart)|
    requires forall j :: i < j < |TopicsOnDay(store.topics, dayStart)| ==>
               Key(TopicsOnDay(store.topics, dayStart)[j]) != Key(TopicsOnDay(store.topics, dayStart)[i])
    ensures var t := TopicsOnDay(store.topics, dayStart)[i];
            HasKey(report, t.name, t.segment.channel.name) &&
            WindowMean(store.audiences, t.segment) == Some(report[t.name][t.segment.channel.name])
  {
    FillLastWins(map[], TopicsOnDay(store.topics, dayStart), store.audiences, report, i);
  }

  /** The value under (name, channel) lies between any lower and upper bound
      of the readings in the window of the last topic of the day with that
      key. */
  lemma ByDateValueWithinWindow(store: Store, date: string, parseDay: string -> Option<int>, dayStart: int,
                                report: Report, i: int, lo: int, hi: int)
    requires parseDay(date) == Some(dayStart)
    requires ByDateReport(store, Some(date), parseDay) == Ok(report)
    requires 0 <= i < |TopicsOnDay(store.topics, dayStart)|
    requires forall j :: i < j < |TopicsOnDay(store.topics, dayStart)| ==>
               Key(TopicsOnDay(store.topics, dayStart)[j]) != Key(TopicsOnDay(store.topics, dayStart)[i])
    requires forall a :: a in ReadingsIn(store.audiences, WindowOf(TopicsOnDay(store.topics, dayStart)[i].segment)) ==>
               lo <= a.value <= hi
    ensures var t := TopicsOnDay(store.topics, dayStart)[i];
            HasKey(report, t.name, t.segment.channel.name) &&
            lo as real <= report[t.name][t.segment.channel.name] <= hi as real
  {
    var t := TopicsOnDay(store.topics, dayStart)[i];
    ByDateLastWins(store, date, parseDay, dayStart, report, i);
    var inWindow := ReadingsIn(store.audiences, WindowOf(t.segment));
    var values := Values(inWindow);
    forall k | 0 <= k < |values|
      ensures lo <= values[k] <= hi
    {
      assert inWindow[k] in inWindow;
    }
    MeanWithinBounds(values, lo, hi);
  }
}
