# News audience reports, modelled in Dafny

This project models the reporting core of a small Django service. The service
correlates TV audience readings with the topics detected in segments of
programming. It covers three reports in `news/views.py`:

- `by_date` (`AudienceViewSet`): every topic that aired on a day, with the
  mean audience during its segment, keyed by topic name and channel name.
- `timeline` (`TopicViewSet`): for a topic, the audience readings taken during
  its segments, grouped into one entry per channel.
- `best_segments` (`TopicViewSet`): for a topic, each segment it appears in
  with the mean audience of the segment's own channel, grouped by channel and
  ranked by that mean.

The records (`news/models.py`) become datatypes in `Models`. The database is
a `Store` of three tables in storage order. `Valid` states the constraints the
reports rely on: segment ids are primary keys, each topic's segment is in the
segment table, and audience readings are unique per (timestamp, channel).
The ORM queries become order-preserving filters in `Queries`. Each filter
states which rows it returns. The aggregation done by Python and pandas
(sum/len, `mean`, `groupby`, `sort_values`) is in `Aggregate` and in
`TopicViews`. Means are exact `real`s. `None` stands for "no readings", where
pandas gives NaN and `sum(xs) / len(xs)` divides by zero.

The form follows the source:

- `by_date` is a method whose loop stores each topic's mean into the report
  map. It is proved equal to the fold `Fill`, and the lemmas about `Fill`
  state what the report contains.
- `timeline` builds its result from filters and comprehensions, so it is the
  function `Timeline`, described by lemmas.
- `best_segments` is a method. One loop (`AudienceColumn`) computes the
  audience column. A second loop (`GroupByChannel`) fills the response
  channel by channel.

In these places the model follows what the code does:

- `by_date` averages the readings of every channel in the segment's window,
  not only those of the segment's channel.
- `by_date`'s day window includes both ends, `[day_start, day_start + 86400]`.
- A window without readings makes `by_date` raise `ZeroDivisionError`; it is
  not reported as "no value".
- A malformed date is not caught, because only a missing parameter is handled.
  It ends as `ValueError` rather than a client error.
- `best_segments` rows keep the channel name column.
- `timeline` entries come in ascending order of channel name, because pandas'
  `groupby` sorts its keys.

## Model

| member | source | states |
|---|---|---|
| `Models.SameKeySameReading` | news/models.py:27-33 | in a table with unique (timestamp, channel) pairs, two readings with the same timestamp and channel are the same reading |
| `Models.SameIdSameSegment` | news/models.py:14-17 | in a table whose ids are primary keys, two segments with the same id are the same segment |
| `Queries.TopicsNamed` | news/views.py:111 | `name__iexact`: a topic is returned iff it is in the table and its name equals the parameter once case is folded; nothing is returned when no name matches |
| `Queries.TopicsOnDay` | news/views.py:55-57 | a topic is selected iff its segment's start or its end lies in the closed window `[day_start, day_start + 86400]` |
| `Queries.ReadingsIn` | news/views.py:61-63 | `timestamp__range`: a reading is returned iff its timestamp lies in the closed window, whatever its channel |
| `Queries.ReadingsCovered` | news/views.py:113-115 | the OR of range filters: a reading is returned iff its timestamp lies in at least one window; uniqueness of readings is kept |
| `Queries.ReadingsOfChannel` | news/views.py:146-148 | a reading is kept iff its channel name is the given one; uniqueness of readings is kept |
| `Queries.SegmentsWithIds` | news/views.py:138-139 | `id__in`: a segment is returned iff it is in the table and its id is in the set; ids stay unique |
| `Aggregate.Mean` | news/views.py:64 | the mean is missing iff there are no values, and otherwise mean × count equals the sum |
| `Aggregate.MeanWithinBounds` | news/views.py:146-149 | the mean of a non-empty window lies between any lower and any upper bound of its values |
| `Aggregate.GroupKeys` | news/views.py:119 | `groupby` keys: each distinct name exactly once, in strictly ascending string order |
| `Aggregate.SortedKeysDistinct` | news/views.py:117-119 | keys in strictly ascending order are pairwise distinct, so no two groups share a key |
| `Aggregate.LessTransitive` | news/views.py:119 | the string order used to sort group keys is transitive |
| `Aggregate.LessTotal` | news/views.py:119 | any two different strings are ordered one way or the other |
| `AudienceViews.ByDate` | news/views.py:28-66 | the loop's result is `ByDateReport`: ParseError without a date, ValueError for an unparsable date, else the fold of the day's topics into the report |
| `AudienceViews.FillFailsIffEmptyWindow` | news/views.py:60-64 | the aggregation loop fails iff some topic's window holds no reading, and it then fails with ZeroDivisionError |
| `AudienceViews.FillKeys` | news/views.py:52-64 | the report has an entry under (name, channel) iff it had one before or some stored topic has that name and channel |
| `AudienceViews.FillLastWins` | news/views.py:60-64 | the entry for a key holds the window mean of the last topic with that key |
| `AudienceViews.FillKeeps` | news/views.py:64 | an entry that no later topic writes to keeps its value |
| `AudienceViews.ByDateBadParameter` | news/views.py:43-46 | a missing date is a ParseError; a date that does not parse is an uncaught ValueError |
| `AudienceViews.SpanningSegmentExcluded` | news/views.py:55-57 | a segment that starts before the day and ends after it is not selected, although it covers the whole day |
| `AudienceViews.ByDateFailsIffEmptyWindow` | news/views.py:55-64 | the day's report fails iff a topic of the day has a window with no reading, and then with ZeroDivisionError |
| `AudienceViews.ByDateEntries` | news/views.py:52-64 | the day's report has an entry under (name, channel) iff a topic of the day has that name on that channel; no topic name maps to an empty dict |
| `AudienceViews.ByDateLastWins` | news/views.py:60-64 | the value under (name, channel) is the mean over all channels' readings in the window of the last topic of the day with that key |
| `AudienceViews.ByDateValueWithinWindow` | news/views.py:60-64 | the value under (name, channel) lies between any lower and upper bound of the readings in the window of the last topic of the day with that key |
| `TopicViews.TimelineNoMatch` | news/views.py:106-121 | a missing topic is a ParseError; when no topic name matches, the result is the empty list |
| `TopicViews.TimelineListsCoveredReadings` | news/views.py:111-119 | a stored reading appears in the timeline iff its timestamp lies in the window of a matching topic's segment, and then in the entry of its own channel; every listed point is such a stored, covered reading of the entry's channel |
| `TopicViews.TimelineEntriesWellFormed` | news/views.py:117-119 | entries are in strictly ascending channel order, so no two share a channel; none is empty; no timestamp repeats within an entry |
| `TopicViews.RowsOfChannel` | news/views.py:154 | a group holds each row of its channel as many times as the frame does, and no row of another channel |
| `TopicViews.InsertByAudience` | news/views.py:155-156 | inserting into a ranked list keeps it ranked and adds exactly that row |
| `TopicViews.SortByAudience` | news/views.py:155-156 | the result is ordered by audience non-increasing, with missing means last, and is a permutation of the input |
| `TopicViews.AudienceColumn` | news/views.py:146-151 | the audience column has one row per segment, in order, each holding the segment's columns and its mean over the prefetched readings |
| `TopicViews.GroupByChannel` | news/views.py:153-156 | the response has a key iff some row has that channel, and under each key a ranked permutation of that channel's rows |
| `TopicViews.BestSegments` | news/views.py:126-160 | ParseError without a topic; the empty list when no topic matches; otherwise the frame's rows grouped by channel and ranked |
| `TopicViews.PrefetchKeepsWindow` | news/views.py:141-149 | restricting the prefetched readings to one of the prefetch windows gives what a query of that window alone gives |
| `TopicViews.BatchMeanIsDirect` | news/views.py:141-151 | the mean computed from the prefetch equals the direct per-segment mean |
| `TopicViews.BestRowsAreDirect` | news/views.py:137-151 | each row's audience is the mean over the readings of the segment's own channel in its window, as a direct query gives it |
| `TopicViews.BestRowsOncePerSegment` | news/views.py:137-139 | every segment a matching topic refers to has a row, and no two rows share a segment id |
| `TopicViews.GroupedPlacesEachRowOnce` | news/views.py:153-156 | every listed row sits under its own channel name, and every row is listed exactly once |

## Left out

- Parsing the `date` parameter and converting it to epoch seconds with the local time zone is not modelled (`strptime`, `date.timestamp()`, `to_epoch`). `ByDate` takes the parser as a parameter `parseDay`, which gives the day's start or None.
- The day's end is modelled as `day_start + 86400`. On a daylight-saving change the source's `date + timedelta(days=1)` gives a 23- or 25-hour day.
- Floating-point arithmetic is not modelled. Means are exact reals, and NaN is `None`.
- Case-insensitive matching folds ASCII letters only. The database's collation may fold more.
- `TopicViews.BestSegments`: the order among rows with equal audience is left open, as a deliberate choice. In the source the two-column `sort_values` is stable, so ties keep frame order, which is segment-table order.
- The order rows come back from the database is modelled as the order of the table sequences.
- Serialising responses to JSON is not modelled. A segment without readings keeps a missing (`None`) audience in the model. In the source that value is a float NaN: Python's `json` writes it as the non-standard token `NaN`, and strict JSON rendering raises `ValueError` instead, so such a `best_segments` response can become a server error.
- HTTP routing, the DRF serializers and the generic list/retrieve endpoints of the view sets are framework wiring without logic of their own. The data loaders (`load_segments`, `load_audience`, `load_data.py`) read files and write the database. None of these are modelled.
- A topic's `count` and `score` are not modelled, because no report reads them.
