# P1 meter collector — a Dafny model

The repository is a home telemetry collector for a HomeWizard P1 smart
meter. A background loop polls the meter's `/api/v1/data` JSON endpoint,
stores each reading in the SQLite table `p1_measurements`, enriches it with
derived fields (total current, phase imbalance in amperes and percent) and
pushes it to every connected WebSocket client through one bounded queue
per client. A Flask app serves the history (`/api/series`), the newest
reading on connect (`/ws`) and, in two of the servers, a CSV export.

Four programs are modelled:

- `p1-server-old.py` (module `ServerOld`) is the first server. It checks
  the HTTP status and falls back from older to newer firmware key names.
  It computes the imbalance only when all three phase currents are present
  and clamps `hours` to [1, 744]. On a full client queue it drops the
  queue's oldest message.
- `p1-server.py` (module `Server`) is the current server:
  - it does not check the status and prefers the newer key names;
  - it treats a missing phase current as the int 0, and Python's
    int/float distinction shows in the output;
  - it does not clamp `hours`, and it unregisters a client whose queue is
    full;
  - its CSV export takes `hours`, `sep` and `decimal` parameters.
- `p1-server2-old.py` (module `Server2Old`) is the predecessor of
  `p1-server.py`. Its `_calculate_extra_fields`, `query_series`,
  `query_latest`, `broadcast`, `api_series` and `ws_route` (lines 80-129,
  288-291 and 302-310) are the same text as in `p1-server.py`, so they are
  modelled once, by the `Server` members cited below. Only its collector
  row (one key per field) and its fixed eight-column CSV export have
  members of their own.
- `p1-api.py` (module `ProbeCli`) is a one-shot command-line probe. It
  reads the meter once and prints six lines.

Shared modules:

- `Meter`: the JSON snapshot, Python truthiness, and the `or` chains over
  candidate keys.
- `Points`: point dicts and the imbalance arithmetic.
- `Store`: the table as an append-only class, plus the meaning of each
  query (window, sort, per-minute `GROUP BY` with `AVG`, latest row).
- `Broadcast`: `queue.Queue` and the `subscribers` set, as classes.
- `Collector`: one poll and the rows and messages a run of polls produces.
- `Series`: the raw and per-minute series.
- `PyText`: `str`, `str.replace` and `str.join` on the values the CSV
  export writes.
- `Variants`: lemmas that relate the programs to each other.
- Each collector loop is a `method` with a `while` loop over a finite run
  of polls. It is proved against these functions.
- `broadcast` is a loop over the subscriber set that updates the queues
  in place.

Times are whole seconds since the epoch. A minute bucket's `ts` is the
minute's first second.

## Model

| member | source | states |
|---|---|---|
| Meter.Resolve | p1-server-old.py:249-257 | `get(k0) or get(k1) or ...`: the value of the first candidate that is truthy; if none is, the value of the last candidate (so a 0 or null there is kept) |
| Meter.ResolvePair | p1-server.py:144-147 | a two-key `or` is "the first if truthy, else the second" |
| Meter.ResolveTriple | p1-server-old.py:249-251 | a three-key `or` is "the first truthy of the first two, else the third" |
| Meter.FirstPresent | p1-server-old.py:249-257 | reference rule "first candidate that is present": the value of some candidate with every earlier one null; None exactly when all are null |
| Meter.ResolveIsFirstPresentWithoutZeros | p1-server-old.py:249-257 | the `or` chain equals the first-present rule whenever no candidate holds 0 |
| Meter.ZeroFallsThrough | p1-server-old.py:252-253 | a present 0 is not kept: it falls through to the next key, or to None, where the first-present rule keeps 0 |
| Meter.SumOfNumbers | p1-server-old.py:270-280 | `sum` over the numbers among nullable values: 0 when all are null, never negative when all are non-negative |
| Points.MapPoints | p1-server-old.py:176-177 | the list comprehension: one point per row, the i-th from the i-th row |
| Points.Max3 | p1-server-old.py:118 | `max` of three: at least each of them and equal to one |
| Points.Min3 | p1-server-old.py:119 | `min` of three: at most each of them and equal to one |
| Points.SpreadZeroIffBalanced | p1-server-old.py:120 | the imbalance `i_max - i_min` is never negative, and is 0 exactly when the three currents are equal |
| Points.SpreadPctBounds | p1-server-old.py:122 | with no negative current the percentage lies in [0, 100]; it is 100 exactly when the largest is positive and the smallest 0 |
| Points.SpreadSymmetric | p1-server-old.py:112-122 | imbalance and percentage do not depend on how the phases are numbered |
| Points.SpreadExample | p1-server-old.py:118-122 | currents 4, 6, 5 A give 2 A and 100/3 % |
| Store.Db.Insert | p1-server-old.py:66-93 | appends exactly one row with a fresh increasing id, or on a database error changes nothing; ids stay increasing |
| Store.Window | p1-server-old.py:171 | `WHERE measured_at >= ?`: exactly the rows at or after the start |
| Store.InsertByTime | p1-server-old.py:172 | inserting a row into a time-sorted list keeps it sorted and adds exactly that row |
| Store.SortByTime | p1-server-old.py:172 | `ORDER BY ts ASC`: sorted by time and a permutation of its input |
| Store.RawSeries | p1-server.py:108 | the raw SELECT: sorted by time, a permutation of the window, holding exactly the window's rows |
| Store.Minutes | p1-server-old.py:145 | the distinct minutes of a series; strictly increasing, and starting with the first row's minute, when the series is sorted |
| Store.GroupKeys | p1-server-old.py:155-157 | `GROUP BY ts ORDER BY ts`: strictly increasing minutes; each holds a row of the window, and every row of the window has its minute there |
| Store.Bucket | p1-server-old.py:156 | one group: exactly the window's rows of that minute |
| Store.ColumnOf | p1-server-old.py:146-153 | one column over a group, row by row |
| Store.Present | p1-server-old.py:146-153 | the non-NULL values `AVG` reads: exactly the present values, and empty exactly when all are NULL |
| Store.Avg | p1-server-old.py:146-153 | `AVG`: NULL exactly when every value is NULL |
| Store.AvgBetween | p1-server-old.py:146-153 | the average lies between any lower and upper bound of the non-NULL values |
| Store.AvgOfOne | p1-server-old.py:146-153 | a group of one row averages to that row's value, NULL included |
| Store.Latest | p1-server-old.py:196-197 | `ORDER BY measured_at DESC, id DESC LIMIT 1`: None exactly on an empty table, otherwise a row of the table that no row follows in (time, id) order |
| Store.LatestIsGreatest | p1-server-old.py:196-197 | a row strictly greatest in (time, id) order is the one returned |
| Store.LatestIsLastInserted | p1-server-old.py:196-197 | with increasing ids and a clock that does not go back, the latest row is the last one inserted |
| Broadcast.MessageQueue.constructor | p1-server-old.py:855 | `queue.Queue(maxsize)`: empty, with that bound |
| Broadcast.MessageQueue.PutNowait | p1-server-old.py:229 | `put_nowait`: appends unless the queue is full (bound positive and reached), in which case it reports failure and changes nothing |
| Broadcast.MessageQueue.GetNowait | p1-server-old.py:232 | `get_nowait`: removes and returns the oldest message, or reports empty and does nothing |
| Broadcast.Registry.Add | p1-server-old.py:857 | `subscribers.add(q)` |
| Broadcast.Registry.Discard | p1-server-old.py:869 | `subscribers.discard(q)`; discarding an unregistered queue changes nothing |
| Collector.AcceptedStep | p1-server-old.py:240-304 | the readings stored by a run of polls grow by at most one reading per poll |
| Collector.CycleRow | p1-server-old.py:242-262 | one poll stores a reading exactly when the response has a JSON body, passes the status check when one is made and the insert succeeds; the reading is the row built from that body at the poll's time |
| Collector.Accepted | p1-server-old.py:240-304 | a run of polls stores at most one reading per poll |
| Collector.AcceptedArePasses | p1-server-old.py:240-304 | every stored reading comes from a poll that got through, and every poll that got through left its reading |
| Collector.PassStep | p1-server-old.py:240-304 | one more poll keeps the rows the table started with and extends the stored readings and the messages sent by exactly that poll's reading and message |
| Collector.NewRows | p1-server-old.py:262 | the rows one poll adds hold exactly its reading, if it has one |
| Collector.LiveMessages | p1-server-old.py:301 | one message per stored reading, in order |
| Collector.LiveMessagesAppend | p1-server-old.py:301 | the messages of two runs, one after the other, are those of the joined run |
| Collector.MessagesStep | p1-server-old.py:240-304 | one more poll appends exactly its own message to the messages before it |
| Collector.RowsStep | p1-server-old.py:240-304 | one more poll appends exactly its own reading to the table's readings |
| Collector.FailedFetchThenRecovery | p1-server-old.py:302-304 | a failed poll stores nothing and does not stop the next poll from storing its reading |
| Collector.ErrorStatusWithBody | p1-server-old.py:209-213 | one poll: a 500 with a JSON body is rejected when the status is checked (`raise_for_status`) and stored when it is not |
| Collector.StatusCheckOnlyDropsErrors | p1-server-old.py:211-213 | checking the status changes the outcome of a poll exactly for a 4xx/5xx response with a JSON body; whenever the checked poll yields data the unchecked one yields the same |
| Series.RawSeriesOf | p1-server.py:108-109 | the raw series is the point of every row of a sorted permutation of the window |
| Series.MinuteSeriesOf | p1-server.py:100-109 | the minute series has one point per minute key, over strictly increasing keys that are exactly the window's minutes; each point is made from that minute's group |
| Series.RawSeriesComplete | p1-server.py:108 | every row of the window appears in the raw series |
| Series.RawSeriesSound | p1-server.py:108 | no raw point is older than the start |
| Series.MinuteSeriesComplete | p1-server.py:100-105 | every row of the window has its minute's point in the minute series |
| Series.MinuteSeriesStart | p1-server.py:100-105 | a minute point starts less than a minute before the start |
| PyText.DigitChar | p1-server.py:328 | a digit below ten as its character |
| PyText.NatText | p1-server.py:328 | `str` of a natural: digits only, non-empty, no leading zero |
| PyText.NatTextRoundTrip | p1-server.py:328 | reading the digits back gives the number |
| PyText.IntText | p1-server.py:328 | `str` of an int: non-empty, digits and a sign, with a leading '-' exactly for a negative number |
| PyText.Replace | p1-server.py:328 | `str.replace` of one character: the same length, each occurrence replaced |
| PyText.ReplaceRemoves | p1-server.py:328 | after the replacement the old character is gone; a string without it is unchanged |
| PyText.JoinSplit | p1-server.py:329 | cells without the separator are recovered from `sep.join(cells)` by splitting |
| Server.OrZero | p1-server.py:86 | `v or 0`: the int 0 exactly when the value is null or 0, the float otherwise; numerically the value with null as 0 |
| Server.SumStartsAtZero | p1-server.py:90 | `sum` starting from the int 0 returns a single number as it is |
| Server.ExtrasValues | p1-server.py:86-90 | the three results are the spread, the spread as a percentage of the largest, and the sum of the inputs |
| Server.ExtrasTypes | p1-server.py:86-90 | with each input the int 0 or a float, the spread and the sum are ints exactly when all inputs are (and then 0) |
| Server.OrZeroExtrasValues | p1-server.py:86-90 | on nullable currents, null and 0 count as 0: non-negative spread, percentage, sum |
| Server.OrZeroExtrasTypes | p1-server.py:86-90 | the spread and the total are the int 0 exactly when no phase has a non-zero current |
| Server.WithExtras | p1-server.py:88-90 | the three derived keys are set, every other key is kept |
| Server.ExtraFields | p1-server.py:85-91 | the result has the input's keys plus the three derived keys, every other key keeps its value, and no derived key is null |
| Server.ExtraFieldsFrame | p1-server.py:85-91 | enrichment adds exactly the three derived keys and keeps every other key's value |
| Server.ExtraFieldsImbalance | p1-server.py:88 | `imbalance_a` is the spread of the currents, null as 0 |
| Server.ExtraFieldsPct | p1-server.py:89 | `imbalance_pct` is the spread as a percentage of the largest current, 0 when that is not positive |
| Server.ExtraFieldsTotal | p1-server.py:90 | `total_current_a` is the sum of the currents, null as 0 |
| Server.ExtraFieldsMeaning | p1-server.py:85-91 | all of the above together, for the arithmetic `CalculateExtras` does: the derived keys are the spread, its percentage of the largest current and the sum, with null as 0; no derived key is ever null |
| Server.CalculateExtrasReadsCurrents | p1-server.py:86 | the arithmetic depends on the three phase currents only |
| Server.WithExtrasKeepsCurrents | p1-server.py:88-90 | setting the derived keys leaves the phase currents as they were |
| Server.WithExtrasTwice | p1-server.py:88-90 | setting the same derived values twice is setting them once |
| Server.ExtraFieldsIdempotent | p1-server.py:85-91 | enriching an enriched dict changes nothing |
| Server.RowFields | p1-server.py:108 | `dict(r)` of a `SELECT *` row: exactly the stored numeric columns |
| Server.SeriesPoint | p1-server.py:108-109 | a raw point carries the row's own time |
| Server.KeyColumn | p1-server.py:102-104 | one averaged column over a group, row by row |
| Server.MinuteFields | p1-server.py:101-105 | the per-minute SELECT has exactly the seven averaged columns (no import counter) |
| Server.MinuteSeriesPoint | p1-server.py:101-109 | a minute point carries the minute's start as its time |
| Server.QueryLatest | p1-server.py:113-120 | None exactly on an empty table, otherwise the enriched point of a row with the greatest time |
| Server.CollectorRow | p1-server.py:141-151 | the stored row: power and currents from their single keys; import and voltages from the newer key if truthy, else the older |
| Server.LiveMessageIsLatestPoint | p1-server.py:153 | the broadcast message of a reading newer than every stored row is what `query_latest` returns once it is stored |
| Server.LiveMessage | p1-server.py:144-153 | the broadcast message carries the poll's time and the row's stored columns unchanged, plus the three derived keys |
| Server.WsConnect | p1-server.py:335-339 | a fresh empty queue of 100 is registered, and the greeting is `query_latest()` |
| Server.Offer | p1-server.py:133 | `put_nowait` on one queue: appends the message exactly when the queue is not full and otherwise leaves it as it was; a positive bound is never exceeded |
| Server.Deliver | p1-server.py:130-134 | after a run of broadcasts a queue holds its old contents followed by a prefix of the messages, never more |
| Server.Survives | p1-server.py:133-134 | a queue is still registered after a run of broadcasts exactly when it received every message |
| Server.Publish | p1-server.py:130-134 | `broadcast`: each queue with room gets the message; each full queue keeps its contents and is unregistered, and it is the only kind unregistered |
| Server.DeliverAppend | p1-server.py:130-134 | broadcasting a + b is broadcasting a, then b, both for the contents and for staying registered |
| Server.DeliverToFull | p1-server.py:133-134 | a full queue receives nothing more, and stays registered only if nothing is sent |
| Server.EvictedWasFull | p1-server.py:134 | an unregistered queue was full when it was dropped |
| Server.EvictKeepsOldest | p1-server.py:130-134 | a queue that is never read keeps the OLDEST messages that fit; it stays registered exactly when all of them fit |
| Server.UnboundedGetsAll | p1-server.py:133 | a queue without a bound gets every message and is never dropped |
| Server.QueueStep | p1-server.py:130-134 | seen from one queue, a registered queue takes the new messages and an evicted one is left alone; together this equals broadcasting everything so far |
| Server.QueuesStep | p1-server.py:130-134 | QueueStep for every queue of a run at once: contents and registration after one more broadcast equal broadcasting everything so far |
| Server.CollectorCycle | p1-server.py:138-154 | one poll: with a JSON body, whatever the status, the row is inserted and its enriched message broadcast; any failure ends the poll with nothing stored or sent |
| Server.CollectorStep | p1-server.py:136-155 | one more poll of a run: the table keeps its starting rows and grows by that poll's reading, its message is appended to those sent, and every queue holds, and is registered as, broadcasting all of them dictates |
| Server.CollectorLoop | p1-server.py:136-155 | a run of polls: the table grows by exactly the accepted readings, in order; one message per reading; every queue ends with the broadcast contents, and stays registered exactly when no message found it full |
| Server.ApiSeries | p1-server.py:304-307 | an error (Flask's HTTP 500 for the OverflowError) exactly when `now - hours` lies outside `datetime`'s range, since `hours` is not clamped; otherwise up to 6 hours a time-sorted permutation of the window as raw points, beyond one point per minute of the window over strictly increasing minutes |
| Server.ApiSeriesWindow | p1-server.py:304-307 | whenever the reply is not an error: up to 6 hours every row of the window comes back as its point and nothing older; beyond, every minute holding a row of the window comes back |
| Server.ApiSeriesOverflow | p1-server.py:306-307 | `hours` of 100000000 or -100000000 is an HTTP 500 at every time up to the end of year 9999 |
| Server.CsvValues | p1-server.py:321-326 | ten values per row, the time text first |
| Server.Cells | p1-server.py:328 | one cell per value, in order |
| Server.DecimalCommaOnlyFloats | p1-server.py:328 | `decimal=comma` rewrites floats only: every other value is `str(v)` as it is, a float has no '.' left |
| Server.RowCells | p1-server.py:321-328 | the ten cells of a row |
| Server.CsvLines | p1-server.py:320-329 | one line per row, in order |
| Server.ExportCsv | p1-server.py:309-332 | an error (HTTP 500) exactly when `now - hours` lies outside `datetime`'s range, `hours` defaulting to 24; otherwise the header, then one line per RAW row of the window (never per minute), for a time-sorted permutation of the window |
| Server.TenFields | p1-server.py:319-329 | with a one-character separator found in no cell, the header and each line split back into exactly their ten cells |
| Server.RowSpreadIntZero | p1-server.py:86-88 | a row without a non-zero current has the int 0 as imbalance |
| Server.IntZeroCell | p1-server.py:328 | the int 0 is written "0", with or without the decimal comma |
| Server.NoCurrentExportsIntZero | p1-server.py:321-328 | such a row exports its imbalance as "0", not "0,0" or "0.0" |
| ServerOld.WithImbalance | p1-server-old.py:112-125 | with all three currents present: imbalance = max - min (non-negative), pct = imbalance/max*100 if max > 0 else 0; otherwise both null; every other key kept |
| ServerOld.RowToPointDict | p1-server-old.py:96-126 | keeps the point's time |
| ServerOld.RawPoint | p1-server-old.py:164-169 | a raw row carries its time and exactly the eight selected columns |
| ServerOld.SeriesPoint | p1-server-old.py:161-177 | a raw point carries the row's own time |
| ServerOld.KeyColumn | p1-server-old.py:146-153 | one averaged column over a group, row by row |
| ServerOld.MinutePoint | p1-server-old.py:144-153 | a minute point has the minute's start and exactly the eight averaged columns |
| ServerOld.MinuteSeriesPoint | p1-server-old.py:141-160 | a minute point as returned carries the minute's start |
| ServerOld.OneRowMinuteIsThatRow | p1-server-old.py:144-156 | a minute holding one row yields that row's own values |
| ServerOld.QueryLatest | p1-server-old.py:182-203 | None exactly on an empty table, otherwise the point of a row no row follows in (time, id) order |
| ServerOld.CollectorRow | p1-server-old.py:246-261 | the stored row: power and currents from their single keys; voltages with the older key first; import over three candidates |
| ServerOld.LiveFields | p1-server-old.py:264-284 | the live message has exactly the series columns |
| ServerOld.LiveMessage | p1-server-old.py:264-299 | the live message carries the poll's time, the series columns plus the two imbalance keys, the row's currents, the sum of the present currents as total, and a null imbalance exactly when a current is missing |
| ServerOld.LiveMessageIsLatestPoint | p1-server-old.py:264-301 | the hand-built live message of a reading not older than any stored row equals what `query_latest` returns for it |
| ServerOld.LiveFieldsAreRawFields | p1-server-old.py:264-284 | the live message's fields are the raw SELECT's fields of the same row |
| ServerOld.SumOfThree | p1-server-old.py:270-280 | the live `sum` over present currents equals the SQL `COALESCE` total |
| ServerOld.WsConnect | p1-server-old.py:853-861 | a fresh empty queue of 200 is registered, and the greeting is `query_latest()` |
| ServerOld.OfferDropOldest | p1-server-old.py:228-233 | one queue: the new message always ends up last; with room it is appended; under a positive bound the queue holds the newest `maxsize` of its old contents followed by the message |
| ServerOld.PublishAll | p1-server-old.py:223-237 | a run of broadcasts to one queue: never more than the old contents plus the messages; an unbounded queue gets every message |
| ServerOld.Publish | p1-server-old.py:223-237 | `broadcast`: no client is dropped; a full queue loses its oldest message and gains the new one |
| ServerOld.Newest | p1-server-old.py:229-233 | the last n messages |
| ServerOld.NewestOfNewest | p1-server-old.py:229-233 | keeping the newest n, appending, and keeping the newest n again is keeping the newest n of the whole |
| ServerOld.DropOldestKeepsNewest | p1-server-old.py:223-237 | a queue that is never read ends with the NEWEST maxsize messages |
| ServerOld.CollectorCycle | p1-server-old.py:242-303 | one poll: with status checked and JSON body, the row is inserted and its live message broadcast; any failure ends the poll with nothing stored or sent |
| ServerOld.CollectorStep | p1-server-old.py:240-304 | one more poll of a run: the table keeps its starting rows and grows by that poll's reading, its message is appended to those sent, every client stays registered, and every queue holds the drop-oldest result of all of them |
| ServerOld.CollectorCycles | p1-server-old.py:240-304 | the loop for any row builder: table growth, messages and queue contents as in CollectorLoop |
| ServerOld.CollectorLoop | p1-server-old.py:240-304 | a run of polls: the table grows by exactly the accepted readings, in order; one message per reading; every client stays registered with the drop-oldest contents |
| ServerOld.PublishAllAppend | p1-server-old.py:223-237 | broadcasting a + b is broadcasting a then b |
| ServerOld.SeriesHours | p1-server-old.py:716-720 | `hours`: 1 when missing or not an int, otherwise clamped into [1, 744] |
| ServerOld.ApiSeries | p1-server-old.py:714-726 | up to 6 hours a time-sorted permutation of the window as raw points; beyond, one point per minute of the window over strictly increasing minutes |
| ServerOld.ApiSeriesBounded | p1-server-old.py:714-726 | up to 6 hours no point predates the window; a minute point starts less than a minute before it; nothing older than 31 days ever comes back |
| Server2Old.CollectorLoop | p1-server2-old.py:131-146 | the loop of the current server with this row: the same table growth, messages and eviction |
| Server2Old.CsvValues | p1-server2-old.py:299 | eight values per row, the time text first |
| Server2Old.RowCells | p1-server2-old.py:299 | each `{v}` of the f-string is `str(v)` |
| Server2Old.CsvLines | p1-server2-old.py:298-299 | one line per row, in order |
| Server2Old.ExportCsv | p1-server2-old.py:293-300 | the header, then one line per raw row of the last 24 hours, for a time-sorted permutation of that window |
| Server2Old.HeaderFields | p1-server2-old.py:297 | the header splits at ';' into its eight titles |
| Server2Old.EightFields | p1-server2-old.py:299 | when no time or float text holds ';', each line splits into exactly its eight cells |
| ProbeCli.GetData | p1-api.py:7-16 | HTTP failure exactly on a network error, a 4xx/5xx, or a body that is not JSON with `requests` 2.27 or later (whose JSON error is a `RequestException`); JSON failure exactly on an accepted non-JSON body with an older `requests`; otherwise the decoded body |
| ProbeCli.Fmt | p1-api.py:18-25 | None or an unformattable value prints the dash; a number prints its fixed text, followed by a space and the unit when a unit is given |
| ProbeCli.FmtSplitsIntoNumberAndUnit | p1-api.py:25 | a number with a unit splits at its space into number text and unit |
| ProbeCli.Numbers | p1-api.py:36 | the filter keeps exactly the present values; empty exactly when all are null |
| ProbeCli.SumOfFiltered | p1-api.py:36-37 | `sum` of the filtered list is the sum with nulls counting for nothing |
| ProbeCli.TotalCurrent | p1-api.py:36-37 | None exactly when no phase current is a number, otherwise the sum of those present |
| ProbeCli.TotalLine | p1-api.py:66 | the total line is its label followed by the dash exactly when no phase current is present; a zero current prints as a number |
| ProbeCli.ZeroCurrentIsSummed | p1-api.py:36-37 | a zero current is summed, not skipped |
| ProbeCli.Voltage | p1-api.py:40-42 | older voltage key if truthy, else the newer |
| ProbeCli.Import | p1-api.py:59-63 | the first truthy of the first two import keys, else the third |
| ProbeCli.TariffOneFallback | p1-api.py:59-63 | a meter with only the tariff-1 counter still shows an import |
| ProbeCli.Report | p1-api.py:51-67 | six printed lines; the summed-current line shows the dash exactly when the meter reports no phase current |
| Variants.ProbeResolvesLikeOldCollector | p1-api.py:40-63 | the probe reads voltages and import exactly as the first server stores them |
| Variants.VoltageOrderDiffers | p1-server.py:145-147 | a meter with both voltage keys, different values, is stored differently by the first and current servers |
| Variants.SingleKeysAgreeIff | p1-server2-old.py:136-142 | the single-key row (one key per field, no fallback) equals the current server's row exactly when each newer key is truthy or the older key holds the same value |
| Variants.ImbalanceAgreesWithAllPhases | p1-server-old.py:117-122 | with all three currents present the first and current enrichment rules agree |
| Variants.MissingPhaseDiffers | p1-server-old.py:123-125 | with a phase missing the first server reports null, the current one treats the phase as 0 |
| Variants.HoursRulesDiffer | p1-server.py:306 | the current server's `hours` (1 when missing or not an int) differs from the first server's exactly on an integer outside [1, 744] |
| Variants.ClampedHoursNeverOverflow | p1-server-old.py:716-720 | every `hours` the first server's clamp produces is a window the current server answers without an OverflowError |
| Variants.ProbeTotalIsCollectorTotal | p1-api.py:36-37 | the probe's total is the servers' `total_current_a` whenever some current is present; with none it has no total |
| Variants.ProbeFetchIsCheckedFetch | p1-api.py:7-16 | the probe gets data exactly when the first server's checked fetch does, and the same data |
| Variants.FullQueuePolicies | p1-server-old.py:223-237 | both full-queue policies agree while everything fits; otherwise eviction keeps the first maxsize messages and drops the client, drop-oldest keeps the last maxsize and the client |

## Where the four programs differ

- **Key fallback.** Every program picks among candidate keys with
  Python's `or`, which skips a present 0 as well as a null
  (`Meter.Resolve`). `Meter.FirstPresent` is the rule that takes the first
  candidate that is present, and the two agree whenever no candidate is 0.
- **Voltage key order.** `p1-server-old.py` and `p1-api.py` try
  `voltage_l<n>_v` first. `p1-server.py` tries `active_voltage_l<n>_v`
  first, and `p1-server2-old.py` reads only `active_voltage_l<n>_v`.
- **Clamping `hours`.** Only `p1-server-old.py` clamps `hours` to
  [1, 744]. The other two servers pass any integer through, including 0
  and negative values; a window that reaches outside `datetime`'s range
  then ends in an OverflowError, an HTTP 500.
- **Status check.** Only `p1-server-old.py` and `p1-api.py` call
  `raise_for_status`, and it raises on 4xx and 5xx only. The other
  servers store any response with a JSON body.
- **Missing phase currents.** `p1-server.py` and `p1-server2-old.py`
  count a missing phase current as 0. `p1-server-old.py` makes both
  imbalance fields null unless all three currents are present.
- **Full queues.** `p1-server-old.py` drops the oldest message of a full
  queue and keeps the client. `p1-server.py` and `p1-server2-old.py`
  unregister the client of a full queue for good.
- **Derived keys.** Enrichment sets three derived keys (`imbalance_a`,
  `imbalance_pct`, `total_current_a`).

## Left out

- I/O is not modelled: SQLite, HTTP, the WebSocket send loop, threads,
  the `subs_lock` lock, `time.sleep` and logging. A poll's outcome, its
  time and a failing insert are inputs (`Meter.Cycle`).
- Concurrency is left out: the reader thread of `ws_route` is not
  modelled, so queues only grow in the model, and the collector and the
  web handlers do not interleave.
- Timestamps are seconds, not ISO-8601 text. The SQL comparisons and the
  `strftime` minute key act on these numbers. The model does not capture
  how string comparison behaves when `isoformat` leaves out the
  microseconds.
- Float formatting is a parameter, because nothing in the model can
  compute it: `floatText` (`str(float)`), `timeText` (the stored
  timestamp text) and `fixedText` (`f"{x:.Nf}"`). The JSON encoding of
  messages is left out.
- The CSV export of `p1-server-old.py` (lines 730-851) and its `fmt_num`
  are not part of this model.
- The HTML dashboard, `index`, `get_ip` and the price cache are not part
  of this model.
- Enrichment returns a new dict. The model does not capture that
  `_calculate_extra_fields` mutates its argument in place; no caller
  reuses the argument.
- Point dicts hold only their numeric keys and `ts`. The extra `id` and
  `measured_at` text keys of `SELECT *`, and the `from`/`to` fields of
  the first server's reply, are not modelled.
- `Meter.Reading` holds numbers and JSON nulls only:
  - a JSON body that is not an object (`AttributeError` on `.get`) counts
    as a body that does not decode;
  - booleans and strings in the snapshot are not modelled;
  - so `ProbeCli.Fmt`'s unformattable case is reached only directly.
- `ProbeCli.GetData` returns a failure kind without the
  `SystemExit("HTTP-fel: …")` message text, because that text is the
  exception's own string.
- `Server.QueryLatest`: on equal timestamps SQLite may return any of the
  tied rows. The contract states only that the time is the greatest. The
  function returns the row with the greatest `id` among them.
- Python's `float()` in `_row_to_point_dict` is the identity on the
  model's reals.
