# knausen-signal: verification project

knausen-signal polls a 4G modem and the quality of its link on a Raspberry Pi, buffers every sample in three SQLite
tables, and pushes the rows that wait there to a Prometheus `remote_write` endpoint. This project models the part that
must not lose, repeat or garble a sample, and proves in Dafny what it guarantees:

- **the delivery protocol** (`Table`, `Delivery`, `Protocol`): the three append-only tables, the one push worker at
  every position of its cycle, the remote and its heartbeat, as a transition system. Rows may be inserted between any
  two statements; a POST may be accepted, refused, or accepted while the client sees an error; an exception or a crash
  may end a cycle between any two statements, because every statement commits on its own. Rows of equal `ts` may be
  selected in any order. Over whole runs: at-least-once delivery (`Protocol`), exact accounting of duplicates and
  conservation of the archive (`Accounting`), what the remote holds sample by sample (`Ledger`), replay order per table
  with its exact condition (`Replay`, `LateInsert`) and per series (`SeriesReplay`), and how fast the backlog drains
  (`Drain`);
- **the code that runs the protocol** (`Database`, `Worlds`, `PushWorker`): classes whose methods follow the Python
  statement by statement. Each is proved to be a run of the protocol and to have exactly the outcome that the arriving
  rows, the exceptions and the remote's answers determine;
- **the projections and the grouping** (`Metrics`, `Projections`, `Collisions`, `Series`, `Rows`, `Contents`,
  `Uniqueness`): which
  values a payload shows under which labels, when label sets collide, that `build_series` refines "filter by label set,
  then sort stably", and when its timestamps are unique;
- **the wire format** (`Varint`, `Framing`, `Wire`, `Request`): the hand-rolled encoder against a decoder written from
  the Protocol Buffers encoding specification (sections "Base 128 Varints", "Message Structure", "Signed Integers" and
  "Length-Delimited Records");
- **waiting and recovering** (`Backoff`, `Recovery`, `Cooldown`): the push loop's delays and the mtr cooldown;
- **the probe's arithmetic and parsing** (`Percentile`, `Resolvers`, `ResolverLines`).

`Seqs`, `Sorting`, `Model`, `Options` and `Decimal` are shared foundations. `dafny verify dfyconfig.toml` checks everything.

## Modelling choices

- Wall-clock readings, command output, POST outcomes, raised exceptions and arriving rows are parameters, so a theorem
  holds for all of them. An endless loop is modelled as any finite number of its turns.
- A string on the wire is its UTF-8 bytes and an encoded double its 64-bit pattern. `ts`, measured values and
  percentiles are exact reals. `int(ts * 1000)` truncates towards zero, as Python does.
- A row is identified by its position in its table, counted from 0; SQLite counts from 1. Rows are never deleted, so the
  two numberings differ by one.
- Payloads are datatypes with the keys the projections read. A JSON object is a map, or a list without repeated keys
  where its order decides the order of the output.

## Where the code and its own description differ

The model follows the code.

- `main.py:13` announces a push backoff of 2^n intervals capped at an hour; `main.py:145-147` stops doubling at 2^6.
  `Backoff.MatchesDescriptionIff` gives the exact condition under which the two agree.
- The hour's cap also applies to an interval longer than an hour, so that failing makes the loop faster than succeeding:
  `Backoff.BackoffNotFasterIff`.
- `push.py:238-239` says that samples are grouped and sorted because `remote_write` wants one sample per timestamp and
  series. The code sorts and does not remove duplicates. `Uniqueness.UniqueTimestampsIff` gives the exact condition on
  the stored rows under which the promise holds, `Uniqueness.SameMillisecondBreaksUniqueness` two rows for which it does
  not.
- `push.py:11-12` says that samples "replay in order on reconnect". They do if the clock does not go back
  (`Replay.ReplayInOrder`), and otherwise not always: `LateInsert` holds a run in which a row with an earlier `ts` arrives
  while a cycle is under way, is left behind by that cycle's UPDATE, and is delivered in a later batch.
  `Replay.ReplayOrderIff` is the exact condition over whole runs: no insert is older than a row already pushed, nor than a
  row of a batch whose UPDATE then happens.
- `push.py:3-5` speaks of two tables; the code drains three, and so does the model.

## Model

| member | source | states |
|---|---|---|
| Protocol.Safety | knausen_signal/push.py:270-295 | In every run from an empty database, with inserts, POST outcomes, heartbeat failures, exceptions and crashes in any order, a row with `pushed_at` set has had every one of its samples accepted by the remote. |
| Protocol.StepInv | knausen_signal/push.py:270-295 | Every step of worker, loops, remote or fault keeps the invariant behind it: pending batches are sorted lists of at most 500 distinct unpushed rows of their table, and everything marked or about to be marked is delivered. |
| Protocol.RunInv | knausen_signal/push.py:270-295 | Hence every run keeps the invariant. |
| Protocol.AnyMoment | knausen_signal/db.py:62-70 | What a run may hold: a row arrives, or the process dies, at any moment; an exception ends the cycle anywhere. Death and exceptions lose the worker's own state only. |
| Protocol.PostOutcomes | knausen_signal/remote_write.py:130-147 | A POST of a non-empty list may be accepted, refused, or taken while the client sees an error; only the first leads on to the UPDATEs, and only the second leaves nothing at the remote. |
| Delivery.CarriedRow | knausen_signal/push.py:278-289 | One POST carries every sample of every row aboard; it is skipped for an empty series list only if no row aboard projects to a sample. |
| Accounting.CreditRun | knausen_signal/push.py:284-294 | Along any run between any two positions of the cycle, marks plus marks still owed plus cut-off cycles balance with the deliveries, for every single row. |
| Accounting.DuplicateAccounting | knausen_signal/push.py:284-294 | Outside the marking phase a row has been delivered exactly once for its mark plus once per cycle whose POST the remote accepted but whose UPDATE of that table never happened. |
| Accounting.ExactlyOnce | knausen_signal/push.py:284-294 | Without lost responses, exceptions between statements and crashes, delivery outside the marking phase is exactly once for marked rows and zero for others, refused POSTs and failed heartbeats notwithstanding. |
| Ledger.RemoteIsDeliveries | knausen_signal/push.py:284-294 | The ledger balances: after any run, and sample by sample, the remote holds what each row projects to as often as that row was delivered, plus the heartbeats, and nothing else. |
| Ledger.RemoteIsPushedRows | knausen_signal/push.py:270-295 | Without lost responses, exceptions between statements and crashes, the remote holds outside the marking phase exactly the samples of the pushed rows, each row's once, plus the heartbeats. |
| Accounting.ArchiveConserved | knausen_signal/db.py:103-131 | No run removes a row, changes its `ts` or payload, or writes its `pushed_at` twice, and each table has grown by exactly the rows inserted. |
| Accounting.RowsAfterSelectWait | knausen_signal/db.py:121-131 | A row inserted after the SELECT is not marked before the table is selected again, because marking goes by id. |
| Replay.ReplayOrderIff | knausen_signal/push.py:11-12 | Replay order, exactly: the pushed rows are downward closed in `ts` at every point of a run if and only if no insert of the run is older than a row already pushed, nor than a row aboard whose UPDATE then happens. |
| Replay.MarkedAscendIff | knausen_signal/push.py:11-12 | The marked batches of a run, one after the other, ascend in `ts` if and only if no UPDATE marks a row older than one already pushed. |
| Replay.ReplayOrder | knausen_signal/db.py:111-118 | Under the exact condition on the inserts both orders hold, whatever fails in between. |
| Replay.ReplayInOrder | knausen_signal/push.py:11-12 | With a clock that does not go back, every run from an empty database replays in order, in `ts` and in milliseconds. |
| LateInsert.LateInsertBreaksOrder | knausen_signal/push.py:270-295 | A run from the empty database, given action by action: a row with `ts` 5 arrives while the row with `ts` 10 is aboard; nothing is pushed before it, and yet the UPDATE leaves the pushed rows not downward closed. |
| LateInsert.LateRowBreaksReplay | knausen_signal/push.py:270-295 | Continued to the UPDATE of the next cycle, that run's marked batches do not ascend. |
| SeriesReplay.PostedSamples | knausen_signal/push.py:278-289 | The series of a POST say about a label set exactly what the batch's rows emitted under it, sorted, or nothing at all. |
| SeriesReplay.SeriesInOrder | knausen_signal/push.py:231-265 | With a clock that does not go back, the samples that the POSTs of a run carry for any one series, over the batches it then marks, never step back in time, within a batch or from one batch to the next (Prometheus Remote-Write 1.0, section "Ordering"). |
| SeriesReplay.OwnTableOnly | knausen_signal/push.py:247-260 | A series whose name belongs to one table's family gets no sample from rows of the other two tables. |
| Drain.BacklogConserved | knausen_signal/db.py:111-131 | In every run, rows waiting at the end plus rows marked equal rows waiting at the start plus rows inserted. |
| Drain.CycleDrop | knausen_signal/push.py:272-294 | From a table's SELECT to its UPDATE, with inserts at any moment, the backlog goes down by exactly min(500, backlog at the SELECT) and up by the rows inserted. |
| Drain.DrainExact | knausen_signal/push.py:270-295 | Without inserts, however failures and crashes interleave, k UPDATEs leave exactly max(0, backlog - 500 k). |
| Drain.DrainedIff | knausen_signal/push.py:270-295 | Without inserts, a table is empty if and only if it has had at least ceil(backlog / 500) UPDATEs. |
| Drain.EmptyCallReturnsZero | knausen_signal/push.py:275-276 | With nothing waiting, a call goes from its three SELECTs straight to returning 0: no POST and no UPDATE. |
| Drain.ReturnedCounts | knausen_signal/push.py:295 | In every run the returned counts account for every marked row exactly once, except those of cycles cut off between two UPDATEs. |
| Drain.DrainReturnsBacklog | knausen_signal/push.py:270-295 | Without inserts and without a cycle cut off between two UPDATEs: once each table has had ceil(backlog / 500) UPDATEs, all three are empty and the returned counts add up to the initial backlog. |
| Drain.WaitBound | knausen_signal/db.py:111-118 | No starvation: a row with k waiting rows at earlier or equal `ts` is marked by the time its table has had floor(k / 500) + 1 UPDATEs, in every run whose inserts are strictly later. |
| Database.SelectionBySort | knausen_signal/db.py:111-118 | Sorting the waiting rows by `ts` and cutting at 500 is one of the selections that ORDER BY ts LIMIT 500 admits. |
| Database.Connection.Insert | knausen_signal/db.py:103-108 | The statement appends the row, with its timestamp and payload and not pushed, to one table, returns its id and leaves all else alone. |
| Database.Connection.SelectUnpushed | knausen_signal/db.py:111-118 | The rows returned are as stored, distinct, unpushed and sorted by `ts`; they are 500 or all that wait, and no row left out is older. |
| Database.Connection.MarkPushed | knausen_signal/db.py:121-131 | Exactly the rows with the given ids get the given time; no timestamp, payload or other row changes, and an empty list of ids changes nothing. |
| PushWorker.Worker.SelectTable | knausen_signal/push.py:272-274 | One SELECT, after whatever arrives before it, is a run of the protocol; it fails exactly if the statement raises, and otherwise yields a selection of the table as it then stands. |
| PushWorker.Worker.Push | knausen_signal/remote_write.py:126-147 | No POST is made for an empty list; otherwise the call raises unless the client sees the remote accept. Either way it is a step of the protocol. |
| PushWorker.Worker.MarkTable | knausen_signal/push.py:291-294 | One UPDATE of its own: it happens exactly if the statement does not raise, marks exactly the batch's rows of that table, and leaves what arrived meanwhile and the other tables alone. |
| PushWorker.Worker.MarkAll | knausen_signal/push.py:291-294 | The three UPDATEs one after the other: an exception before the k-th leaves the first k - 1 tables marked and the others not. |
| PushWorker.Worker.PushUnpushed | knausen_signal/push.py:270-295 | One drain cycle, whatever arrives or fails around it, is a run of the protocol without a crash. It returns exactly if no statement raises and the remote accepts the POST, if there is one; the count is that of the rows selected; and all three tables are afterwards as arrivals and the UPDATEs reached determine. |
| PushWorker.Worker.PushHeartbeat | knausen_signal/main.py:127-141 | Unless it is refused, the heartbeat leaves the value 1 under `knausen_collector_heartbeat` at its time in milliseconds; only its success resets the failure counter. |
| PushWorker.Worker.Turn | knausen_signal/main.py:122-154 | One turn of the push loop is a run of the protocol without a crash. The failure counter is cleared if drain and heartbeat succeed and goes up by one if either fails, and the sleep is `Backoff.Delay` of the counter. |
| PushWorker.Worker.Loop | knausen_signal/main.py:122-154 | Any number of turns is one run of the protocol, so all run theorems hold of the code; every turn is as the specification `GoodTurn` demands. |
| Recovery.TurnOutcome | knausen_signal/main.py:122-154 | A turn leaves no failure behind if and only if no statement raises and the remote accepts what it is sent, heartbeat included; with nothing selected only the SELECTs count. Otherwise there is one failure more, and the sleep is the interval or min(interval * 2^min(failures, 6), 3600). |
| Recovery.TurnMarks | knausen_signal/push.py:291-294 | Row by row: after a turn every old row is still there with timestamp and payload, and `pushed_at` is the turn's time exactly if the row was selected, the POST was accepted if there was one, and no statement up to its table's UPDATE raised. |
| Backoff.DelayIs | knausen_signal/main.py:145-147 | After n failures the delay is min(interval * 2^min(n, 6), 3600). |
| Backoff.DelayGrows | knausen_signal/main.py:145-147 | Along a failure streak the delay is positive, never shrinks and never exceeds an hour. |
| Backoff.BackoffNotFasterIff | knausen_signal/main.py:145-154 | A failure makes the loop wait at least as long as a success if and only if the interval is at most an hour. |
| Backoff.MatchesDescriptionIff | knausen_signal/main.py:13 | The delay equals min(2^n * interval, one hour) if and only if n <= 6 or 64 intervals fill an hour. |
| Recovery.ResetIff | knausen_signal/main.py:141-154 | Of the loop's turns: the counter is cleared by exactly those in which drain and heartbeat succeed, and the loop then sleeps for the plain interval. |
| Recovery.FailureStreak | knausen_signal/main.py:144-153 | n turns of the loop failing in a row, for whatever reason, add n to the counter, and the loop sleeps for the delay of that count. |
| Recovery.BackoffAfterSuccess | knausen_signal/main.py:141-153 | Hence the n-th failing turn after a successful one is followed by the n-th delay. |
| Recovery.StreakDelaysGrow | knausen_signal/main.py:144-153 | Along a streak of failing turns the sleeps are positive, never shrink and never exceed an hour. |
| Recovery.UndisturbedTurn | knausen_signal/main.py:122-154 | A turn in which nothing fails and no row arrives succeeds and takes min(500, backlog) rows off every table. |
| Recovery.BoundedRecovery | knausen_signal/main.py:122-154 | Once no POST and no statement fails any more, the k-th turn of the loop succeeds and ends within max(interval, one hour) plus k - 1 intervals plus the time the turns themselves take, whatever arrives. |
| Recovery.BacklogCleared | knausen_signal/main.py:122-154 | With no new rows all three tables are then empty after exactly ceil(N / 500) turns of the loop, N being the largest backlog, and within that time. |
| Cooldown.ProbeLoop.Turn | knausen_signal/main.py:88-119 | One turn keeps the sample unless probing or storing raises. It keeps a snapshot exactly if the sample was kept, mtr is enabled, the sample's p95 is present and at least the trigger, the cooldown is over, and mtr's run and the storing succeed; exactly then the cooldown starts anew. Rows are added with their payloads, unpushed, and no other row changes. |
| Cooldown.ProbeLoop.Loop | knausen_signal/main.py:82-119 | Over any number of turns the snapshots added are, in order, those of exactly the turns that meet these conditions with the cooldown as they find it. |
| Cooldown.Spacing | knausen_signal/main.py:98-103 | With a clock that does not go back, consecutive snapshots of one process are at least the cooldown apart, the first one counted from the last stored before. |
| Cooldown.WindowBound | knausen_signal/main.py:98-115 | With a positive cooldown, snapshots within a window of length W number at most floor(W / cooldown) + 1. |
| Series.Bucket.Emit | knausen_signal/push.py:243-245 | Emitting updates the dictionary in place so that it holds, per label set, the samples emitted so far, keys in order of first emission. |
| Series.Bucket.Collect | knausen_signal/push.py:262-265 | The series returned are the specification's: one per label set, its samples sorted. |
| Series.AssembleShape | knausen_signal/push.py:231-265 | Series have pairwise distinct label sets, appear in the order of first emission, are never empty, and cover every emitted label set. |
| Series.AssembleSamples | knausen_signal/push.py:262-265 | A series' samples are sorted by millisecond, and those of one millisecond keep their emission order. |
| Sorting.StableUnique | knausen_signal/push.py:263 | Those two facts leave one possible outcome only. |
| Series.Conservation | knausen_signal/push.py:231-265 | The multiset of (labels, value, millisecond) that goes in comes out: nothing is lost, invented or moved to another label set. |
| Contents.SeriesHoldMetrics | knausen_signal/push.py:243-265 | A series holds a sample if and only if some metric of some row says so: name and extra labels make the label set, the value is the metric's, the time the row's in milliseconds. |
| Contents.SeriesCountMetrics | knausen_signal/push.py:243-265 | And as often as the rows say so: equal samples of two rows both arrive. |
| Contents.MillisTruncates | knausen_signal/push.py:248 | The millisecond timestamp is the integer part of a thousand times `ts`, towards zero. |
| Series.StrictlyIncreasingIff | knausen_signal/push.py:238-240 | All series have strictly increasing timestamps if and only if no label set was emitted twice for one millisecond. |
| Rows.BuildSeriesLoop | knausen_signal/push.py:231-265 | The three loops over the rows, emitting into the dictionary, compute the specification `BuildSeries`. |
| Uniqueness.UniqueTimestampsIff | knausen_signal/push.py:238-265 | The exact condition on the stored rows for strictly increasing timestamps in every series: no payload repeats a resolver or a hop; modem rows have distinct milliseconds; two probe rows of one millisecond share no gauge, no checkpoint and no resolver measurement and not both have a health flag; two mtr rows of one millisecond differ in target or share no hop measurement and no host at one hop. |
| Uniqueness.FlaggedProbesNeedMillis | knausen_signal/probe.py:82-96 | Every probe sample has its health flag; then probe rows need distinct milliseconds just as modem rows do. |
| Collisions.ProbesAcross | knausen_signal/push.py:155-192 | Two probe payloads share no label set if and only if they have no measurement in common. |
| Collisions.MtrsAcross | knausen_signal/push.py:210-226 | Two mtr payloads share no label set if and only if their targets differ, or no two of their hops share a number together with a present measurement or the same host. |
| Uniqueness.SameMillisecondBreaksUniqueness | knausen_signal/push.py:238-240 | Two modem rows of one millisecond for which it fails. |
| Uniqueness.TablesSeparate | knausen_signal/push.py:247-260 | The three tables never interfere: repeated timestamps arise within a table or not at all. |
| Rows.MillisMonotone | knausen_signal/push.py:248 | Truncating to milliseconds keeps the order. |
| Metrics.ModemLabelsDistinct | knausen_signal/push.py:73-130 | No modem payload projects two values onto one label set. |
| Metrics.ProbeLabelsDistinct | knausen_signal/push.py:155-192 | A probe payload projects onto distinct label sets if and only if no two resolver entries share their labels together with a present measurement. |
| Metrics.DistinctResolversSuffice | knausen_signal/push.py:178-192 | Distinct resolver addresses are enough for that. |
| Metrics.MtrLabelsDistinct | knausen_signal/push.py:210-226 | An mtr payload projects onto distinct label sets if and only if no two hops share their number together with a present measurement or the same host. |
| Metrics.ModemFamily | knausen_signal/push.py:38-53 | Every metric of a modem payload is named `knausen_modem_...`. |
| Metrics.ProbeFamily | knausen_signal/push.py:138-152 | Every metric of a probe payload is named `knausen_probe_...`. |
| Metrics.MtrFamily | knausen_signal/push.py:201-207 | Every metric of an mtr payload is named `knausen_mtr_...`. |
| Metrics.BandName | knausen_signal/push.py:56-70 | A band is never hidden: the label is empty only if the modem reports none, the two known bands get their names, and any other band keeps its raw name. |
| Projections.ModemGaugesNamedAfterKeys | knausen_signal/push.py:38-82 | For each of the fourteen keys the gauge named after it shows its value, or nothing if the key is null or missing. |
| Projections.ModemFlagsShown | knausen_signal/push.py:84-91 | Connected is shown as 1 or 0 if known, and carrier aggregation as 1 exactly if there is a second band. |
| Projections.ModemInfoShown | knausen_signal/push.py:117-130 | There is one info metric, constantly 1, with operator, network type and both bands, raw and by name, as labels. |
| Projections.ModemUsageAgrees | knausen_signal/push.py:93-115 | The `_gb` gauges are the byte gauges in GiB, and a total is shown exactly when both halves are, as their sum. |
| Projections.ProbeGaugesNamedAfterKeys | knausen_signal/push.py:138-159 | For each of the six keys the gauge named after it shows its value, or nothing if the key is null or missing. |
| Projections.ProbeOkShown | knausen_signal/push.py:160-162 | The health flag is shown as 1 or 0 if it is present. |
| Projections.CheckpointsShown | knausen_signal/push.py:148-176 | For each of the three keys the gauge named after it is shown exactly for the entries of its dict that are not null, under the checkpoint's name. |
| Projections.ResolversShown | knausen_signal/push.py:181-192 | Lookup time and loss are shown exactly for the resolver entries that have them, labelled with address, family and source. |
| Projections.HopRttShown | knausen_signal/push.py:201-219 | Average, best, worst and deviation of a hop's round trips are each shown under their own name, labelled with target and hop number, exactly when present. |
| Projections.HopLossShown | knausen_signal/push.py:206-219 | So is the hop's loss. |
| Projections.HopInfoShown | knausen_signal/push.py:220-226 | A hop with a host has an info metric, constantly 1, with the host as third label; a hop without one has none. |
| Decimal.StrValue | knausen_signal/push.py:213 | The hop number is written in decimal, with a minus sign if negative. |
| Varint.EncodeLoop | knausen_signal/remote_write.py:36-42 | The shifting loop terminates for every integer and leaves the encoding in its buffer. |
| Varint.RoundTrip | knausen_signal/remote_write.py:36-42 | Reading an encoding with anything behind it gives the number back and stops exactly behind it. |
| Varint.PrefixFree | knausen_signal/remote_write.py:36-42 | No encoding is a proper prefix of another. |
| Varint.Width | knausen_signal/remote_write.py:36-42 | k bytes suffice if and only if the number is below 128^k, so the length is max(1, ceil(bit length / 7)). |
| Varint.Shape | knausen_signal/remote_write.py:38-41 | Every byte but the last has the continuation bit; the last has not, and is zero for the number 0 only. |
| Varint.Shortest | knausen_signal/remote_write.py:36-42 | No byte string that reads as the same number is shorter. |
| Varint.Int64RoundTrip | knausen_signal/remote_write.py:62-65 | An integer survives the trip through two's complement if and only if it fits 64 signed bits. |
| Varint.Int64Width | knausen_signal/remote_write.py:62-65 | A negative int64 takes exactly ten payload bytes, any other at most nine. |
| Wire.EncodeTimeSeriesLoop | knausen_signal/remote_write.py:98-104 | The two loops that collect parts compute the encoding of a series: labels first, then samples, in order. |
| Wire.LabelBytes | knausen_signal/remote_write.py:90-91 | A label is the tag byte 0x0A with the name and 0x12 with the value, each behind its length. |
| Wire.SampleBytes | knausen_signal/remote_write.py:94-95 | A sample is the tag byte 0x09 with the eight bytes of the value and 0x10 with the timestamp. |
| Wire.PartBytes | knausen_signal/remote_write.py:98-108 | Labels sit in a series behind 0x0A, samples behind 0x12, and series in a request behind 0x0A. |
| Wire.LittleEndianAt | knausen_signal/remote_write.py:58-59 | The bytes of a double come least significant first. |
| Wire.LabelRoundTrip | knausen_signal/remote_write.py:90-91 | Decoding an encoded label gives it back, empty strings included. |
| Wire.SampleRoundTrip | knausen_signal/remote_write.py:94-95 | Decoding an encoded sample gives it back if and only if its timestamp is an int64. |
| Wire.TimeSeriesRoundTrip | knausen_signal/remote_write.py:98-104 | Decoding an encoded series gives it back if and only if all its timestamps are int64. |
| Wire.RoundTrip | knausen_signal/remote_write.py:107-108 | A decoder of the published format recovers exactly the list of series from the request, consuming every byte at each nesting level, if and only if all timestamps are int64. |
| Wire.Injective | knausen_signal/remote_write.py:107-108 | Two different lists of series with int64 timestamps never encode to the same bytes. |
| Wire.OutOfRangeCollides | knausen_signal/remote_write.py:62-65 | Outside that range they may: the timestamps -1 and 2^64 - 1 encode alike. |
| Wire.Concatenation | knausen_signal/remote_write.py:107-108 | The encoding of two lists, one after the other, is the concatenation of their encodings. |
| Request.BodyDecodes | knausen_signal/push.py:278-289 | From rows to bytes and back: a reader of the POST body gets one series per series of the batch, in order, with name for name and value for value in UTF-8, each sample's value as its bit pattern and its timestamp, for row timestamps that fit 64 bits. |
| Percentile.Bounded | knausen_signal/probe.py:381-391 | Whatever bounds all the inputs bounds the percentile, for every percentage from 0 to 100. |
| Percentile.IntegralPosition | knausen_signal/probe.py:386-390 | Where pct (n - 1) = 100 k for a whole k, it is the order statistic: at most x if and only if more than k inputs are. |
| Percentile.LinearBetween | knausen_signal/probe.py:386-391 | Between two neighbours in sorted order, ends included, it is an affine function of the percentage. |
| Percentile.PercentileErrors | knausen_signal/probe.py:383-391 | No inputs raise ValueError; above 100 percent two or more inputs raise IndexError, while a single input is its own percentile. |
| Percentile.MonotoneInPct | knausen_signal/probe.py:381-391 | It never falls as the percentage rises, across interpolation segments. |
| Percentile.MonotoneInValues | knausen_signal/probe.py:381-391 | Raising inputs pointwise never lowers it. |
| Sorting.SortMonotone | knausen_signal/probe.py:385 | Sorting preserves pointwise order. |
| Percentile.PermutationInvariant | knausen_signal/probe.py:381-391 | The order of the inputs does not matter, for any percentage, the error outcomes included. |
| Percentile.Symmetric | knausen_signal/probe.py:381-391 | Negated inputs at 100 - p give the negated percentile. |
| Percentile.PingAggregate | knausen_signal/probe.py:177-202 | Pools the round trips of all targets: p50 and p95 are theirs, both absent without round trips, p50 at most p95; the loss is the worst of the targets in percent; one target that raises makes the whole aggregate raise. |
| Resolvers.UnescapeInvertsEscape | knausen_signal/probe.py:270-271 | The two replacements, one after the other, undo the escaping of every value, with colons and backslashes in any order. |
| Resolvers.LineRoundTrip | knausen_signal/probe.py:267-276 | A non-empty value without surrounding whitespace or line break is recovered from its printed line, as handed out, and as v6 exactly if its key begins with IP6. |
| ResolverLines.ParseLineIff | knausen_signal/probe.py:264-276 | A line is an entry if and only if, stripped, it is a key without a colon, a colon, and a value that, unescaped and stripped, is not empty; that value is the address. |
| ResolverLines.StripCorrect | knausen_signal/probe.py:265 | Stripping takes blanks off both ends, all of them and nothing else. |
| ResolverLines.PartitionIff | knausen_signal/probe.py:266 | The key is what stands before the first colon. |
| ResolverLines.LinesRejoin | knausen_signal/probe.py:264 | Splitting into lines takes out the line breaks and nothing else. |
| Resolvers.OutputRoundTrip | knausen_signal/probe.py:263-277 | Parsing a printed list of fields gives every field back, in order. |
| Resolvers.DetectHanded | knausen_signal/probe.py:245-277 | The loop over the output's lines computes the first occurrence of each parsed address; a failing command gives the empty list. |
| Resolvers.FirstByIpCorrect | knausen_signal/probe.py:272-276 | Those are exactly the first occurrences, in the order of the list, no address lost or repeated. |
| Resolvers.AssembleResolvers | knausen_signal/probe.py:280-301 | The two loops compute the first occurrences of handed resolvers followed by reference servers. |
| Resolvers.MergedAddresses | knausen_signal/probe.py:286-288 | The merged list has exactly the addresses of its inputs, each once. |
| Resolvers.HandedWins | knausen_signal/probe.py:286-288 | An address the router hands out keeps its handed entry, even if it is a reference server too. |
| ResolverLines.HandedFromLines | knausen_signal/probe.py:263-277 | Every handed resolver is the entry of some line of the output. |
| ResolverLines.MergedFrom | knausen_signal/probe.py:296-300 | Every merged entry was handed out, or is a reference server, labelled so, and v6 exactly if its address has a colon. |
| Resolvers.ProbeOfMergedDistinct | knausen_signal/probe.py:280-301 | A probe that queries the merged list projects onto distinct label sets. |

## Left out

- SSH, subprocesses, sockets, ICMP, DNS, TLS, HTTP and snappy are foreign calls; only their outcomes appear.
- A POST is taken or refused as a whole; a remote that stores part of a request and answers with an error is not modelled.
- SQLite's internals, WAL and power loss: each statement is atomic and survives a crash of the process.
- Floating-point rounding: times, values and percentiles are exact reals, and a NaN or infinite measurement does not occur.
- JSON, UTF-8 and the bit patterns of doubles are library code; a payload value that `float()` rejects is covered only as an exception that ends the cycle.
- The polling and parsing in `modem.py` and `mtr.py`, and the environment reading in `config.py`.
- The modem loop (`main.py:61-79`): one poll, one insert, and a minute's pause after a failure; its inserts are arrivals here.
- `_ping_per_checkpoint` and `_probe_dns_resolvers`: further loops around the same percentile.
- The supervisor, signals, cancellation, logging, and asyncio's scheduling beyond the order of statements.
- The order of labels within a series: the code does not sort labels by name.
- The modem-lockout backoff described in `main.py:10`: no code implements it.
- Percentile.PercentileErrors: says nothing about percentages below 0, where Python's negative indices wrap around.
- Resolvers.LineRoundTrip: says nothing about values that begin or end in whitespace, because the code strips them.
- PushWorker.Worker.Turn: the process does not die inside a turn here; `Protocol` has a crash at every point.
- Cooldown.Spacing: assumes that the clock does not go back during the run; the code reads the wall clock.
- Wire.RoundTrip: the decoder reads any number of varint bytes, where a library may refuse more than ten.
