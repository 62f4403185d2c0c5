# Life-expectancy ETL pipeline, modelled in Dafny

This project models the core of a small extract-transform-load pipeline. The pipeline pulls
life-expectancy observations for Uganda from the WHO Global Health Observatory and turns each
observation into a row. It upserts the rows into a PostgreSQL table keyed by timestamp, and it
keeps a "last extracted timestamp" checkpoint between runs.

Modules:

- `Wrappers` (`wrappers.dfy`): `Option` and `Result`. A `Result` carries either a value or the exception a call raised.
- `ElementTree` (`element_tree.dfy`): the slice of an XML element tree the code uses.
  - An `Element` has a tag, attributes and children.
  - `Find` and `FindAll` search direct children with a path, either `Tag` or `Tag[@Attr="Value"]`.
- `EtlFunctions` (`etl_functions.dfy`): the four functions of `etl_functions.py`.
  - A `CallLog` holds a ghost list of `Step`s. Each step of the pipeline appends itself to it when it is called: reading the checkpoint, the extraction, `process_data`, `ingest_data` and the save.
  - `ExtractData` sorts a response into "None" or the list of `Observation` elements.
  - `ProcessData` is a loop that appends one row per observation, then converts the timestamp column. Its specification is `Transform`.
  - `Database.IngestData` runs the upsert once per row inside one transaction. Its specification is `UpsertAll`.
  - `ExtractAndProcessData` short-circuits on no data.
- `Pipeline` (`pipeline.dfy`): `main`.
  - `Execute` is the method. `Run` is its specification on values.
  - `Execute` reads a `CheckpointStore` cell, extracts with that value, and, when there is data, processes, ingests and saves the latest timestamp.
  - It returns the exception it ended with, if any.
  - Its contract also says that the `CallLog` grows by exactly `Run`'s trace. The called methods append the entries themselves, so the order and number of the calls are checked against the method body.

Behaviour of the code that the model keeps:

- One bad observation aborts the whole `process_data` call. Causes: a missing `Dim`, a missing `Value`, a missing attribute, a non-numeric `Numeric`, or a year text on which the `%Y` conversion raises. An empty list also fails, because its frame has no `timestamp` column.
- `main` does not catch that exception. The run ends before anything is ingested or saved.
- The insert binds the row tuple positionally. The tuple is in frame order `timestamp, country_code, region, sex, life_expectancy`. The column list is `timestamp, country_code, sex, region, life_expectancy`. So the stored `sex` is the row's region and the stored `region` is the row's sex.
- `ON CONFLICT ... DO UPDATE` does not set `country_code`. A timestamp keeps the country code of the row that first inserted it.
- `ingest_data` swallows every failure and returns nothing. A failed load commits nothing, yet `main` still saves the new checkpoint.
- The new checkpoint replaces the old one with no comparison. A run over older rows moves it backwards.

The network response, the float parser and the `%Y` year conversion are parameters. So is the
point where the database fails: `DbFault` says whether it fails before the batch, at one row, or
at the commit.

## Model

| member | source | states |
|---|---|---|
| `ElementTree.Selects` | etl_functions.py:25-59 | how one path step of `find` and `findall` (lines 25, 30 and 55-59) matches a child: `Tag` by tag alone, `Tag[@Attr="Value"]` by tag and one attribute's value |
| `ElementTree.Find` | etl_functions.py:55-59 | `find` returns the position of the first child the path selects, or none when no child is selected |
| `ElementTree.FindAll` | etl_functions.py:30 | `findall` returns only selected children, all of them, and nothing else |
| `ElementTree.FindAllAppend` | etl_functions.py:30 | `findall` keeps document order: the result over a concatenation is the concatenation of the results |
| `EtlFunctions.IsHttpError` | etl_functions.py:22 | `raise_for_status` raises exactly for a status from 400 to 599 |
| `EtlFunctions.FetchObservations` | etl_functions.py:19-37 | one call of `extract_data` with the checkpoint as `asof`: the result is `ExtractData` of the answer to that request, and the call is logged once |
| `EtlFunctions.ExtractData` | etl_functions.py:8-37 | None exactly on a transport error, a 4xx/5xx status, an unparseable body or a root with no `Data` child; otherwise exactly what `findall('Observation')` returns on the first `Data` child of the root, which `FindAll` and `FindAllAppend` fix as its `Observation` children, each once, in document order |
| `EtlFunctions.DataRootExtractsNothing` | etl_functions.py:24-28 | a document whose root element is itself `Data`, laid out like the sample text in tests/test_etl_functions.py:11-14, extracts to None, because `find` searches only the root's children |
| `EtlFunctions.ExtractDataComplete` | etl_functions.py:25-31 | every `Observation` child of the first `Data` child is in the extracted list |
| `EtlFunctions.AttrOf` | etl_functions.py:55-59 | `find(p).attrib[a]` raises only for a missing element or a missing attribute (`AttrOfSpec` states its value) |
| `EtlFunctions.ReadObservation` | etl_functions.py:55-67 | one loop iteration raises only a missing-element, missing-attribute or non-numeric error, never a year error: the year stays text until the column conversion (`ReadObservationSpec` states when it succeeds and what it reads) |
| `EtlFunctions.ReadAll` | etl_functions.py:53-67 | the rows the loop appends are one per observation read |
| `EtlFunctions.ParseFloat` | etl_functions.py:57 | `float(...)` of the `Numeric` text: its value, or a ValueError when the parser rejects the text |
| `EtlFunctions.ToTimestamp` | etl_functions.py:70 | the `%Y` conversion of one year text: January 1 of that year, or `BadYear` for a year text on which the conversion raises |
| `EtlFunctions.ToDatetime` | etl_functions.py:70 | the converted column has one timestamp per row |
| `EtlFunctions.TransformList` | etl_functions.py:53-70 | a successful `process_data` on a list yields exactly one row per observation, and never for an empty list |
| `EtlFunctions.Transform` | etl_functions.py:39-71 | `process_data` returns None for None; on a list that it does not raise for, a frame with one row per observation and at least one row |
| `EtlFunctions.ReadAllFailurePersists` | etl_functions.py:54-59 | once an observation raises, the whole call raises that same exception |
| `EtlFunctions.ProcessData` | etl_functions.py:39-71 | the loop followed by the column conversion computes `Transform`: None for None, otherwise the rows or the first exception; the call is logged once with its argument |
| `EtlFunctions.AttrOfSpec` | etl_functions.py:55-59 | `find(p).attrib[a]` succeeds exactly when the first selected child has `a`, and yields its value |
| `EtlFunctions.ReadObservationSpec` | etl_functions.py:55-59 | one iteration succeeds exactly when the four `Dim` codes and a parseable `Numeric` exist; it reads each field from the first matching child |
| `EtlFunctions.ReadAllAt` | etl_functions.py:54-67 | the loop succeeds exactly when every iteration does, and row `i` is observation `i`'s |
| `EtlFunctions.ToDatetimeAt` | etl_functions.py:70 | the column conversion succeeds exactly when every year converts, and keeps row order |
| `EtlFunctions.FirstAttrUnique` | etl_functions.py:55-59 | the value of a field is determined: two first matches carry the same attribute value |
| `EtlFunctions.ConvertObservation` | etl_functions.py:55-70 | an observation is convertible exactly when it is read and its year converts; its row then takes each field from the first match and the year as January 1 |
| `EtlFunctions.ReadThenConvert` | etl_functions.py:53-70 | reading all observations and then converting the column is converting each observation on its own, in order |
| `EtlFunctions.TransformSpec` | etl_functions.py:50-71 | `process_data` on a list succeeds exactly when it is non-empty and every observation is convertible; then one row per observation, in input order, each with its first-match fields and January 1 of its year |
| `EtlFunctions.Bind` | etl_functions.py:99-104 | the row tuple is bound positionally: the `sex` column receives the row's region and the `region` column its sex (`UpsertAllAt` and `ConflictScenario` state the effect on the table) |
| `EtlFunctions.Upsert` | etl_functions.py:102-106 | one insert adds the row's timestamp to the keys; the record's `country_code` is the stored one on conflict and the row's otherwise; its `sex` and `region` are the row's region and sex |
| `EtlFunctions.UpsertAll` | etl_functions.py:108 | `executemany` runs the insert once per row in batch order (`UpsertAllAt` states the resulting record per timestamp, `UpsertAllIdempotent` that a repeat changes nothing) |
| `EtlFunctions.LastIndex` | etl_functions.py:108 | the position of the last batch row with a given timestamp, or none when no row has it |
| `EtlFunctions.FirstIndex` | etl_functions.py:108 | the position of the first batch row with a given timestamp, or none when no row has it |
| `EtlFunctions.FirstIndexExtend` | etl_functions.py:108 | appending a row changes the first occurrence of a timestamp only when it did not occur before |
| `EtlFunctions.UpsertAllAt` | etl_functions.py:99-108 | per timestamp: unmentioned ones keep their record; mentioned ones hold the last row's values with sex and region swapped, and the old or first-inserted `country_code` |
| `EtlFunctions.UpsertAllIdempotent` | etl_functions.py:102-108 | ingesting the same batch twice leaves the table as ingesting it once |
| `EtlFunctions.ConflictScenario` | etl_functions.py:102-108 | two rows for 2023 leave one record holding the later row's values, its sex in the `region` column |
| `EtlFunctions.Commits` | etl_functions.py:84-110 | `ingest_data` reaches `conn.commit()` only when the database fails neither before the batch, nor at one of its rows, nor at the commit |
| `EtlFunctions.Database.IngestData` | etl_functions.py:73-115 | on commit the table becomes `UpsertAll` of the old table and the batch; on any failure it is unchanged; nothing is returned; the call is logged once with its batch |
| `EtlFunctions.ExtractAndProcessData` | etl_functions.py:117-134 | None whenever extraction yields None; any frame it returns is non-empty and has one row per extracted observation |
| `EtlFunctions.ExtractAndProcessDataSpec` | etl_functions.py:117-134 | None exactly when extraction yields None or an empty list; otherwise what `process_data` gives the extracted list, one row per observation |
| `Pipeline.CheckpointStore.Get` | config.py:9-24 | reading returns the stored checkpoint; the call is logged once |
| `Pipeline.CheckpointStore.Save` | config.py:26-38 | saving overwrites the stored checkpoint with the given timestamp; the call is logged once with that timestamp |
| `Pipeline.CheckpointRoundTrip` | config.py:9-38 | a never-written store reads as absent; after a save it reads back the saved timestamp |
| `Pipeline.MaxTimestamp` | main.py:23 | the saved timestamp is at least every row's timestamp and equals one of them |
| `Pipeline.Run` | main.py:5-27 | `main` on values: a run that ends with an exception from `process_data` leaves the checkpoint and the table as they were (the `Run*` lemmas state the rest) |
| `Pipeline.Execute` | main.py:5-27 | `main` leaves the checkpoint and table that `Run` gives and ends with its exception. The calls it makes, which each append themselves to the log, are exactly `Run`'s trace in that order: read, extract, then `process_data` once, and unless that raises, `ingest_data` once and then the save |
| `Pipeline.RunStopsWithoutData` | main.py:10-15 | the checkpoint is read first and passed unchanged to extraction; the run stops exactly when extraction yields None or an empty list, changing nothing |
| `Pipeline.RunProcessesThenIngests` | main.py:15-23 | with data, `process_data` runs once on the list; if it raises, nothing else happens; otherwise `ingest_data` runs once on its rows, then the checkpoint is saved |
| `Pipeline.RunCheckpointRule` | main.py:15-23 | the checkpoint moves only after data was processed, and then becomes the maximum row timestamp |
| `Pipeline.RunAdvancesAfterFailedLoad` | main.py:20-23 | a load that commits nothing leaves the table alone, yet the checkpoint still advances |
| `Pipeline.ObservationReads` | etl_functions.py:55-59 | an observation laid out as the API sends it is read field by field |
| `Pipeline.AnswerExtracts` | etl_functions.py:25-31 | a document holding a `Data` element of observations extracts to exactly those observations |
| `Pipeline.AllSelected` | etl_functions.py:30 | `findall` keeps every child when all are selected |
| `Pipeline.SingleObservation` | etl_functions.py:53-70 | a list of one readable observation processes into one row dated January 1 of its year |
| `Pipeline.SingleRead` | etl_functions.py:53-67 | the loop over a one-observation list appends that observation's row |
| `Pipeline.SingleConversion` | etl_functions.py:70 | converting a one-row column gives January 1 of its year |
| `Pipeline.RunOnOneRow` | main.py:15-23 | a run over one processed row saves that row's date and upserts it when the load commits |
| `Pipeline.UgandaObservation` | tests/test_etl_functions.py:11-14 | the sample's 2023 Ugandan `Observation` element, placed under a `Data` child of a `GHO` root, is extracted and processed into its one row; only the element comes from the sample, whose own document has `Data` as its root and extracts to None |
| `Pipeline.UgandaScenario` | tests/test_etl_functions.py:25-33 | end to end on an empty table: one record for 2023-01-01 with region and sex swapped, checkpoint 2023-01-01 |
| `Pipeline.CheckpointCanMoveBack` | main.py:23 | a stored checkpoint of 2030 is overwritten by the 2023 of the rows just loaded |

## Left out

- HTTP: the URL template, the `asof` query text and `requests.get` are not modelled. A `fetch` function from checkpoint to `Response` stands for them. Only the `raise_for_status` rule (status 400 to 599 is an error) is kept.
- XML parsing: `ET.fromstring` is not modelled. A body is either unparseable or an already parsed `Element` tree.
- Float parsing: `float(...)` is a parameter `parseNumeric`, and life expectancy is a `real` that no member does arithmetic on.
- pandas: the frame is a sequence of rows. `pd.to_datetime(..., format='%Y')` is a parameter `parseYear` applied row by row, so its digit rules and its timestamp range are not modelled.
- `EtlFunctions.ToTimestamp`: year texts that `pd.to_datetime(..., format='%Y')` turns into NaT without raising (such as `NaN`, `NaT` and, in recent pandas, the empty text) are not modelled, because `parseYear` gives only a year or a failure. In the code such a row makes the insert into the `DATE PRIMARY KEY` column fail, so nothing is committed, while `max()` skips NaT and the checkpoint still advances. The gap carries into `ToDatetime`, `TransformSpec` and `Run`, which treat every year text as either a date or a `BadYear` exception.
- psycopg2 plumbing is not modelled: connecting, the cursor, `CREATE TABLE IF NOT EXISTS`, the `VARCHAR` length limits, `close`, and the connection left open on the failure path. `DbFault` says where the database fails, and any failure leaves the table unchanged.
- `Database.IngestData`: a statement that fails part-way is modelled as rolling back the whole batch, as an uncommitted transaction does. Concurrent writers to the table are not modelled.
- config.py: the JSON file, `str`/`pd.to_datetime` serialisation and its logged read and write errors are not modelled. The checkpoint is an `Option<Date>` cell that reads as None until written and is overwritten by each save.
- Logging, `print`, the elapsed-time measurement in `main` and the connection string are not modelled.
- Concurrency: two runs racing on the checkpoint or the table are not modelled.
