/**
 * The pipeline entry point: read the checkpoint, extract, and when there is
 * data, process it, ingest it and save the newest timestamp as the next
 * checkpoint.
 */
module Pipeline {
  import opened Wrappers
  import opened ElementTree
  import opened EtlFunctions

  /** The persisted "last extracted timestamp": absent until first written, overwritten by every save. */
  class CheckpointStore {
    var stored: Option<Date>

    constructor ()
      ensures stored == None
    {
      stored := None;
    }

    /** `get_last_extracted_timestamp`. */
    method Get(log: CallLog) returns (ts: Option<Date>)
      modifies log
      ensures ts == stored
      ensures log.steps == old(log.steps) + [ReadCheckpoint]
    {
      log.steps := log.steps + [ReadCheckpoint];
      ts := stored;
    }

    /** `save_last_extracted_timestamp`: a full overwrite, with no comparison against the stored value. */
    method Save(ts: Date, log: CallLog)
      modifies this, log
      ensures stored == Some(ts)
      ensures log.steps == old(log.steps) + [SaveCheckpoint(ts)]
    {
      log.steps := log.steps + [SaveCheckpoint(ts)];
      stored := Some(ts);
    }
  }

  /** A fresh store reads as absent, and reads back exactly what was saved. */
  method CheckpointRoundTrip(ts: Date) returns (before: Option<Date>, after: Option<Date>)
    ensures before == None && after == Some(ts)
  {
    var store := new CheckpointStore();
    var log := new CallLog();
    before := store.Get(log);
    store.Save(ts, log);
    after := store.Get(log);
  }

  /** `processed_data['timestamp'].max()`: the latest timestamp among the rows. */
  function MaxTimestamp(rows: seq<Row>): (m: Date)
    requires |rows| > 0
    ensures forall i :: 0 <= i < |rows| ==> DateLe(rows[i].timestamp, m)
    ensures exists i :: 0 <= i < |rows| && rows[i].timestamp == m
  {
    if |rows| == 1 then rows[0].timestamp
    else
      var rest := MaxTimestamp(rows[1..]);
      assert forall i :: 1 <= i < |rows| ==> rows[i] == rows[1..][i - 1];
      if DateLe(rest, rows[0].timestamp) then rows[0].timestamp else rest
  }

  /** What a run of `main` leaves behind, and the exception it ended with, if any. */
  datatype RunResult = RunResult(checkpoint: Option<Date>, table: Table, trace: seq<Step>, raised: Option<TransformError>)

  /**
   * `main` on values: the checkpoint and the table before the run, the
   * response the extraction gets for a given checkpoint, the two parsers,
   * and where the database fails, if it does.
   */
  function Run(checkpoint: Option<Date>, table: Table, fetch: Option<Date> -> Response,
               parseYear: string -> Option<int>, parseNumeric: string -> Option<real>, fault: DbFault): (r: RunResult)
    ensures r.raised.Some? ==> r.checkpoint == checkpoint && r.table == table
  {
    var extracted := ExtractData(fetch(checkpoint));
    if extracted.None? || extracted.value == [] then
      RunResult(checkpoint, table, [ReadCheckpoint, Extract(checkpoint)], None)
    else
      match TransformList(extracted.value, parseYear, parseNumeric)
      case Failure(e) =>
        RunResult(checkpoint, table, [ReadCheckpoint, Extract(checkpoint), Process(extracted)], Some(e))
      case Success(rows) =>
        var latest := MaxTimestamp(rows);
        var loaded := if Commits(fault, |rows|) then UpsertAll(table, rows) else table;
        RunResult(Some(latest), loaded,
                  [ReadCheckpoint, Extract(checkpoint), Process(extracted), Ingest(rows), SaveCheckpoint(latest)], None)
  }

  /** `Run` when the extraction yields no observations. */
  lemma RunWithoutData(checkpoint: Option<Date>, table: Table, fetch: Option<Date> -> Response,
                       parseYear: string -> Option<int>, parseNumeric: string -> Option<real>, fault: DbFault)
    requires ExtractData(fetch(checkpoint)).None? || ExtractData(fetch(checkpoint)).value == []
    ensures Run(checkpoint, table, fetch, parseYear, parseNumeric, fault)
         == RunResult(checkpoint, table, [ReadCheckpoint, Extract(checkpoint)], None)
  {
  }

  /** `Run` when `process_data` raises `e`. */
  lemma RunWhenProcessingRaises(checkpoint: Option<Date>, table: Table, fetch: Option<Date> -> Response,
                                parseYear: string -> Option<int>, parseNumeric: string -> Option<real>, fault: DbFault,
                                e: TransformError)
    requires ExtractData(fetch(checkpoint)).Some? && ExtractData(fetch(checkpoint)).value != []
    requires TransformList(ExtractData(fetch(checkpoint)).value, parseYear, parseNumeric) == Failure(e)
    ensures Run(checkpoint, table, fetch, parseYear, parseNumeric, fault)
         == RunResult(checkpoint, table, [ReadCheckpoint, Extract(checkpoint), Process(ExtractData(fetch(checkpoint)))], Some(e))
  {
  }

  /** `Run` when `process_data` returns `rows`. */
  lemma RunWhenProcessed(checkpoint: Option<Date>, table: Table, fetch: Option<Date> -> Response,
                         parseYear: string -> Option<int>, parseNumeric: string -> Option<real>, fault: DbFault,
                         rows: seq<Row>)
    requires ExtractData(fetch(checkpoint)).Some? && ExtractData(fetch(checkpoint)).value != []
    requires TransformList(ExtractData(fetch(checkpoint)).value, parseYear, parseNumeric) == Success(rows)
    ensures |rows| > 0
    ensures Run(checkpoint, table, fetch, parseYear, parseNumeric, fault)
         == RunResult(Some(MaxTimestamp(rows)), if Commits(fault, |rows|) then UpsertAll(table, rows) else table,
                      [ReadCheckpoint, Extract(checkpoint), Process(ExtractData(fetch(checkpoint))), Ingest(rows),
                       SaveCheckpoint(MaxTimestamp(rows))],
                      None)
  {
  }

  // Steps appended one call at a time form the list of those steps, in call order.

  lemma TwoStepsAppended(log: seq<Step>, a: Step, b: Step)
    ensures log + [a] + [b] == log + [a, b]
  {
  }

  lemma ThreeStepsAppended(log: seq<Step>, a: Step, b: Step, c: Step)
    ensures log + [a] + [b] + [c] == log + [a, b, c]
  {
  }

  lemma FiveStepsAppended(log: seq<Step>, a: Step, b: Step, c: Step, d: Step, e: Step)
    ensures log + [a] + [b] + [c] + [d] + [e] == log + [a, b, c, d, e]
  {
  }

  /**
   * `main`: read the checkpoint, pass it unchanged to the extraction, and
   * for a non-empty list of observations process them, ingest the rows and
   * save their latest timestamp. An exception from `process_data` is not
   * caught: it ends the run before anything is ingested or saved.
   */
  method Execute(store: CheckpointStore, db: Database, log: CallLog, fetch: Option<Date> -> Response,
                 parseYear: string -> Option<int>, parseNumeric: string -> Option<real>, fault: DbFault)
    returns (raised: Option<TransformError>)
    modifies store, db, log
    ensures var r := Run(old(store.stored), old(db.table), fetch, parseYear, parseNumeric, fault);
      && store.stored == r.checkpoint && db.table == r.table && raised == r.raised
      && log.steps == old(log.steps) + r.trace
  {
    var last := store.Get(log);
    var extracted := FetchObservations(fetch, last, log);
    if extracted.None? || extracted.value == [] {
      RunWithoutData(last, db.table, fetch, parseYear, parseNumeric, fault);
      TwoStepsAppended(old(log.steps), ReadCheckpoint, Extract(last));
      return None;
    }
    ghost var listed := TransformList(extracted.value, parseYear, parseNumeric);
    var processed := ProcessData(extracted, parseYear, parseNumeric, log);
    if processed.Failure? {
      assert listed == Failure(processed.error);
      RunWhenProcessingRaises(last, db.table, fetch, parseYear, parseNumeric, fault, processed.error);
      ThreeStepsAppended(old(log.steps), ReadCheckpoint, Extract(last), Process(extracted));
      return Some(processed.error);
    }
    var rows := processed.value.value;
    assert listed == Success(rows);
    RunWhenProcessed(last, db.table, fetch, parseYear, parseNumeric, fault, rows);
    db.IngestData(rows, fault, log);
    var latest := MaxTimestamp(rows);
    store.Save(latest, log);
    FiveStepsAppended(old(log.steps), ReadCheckpoint, Extract(last), Process(extracted), Ingest(rows), SaveCheckpoint(latest));
    raised := None;
  }

  // ---------------------------------------------------------------------------
  // Properties of a run
  // ---------------------------------------------------------------------------

  /**
   * A run reads the checkpoint and hands that value, unchanged, to the
   * extraction; it goes on exactly when the extraction yields a non-empty
   * list, and otherwise changes nothing.
   */
  lemma RunStopsWithoutData(checkpoint: Option<Date>, table: Table, fetch: Option<Date> -> Response,
                            parseYear: string -> Option<int>, parseNumeric: string -> Option<real>, fault: DbFault)
    ensures var r := Run(checkpoint, table, fetch, parseYear, parseNumeric, fault);
      && |r.trace| >= 2 && r.trace[0] == ReadCheckpoint && r.trace[1] == Extract(checkpoint)
    ensures var r := Run(checkpoint, table, fetch, parseYear, parseNumeric, fault);
      var extracted := ExtractData(fetch(checkpoint));
      (extracted.None? || extracted.value == []) <==> |r.trace| == 2
    ensures var r := Run(checkpoint, table, fetch, parseYear, parseNumeric, fault);
      |r.trace| == 2 ==> r.checkpoint == checkpoint && r.table == table && r.raised == None
  {
  }

  /**
   * With data, `process_data` is called once on the extracted list; when it
   * succeeds, `ingest_data` is called once on exactly its rows and the
   * checkpoint is saved after it, whatever the database did.
   */
  lemma RunProcessesThenIngests(checkpoint: Option<Date>, table: Table, fetch: Option<Date> -> Response,
                                parseYear: string -> Option<int>, parseNumeric: string -> Option<real>, fault: DbFault)
    requires ExtractData(fetch(checkpoint)).Some? && ExtractData(fetch(checkpoint)).value != []
    ensures var r := Run(checkpoint, table, fetch, parseYear, parseNumeric, fault);
      var obs := ExtractData(fetch(checkpoint)).value;
      var processed := Transform(Some(obs), parseYear, parseNumeric);
      && r.trace[2] == Process(Some(obs))
      && (processed.Failure? ==> |r.trace| == 3 && r.raised == Some(processed.error)
                                 && r.checkpoint == checkpoint && r.table == table)
      && (processed.Success? ==> processed.value.Some? && |r.trace| == 5 && r.raised == None
                                 && r.trace[3] == Ingest(processed.value.value)
                                 && r.trace[4].SaveCheckpoint?)
  {
  }

  /**
   * The checkpoint moves only in a run that had data and processed it, and
   * then it becomes the latest row timestamp: at least every row's, equal to
   * one of them, regardless of the old checkpoint and of whether the load
   * was committed.
   */
  lemma RunCheckpointRule(checkpoint: Option<Date>, table: Table, fetch: Option<Date> -> Response,
                          parseYear: string -> Option<int>, parseNumeric: string -> Option<real>, fault: DbFault)
    ensures var r := Run(checkpoint, table, fetch, parseYear, parseNumeric, fault);
      var extracted := ExtractData(fetch(checkpoint));
      r.checkpoint != checkpoint ==>
        extracted.Some? && extracted.value != [] && TransformList(extracted.value, parseYear, parseNumeric).Success?
    ensures var r := Run(checkpoint, table, fetch, parseYear, parseNumeric, fault);
      var extracted := ExtractData(fetch(checkpoint));
      extracted.Some? && extracted.value != [] && TransformList(extracted.value, parseYear, parseNumeric).Success? ==>
        var rows := TransformList(extracted.value, parseYear, parseNumeric).value;
        && r.checkpoint.Some?
        && (forall i :: 0 <= i < |rows| ==> DateLe(rows[i].timestamp, r.checkpoint.value))
        && (exists i :: 0 <= i < |rows| && rows[i].timestamp == r.checkpoint.value)
  {
  }

  /** A load that fails leaves the table alone, yet the checkpoint still advances past its rows. */
  lemma RunAdvancesAfterFailedLoad(checkpoint: Option<Date>, table: Table, fetch: Option<Date> -> Response,
                                   parseYear: string -> Option<int>, parseNumeric: string -> Option<real>, fault: DbFault)
    requires ExtractData(fetch(checkpoint)).Some?
    requires TransformList(ExtractData(fetch(checkpoint)).value, parseYear, parseNumeric).Success?
    requires !Commits(fault, |ExtractData(fetch(checkpoint)).value|)
    ensures var r := Run(checkpoint, table, fetch, parseYear, parseNumeric, fault);
      var rows := TransformList(ExtractData(fetch(checkpoint)).value, parseYear, parseNumeric).value;
      r.table == table && r.checkpoint == Some(MaxTimestamp(rows))
  {
  }

  /** One observation, as the observatory sends it. */
  function Observation(year: string, country: string, region: string, sex: string, numeric: string): Element {
    Element("Observation", map[], [
      Element("Dim", map["Category" := "YEAR", "Code" := year], []),
      Element("Dim", map["Category" := "COUNTRY", "Code" := country], []),
      Element("Dim", map["Category" := "REGION", "Code" := region], []),
      Element("Dim", map["Category" := "SEX", "Code" := sex], []),
      Element("Value", map["Numeric" := numeric], [])])
  }

  /** Each field of an observation laid out as the observatory sends it is found in its own child. */
  lemma ObservationFields(year: string, country: string, region: string, sex: string, numeric: string)
    ensures var obs := Observation(year, country, region, sex, numeric);
      && AttrOf(obs, DimPath("YEAR"), "Code") == Success(year)
      && AttrOf(obs, DimPath("COUNTRY"), "Code") == Success(country)
      && AttrOf(obs, ValuePath, "Numeric") == Success(numeric)
      && AttrOf(obs, DimPath("REGION"), "Code") == Success(region)
      && AttrOf(obs, DimPath("SEX"), "Code") == Success(sex)
  {
    var obs := Observation(year, country, region, sex, numeric);
    var c := obs.children;
    assert IsFirst(c, DimPath("YEAR"), 0);
    assert IsFirst(c, DimPath("COUNTRY"), 1);
    assert IsFirst(c, DimPath("REGION"), 2);
    assert IsFirst(c, DimPath("SEX"), 3);
    assert IsFirst(c, ValuePath, 4);
    AttrOfSpec(obs, DimPath("YEAR"), "Code");
    AttrOfSpec(obs, DimPath("COUNTRY"), "Code");
    AttrOfSpec(obs, ValuePath, "Numeric");
    AttrOfSpec(obs, DimPath("REGION"), "Code");
    AttrOfSpec(obs, DimPath("SEX"), "Code");
  }

  /** An observation laid out as the observatory sends it is read field by field, in full. */
  lemma ObservationReads(year: string, country: string, region: string, sex: string, numeric: string,
                         parseNumeric: string -> Option<real>)
    requires parseNumeric(numeric).Some?
    ensures ReadObservation(Observation(year, country, region, sex, numeric), parseNumeric)
         == Success(RawRow(year, country, region, sex, parseNumeric(numeric).value))
  {
    ObservationFields(year, country, region, sex, numeric);
  }

  /** The document the observatory answers with: one `Data` element holding the given observations. */
  function Answer(observations: seq<Element>): Response {
    Received(200, Document(Element("GHO", map[], [Element("Data", map[], observations)])))
  }

  /** An answer holding observations extracts to exactly those observations. */
  lemma AnswerExtracts(observations: seq<Element>)
    requires forall k :: 0 <= k < |observations| ==> observations[k].tag == "Observation"
    ensures ExtractData(Answer(observations)) == Some(observations)
  {
    var root := Element("GHO", map[], [Element("Data", map[], observations)]);
    assert Find(root.children, Child("Data")) == Some(0);
    AllSelected(observations, Child("Observation"));
  }

  /** `findall` keeps every child when the path selects them all. */
  lemma {:induction false} AllSelected(children: seq<Element>, p: Path)
    requires forall k :: 0 <= k < |children| ==> Selects(p, children[k])
    ensures FindAll(children, p) == children
  {
    if children != [] {
      AllSelected(children[1..], p);
    }
  }

  /**
   * One Ugandan observation for 2023 against an empty table: one row dated
   * January 1, 2023, stored with its region in the `sex` column and its sex
   * in the `region` column, and the checkpoint set to that date.
   */
  lemma UgandaScenario(fetch: Option<Date> -> Response, parseYear: string -> Option<int>, parseNumeric: string -> Option<real>)
    requires fetch(None) == Answer([Observation("2023", "UGA", "AFR", "BTSX", "65.0")])
    requires parseYear("2023") == Some(2023) && parseNumeric("65.0") == Some(65.0)
    ensures var r := Run(None, map[], fetch, parseYear, parseNumeric, Healthy);
      && r.checkpoint == Some(Date(2023, 1, 1))
      && r.table == map[Date(2023, 1, 1) := Record("UGA", "AFR", "BTSX", 65.0)]
      && r.raised == None
  {
    UgandaObservation(fetch, None, parseYear, parseNumeric);
    RunOnOneRow(None, map[], fetch, parseYear, parseNumeric, Healthy,
                Observation("2023", "UGA", "AFR", "BTSX", "65.0"), Row(Date(2023, 1, 1), "UGA", "AFR", "BTSX", 65.0));
  }

  /**
   * The checkpoint is overwritten, not compared: a run whose rows are older
   * than the stored checkpoint moves it backwards.
   */
  lemma CheckpointCanMoveBack(fetch: Option<Date> -> Response, parseYear: string -> Option<int>, parseNumeric: string -> Option<real>)
    requires fetch(Some(Date(2030, 1, 1))) == Answer([Observation("2023", "UGA", "AFR", "BTSX", "65.0")])
    requires parseYear("2023") == Some(2023) && parseNumeric("65.0") == Some(65.0)
    ensures Run(Some(Date(2030, 1, 1)), map[], fetch, parseYear, parseNumeric, Healthy).checkpoint == Some(Date(2023, 1, 1))
  {
    UgandaObservation(fetch, Some(Date(2030, 1, 1)), parseYear, parseNumeric);
    RunOnOneRow(Some(Date(2030, 1, 1)), map[], fetch, parseYear, parseNumeric, Healthy,
                Observation("2023", "UGA", "AFR", "BTSX", "65.0"), Row(Date(2023, 1, 1), "UGA", "AFR", "BTSX", 65.0));
  }

  /** A list of one readable observation processes into one row, dated January 1 of its year. */
  lemma SingleObservation(obs: Element, raw: RawRow, parseYear: string -> Option<int>, parseNumeric: string -> Option<real>)
    requires ReadObservation(obs, parseNumeric) == Success(raw)
    requires parseYear(raw.year).Some?
    ensures TransformList([obs], parseYear, parseNumeric)
         == Success([Row(Date(parseYear(raw.year).value, 1, 1), raw.countryCode, raw.region, raw.sex, raw.lifeExpectancy)])
  {
    SingleRead(obs, raw, Reader(parseNumeric));
    SingleConversion(raw, parseYear);
  }

  lemma SingleRead(obs: Element, raw: RawRow, read: Element -> Result<RawRow, TransformError>)
    requires read(obs) == Success(raw)
    ensures ReadAll([obs], read) == Success([raw])
  {
    assert [obs][..0] == [] && ReadAll([], read) == Success([]);
    assert [] + [raw] == [raw];
  }

  lemma SingleConversion(raw: RawRow, parseYear: string -> Option<int>)
    requires parseYear(raw.year).Some?
    ensures ToDatetime([raw], parseYear)
         == Success([Row(Date(parseYear(raw.year).value, 1, 1), raw.countryCode, raw.region, raw.sex, raw.lifeExpectancy)])
  {
    var row := Row(Date(parseYear(raw.year).value, 1, 1), raw.countryCode, raw.region, raw.sex, raw.lifeExpectancy);
    assert [raw][1..] == [] && [row] + [] == [row];
  }

  /** A run that extracts one observation and processes it into one row saves that row's date and upserts the row when the load commits. */
  lemma RunOnOneRow(checkpoint: Option<Date>, table: Table, fetch: Option<Date> -> Response,
                    parseYear: string -> Option<int>, parseNumeric: string -> Option<real>, fault: DbFault,
                    obs: Element, row: Row)
    requires ExtractData(fetch(checkpoint)) == Some([obs])
    requires TransformList([obs], parseYear, parseNumeric) == Success([row])
    ensures var r := Run(checkpoint, table, fetch, parseYear, parseNumeric, fault);
      && r.checkpoint == Some(row.timestamp)
      && r.table == (if Commits(fault, 1) then Upsert(table, row) else table)
      && r.raised == None
  {
    assert [row][..0] == [];
    assert UpsertAll(table, [row]) == Upsert(table, row);
  }

  /**
   * The 2023 Ugandan `Observation` element of the sample text in the tests is
   * extracted and processed into its one row. Only the element comes from the
   * sample: here it sits under a `Data` child of the root, whereas the sample
   * document has `Data` as its root and extracts to None.
   */
  lemma UgandaObservation(fetch: Option<Date> -> Response, checkpoint: Option<Date>,
                          parseYear: string -> Option<int>, parseNumeric: string -> Option<real>)
    requires fetch(checkpoint) == Answer([Observation("2023", "UGA", "AFR", "BTSX", "65.0")])
    requires parseYear("2023") == Some(2023) && parseNumeric("65.0") == Some(65.0)
    ensures ExtractData(fetch(checkpoint)) == Some([Observation("2023", "UGA", "AFR", "BTSX", "65.0")])
    ensures TransformList([Observation("2023", "UGA", "AFR", "BTSX", "65.0")], parseYear, parseNumeric)
         == Success([Row(Date(2023, 1, 1), "UGA", "AFR", "BTSX", 65.0)])
  {
    AnswerExtracts([Observation("2023", "UGA", "AFR", "BTSX", "65.0")]);
    ObservationReads("2023", "UGA", "AFR", "BTSX", "65.0", parseNumeric);
    SingleObservation(Observation("2023", "UGA", "AFR", "BTSX", "65.0"), RawRow("2023", "UGA", "AFR", "BTSX", 65.0),
                      parseYear, parseNumeric);
  }
}
