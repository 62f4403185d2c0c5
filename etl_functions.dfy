/**
 * The extract, transform and load steps of the life-expectancy pipeline:
 * classifying the upstream response, turning observations into rows, and
 * upserting rows into the `life_expectancy_data` table keyed by timestamp.
 */
module EtlFunctions {
  import opened Wrappers
  import opened ElementTree

  // ---------------------------------------------------------------------------
  // The record of calls
  // ---------------------------------------------------------------------------

  /** One call to a step of the pipeline, with the argument it was given. */
  datatype Step =
    | ReadCheckpoint
    | Extract(asof: Option<Date>)
    | Process(data: Option<seq<Element>>)
    | Ingest(rows: seq<Row>)
    | SaveCheckpoint(ts: Date)

  /** The calls made so far; each step appends itself when it is called. */
  class CallLog {
    ghost var steps: seq<Step>

    constructor ()
      ensures steps == []
    {
      steps := [];
    }
  }

  // ---------------------------------------------------------------------------
  // extract_data
  // ---------------------------------------------------------------------------

  /** The text of a response, once handed to the XML parser. */
  datatype Body = Unparseable | Document(root: Element)

  /** What the GET request to the observatory produces. */
  datatype Response = TransportError | Received(status: int, body: Body)

  /** `raise_for_status` raises for client (4xx) and server (5xx) status codes. */
  predicate IsHttpError(status: int) {
    400 <= status < 600
  }

  /**
   * `extract_data`: None on a transport error, an error status, a body that
   * does not parse, or a root without a `Data` child; otherwise the
   * `Observation` children of the first `Data` child, possibly none.
   */
  function ExtractData(response: Response): (r: Option<seq<Element>>)
    ensures r.None? <==>
      (response.TransportError? || IsHttpError(response.status) || response.body.Unparseable?
       || Find(response.body.root.children, Child("Data")).None?)
    ensures r.Some? ==> forall k :: 0 <= k < |r.value| ==> r.value[k].tag == "Observation"
    ensures r.Some? ==>
      var data := response.body.root.children[Find(response.body.root.children, Child("Data")).value];
      r.value == FindAll(data.children, Child("Observation"))
  {
    match response
    case TransportError => None
    case Received(status, body) =>
      if IsHttpError(status) then None
      else match body
        case Unparseable => None
        case Document(root) =>
          match Find(root.children, Child("Data"))
          case None => None
          case Some(i) => Some(FindAll(root.children[i].children, Child("Observation")))
  }

  /** A call of `extract_data` with the checkpoint as `asof`: the request is answered by `fetch`. */
  method FetchObservations(fetch: Option<Date> -> Response, asof: Option<Date>, log: CallLog)
    returns (r: Option<seq<Element>>)
    modifies log
    ensures r == ExtractData(fetch(asof))
    ensures log.steps == old(log.steps) + [Extract(asof)]
  {
    log.steps := log.steps + [Extract(asof)];
    r := ExtractData(fetch(asof));
  }

  /** Every `Observation` child of the first `Data` child is extracted. */
  lemma ExtractDataComplete(response: Response, i: nat, j: nat)
    requires response.Received? && !IsHttpError(response.status) && response.body.Document?
    requires Find(response.body.root.children, Child("Data")) == Some(i)
    requires j < |response.body.root.children[i].children|
    requires response.body.root.children[i].children[j].tag == "Observation"
    ensures ExtractData(response).Some?
    ensures response.body.root.children[i].children[j] in ExtractData(response).value
  {
  }

  /**
   * A document whose root element is itself `Data` extracts to None: `find`
   * searches only the root's children.
   */
  lemma DataRootExtractsNothing(status: int, observations: seq<Element>)
    requires !IsHttpError(status)
    requires forall k :: 0 <= k < |observations| ==> observations[k].tag == "Observation"
    ensures ExtractData(Received(status, Document(Element("Data", map[], observations)))) == None
  {
    assert forall k :: 0 <= k < |observations| ==> !Selects(Child("Data"), observations[k]);
  }

  // ---------------------------------------------------------------------------
  // process_data
  // ---------------------------------------------------------------------------

  datatype Date = Date(year: int, month: int, day: int)

  /** Calendar order on dates. */
  predicate DateLe(a: Date, b: Date) {
    a.year < b.year || (a.year == b.year && (a.month < b.month || (a.month == b.month && a.day <= b.day)))
  }

  /** A row of the frame `process_data` returns, in its column order. */
  datatype Row = Row(timestamp: Date, countryCode: string, region: string, sex: string, lifeExpectancy: real)

  /** A row as the loop appends it, before the `timestamp` column is converted: the year is still text. */
  datatype RawRow = RawRow(year: string, countryCode: string, region: string, sex: string, lifeExpectancy: real)

  /** The exceptions `process_data` can raise. */
  datatype TransformError =
    | MissingElement(path: Path)                  // `find` found nothing, so `.attrib` fails
    | MissingAttribute(path: Path, attr: string)  // the element has no such attribute
    | NotNumeric(text: string)                    // `float` rejects the `Numeric` text
    | BadYear(text: string)                       // the year does not convert with format `%Y`
    | NoTimestampColumn                           // a frame built from no rows has no `timestamp` column

  function DimPath(category: string): Path {
    ChildWithAttr("Dim", "Category", category)
  }

  const ValuePath: Path := Child("Value")

  /** `obs.find(p).attrib[attr]`, with the two ways it raises. */
  function AttrOf(obs: Element, p: Path, attr: string): (r: Result<string, TransformError>)
    ensures r.Failure? ==> r.error == MissingElement(p) || r.error == MissingAttribute(p, attr)
  {
    match Find(obs.children, p)
    case None => Failure(MissingElement(p))
    case Some(k) =>
      if attr in obs.children[k].attrib then Success(obs.children[k].attrib[attr])
      else Failure(MissingAttribute(p, attr))
  }

  /** `float(text)`; the parser itself is a parameter of the model. */
  function ParseFloat(text: string, parseNumeric: string -> Option<real>): Result<real, TransformError> {
    match parseNumeric(text)
    case None => Failure(NotNumeric(text))
    case Some(x) => Success(x)
  }

  /** The body of the loop in `process_data`: the fields in the order the source reads them. */
  function ReadObservation(obs: Element, parseNumeric: string -> Option<real>): (r: Result<RawRow, TransformError>)
    ensures r.Failure? ==> !r.error.BadYear? && !r.error.NoTimestampColumn?
  {
    var year :- AttrOf(obs, DimPath("YEAR"), "Code");
    var country :- AttrOf(obs, DimPath("COUNTRY"), "Code");
    var numeric :- AttrOf(obs, ValuePath, "Numeric");
    var lifeExpectancy :- ParseFloat(numeric, parseNumeric);
    var region :- AttrOf(obs, DimPath("REGION"), "Code");
    var sex :- AttrOf(obs, DimPath("SEX"), "Code");
    Success(RawRow(year, country, region, sex, lifeExpectancy))
  }

  /** The body of the loop as a function of the observation alone. */
  function Reader(parseNumeric: string -> Option<real>): Element -> Result<RawRow, TransformError> {
    obs => ReadObservation(obs, parseNumeric)
  }

  /** The rows the loop has appended once it has read `obs` with `read`, or the first exception it raised. */
  function ReadAll(obs: seq<Element>, read: Element -> Result<RawRow, TransformError>): (r: Result<seq<RawRow>, TransformError>)
    ensures r.Success? ==> |r.value| == |obs|
    decreases |obs|
  {
    if obs == [] then Success([])
    else
      var init :- ReadAll(obs[..|obs| - 1], read);
      var last :- read(obs[|obs| - 1]);
      Success(init + [last])
  }

  /**
   * Converting one year text with format `%Y`: January 1 of that year, or
   * `BadYear` when the conversion raises. Texts converted to NaT are not modelled.
   */
  function ToTimestamp(raw: RawRow, parseYear: string -> Option<int>): Result<Row, TransformError> {
    match parseYear(raw.year)
    case None => Failure(BadYear(raw.year))
    case Some(y) => Success(Row(Date(y, 1, 1), raw.countryCode, raw.region, raw.sex, raw.lifeExpectancy))
  }

  /** `pd.to_datetime` over the whole `timestamp` column; the first year that does not convert raises. */
  function ToDatetime(raw: seq<RawRow>, parseYear: string -> Option<int>): (r: Result<seq<Row>, TransformError>)
    ensures r.Success? ==> |r.value| == |raw|
  {
    if raw == [] then Success([])
    else
      var head :- ToTimestamp(raw[0], parseYear);
      var tail :- ToDatetime(raw[1..], parseYear);
      Success([head] + tail)
  }

  /** `process_data` on a list: read every observation, then convert the timestamp column. */
  function TransformList(obs: seq<Element>, parseYear: string -> Option<int>, parseNumeric: string -> Option<real>)
    : (r: Result<seq<Row>, TransformError>)
    ensures r.Success? ==> |r.value| == |obs| > 0
  {
    var raw :- ReadAll(obs, Reader(parseNumeric));
    if raw == [] then Failure(NoTimestampColumn)
    else ToDatetime(raw, parseYear)
  }

  /** `process_data`: None passes through; a list becomes rows or raises. */
  function Transform(data: Option<seq<Element>>, parseYear: string -> Option<int>, parseNumeric: string -> Option<real>)
    : (r: Result<Option<seq<Row>>, TransformError>)
    ensures data.None? ==> r == Success(None)
    ensures data.Some? && r.Success? ==> r.value.Some? && |r.value.value| == |data.value| > 0
  {
    match data
    case None => Success(None)
    case Some(obs) =>
      var rows :- TransformList(obs, parseYear, parseNumeric);
      Success(Some(rows))
  }

  /** Once the loop has raised on a prefix, the whole call raises the same exception. */
  lemma {:induction false} ReadAllFailurePersists(obs: seq<Element>, i: nat, read: Element -> Result<RawRow, TransformError>)
    requires i <= |obs|
    requires ReadAll(obs[..i], read).Failure?
    ensures ReadAll(obs, read) == ReadAll(obs[..i], read)
    decreases |obs|
  {
    if i == |obs| {
      assert obs[..i] == obs;
    } else {
      var init := obs[..|obs| - 1];
      assert init[..i] == obs[..i];
      ReadAllFailurePersists(init, i, read);
    }
  }

  /**
   * `process_data` as the source writes it: a loop that appends one row per
   * observation, then the conversion of the timestamp column.
   */
  method ProcessData(data: Option<seq<Element>>, parseYear: string -> Option<int>, parseNumeric: string -> Option<real>,
                     log: CallLog)
    returns (r: Result<Option<seq<Row>>, TransformError>)
    modifies log
    ensures data.None? ==> r == Success(None)
    ensures r == Transform(data, parseYear, parseNumeric)
    ensures log.steps == old(log.steps) + [Process(data)]
  {
    log.steps := log.steps + [Process(data)];
    if data.None? {
      return Success(None);
    }
    var obs := data.value;
    var rows: seq<RawRow> := [];
    for i := 0 to |obs|
      invariant ReadAll(obs[..i], Reader(parseNumeric)) == Success(rows)
      invariant log.steps == old(log.steps) + [Process(data)]
    {
      var row := ReadObservation(obs[i], parseNumeric);
      assert obs[..i + 1][..i] == obs[..i];
      if row.Failure? {
        ReadAllFailurePersists(obs, i + 1, Reader(parseNumeric));
        return Failure(row.error);
      }
      rows := rows + [row.value];
    }
    assert obs[..|obs|] == obs;
    if rows == [] {
      return Failure(NoTimestampColumn);
    }
    var converted := ToDatetime(rows, parseYear);
    if converted.Failure? {
      return Failure(converted.error);
    }
    r := Success(Some(converted.value));
  }

  // --- What the rows are, stated against the observations -------------------

  /** Child `k` is the first child that the path selects. */
  ghost predicate IsFirst(children: seq<Element>, p: Path, k: int) {
    0 <= k < |children| && Selects(p, children[k]) && forall j :: 0 <= j < k ==> !Selects(p, children[j])
  }

  /** The first child `p` selects exists and carries the attribute `attr`. */
  ghost predicate HasAttr(obs: Element, p: Path, attr: string) {
    exists k :: IsFirst(obs.children, p, k) && attr in obs.children[k].attrib
  }

  /** The first child `p` selects carries the attribute `attr` with value `v`. */
  ghost predicate FirstAttrIs(obs: Element, p: Path, attr: string, v: string) {
    exists k :: IsFirst(obs.children, p, k) && attr in obs.children[k].attrib && obs.children[k].attrib[attr] == v
  }

  /** An observation `process_data` accepts: all four `Dim` codes, a `Numeric` that parses, a year that converts. */
  ghost predicate Convertible(obs: Element, parseYear: string -> Option<int>, parseNumeric: string -> Option<real>) {
    && HasAttr(obs, DimPath("YEAR"), "Code")
    && HasAttr(obs, DimPath("COUNTRY"), "Code")
    && HasAttr(obs, ValuePath, "Numeric")
    && HasAttr(obs, DimPath("REGION"), "Code")
    && HasAttr(obs, DimPath("SEX"), "Code")
    && (forall v :: FirstAttrIs(obs, ValuePath, "Numeric", v) ==> parseNumeric(v).Some?)
    && (forall v :: FirstAttrIs(obs, DimPath("YEAR"), "Code", v) ==> parseYear(v).Some?)
  }

  /** The row `process_data` makes of an observation: each field from the first matching child, the year as January 1. */
  ghost predicate RowOf(obs: Element, row: Row, parseYear: string -> Option<int>, parseNumeric: string -> Option<real>) {
    && (exists y :: FirstAttrIs(obs, DimPath("YEAR"), "Code", y) && parseYear(y) == Some(row.timestamp.year))
    && row.timestamp.month == 1 && row.timestamp.day == 1
    && FirstAttrIs(obs, DimPath("COUNTRY"), "Code", row.countryCode)
    && FirstAttrIs(obs, DimPath("REGION"), "Code", row.region)
    && FirstAttrIs(obs, DimPath("SEX"), "Code", row.sex)
    && (exists t :: FirstAttrIs(obs, ValuePath, "Numeric", t) && parseNumeric(t) == Some(row.lifeExpectancy))
  }

  /** `find(p).attrib[attr]` succeeds exactly when the first selected child has `attr`, and yields its value. */
  lemma AttrOfSpec(obs: Element, p: Path, attr: string)
    ensures AttrOf(obs, p, attr).Success? <==> HasAttr(obs, p, attr)
    ensures forall v :: AttrOf(obs, p, attr) == Success(v) <==> FirstAttrIs(obs, p, attr, v)
  {
  }

  /** One loop iteration succeeds exactly when the five fields exist and `Numeric` parses, and reads the first matches. */
  lemma ReadObservationSpec(obs: Element, parseNumeric: string -> Option<real>)
    ensures ReadObservation(obs, parseNumeric).Success? <==>
      && HasAttr(obs, DimPath("YEAR"), "Code")
      && HasAttr(obs, DimPath("COUNTRY"), "Code")
      && HasAttr(obs, ValuePath, "Numeric")
      && HasAttr(obs, DimPath("REGION"), "Code")
      && HasAttr(obs, DimPath("SEX"), "Code")
      && (forall v :: FirstAttrIs(obs, ValuePath, "Numeric", v) ==> parseNumeric(v).Some?)
    ensures ReadObservation(obs, parseNumeric).Success? ==>
      var raw := ReadObservation(obs, parseNumeric).value;
      && FirstAttrIs(obs, DimPath("YEAR"), "Code", raw.year)
      && FirstAttrIs(obs, DimPath("COUNTRY"), "Code", raw.countryCode)
      && FirstAttrIs(obs, DimPath("REGION"), "Code", raw.region)
      && FirstAttrIs(obs, DimPath("SEX"), "Code", raw.sex)
      && (exists t :: FirstAttrIs(obs, ValuePath, "Numeric", t) && parseNumeric(t) == Some(raw.lifeExpectancy))
  {
    AttrOfSpec(obs, DimPath("YEAR"), "Code");
    AttrOfSpec(obs, DimPath("COUNTRY"), "Code");
    AttrOfSpec(obs, ValuePath, "Numeric");
    AttrOfSpec(obs, DimPath("REGION"), "Code");
    AttrOfSpec(obs, DimPath("SEX"), "Code");
    var numeric := AttrOf(obs, ValuePath, "Numeric");
    if numeric.Success? {
      assert FirstAttrIs(obs, ValuePath, "Numeric", numeric.value);
    }
  }

  /** The loop reads each observation on its own: it succeeds when every iteration does, and row `i` is observation `i`'s. */
  lemma {:induction false} ReadAllAt(obs: seq<Element>, read: Element -> Result<RawRow, TransformError>)
    ensures ReadAll(obs, read).Success? <==> forall i :: 0 <= i < |obs| ==> read(obs[i]).Success?
    ensures ReadAll(obs, read).Success? ==> forall i :: 0 <= i < |obs| ==> ReadAll(obs, read).value[i] == read(obs[i]).value
    decreases |obs|
  {
    if obs != [] {
      var n := |obs| - 1;
      var init := obs[..n];
      ReadAllAt(init, read);
      assert forall i :: 0 <= i < n ==> init[i] == obs[i];
    }
  }

  /** The column conversion works row by row: it succeeds when every year converts, and keeps row order. */
  lemma {:induction false} ToDatetimeAt(raw: seq<RawRow>, parseYear: string -> Option<int>)
    ensures ToDatetime(raw, parseYear).Success? <==>
      forall i :: 0 <= i < |raw| ==> ToTimestamp(raw[i], parseYear).Success?
    ensures ToDatetime(raw, parseYear).Success? ==>
      forall i :: 0 <= i < |raw| ==> ToDatetime(raw, parseYear).value[i] == ToTimestamp(raw[i], parseYear).value
  {
    if raw != [] {
      ToDatetimeAt(raw[1..], parseYear);
      assert forall i :: 1 <= i < |raw| ==> raw[1..][i - 1] == raw[i];
    }
  }

  /** Two first matches carry the same attribute value. */
  lemma FirstAttrUnique(obs: Element, p: Path, attr: string, v: string, w: string)
    requires FirstAttrIs(obs, p, attr, v) && FirstAttrIs(obs, p, attr, w)
    ensures v == w
  {
  }

  /** An observation is convertible exactly when the loop reads it and its year converts; the row is then its `RowOf`. */
  lemma ConvertObservation(obs: Element, parseYear: string -> Option<int>, parseNumeric: string -> Option<real>)
    ensures Convertible(obs, parseYear, parseNumeric) <==>
      ReadObservation(obs, parseNumeric).Success? && ToTimestamp(ReadObservation(obs, parseNumeric).value, parseYear).Success?
    ensures Convertible(obs, parseYear, parseNumeric) ==>
      RowOf(obs, ToTimestamp(ReadObservation(obs, parseNumeric).value, parseYear).value, parseYear, parseNumeric)
  {
    ReadObservationSpec(obs, parseNumeric);
    var read := ReadObservation(obs, parseNumeric);
    if read.Success? {
      var y := read.value.year;
      forall v | FirstAttrIs(obs, DimPath("YEAR"), "Code", v)
        ensures v == y
      {
        FirstAttrUnique(obs, DimPath("YEAR"), "Code", v, y);
      }
    }
  }

  /** Reading the observations, then converting the years, is converting each observation on its own. */
  lemma ReadThenConvert(obs: seq<Element>, read: Element -> Result<RawRow, TransformError>, parseYear: string -> Option<int>)
    ensures (ReadAll(obs, read).Success? && ToDatetime(ReadAll(obs, read).value, parseYear).Success?) <==>
      forall i :: 0 <= i < |obs| ==> read(obs[i]).Success? && ToTimestamp(read(obs[i]).value, parseYear).Success?
    ensures ReadAll(obs, read).Success? && ToDatetime(ReadAll(obs, read).value, parseYear).Success? ==>
      forall i :: 0 <= i < |obs| ==>
        ToDatetime(ReadAll(obs, read).value, parseYear).value[i] == ToTimestamp(read(obs[i]).value, parseYear).value
  {
    ReadAllAt(obs, read);
    var raw := ReadAll(obs, read);
    if raw.Failure? {
      var i :| 0 <= i < |obs| && read(obs[i]).Failure?;
    } else {
      ToDatetimeAt(raw.value, parseYear);
    }
  }

  /**
   * `process_data` on a list succeeds exactly when the list is non-empty and
   * every observation is convertible; then it yields one row per
   * observation, in input order, each made of that observation's first
   * matching fields with the year as January 1.
   */
  lemma TransformSpec(obs: seq<Element>, parseYear: string -> Option<int>, parseNumeric: string -> Option<real>)
    ensures Transform(Some(obs), parseYear, parseNumeric).Success? <==>
      |obs| > 0 && forall i :: 0 <= i < |obs| ==> Convertible(obs[i], parseYear, parseNumeric)
    ensures Transform(Some(obs), parseYear, parseNumeric).Success? ==>
      var out := Transform(Some(obs), parseYear, parseNumeric).value;
      && out.Some? && |out.value| == |obs|
      && forall i :: 0 <= i < |obs| ==> RowOf(obs[i], out.value[i], parseYear, parseNumeric)
  {
    var reader := Reader(parseNumeric);
    ReadThenConvert(obs, reader, parseYear);
    forall i | 0 <= i < |obs|
      ensures reader(obs[i]) == ReadObservation(obs[i], parseNumeric)
      ensures Convertible(obs[i], parseYear, parseNumeric) <==>
        reader(obs[i]).Success? && ToTimestamp(reader(obs[i]).value, parseYear).Success?
      ensures Convertible(obs[i], parseYear, parseNumeric) ==>
        RowOf(obs[i], ToTimestamp(reader(obs[i]).value, parseYear).value, parseYear, parseNumeric)
    {
      ConvertObservation(obs[i], parseYear, parseNumeric);
    }
  }

  // ---------------------------------------------------------------------------
  // ingest_data
  // ---------------------------------------------------------------------------

  /** A stored row of `life_expectancy_data`, keyed by its timestamp, in the insert statement's column order. */
  datatype Record = Record(countryCode: string, sex: string, region: string, lifeExpectancy: real)

  type Table = map<Date, Record>

  /**
   * The values bound to `(timestamp, country_code, sex, region,
   * life_expectancy)`: the row's tuple is positional and in frame order
   * `timestamp, country_code, region, sex, life_expectancy`, so the `sex`
   * column receives the row's region and the `region` column its sex.
   */
  function Bind(row: Row): Record {
    Record(row.countryCode, row.region, row.sex, row.lifeExpectancy)
  }

  /** One execution of the insert: a new timestamp is inserted; an existing one keeps its `country_code` and takes the rest. */
  function Upsert(t: Table, row: Row): (r: Table)
    ensures r.Keys == t.Keys + {row.timestamp}
    ensures r[row.timestamp].countryCode == if row.timestamp in t then t[row.timestamp].countryCode else row.countryCode
    ensures r[row.timestamp].sex == row.region && r[row.timestamp].region == row.sex
  {
    var incoming := Bind(row);
    if row.timestamp in t then
      t[row.timestamp := t[row.timestamp].(sex := incoming.sex, region := incoming.region,
                                            lifeExpectancy := incoming.lifeExpectancy)]
    else
      t[row.timestamp := incoming]
  }

  /** `executemany`: the insert run once per row, in batch order. */
  function UpsertAll(t: Table, batch: seq<Row>): Table
    decreases |batch|
  {
    if batch == [] then t
    else Upsert(UpsertAll(t, batch[..|batch| - 1]), batch[|batch| - 1])
  }

  /** The position of the last batch row with timestamp `d`. */
  function LastIndex(batch: seq<Row>, d: Date): (r: Option<nat>)
    ensures r.Some? ==> r.value < |batch| && batch[r.value].timestamp == d
    ensures r.Some? ==> forall j :: r.value < j < |batch| ==> batch[j].timestamp != d
    ensures r.None? ==> forall j :: 0 <= j < |batch| ==> batch[j].timestamp != d
    decreases |batch|
  {
    if batch == [] then None
    else if batch[|batch| - 1].timestamp == d then Some(|batch| - 1)
    else LastIndex(batch[..|batch| - 1], d)
  }

  /** The position of the first batch row with timestamp `d`. */
  function FirstIndex(batch: seq<Row>, d: Date): (r: Option<nat>)
    ensures r.Some? ==> r.value < |batch| && batch[r.value].timestamp == d
    ensures r.Some? ==> forall j :: 0 <= j < r.value ==> batch[j].timestamp != d
    ensures r.None? ==> forall j :: 0 <= j < |batch| ==> batch[j].timestamp != d
  {
    if batch == [] then None
    else if batch[0].timestamp == d then Some(0)
    else match FirstIndex(batch[1..], d)
      case None => None
      case Some(k) => Some(k + 1)
  }

  /** Extending a batch by one row moves the first occurrence of `d` only if `d` did not occur before. */
  lemma FirstIndexExtend(batch: seq<Row>, d: Date)
    requires batch != []
    ensures var init := batch[..|batch| - 1];
      FirstIndex(batch, d) ==
        if FirstIndex(init, d).Some? then FirstIndex(init, d)
        else if batch[|batch| - 1].timestamp == d then Some(|batch| - 1)
        else None
  {
  }

  /**
   * The effect of a batch on one timestamp: it is present after the batch
   * when it was before or occurs in the batch; a timestamp the batch does not
   * mention keeps its record; one it mentions holds the last such row's values
   * in the swapped `sex`/`region` columns, and the `country_code` of the
   * stored record, or of the first such row when it was new.
   */
  lemma {:induction false} UpsertAllAt(t: Table, batch: seq<Row>, d: Date)
    ensures d in UpsertAll(t, batch) <==> d in t || LastIndex(batch, d).Some?
    ensures LastIndex(batch, d).None? && d in t ==> UpsertAll(t, batch)[d] == t[d]
    ensures LastIndex(batch, d).Some? ==>
      var last := batch[LastIndex(batch, d).value];
      var rec := UpsertAll(t, batch)[d];
      && rec.sex == last.region
      && rec.region == last.sex
      && rec.lifeExpectancy == last.lifeExpectancy
      && rec.countryCode == (if d in t then t[d].countryCode else batch[FirstIndex(batch, d).value].countryCode)
    decreases |batch|
  {
    if batch != [] {
      var init := batch[..|batch| - 1];
      UpsertAllAt(t, init, d);
      FirstIndexExtend(batch, d);
      if LastIndex(init, d).Some? {
        assert FirstIndex(init, d).Some?;
      }
    }
  }

  /** Ingesting the same batch twice leaves the table as ingesting it once. */
  lemma UpsertAllIdempotent(t: Table, batch: seq<Row>)
    ensures UpsertAll(UpsertAll(t, batch), batch) == UpsertAll(t, batch)
  {
    var once := UpsertAll(t, batch);
    var twice := UpsertAll(once, batch);
    forall d: Date
      ensures d in twice <==> d in once
      ensures d in once ==> twice[d] == once[d]
    {
      UpsertAllAt(t, batch, d);
      UpsertAllAt(once, batch, d);
    }
    assert twice.Keys == once.Keys;
  }

  /**
   * Two rows for 2023 in one batch, the second for a different sex: one
   * record remains and holds the later row's values, with that row's sex
   * stored in the `region` column.
   */
  lemma ConflictScenario()
    ensures var first := Row(Date(2023, 1, 1), "UGA", "AFR", "BTSX", 65.0);
      var second := Row(Date(2023, 1, 1), "UGA", "AFR", "MLE", 63.0);
      UpsertAll(map[], [first, second]) == map[Date(2023, 1, 1) := Record("UGA", "AFR", "MLE", 63.0)]
  {
    var first := Row(Date(2023, 1, 1), "UGA", "AFR", "BTSX", 65.0);
    var second := Row(Date(2023, 1, 1), "UGA", "AFR", "MLE", 63.0);
    assert [first, second][..1] == [first] && [first][..0] == [];
    assert UpsertAll(map[], []) == map[];
    var once := UpsertAll(map[], [first]);
    assert once == map[Date(2023, 1, 1) := Record("UGA", "AFR", "BTSX", 65.0)];
    assert UpsertAll(map[], [first, second]) == Upsert(once, second);
  }

  /** Where the database gives up, if it does: connecting or creating the table, the statement for one row, or the commit. */
  datatype DbFault = Healthy | FailsBeforeBatch | FailsAtRow(index: nat) | FailsAtCommit

  /** The batch of `n` rows is committed. */
  predicate Commits(fault: DbFault, n: nat) {
    fault.Healthy? || (fault.FailsAtRow? && fault.index >= n)
  }

  /** The destination table of the PostgreSQL database. */
  class Database {
    var table: Table

    constructor ()
      ensures table == map[]
    {
      table := map[];
    }

    /**
     * `ingest_data`: run the upsert for every row inside one transaction and
     * commit. Any failure is logged and swallowed: the transaction is not
     * committed, the table keeps its old contents, and the caller learns
     * nothing.
     */
    method IngestData(batch: seq<Row>, fault: DbFault, log: CallLog)
      modifies this, log
      ensures table == if Commits(fault, |batch|) then UpsertAll(old(table), batch) else old(table)
      ensures log.steps == old(log.steps) + [Ingest(batch)]
    {
      log.steps := log.steps + [Ingest(batch)];
      if fault.FailsBeforeBatch? {
        return;
      }
      var before := table;
      for i := 0 to |batch|
        invariant table == UpsertAll(before, batch[..i])
        invariant fault.FailsAtRow? ==> fault.index >= i
        invariant log.steps == old(log.steps) + [Ingest(batch)]
      {
        if fault == FailsAtRow(i) {
          table := before;
          return;
        }
        assert batch[..i + 1][..i] == batch[..i];
        table := Upsert(table, batch[i]);
      }
      assert batch[..|batch|] == batch;
      if fault.FailsAtCommit? {
        table := before;
      }
    }
  }

  // ---------------------------------------------------------------------------
  // extract_and_process_data
  // ---------------------------------------------------------------------------

  /** `extract_and_process_data`: process the extracted list unless it is None or empty. */
  function ExtractAndProcessData(response: Response, parseYear: string -> Option<int>, parseNumeric: string -> Option<real>)
    : (r: Result<Option<seq<Row>>, TransformError>)
    ensures ExtractData(response).None? ==> r == Success(None)
    ensures r.Success? && r.value.Some? ==> 0 < |r.value.value| == |ExtractData(response).value|
  {
    var extracted := ExtractData(response);
    if extracted.Some? && extracted.value != [] then Transform(extracted, parseYear, parseNumeric)
    else Success(None)
  }

  /**
   * `extract_and_process_data` returns None exactly when extraction yields
   * None or no observations; otherwise it returns one row per extracted
   * observation, or raises what `process_data` raises.
   */
  lemma ExtractAndProcessDataSpec(response: Response, parseYear: string -> Option<int>, parseNumeric: string -> Option<real>)
    ensures var r := ExtractAndProcessData(response, parseYear, parseNumeric);
      r == Success(None) <==> ExtractData(response).None? || ExtractData(response).value == []
    ensures var r := ExtractAndProcessData(response, parseYear, parseNumeric);
      r.Success? && r.value.Some? ==> |r.value.value| == |ExtractData(response).value|
    ensures var extracted := ExtractData(response);
      extracted.Some? && extracted.value != [] ==>
        ExtractAndProcessData(response, parseYear, parseNumeric) == Transform(extracted, parseYear, parseNumeric)
  {
  }
}
