/**
Validation of a raw GTFS dataset. Text formats - stripping, integers, decimals, dates and times - are
parameters collected in `Formats`.
*/
module Validator {
  import opened Common

  /** The files and columns the validator looks at; it never looks at others. */
  datatype File = Agency | Routes | Trips | Stops | StopTimes | Calendar | CalendarDates | Shapes

  datatype Column =
    | AgencyName | AgencyUrl | AgencyTimezone | RouteId | RouteType | TripId | ServiceId
    | StopId | StopName | StopLat | StopLon | StopSequence | ArrivalTime | DepartureTime
    | Monday | Tuesday | Wednesday | Thursday | Friday | Saturday | Sunday | StartDate | EndDate | Date | ExceptionType
    | ShapeId | ShapePtLat | ShapePtLon | ShapePtSequence

  type Row = map<Column, string>

  type Rows = seq<Row>

  type Dataset = map<File, Rows>

  datatype Formats = Formats(
    strip: string -> string, asInt: string -> Option<int>, asFloat: string -> Option<real>,
    asDate: string -> Option<int>, asTime: string -> Option<int>)

  /** `_is_int`. */
  predicate IsInt(f: Formats, text: string) {
    f.asInt(text).Some?
  }

  /** What an issue's message says. */
  datatype Problem =
    | RequiredFileMissing | CalendarMissing | ShapesMissing | FileEmpty | ColumnMissing(column: Column)
    | Empty(column: Column) | Duplicate(column: Column) | NotInteger(column: Column) | Invalid(column: Column)
    | NotFlag(column: Column) | Unknown(column: Column) | EndsBeforeStart | DepartsBeforeArrival

  datatype Severity = Error | Warning

  datatype Issue = Issue(file: File, row: Option<int>, problem: Problem, severity: Severity)

  ghost predicate HasErrors(issues: seq<Issue>) {
    exists x :: x in issues && x.severity.Error?
  }

  class Report {
    var issues: seq<Issue>

    constructor ()
      ensures issues == []
    {
      issues := [];
    }

    method Add(file: File, problem: Problem, row: Option<int>, severity: Severity)
      modifies this
      ensures issues == old(issues) + [Issue(file, row, problem, severity)]
      ensures HasErrors(issues) <==> HasErrors(old(issues)) || severity.Error?
    {
      ghost var before := issues;
      issues := issues + [Issue(file, row, problem, severity)];
      assert forall x :: x in issues <==> x in before || x == Issue(file, row, problem, severity);
    }

    /** Records an error when a check fails. */
    method Require(ok: bool, file: File, problem: Problem, row: int)
      modifies this
      ensures issues == if ok then old(issues) else old(issues) + [Issue(file, Some(row), problem, Error)]
      ensures HasErrors(issues) <==> HasErrors(old(issues)) || !ok
    {
      if !ok {
        Add(file, problem, Some(row), Error);
      }
    }
  }

  // ----- columns

  const AGENCY := [AgencyName, AgencyUrl, AgencyTimezone]
  const ROUTES := [RouteId, RouteType]
  const TRIPS := [TripId, RouteId, ServiceId]
  const STOPS := [StopId, StopName, StopLat, StopLon]
  const STOP_TIMES := [TripId, StopId, StopSequence, ArrivalTime, DepartureTime]
  const DAYS := [Monday, Tuesday, Wednesday, Thursday, Friday, Saturday, Sunday]
  const CALENDAR := [ServiceId] + DAYS + [StartDate, EndDate]
  const CALENDAR_DATES := [ServiceId, Date, ExceptionType]
  const SHAPES := [ShapeId, ShapePtLat, ShapePtLon, ShapePtSequence]

  const REQUIRED: seq<(File, seq<Column>)> :=
    [(Agency, AGENCY), (Routes, ROUTES), (Trips, TRIPS), (Stops, STOPS), (StopTimes, STOP_TIMES)]

  const CONDITIONAL: seq<(File, seq<Column>)> :=
    [(Calendar, CALENDAR), (CalendarDates, CALENDAR_DATES), (Shapes, SHAPES)]

  function Field(row: Row, column: Column): string {
    if column in row then row[column] else ""
  }

  function Stripped(f: Formats, row: Row, column: Column): string {
    f.strip(Field(row, column))
  }

  predicate HasColumns(rows: Rows, columns: seq<Column>) {
    rows != [] && forall c :: c in columns ==> c in rows[0]
  }

  function RowsOf(d: Dataset, file: File): Rows {
    if file in d then d[file] else []
  }

  // ----- what each row must satisfy

  /** Row i is the first with its identifier, which is not empty. */
  ghost predicate FreshId(f: Formats, rows: Rows, column: Column, i: nat)
    requires i < |rows|
  {
    && Stripped(f, rows[i], column) != ""
    && forall k :: 0 <= k < i ==> Stripped(f, rows[k], column) != Stripped(f, rows[i], column)
  }

  /** Some row carries the identifier. */
  ghost predicate Declares(f: Formats, rows: Rows, column: Column, id: string) {
    exists k :: 0 <= k < |rows| && Stripped(f, rows[k], column) == id
  }

  predicate InRange(x: Option<real>, limit: real) {
    x.Some? && -limit <= x.value <= limit
  }

  ghost predicate AgencyOk(f: Formats, rows: Rows, i: nat)
    requires i < |rows|
  {
    AllFilled(f, rows[i], AGENCY)
  }

  ghost predicate AllFilled(f: Formats, row: Row, columns: seq<Column>) {
    forall c :: c in columns ==> Stripped(f, row, c) != ""
  }

  ghost predicate RouteOk(f: Formats, rows: Rows, i: nat)
    requires i < |rows|
  {
    FreshId(f, rows, RouteId, i) && f.asInt(Field(rows[i], RouteType)).Some?
  }

  ghost predicate StopOk(f: Formats, rows: Rows, i: nat)
    requires i < |rows|
  {
    && FreshId(f, rows, StopId, i)
    && var lat, lon := f.asFloat(Field(rows[i], StopLat)), f.asFloat(Field(rows[i], StopLon));
    && lat.Some? && -90.0 <= lat.value <= 90.0 && lon.Some? && -180.0 <= lon.value <= 180.0
  }

  ghost predicate CalendarOk(f: Formats, rows: Rows, i: nat)
    requires i < |rows|
  {
    Stripped(f, rows[i], ServiceId) != "" && DaysOk(f, rows[i]) && PeriodOk(f, rows[i])
  }

  ghost predicate DaysOk(f: Formats, row: Row) {
    forall c :: c in {Monday, Tuesday, Wednesday, Thursday, Friday, Saturday, Sunday} ==>
      Stripped(f, row, c) in {"0", "1"}
  }

  /** Dates parse and the end does not precede the start. */
  predicate PeriodOk(f: Formats, row: Row) {
    var start, end := f.asDate(Field(row, StartDate)), f.asDate(Field(row, EndDate));
    start.Some? && end.Some? && start.value <= end.value
  }

  ghost predicate CalendarDateOk(f: Formats, rows: Rows, i: nat)
    requires i < |rows|
  {
    && Stripped(f, rows[i], ServiceId) != "" && f.asDate(Field(rows[i], Date)).Some?
    && Stripped(f, rows[i], ExceptionType) in {"1", "2"}
  }

  ghost predicate ShapeOk(f: Formats, rows: Rows, i: nat)
    requires i < |rows|
  {
    && Stripped(f, rows[i], ShapeId) != ""
    && f.asFloat(Field(rows[i], ShapePtLat)).Some? && f.asFloat(Field(rows[i], ShapePtLon)).Some?
    && f.asInt(Field(rows[i], ShapePtSequence)).Some?
  }

  ghost predicate TripOk(f: Formats, rows: Rows, i: nat, routes: Rows, calendar: Rows, dates: Rows)
    requires i < |rows|
  {
    && FreshId(f, rows, TripId, i)
    && Stripped(f, rows[i], RouteId) != "" && Declares(f, routes, RouteId, Stripped(f, rows[i], RouteId))
    && Stripped(f, rows[i], ServiceId) != ""
    && (Declares(f, calendar, ServiceId, Stripped(f, rows[i], ServiceId))
        || Declares(f, dates, ServiceId, Stripped(f, rows[i], ServiceId)))
  }

  /** Times parse and the train does not leave before it arrives. */
  predicate TimesOk(f: Formats, row: Row) {
    var arrival, departure := f.asTime(Field(row, ArrivalTime)), f.asTime(Field(row, DepartureTime));
    arrival.Some? && departure.Some? && arrival.value <= departure.value
  }

  /** No earlier row has the same trip and sequence text. */
  ghost predicate FreshCall(f: Formats, rows: Rows, i: nat)
    requires i < |rows|
  {
    && f.asInt(Stripped(f, rows[i], StopSequence)).Some?
    && forall k :: 0 <= k < i ==> CallKey(f, rows[k]) != CallKey(f, rows[i])
  }

  function CallKey(f: Formats, row: Row): (string, string) {
    (Stripped(f, row, TripId), Stripped(f, row, StopSequence))
  }

  ghost predicate StopTimeOk(f: Formats, rows: Rows, i: nat, trips: Rows, stops: Rows)
    requires i < |rows|
  {
    && Stripped(f, rows[i], TripId) != "" && Declares(f, trips, TripId, Stripped(f, rows[i], TripId))
    && Stripped(f, rows[i], StopId) != "" && Declares(f, stops, StopId, Stripped(f, rows[i], StopId))
    && FreshCall(f, rows, i) && TimesOk(f, rows[i])
  }

  ghost predicate Present(d: Dataset) {
    (forall e :: e in REQUIRED ==> e.0 in d) && (Calendar in d || CalendarDates in d)
  }

  /** A file that is there has rows and the listed columns. */
  predicate ColumnsFit(d: Dataset, e: (File, seq<Column>)) {
    e.0 in d ==> HasColumns(d[e.0], e.1)
  }

  /** Structure: the files and columns that must be there. */
  ghost predicate WellStructured(d: Dataset) {
    Present(d) && forall e :: e in REQUIRED + CONDITIONAL ==> ColumnsFit(d, e)
  }

  ghost predicate AllAgency(f: Formats, rows: Rows) {
    forall i :: 0 <= i < |rows| ==> AgencyOk(f, rows, i)
  }

  ghost predicate AllRoutes(f: Formats, rows: Rows) {
    forall i :: 0 <= i < |rows| ==> RouteOk(f, rows, i)
  }

  ghost predicate AllStops(f: Formats, rows: Rows) {
    forall i :: 0 <= i < |rows| ==> StopOk(f, rows, i)
  }

  ghost predicate AllCalendar(f: Formats, rows: Rows) {
    forall i :: 0 <= i < |rows| ==> CalendarOk(f, rows, i)
  }

  ghost predicate AllDates(f: Formats, rows: Rows) {
    forall i :: 0 <= i < |rows| ==> CalendarDateOk(f, rows, i)
  }

  ghost predicate AllShapes(f: Formats, rows: Rows) {
    forall i :: 0 <= i < |rows| ==> ShapeOk(f, rows, i)
  }

  ghost predicate AllTrips(f: Formats, rows: Rows, routes: Rows, calendar: Rows, dates: Rows) {
    forall i :: 0 <= i < |rows| ==> TripOk(f, rows, i, routes, calendar, dates)
  }

  ghost predicate AllStopTimes(f: Formats, rows: Rows, trips: Rows, stops: Rows) {
    forall i :: 0 <= i < |rows| ==> StopTimeOk(f, rows, i, trips, stops)
  }

  /** The rows of all files, well formed and referentially closed. */
  ghost predicate CleanRows(f: Formats, agency: Rows, routes: Rows, stops: Rows, calendar: Rows, dates: Rows,
                            shapes: Rows, trips: Rows, times: Rows) {
    && AllAgency(f, agency) && AllRoutes(f, routes) && AllStops(f, stops)
    && AllCalendar(f, calendar) && AllDates(f, dates) && AllShapes(f, shapes)
    && AllTrips(f, trips, routes, calendar, dates) && AllStopTimes(f, times, trips, stops)
  }

  /**
  What the validator promises of a dataset: structured, well formed and referentially closed, with unique route, stop
  and trip ids and unique sequence texts within a trip. It does not promise unique keys of the other tables.
  */
  ghost predicate Clean(f: Formats, d: Dataset) {
    WellStructured(d)
    && CleanRows(f, RowsOf(d, Agency), RowsOf(d, Routes), RowsOf(d, Stops), RowsOf(d, Calendar),
                 RowsOf(d, CalendarDates), RowsOf(d, Shapes), RowsOf(d, Trips), RowsOf(d, StopTimes))
  }

  // ----- the checks

  /** The non-empty identifiers of the first n rows. */
  ghost function IdsTo(f: Formats, rows: Rows, column: Column, n: nat): set<string>
    requires n <= |rows|
  {
    set i | 0 <= i < n && Stripped(f, rows[i], column) != "" :: Stripped(f, rows[i], column)
  }

  lemma IdsIn(f: Formats, rows: Rows, column: Column, n: nat, id: string)
    requires n <= |rows|
    ensures id in IdsTo(f, rows, column, n)
       <==> id != "" && exists k :: 0 <= k < n && Stripped(f, rows[k], column) == id
  {
    hide Stripped;
    if id != "" {
      if k :| 0 <= k < n && Stripped(f, rows[k], column) == id {
        assert id in IdsTo(f, rows, column, n);
      }
    }
  }

  lemma IdsStep(f: Formats, rows: Rows, column: Column, n: nat)
    requires n < |rows|
    ensures var id := Stripped(f, rows[n], column);
            && IdsTo(f, rows, column, n + 1) == IdsTo(f, rows, column, n) + (if id == "" then {} else {id})
            && (FreshId(f, rows, column, n) <==> id != "" && id !in IdsTo(f, rows, column, n))
  {
    hide Stripped, IdsTo;
    var id := Stripped(f, rows[n], column);
    forall x
      ensures x in IdsTo(f, rows, column, n + 1) <==> x in IdsTo(f, rows, column, n) || (id != "" && x == id)
    {
      IdsIn(f, rows, column, n + 1, x);
      IdsIn(f, rows, column, n, x);
    }
    IdsIn(f, rows, column, n, id);
  }

  lemma NoIds(f: Formats, rows: Rows)
    ensures forall column :: IdsTo(f, rows, column, 0) == {}
    ensures CallsTo(f, rows, 0) == {}
  {
  }

  lemma IdsDeclare(f: Formats, rows: Rows, column: Column, id: string)
    ensures id in IdsTo(f, rows, column, |rows|) <==> id != "" && Declares(f, rows, column, id)
  {
    if id != "" && Declares(f, rows, column, id) {
      var k :| 0 <= k < |rows| && Stripped(f, rows[k], column) == id;
      assert id in IdsTo(f, rows, column, |rows|);
    }
  }

  lemma PresentMeans(d: Dataset)
    ensures Present(d) <==> MissingFrom(d, REQUIRED) == {} && (Calendar in d || CalendarDates in d)
  {
    if MissingFrom(d, REQUIRED) == {} {
      forall e | e in REQUIRED ensures e.0 in d {
        assert e.0 !in MissingFrom(d, REQUIRED);
      }
    }
  }

  ghost function MissingFrom(d: Dataset, files: seq<(File, seq<Column>)>): set<File> {
    set e | e in files && e.0 !in d :: e.0
  }

  method CheckPresence(d: Dataset, report: Report)
    modifies report
    ensures HasErrors(report.issues) <==> HasErrors(old(report.issues)) || !Present(d)
  {
    hide HasErrors, Present;
    PresentMeans(d);
    var files := REQUIRED;
    for n := 0 to |files|
      invariant HasErrors(report.issues) <==> HasErrors(old(report.issues)) || MissingFrom(d, files[..n]) != {}
    {
      if files[n].0 !in d {
        report.Add(files[n].0, RequiredFileMissing, None, Error);
      }
      OneMoreMissing(d, files, n);
    }
    assert files[..|files|] == files;
    if Calendar !in d && CalendarDates !in d {
      report.Add(Calendar, CalendarMissing, None, Error);
    }
    if Shapes !in d {
      report.Add(Shapes, ShapesMissing, None, Warning);
    }
  }

  lemma OneMoreMissing(d: Dataset, files: seq<(File, seq<Column>)>, n: nat)
    requires n < |files|
    ensures MissingFrom(d, files[..n + 1]) == MissingFrom(d, files[..n]) + if files[n].0 in d then {} else {files[n].0}
  {
    assert files[..n + 1] == files[..n] + [files[n]];
  }

  method CheckColumns(file: File, required: seq<Column>, rows: Rows, report: Report)
    modifies report
    ensures HasErrors(report.issues) <==> HasErrors(old(report.issues)) || !HasColumns(rows, required)
  {
    if rows == [] {
      report.Add(file, FileEmpty, None, Error);
      return;
    }
    for n := 0 to |required|
      invariant HasErrors(report.issues)
           <==> HasErrors(old(report.issues)) || exists c :: c in required[..n] && c !in rows[0]
    {
      if required[n] !in rows[0] {
        report.Add(file, ColumnMissing(required[n]), None, Error);
      }
      assert required[..n + 1] == required[..n] + [required[n]];
    }
    assert required[..|required|] == required;
  }

  method CheckFilled(f: Formats, row: Row, columns: seq<Column>, line: int, report: Report)
    modifies report
    ensures HasErrors(report.issues) <==> HasErrors(old(report.issues)) || !AllFilled(f, row, columns)
  {
    hide HasErrors, Stripped;
    for n := 0 to |columns|
      invariant HasErrors(report.issues) <==> HasErrors(old(report.issues)) || !AllFilled(f, row, columns[..n])
    {
      report.Require(Stripped(f, row, columns[n]) != "", Agency, Empty(columns[n]), line);
      assert columns[..n + 1] == columns[..n] + [columns[n]];
    }
    assert columns[..|columns|] == columns;
  }

  method CheckAgency(f: Formats, rows: Rows, report: Report)
    modifies report
    ensures HasErrors(report.issues) <==>
              HasErrors(old(report.issues)) || (HasColumns(rows, AGENCY) && !AllAgency(f, rows))
  {
    hide HasErrors, HasColumns, AllFilled;
    if !HasColumns(rows, AGENCY) { return; }
    for i := 0 to |rows|
      invariant HasErrors(report.issues)
           <==> HasErrors(old(report.issues)) || !forall k :: 0 <= k < i ==> AgencyOk(f, rows, k)
    {
      ghost var before := HasErrors(report.issues);
      CheckFilled(f, rows[i], AGENCY, i + 2, report);
      assert HasErrors(report.issues) <==> before || !AgencyOk(f, rows, i);
    }
  }

  method CheckRoutes(f: Formats, rows: Rows, report: Report) returns (ids: set<string>)
    modifies report
    ensures HasColumns(rows, ROUTES) ==> ids == IdsTo(f, rows, RouteId, |rows|)
    ensures HasErrors(report.issues) <==>
              HasErrors(old(report.issues)) || (HasColumns(rows, ROUTES) && !AllRoutes(f, rows))
  {
    hide HasErrors, HasColumns, IdsTo, Stripped, Field, CallsTo, FreshId, FreshCall;
    ids := {};
    if !HasColumns(rows, ROUTES) { return; }
    NoIds(f, rows);
    for i := 0 to |rows|
      invariant ids == IdsTo(f, rows, RouteId, i)
      invariant HasErrors(report.issues)
           <==> HasErrors(old(report.issues)) || !forall k :: 0 <= k < i ==> RouteOk(f, rows, k)
    {
      ghost var before := HasErrors(report.issues);
      IdsStep(f, rows, RouteId, i);
      var id := Stripped(f, rows[i], RouteId);
      if id == "" {
        report.Add(Routes, Empty(RouteId), Some(i + 2), Error);
        assert !RouteOk(f, rows, i);
        continue;
      }
      report.Require(id !in ids, Routes, Duplicate(RouteId), i + 2);
      ids := ids + {id};
      report.Require(IsInt(f, Field(rows[i], RouteType)), Routes, NotInteger(RouteType), i + 2);
      assert HasErrors(report.issues) <==> before || !RouteOk(f, rows, i);
    }
  }

  method CheckStops(f: Formats, rows: Rows, report: Report) returns (ids: set<string>)
    modifies report
    ensures HasColumns(rows, STOPS) ==> ids == IdsTo(f, rows, StopId, |rows|)
    ensures HasErrors(report.issues) <==>
              HasErrors(old(report.issues)) || (HasColumns(rows, STOPS) && !AllStops(f, rows))
  {
    hide HasErrors, HasColumns, IdsTo, Stripped, Field, CallsTo, FreshId, FreshCall;
    ids := {};
    if !HasColumns(rows, STOPS) { return; }
    NoIds(f, rows);
    for i := 0 to |rows|
      invariant ids == IdsTo(f, rows, StopId, i)
      invariant HasErrors(report.issues)
           <==> HasErrors(old(report.issues)) || !forall k :: 0 <= k < i ==> StopOk(f, rows, k)
    {
      ghost var before := HasErrors(report.issues);
      IdsStep(f, rows, StopId, i);
      var id := Stripped(f, rows[i], StopId);
      if id == "" {
        report.Add(Stops, Empty(StopId), Some(i + 2), Error);
        assert !StopOk(f, rows, i);
        continue;
      }
      report.Require(id !in ids, Stops, Duplicate(StopId), i + 2);
      ids := ids + {id};
      report.Require(InRange(f.asFloat(Field(rows[i], StopLat)), 90.0), Stops, Invalid(StopLat), i + 2);
      report.Require(InRange(f.asFloat(Field(rows[i], StopLon)), 180.0), Stops, Invalid(StopLon), i + 2);
      assert HasErrors(report.issues) <==> before || !StopOk(f, rows, i);
    }
  }

  method CheckDays(f: Formats, row: Row, line: int, report: Report)
    modifies report
    ensures HasErrors(report.issues) <==> HasErrors(old(report.issues)) || !DaysOk(f, row)
  {
    hide HasErrors, Stripped;
    for n := 0 to |DAYS|
      invariant HasErrors(report.issues)
           <==> HasErrors(old(report.issues)) || !forall c :: c in DAYS[..n] ==> Stripped(f, row, c) in {"0", "1"}
    {
      report.Require(Stripped(f, row, DAYS[n]) in {"0", "1"}, Calendar, NotFlag(DAYS[n]), line);
      assert DAYS[..n + 1] == DAYS[..n] + [DAYS[n]];
    }
    assert DAYS[..|DAYS|] == DAYS;
  }

  method CheckPeriod(f: Formats, row: Row, line: int, report: Report)
    modifies report
    ensures HasErrors(report.issues) <==> HasErrors(old(report.issues)) || !PeriodOk(f, row)
  {
    hide HasErrors, Field;
    var start, end := f.asDate(Field(row, StartDate)), f.asDate(Field(row, EndDate));
    report.Require(start.Some?, Calendar, Invalid(StartDate), line);
    report.Require(end.Some?, Calendar, Invalid(EndDate), line);
    if start.Some? && end.Some? && end.value < start.value {
      report.Add(Calendar, EndsBeforeStart, Some(line), Error);
    }
  }

  method CheckCalendarRows(f: Formats, rows: Rows, report: Report) returns (ids: set<string>)
    modifies report
    ensures ids == if HasColumns(rows, CALENDAR) then IdsTo(f, rows, ServiceId, |rows|) else {}
    ensures HasErrors(report.issues) <==>
              HasErrors(old(report.issues)) || (HasColumns(rows, CALENDAR) && !AllCalendar(f, rows))
  {
    hide DaysOk, PeriodOk;
    hide HasErrors, HasColumns, IdsTo, Stripped, Field, CallsTo, FreshId, FreshCall;
    ids := {};
    if !HasColumns(rows, CALENDAR) { return; }
    NoIds(f, rows);
    for i := 0 to |rows|
      invariant ids == IdsTo(f, rows, ServiceId, i)
      invariant HasErrors(report.issues)
           <==> HasErrors(old(report.issues)) || !forall k :: 0 <= k < i ==> CalendarOk(f, rows, k)
    {
      ghost var before := HasErrors(report.issues);
      IdsStep(f, rows, ServiceId, i);
      var id := Stripped(f, rows[i], ServiceId);
      if id == "" {
        report.Add(Calendar, Empty(ServiceId), Some(i + 2), Error);
        assert !CalendarOk(f, rows, i);
        continue;
      }
      ids := ids + {id};
      CheckDays(f, rows[i], i + 2, report);
      CheckPeriod(f, rows[i], i + 2, report);
      assert HasErrors(report.issues) <==> before || !CalendarOk(f, rows, i);
    }
  }

  method CheckCalendarDates(f: Formats, rows: Rows, report: Report) returns (ids: set<string>)
    modifies report
    ensures ids == if HasColumns(rows, CALENDAR_DATES) then IdsTo(f, rows, ServiceId, |rows|) else {}
    ensures HasErrors(report.issues) <==>
              HasErrors(old(report.issues)) || (HasColumns(rows, CALENDAR_DATES) && !AllDates(f, rows))
  {
    hide HasErrors, HasColumns, IdsTo, Stripped, Field, CallsTo, FreshId, FreshCall;
    ids := {};
    if !HasColumns(rows, CALENDAR_DATES) { return; }
    NoIds(f, rows);
    for i := 0 to |rows|
      invariant ids == IdsTo(f, rows, ServiceId, i)
      invariant HasErrors(report.issues)
           <==> HasErrors(old(report.issues)) || !forall k :: 0 <= k < i ==> CalendarDateOk(f, rows, k)
    {
      ghost var before := HasErrors(report.issues);
      IdsStep(f, rows, ServiceId, i);
      var id := Stripped(f, rows[i], ServiceId);
      if id == "" {
        report.Add(CalendarDates, Empty(ServiceId), Some(i + 2), Error);
        assert !CalendarDateOk(f, rows, i);
        continue;
      }
      ids := ids + {id};
      report.Require(f.asDate(Field(rows[i], Date)).Some?, CalendarDates, Invalid(Date), i + 2);
      report.Require(Stripped(f, rows[i], ExceptionType) in {"1", "2"}, CalendarDates,
                     NotFlag(ExceptionType), i + 2);
      assert HasErrors(report.issues) <==> before || !CalendarDateOk(f, rows, i);
    }
  }

  method CheckShapes(f: Formats, rows: Rows, report: Report) returns (ids: set<string>)
    modifies report
    ensures HasErrors(report.issues) <==>
              HasErrors(old(report.issues)) || (HasColumns(rows, SHAPES) && !AllShapes(f, rows))
  {
    hide HasErrors, HasColumns, IdsTo, Stripped, Field, CallsTo, FreshId, FreshCall;
    ids := {};
    if !HasColumns(rows, SHAPES) { return; }
    for i := 0 to |rows|
      invariant HasErrors(report.issues)
           <==> HasErrors(old(report.issues)) || !forall k :: 0 <= k < i ==> ShapeOk(f, rows, k)
    {
      ghost var before := HasErrors(report.issues);
      var id := Stripped(f, rows[i], ShapeId);
      if id == "" {
        report.Add(Shapes, Empty(ShapeId), Some(i + 2), Error);
        assert !ShapeOk(f, rows, i);
        continue;
      }
      ids := ids + {id};
      report.Require(f.asFloat(Field(rows[i], ShapePtLat)).Some?, Shapes, Invalid(ShapePtLat), i + 2);
      report.Require(f.asFloat(Field(rows[i], ShapePtLon)).Some?, Shapes, Invalid(ShapePtLon), i + 2);
      report.Require(IsInt(f, Field(rows[i], ShapePtSequence)), Shapes, NotInteger(ShapePtSequence),
                     i + 2);
      assert HasErrors(report.issues) <==> before || !ShapeOk(f, rows, i);
    }
  }

  /** What the trip check enforces: the service is only looked up when some service is known. */
  ghost predicate TripChecked(f: Formats, rows: Rows, i: nat, routeIds: set<string>, serviceIds: set<string>)
    requires i < |rows|
  {
    && FreshId(f, rows, TripId, i) && Stripped(f, rows[i], RouteId) in routeIds
    && (serviceIds == {} || Stripped(f, rows[i], ServiceId) in serviceIds)
  }

  ghost predicate AllTripsChecked(f: Formats, rows: Rows, routeIds: set<string>, serviceIds: set<string>) {
    forall i :: 0 <= i < |rows| ==> TripChecked(f, rows, i, routeIds, serviceIds)
  }

  method CheckTrips(f: Formats, rows: Rows, routeIds: set<string>, serviceIds: set<string>, shapeIds: set<string>,
                    report: Report)
      returns (ids: set<string>)
    modifies report
    ensures HasColumns(rows, TRIPS) ==> ids == IdsTo(f, rows, TripId, |rows|)
    ensures HasErrors(report.issues) <==>
              HasErrors(old(report.issues))
              || (HasColumns(rows, TRIPS) && !AllTripsChecked(f, rows, routeIds, serviceIds))
  {
    hide HasErrors, HasColumns, IdsTo, Stripped, Field, CallsTo, FreshId, FreshCall;
    ids := {};
    if !HasColumns(rows, TRIPS) { return; }
    NoIds(f, rows);
    for i := 0 to |rows|
      invariant ids == IdsTo(f, rows, TripId, i)
      invariant HasErrors(report.issues) <==>
                  || HasErrors(old(report.issues))
                  || !forall k :: 0 <= k < i ==> TripChecked(f, rows, k, routeIds, serviceIds)
    {
      ghost var before := HasErrors(report.issues);
      IdsStep(f, rows, TripId, i);
      var id := Stripped(f, rows[i], TripId);
      if id == "" {
        report.Add(Trips, Empty(TripId), Some(i + 2), Error);
        assert !TripChecked(f, rows, i, routeIds, serviceIds);
        continue;
      }
      report.Require(id !in ids, Trips, Duplicate(TripId), i + 2);
      ids := ids + {id};
      report.Require(Stripped(f, rows[i], RouteId) in routeIds, Trips, Unknown(RouteId), i + 2);
      var known := serviceIds == {} || Stripped(f, rows[i], ServiceId) in serviceIds;
      report.Require(known, Trips, Unknown(ServiceId), i + 2);
      var shapeId := Stripped(f, rows[i], ShapeId);
      if shapeId != "" && shapeIds != {} && shapeId !in shapeIds {
        report.Add(Trips, Unknown(ShapeId), Some(i + 2), Warning);
      }
      assert HasErrors(report.issues) <==> before || !TripChecked(f, rows, i, routeIds, serviceIds);
    }
  }

  ghost predicate StopTimeChecked(f: Formats, rows: Rows, i: nat, tripIds: set<string>, stopIds: set<string>)
    requires i < |rows|
  {
    && Stripped(f, rows[i], TripId) in tripIds && Stripped(f, rows[i], StopId) in stopIds
    && FreshCall(f, rows, i) && TimesOk(f, rows[i])
  }

  ghost predicate AllStopTimesChecked(f: Formats, rows: Rows, tripIds: set<string>, stopIds: set<string>) {
    forall i :: 0 <= i < |rows| ==> StopTimeChecked(f, rows, i, tripIds, stopIds)
  }

  ghost function CallsTo(f: Formats, rows: Rows, n: nat): set<(string, string)>
    requires n <= |rows|
  {
    set i | 0 <= i < n && IsInt(f, Stripped(f, rows[i], StopSequence)) :: CallKey(f, rows[i])
  }

  lemma CallsStep(f: Formats, rows: Rows, n: nat)
    requires n < |rows|
    ensures var whole, key := IsInt(f, Stripped(f, rows[n], StopSequence)), CallKey(f, rows[n]);
            && CallsTo(f, rows, n + 1) == CallsTo(f, rows, n) + (if whole then {key} else {})
            && (FreshCall(f, rows, n) <==> whole && key !in CallsTo(f, rows, n))
  {
    var whole, key := IsInt(f, Stripped(f, rows[n], StopSequence)), CallKey(f, rows[n]);
    forall x ensures x in CallsTo(f, rows, n + 1) <==> x in CallsTo(f, rows, n) || (whole && x == key) {
      if x in CallsTo(f, rows, n) {
        var i :| 0 <= i < n && IsInt(f, Stripped(f, rows[i], StopSequence)) && x == CallKey(f, rows[i]);
        assert i < n + 1;
      }
    }
    if whole && key !in CallsTo(f, rows, n) {
      assert forall k :: 0 <= k < n && IsInt(f, Stripped(f, rows[k], StopSequence)) ==>
          CallKey(f, rows[k]) in CallsTo(f, rows, n);
    }
  }

  method CheckTimes(f: Formats, row: Row, line: int, report: Report)
    modifies report
    ensures HasErrors(report.issues) <==> HasErrors(old(report.issues)) || !TimesOk(f, row)
  {
    hide HasErrors, Field;
    var arrival, departure := f.asTime(Field(row, ArrivalTime)), f.asTime(Field(row, DepartureTime));
    report.Require(arrival.Some?, StopTimes, Invalid(ArrivalTime), line);
    report.Require(departure.Some?, StopTimes, Invalid(DepartureTime), line);
    if arrival.Some? && departure.Some? && departure.value < arrival.value {
      report.Add(StopTimes, DepartsBeforeArrival, Some(line), Error);
    }
  }

  method CheckStopTimes(f: Formats, rows: Rows, tripIds: set<string>, stopIds: set<string>, report: Report)
    modifies report
    ensures HasErrors(report.issues) <==>
              HasErrors(old(report.issues))
              || (HasColumns(rows, STOP_TIMES) && !AllStopTimesChecked(f, rows, tripIds, stopIds))
  {
    hide HasErrors, HasColumns, IdsTo, Stripped, Field, CallsTo, FreshId, FreshCall, TimesOk, IsInt;
    if !HasColumns(rows, STOP_TIMES) { return; }
    var seen: set<(string, string)> := {};
    NoIds(f, rows);
    for i := 0 to |rows|
      invariant seen == CallsTo(f, rows, i)
      invariant HasErrors(report.issues) <==>
                  || HasErrors(old(report.issues))
                  || !forall k :: 0 <= k < i ==> StopTimeChecked(f, rows, k, tripIds, stopIds)
    {
      ghost var before := HasErrors(report.issues);
      CallsStep(f, rows, i);
      var tripId, sequence := Stripped(f, rows[i], TripId), Stripped(f, rows[i], StopSequence);
      report.Require(tripId in tripIds, StopTimes, Unknown(TripId), i + 2);
      report.Require(Stripped(f, rows[i], StopId) in stopIds, StopTimes, Unknown(StopId), i + 2);
      if !IsInt(f, sequence) {
        report.Add(StopTimes, NotInteger(StopSequence), Some(i + 2), Error);
      } else if (tripId, sequence) in seen {
        report.Add(StopTimes, Duplicate(StopSequence), Some(i + 2), Error);
      } else {
        seen := seen + {(tripId, sequence)};
      }
      CheckTimes(f, rows[i], i + 2, report);
      assert HasErrors(report.issues) <==> before || !StopTimeChecked(f, rows, i, tripIds, stopIds);
    }
  }

  // ----- the verdict

  lemma CalendarPresent(d: Dataset)
    requires WellStructured(d)
    ensures RowsOf(d, Calendar) != [] || (Calendar !in d && RowsOf(d, CalendarDates) != [])
  {
    assert CONDITIONAL[0] in REQUIRED + CONDITIONAL && CONDITIONAL[1] in REQUIRED + CONDITIONAL;
  }

  lemma FirstIdKnown(f: Formats, rows: Rows, column: Column)
    requires rows != [] && Stripped(f, rows[0], column) != ""
    ensures IdsTo(f, rows, column, |rows|) != {}
  {
    assert Stripped(f, rows[0], column) in IdsTo(f, rows, column, |rows|);
  }

  /** With every calendar row sound, at least one service is known, so the guard on services hides nothing. */
  lemma ServicesKnown(f: Formats, d: Dataset, services: set<string>)
    requires WellStructured(d)
    requires AllCalendar(f, RowsOf(d, Calendar)) && AllDates(f, RowsOf(d, CalendarDates))
    requires services == IdsTo(f, RowsOf(d, Calendar), ServiceId, |RowsOf(d, Calendar)|)
                       + IdsTo(f, RowsOf(d, CalendarDates), ServiceId, |RowsOf(d, CalendarDates)|)
    ensures services != {}
  {
    hide IdsTo, Stripped, WellStructured;
    CalendarPresent(d);
    if Calendar in d {
      assert CalendarOk(f, d[Calendar], 0);
      FirstIdKnown(f, d[Calendar], ServiceId);
    } else {
      assert CalendarDateOk(f, d[CalendarDates], 0);
      FirstIdKnown(f, d[CalendarDates], ServiceId);
    }
  }

  /** What the trip check enforces is exactly that every trip's route and service exist. */
  lemma TripsCheckedIff(f: Formats, rows: Rows, i: nat, routes: Rows, calendar: Rows, dates: Rows,
                        services: set<string>)
    requires i < |rows| && services != {}
    requires services == IdsTo(f, calendar, ServiceId, |calendar|) + IdsTo(f, dates, ServiceId, |dates|)
    ensures TripChecked(f, rows, i, IdsTo(f, routes, RouteId, |routes|), services)
       <==> TripOk(f, rows, i, routes, calendar, dates)
  {
    IdsDeclare(f, routes, RouteId, Stripped(f, rows[i], RouteId));
    IdsDeclare(f, calendar, ServiceId, Stripped(f, rows[i], ServiceId));
    IdsDeclare(f, dates, ServiceId, Stripped(f, rows[i], ServiceId));
  }

  lemma StopTimesCheckedIff(f: Formats, rows: Rows, i: nat, trips: Rows, stops: Rows)
    requires i < |rows|
    ensures StopTimeChecked(f, rows, i, IdsTo(f, trips, TripId, |trips|), IdsTo(f, stops, StopId, |stops|))
       <==> StopTimeOk(f, rows, i, trips, stops)
  {
    IdsDeclare(f, trips, TripId, Stripped(f, rows[i], TripId));
    IdsDeclare(f, stops, StopId, Stripped(f, rows[i], StopId));
  }

  /** In a well-structured dataset every present file passed its column check, so no row check was skipped. */
  lemma ColumnsPresent(d: Dataset, file: File, columns: seq<Column>)
    requires WellStructured(d) && (file, columns) in REQUIRED + CONDITIONAL
    ensures RowsOf(d, file) != [] ==> HasColumns(RowsOf(d, file), columns)
    ensures (file, columns) in REQUIRED ==> HasColumns(RowsOf(d, file), columns)
  {
    assert (file, columns) in REQUIRED ==> (file, columns).0 in d;
  }

  /** An error-free verdict means, and is only given to, a clean dataset. */
  method ValidateDataset(f: Formats, d: Dataset) returns (report: Report)
    ensures fresh(report) && (!HasErrors(report.issues) <==> Clean(f, d))
  {
    hide HasErrors, HasColumns, Clean, AllAgency, AllRoutes, AllStops, AllCalendar, AllDates, AllShapes;
    hide AllTripsChecked, AllStopTimesChecked, IdsTo;
    report := CheckStructure(d);
    hide WellStructured;
    var routes, trips := RowsOf(d, Routes), RowsOf(d, Trips);
    var stops, times := RowsOf(d, Stops), RowsOf(d, StopTimes);
    var calendar, dates := RowsOf(d, Calendar), RowsOf(d, CalendarDates);
    CheckAgency(f, RowsOf(d, Agency), report);
    var routeIds := CheckRoutes(f, routes, report);
    var stopIds := CheckStops(f, stops, report);
    var services := CheckCalendarRows(f, calendar, report);
    var more := CheckCalendarDates(f, dates, report);
    services := services + more;
    var shapeIds := CheckShapes(f, RowsOf(d, Shapes), report);
    var tripIds := CheckTrips(f, trips, routeIds, services, shapeIds, report);
    CheckStopTimes(f, times, tripIds, stopIds, report);
    VerdictIff(f, d, routeIds, stopIds, services, tripIds);
  }

  lemma FitMeans(d: Dataset, e: (File, seq<Column>))
    ensures ColumnsFit(d, e) <==> (e.0 in d ==> HasColumns(d[e.0], e.1))
  {
  }

  /** Presence, then the columns of every known file that is present. */
  method CheckStructure(d: Dataset) returns (report: Report)
    ensures fresh(report) && (!HasErrors(report.issues) <==> WellStructured(d))
  {
    hide HasColumns, Present, ColumnsFit;
    report := new Report();
    assert !HasErrors(report.issues);
    CheckPresence(d, report);
    var files := REQUIRED + CONDITIONAL;
    ghost var present := !HasErrors(report.issues);
    hide HasErrors;
    for n := 0 to |files|
      invariant !HasErrors(report.issues) <==> present && forall e :: e in files[..n] ==> ColumnsFit(d, e)
      invariant fresh(report)
    {
      FitMeans(d, files[n]);
      if files[n].0 in d {
        CheckColumns(files[n].0, files[n].1, d[files[n].0], report);
      }
      assert files[..n + 1] == files[..n] + [files[n]];
    }
    assert files[..|files|] == files;
  }

  /** The verdict as the conjunction of what the checks enforced. */
  ghost predicate Passed(f: Formats, d: Dataset, routeIds: set<string>, stopIds: set<string>, services: set<string>,
                         tripIds: set<string>) {
    var routes, trips := RowsOf(d, Routes), RowsOf(d, Trips);
    var stops, times := RowsOf(d, Stops), RowsOf(d, StopTimes);
    var calendar, dates := RowsOf(d, Calendar), RowsOf(d, CalendarDates);
    && WellStructured(d)
    && (HasColumns(RowsOf(d, Agency), AGENCY) ==> AllAgency(f, RowsOf(d, Agency)))
    && (HasColumns(routes, ROUTES) ==> AllRoutes(f, routes))
    && (HasColumns(stops, STOPS) ==> AllStops(f, stops))
    && (HasColumns(calendar, CALENDAR) ==> AllCalendar(f, calendar))
    && (HasColumns(dates, CALENDAR_DATES) ==> AllDates(f, dates))
    && (HasColumns(RowsOf(d, Shapes), SHAPES) ==> AllShapes(f, RowsOf(d, Shapes)))
    && (HasColumns(trips, TRIPS) ==> AllTripsChecked(f, trips, routeIds, services))
    && (HasColumns(times, STOP_TIMES) ==> AllStopTimesChecked(f, times, tripIds, stopIds))
  }

  lemma VerdictIff(f: Formats, d: Dataset, routeIds: set<string>, stopIds: set<string>, services: set<string>,
                   tripIds: set<string>)
    requires var routes, trips, stops := RowsOf(d, Routes), RowsOf(d, Trips), RowsOf(d, Stops);
             var calendar, dates := RowsOf(d, Calendar), RowsOf(d, CalendarDates);
             && (HasColumns(routes, ROUTES) ==> routeIds == IdsTo(f, routes, RouteId, |routes|))
             && (HasColumns(stops, STOPS) ==> stopIds == IdsTo(f, stops, StopId, |stops|))
             && (HasColumns(trips, TRIPS) ==> tripIds == IdsTo(f, trips, TripId, |trips|))
             && var weekly := if HasColumns(calendar, CALENDAR) then IdsTo(f, calendar, ServiceId,
                   |calendar|) else {};
             && var exceptional := if HasColumns(dates, CALENDAR_DATES) then IdsTo(f, dates, ServiceId,
                   |dates|) else {};
             && services == weekly + exceptional
    ensures Passed(f, d, routeIds, stopIds, services, tripIds) <==> Clean(f, d)
  {
    hide WellStructured, AllAgency, AllRoutes, AllStops, AllCalendar, AllDates, AllShapes, AllTrips, AllStopTimes;
    hide HasColumns, IdsTo, RowsOf, AllTripsChecked, AllStopTimesChecked;
    if WellStructured(d) {
      ColumnsAll(d);
      EmptyIsFine(f, d);
      var calendar, dates := RowsOf(d, Calendar), RowsOf(d, CalendarDates);
      if AllCalendar(f, calendar) && AllDates(f, dates) {
        ServicesKnown(f, d, services);
        ReferencesIff(f, RowsOf(d, Routes), RowsOf(d, Trips), RowsOf(d, Stops),
                      RowsOf(d, StopTimes),
                      calendar, dates, services);
      }
    }
  }

  /** Rows without columns are no rows, and no rows contribute nothing. */
  lemma EmptyIsFine(f: Formats, d: Dataset)
    ensures AllCalendar(f, []) && AllDates(f, []) && AllShapes(f, []) && AllAgency(f, [])
    ensures IdsTo(f, [], ServiceId, 0) == {}
  {
  }

  lemma ColumnsAll(d: Dataset)
    requires WellStructured(d)
    ensures HasColumns(RowsOf(d, Agency), AGENCY) && HasColumns(RowsOf(d, Routes), ROUTES)
    ensures HasColumns(RowsOf(d, Trips), TRIPS) && HasColumns(RowsOf(d, Stops), STOPS)
    ensures HasColumns(RowsOf(d, StopTimes), STOP_TIMES)
    ensures RowsOf(d, Calendar) == [] || HasColumns(RowsOf(d, Calendar), CALENDAR)
    ensures RowsOf(d, CalendarDates) == [] || HasColumns(RowsOf(d, CalendarDates), CALENDAR_DATES)
    ensures RowsOf(d, Shapes) == [] || HasColumns(RowsOf(d, Shapes), SHAPES)
  {
    hide WellStructured, HasColumns, RowsOf;
    assert REQUIRED[0] == (Agency, AGENCY) && REQUIRED[1] == (Routes, ROUTES);
    assert REQUIRED[2] == (Trips, TRIPS) && REQUIRED[3] == (Stops, STOPS)
      && REQUIRED[4] == (StopTimes, STOP_TIMES);
    assert CONDITIONAL[0] == (Calendar, CALENDAR) && CONDITIONAL[1] == (CalendarDates, CALENDAR_DATES);
    assert CONDITIONAL[2] == (Shapes, SHAPES);
    ColumnsPresent(d, Agency, AGENCY);
    ColumnsPresent(d, Routes, ROUTES);
    ColumnsPresent(d, Trips, TRIPS);
    ColumnsPresent(d, Stops, STOPS);
    ColumnsPresent(d, StopTimes, STOP_TIMES);
    ColumnsPresent(d, Calendar, CALENDAR);
    ColumnsPresent(d, CalendarDates, CALENDAR_DATES);
    ColumnsPresent(d, Shapes, SHAPES);
  }

  /** Checking against the collected identifiers is checking against the files. */
  lemma ReferencesIff(f: Formats, routes: Rows, trips: Rows, stops: Rows, times: Rows, calendar: Rows, dates: Rows,
                      services: set<string>)
    requires services == IdsTo(f, calendar, ServiceId, |calendar|) + IdsTo(f, dates, ServiceId, |dates|)
    requires services != {}
    ensures AllTripsChecked(f, trips, IdsTo(f, routes, RouteId, |routes|), services)
       <==> AllTrips(f, trips, routes, calendar, dates)
    ensures AllStopTimesChecked(f, times, IdsTo(f, trips, TripId, |trips|), IdsTo(f, stops, StopId, |stops|))
       <==> AllStopTimes(f, times, trips, stops)
  {
    hide TripChecked, TripOk, StopTimeChecked, StopTimeOk, IdsTo;
    forall i | 0 <= i < |trips|
      ensures TripChecked(f, trips, i, IdsTo(f, routes, RouteId, |routes|), services)
         <==> TripOk(f, trips, i, routes, calendar, dates)
    {
      TripsCheckedIff(f, trips, i, routes, calendar, dates, services);
    }
    forall i | 0 <= i < |times|
      ensures StopTimeChecked(f, times, i, IdsTo(f, trips, TripId, |trips|), IdsTo(f, stops, StopId, |stops|))
         <==> StopTimeOk(f, times, i, trips, stops)
    {
      StopTimesCheckedIff(f, times, i, trips, stops);
    }
  }

  /** Exactly one row carries the identifier. */
  ghost predicate DeclaresOnce(f: Formats, rows: Rows, column: Column, id: string) {
    exists k :: 0 <= k < |rows| && RowWithId(f, rows, column, id, k)
             && forall j :: 0 <= j < |rows| && RowWithId(f, rows, column, id, j) ==> j == k
  }

  ghost predicate RowWithId(f: Formats, rows: Rows, column: Column, id: string, k: nat)
    requires k < |rows|
  {
    Stripped(f, rows[k], column) == id
  }

  lemma FreshIdsDeclareOnce(f: Formats, rows: Rows, column: Column, id: string)
    requires forall i :: 0 <= i < |rows| ==> FreshId(f, rows, column, i)
    requires Declares(f, rows, column, id)
    ensures DeclaresOnce(f, rows, column, id)
  {
    var k :| 0 <= k < |rows| && Stripped(f, rows[k], column) == id;
    assert RowWithId(f, rows, column, id, k);
    forall j | 0 <= j < |rows| && RowWithId(f, rows, column, id, j)
      ensures j == k
    {
      assert FreshId(f, rows, column, j) && FreshId(f, rows, column, k);
    }
  }

  /** In a clean dataset every stop time names exactly one stop and one trip, and that trip exactly one route. */
  lemma ReferencesResolve(f: Formats, d: Dataset, i: nat)
    requires Clean(f, d) && i < |RowsOf(d, StopTimes)|
    ensures var call := RowsOf(d, StopTimes)[i];
            && DeclaresOnce(f, RowsOf(d, Stops), StopId, Stripped(f, call, StopId))
            && DeclaresOnce(f, RowsOf(d, Trips), TripId, Stripped(f, call, TripId))
    ensures forall t :: t in RowsOf(d, Trips) ==>
              DeclaresOnce(f, RowsOf(d, Routes), RouteId, Stripped(f, t, RouteId))
  {
    var routes, trips := RowsOf(d, Routes), RowsOf(d, Trips);
    var stops, times := RowsOf(d, Stops), RowsOf(d, StopTimes);
    hide WellStructured, AgencyOk, CalendarOk, CalendarDateOk, ShapeOk, FreshCall, TimesOk;
    hide FreshId, DeclaresOnce, Declares, Stripped;
    assert StopTimeOk(f, times, i, trips, stops);
    assert forall k :: 0 <= k < |stops| && StopOk(f, stops, k) ==> FreshId(f, stops, StopId, k);
    var calendar, dates := RowsOf(d, Calendar), RowsOf(d, CalendarDates);
    assert forall k :: 0 <= k < |trips| && TripOk(f, trips, k, routes, calendar, dates) ==>
        FreshId(f, trips, TripId, k);
    assert forall k :: 0 <= k < |routes| && RouteOk(f, routes, k) ==> FreshId(f, routes, RouteId, k);
    FreshIdsDeclareOnce(f, stops, StopId, Stripped(f, times[i], StopId));
    FreshIdsDeclareOnce(f, trips, TripId, Stripped(f, times[i], TripId));
    forall k | 0 <= k < |trips|
      ensures DeclaresOnce(f, routes, RouteId, Stripped(f, trips[k], RouteId))
    {
      assert TripOk(f, trips, k, routes, calendar, dates);
      FreshIdsDeclareOnce(f, routes, RouteId, Stripped(f, trips[k], RouteId));
    }
  }

  // ----- the keys of the loaded table

  /** The stop_times table is keyed by trip and integer sequence. */
  function TableKey(f: Formats, row: Row): (string, Option<int>) {
    (Stripped(f, row, TripId), f.asInt(Stripped(f, row, StopSequence)))
  }

  ghost predicate KeysUnique(f: Formats, rows: Rows) {
    forall i, j :: 0 <= i < j < |rows| ==> TableKey(f, rows[i]) != TableKey(f, rows[j])
  }

  /** No trip spells one number in two ways. */
  ghost predicate OneSpelling(f: Formats, rows: Rows) {
    forall i, j :: 0 <= i < j < |rows| && TableKey(f, rows[i]) == TableKey(f, rows[j]) ==>
        CallKey(f, rows[i]) == CallKey(f, rows[j])
  }

  /** The keys of a clean dataset are unique in the table exactly when no trip spells one number in two ways. */
  lemma KeysUniqueIff(f: Formats, d: Dataset)
    requires Clean(f, d)
    ensures KeysUnique(f, RowsOf(d, StopTimes)) <==> OneSpelling(f, RowsOf(d, StopTimes))
  {
    var times, trips, stops := RowsOf(d, StopTimes), RowsOf(d, Trips), RowsOf(d, Stops);
    assert AllStopTimes(f, times, trips, stops);
    hide WellStructured, Clean, CallKey, TableKey, Declares;
    forall i, j | 0 <= i < j < |times|
      ensures CallKey(f, times[i]) != CallKey(f, times[j])
    {
      assert StopTimeOk(f, times, j, trips, stops);
    }
  }

  /** A number has one spelling, `spell`, and every row uses it: a condition on each row alone. */
  lemma CanonicalKeysUnique(f: Formats, d: Dataset, spell: int -> string)
    requires Clean(f, d)
    requires forall row :: row in RowsOf(d, StopTimes) ==> Canonical(f, row, spell)
    ensures KeysUnique(f, RowsOf(d, StopTimes))
  {
    var times := RowsOf(d, StopTimes);
    KeysUniqueIff(f, d);
    hide Clean, Stripped;
    forall i, j | 0 <= i < j < |times| && TableKey(f, times[i]) == TableKey(f, times[j])
      ensures CallKey(f, times[i]) == CallKey(f, times[j])
    {
      assert Canonical(f, times[i], spell) && Canonical(f, times[j], spell);
    }
  }

  predicate Canonical(f: Formats, row: Row, spell: int -> string) {
    var text := Stripped(f, row, StopSequence);
    f.asInt(text).Some? && text == spell(f.asInt(text).value)
  }

  /** The dataset with one more row in a file. */
  function Extended(d: Dataset, file: File, row: Row): Dataset {
    d[file := RowsOf(d, file) + [row]]
  }

  lemma ExtendedRows(d: Dataset, file: File, row: Row)
    requires RowsOf(d, file) != []
    ensures RowsOf(Extended(d, file, row), file) == RowsOf(d, file) + [row]
    ensures forall x :: x != file ==> RowsOf(Extended(d, file, row), x) == RowsOf(d, x)
    ensures WellStructured(d) ==> WellStructured(Extended(d, file, row))
  {
    var e := Extended(d, file, row);
    if WellStructured(d) {
      hide HasColumns;
      forall c | c in REQUIRED + CONDITIONAL
        ensures ColumnsFit(e, c)
      {
        assert ColumnsFit(d, c);
        if c.0 == file {
          SameHeader(RowsOf(d, c.0), RowsOf(e, c.0), c.1);
        }
      }
    }
  }

  lemma SameHeader(rows: Rows, longer: Rows, columns: seq<Column>)
    requires longer != [] && rows != [] && longer[0] == rows[0]
    ensures HasColumns(longer, columns) <==> HasColumns(rows, columns)
  {
  }

  /** Call i again, its sequence spelled differently. */
  function Respelled(d: Dataset, i: nat, text: string): Dataset
    requires i < |RowsOf(d, StopTimes)|
  {
    Extended(d, StopTimes, RowsOf(d, StopTimes)[i][StopSequence := text])
  }

  /**
  The failing family: in any clean dataset a stop time may be repeated with a second spelling of its number, such as
  "01" for "1", and the validator still finds no error, although the table's key is taken.
  */
  lemma RespelledPasses(f: Formats, d: Dataset, i: nat, text: string)
    requires Clean(f, d) && i < |RowsOf(d, StopTimes)| && SecondSpelling(f, RowsOf(d, StopTimes), i, text)
    ensures Clean(f, Respelled(d, i, text)) && !KeysUnique(f, RowsOf(Respelled(d, i, text), StopTimes))
  {
    hide WellStructured, CleanRows, RowsOf, KeysUnique, SecondSpelling;
    var times := RowsOf(d, StopTimes);
    ExtendedRows(d, StopTimes, times[i][StopSequence := text]);
    CleanWithCall(f, RowsOf(d, Agency), RowsOf(d, Routes), RowsOf(d, Stops), RowsOf(d, Calendar),
                  RowsOf(d, CalendarDates), RowsOf(d, Shapes), RowsOf(d, Trips), times, i, text);
    KeyTaken(f, times, i, text);
  }

  /** The text spells the number of call i, and no call of its trip uses it. */
  ghost predicate SecondSpelling(f: Formats, times: Rows, i: nat, text: string)
    requires i < |times|
  {
    && f.asInt(f.strip(text)) == f.asInt(Stripped(f, times[i], StopSequence))
    && forall k :: 0 <= k < |times| && Stripped(f, times[k], TripId) == Stripped(f, times[i], TripId)
         ==> Stripped(f, times[k], StopSequence) != f.strip(text)
  }

  lemma KeyTaken(f: Formats, times: Rows, i: nat, text: string)
    requires i < |times| && SecondSpelling(f, times, i, text)
    ensures !KeysUnique(f, times + [times[i][StopSequence := text]])
  {
    var longer := times + [times[i][StopSequence := text]];
    OtherFields(f, times[i], text);
    hide Stripped;
    assert TableKey(f, longer[i]) == TableKey(f, longer[|times|]);
  }

  lemma CleanWithCall(f: Formats, agency: Rows, routes: Rows, stops: Rows, calendar: Rows, dates: Rows, shapes: Rows,
                      trips: Rows, times: Rows, i: nat, text: string)
    requires CleanRows(f, agency, routes, stops, calendar, dates, shapes, trips, times)
    requires i < |times| && SecondSpelling(f, times, i, text)
    ensures var longer := times + [times[i][StopSequence := text]];
            CleanRows(f, agency, routes, stops, calendar, dates, shapes, trips, longer)
  {
    hide AllAgency, AllRoutes, AllStops, AllCalendar, AllDates, AllShapes, AllTrips;
    var longer := times + [times[i][StopSequence := text]];
    OtherFields(f, times[i], text);
    hide Declares, Stripped, TimesOk;
    forall k | 0 <= k < |longer|
      ensures StopTimeOk(f, longer, k, trips, stops)
    {
      assert StopTimeOk(f, times, if k < |times| then k else i, trips, stops);
    }
  }

  lemma OtherFields(f: Formats, row: Row, text: string)
    ensures var other := row[StopSequence := text];
            && Stripped(f, other, TripId) == Stripped(f, row, TripId)
            && Stripped(f, other, StopId) == Stripped(f, row, StopId)
            && Stripped(f, other, StopSequence) == f.strip(text) && (TimesOk(f, other) <==> TimesOk(f, row))
  {
  }

  /** A column missing from one row reads as blank: a ragged row is an error wherever a value is mandatory. */
  lemma RaggedRowFails(f: Formats, d: Dataset, i: nat, column: Column)
    requires f.strip("") == "" && column in [AgencyName, AgencyUrl, AgencyTimezone]
    requires i < |RowsOf(d, Agency)| && column !in RowsOf(d, Agency)[i]
    ensures !Clean(f, d)
  {
    assert Stripped(f, RowsOf(d, Agency)[i], column) == "";
    assert !AgencyOk(f, RowsOf(d, Agency), i);
  }

  // ----- keys the validator does not check

  /** The primary keys of the calendar, calendar exception and shape point tables. */
  function LoadedKey(f: Formats, file: File, row: Row): (string, Option<int>) {
    if file == Calendar then (Stripped(f, row, ServiceId), None)
    else if file == CalendarDates then (Stripped(f, row, ServiceId), f.asDate(Field(row, Date)))
    else (Stripped(f, row, ShapeId), f.asInt(Field(row, ShapePtSequence)))
  }

  ghost predicate LoadedKeysUnique(f: Formats, file: File, rows: Rows) {
    forall i, j :: 0 <= i < j < |rows| ==> LoadedKey(f, file, rows[i]) != LoadedKey(f, file, rows[j])
  }

  /** The failing family for those tables: in any clean dataset any row of theirs may be repeated. */
  lemma RepeatedRowPasses(f: Formats, d: Dataset, file: File, i: nat)
    requires Clean(f, d) && file in [Calendar, CalendarDates, Shapes] && i < |RowsOf(d, file)|
    ensures var e := Extended(d, file, RowsOf(d, file)[i]);
            Clean(f, e) && !LoadedKeysUnique(f, file, RowsOf(e, file))
  {
    hide WellStructured, CleanRows, RowsOf, LoadedKeysUnique;
    var row := RowsOf(d, file)[i];
    ExtendedRows(d, file, row);
    var calendar, dates, shapes := RowsOf(d, Calendar), RowsOf(d, CalendarDates), RowsOf(d, Shapes);
    CleanWithRepeated(f, RowsOf(d, Agency), RowsOf(d, Routes), RowsOf(d, Stops), calendar, dates, shapes,
                      RowsOf(d, Trips), RowsOf(d, StopTimes), i);
    RepeatedKey(f, file, RowsOf(d, file), i);
  }

  lemma RepeatedKey(f: Formats, file: File, rows: Rows, i: nat)
    requires i < |rows|
    ensures !LoadedKeysUnique(f, file, rows + [rows[i]])
  {
    hide LoadedKey;
    var longer := rows + [rows[i]];
    assert LoadedKey(f, file, longer[i]) == LoadedKey(f, file, longer[|rows|]);
  }

  /** Repeating a row of any of the three files keeps the rows clean. */
  lemma CleanWithRepeated(f: Formats, agency: Rows, routes: Rows, stops: Rows, calendar: Rows, dates: Rows,
                          shapes: Rows, trips: Rows, times: Rows, i: nat)
    requires CleanRows(f, agency, routes, stops, calendar, dates, shapes, trips, times)
    ensures i < |calendar| ==>
              CleanRows(f, agency, routes, stops, calendar + [calendar[i]], dates, shapes, trips, times)
    ensures i < |dates| ==> CleanRows(f, agency, routes, stops, calendar, dates + [dates[i]], shapes, trips, times)
    ensures i < |shapes| ==> CleanRows(f, agency, routes, stops, calendar, dates, shapes + [shapes[i]], trips, times)
  {
    hide AllAgency, AllRoutes, AllStops, AllStopTimes, AllTrips, AllCalendar, AllDates, AllShapes;
    if i < |calendar| {
      CalendarWithRepeated(f, calendar, i);
      TripsWithMore(f, trips, routes, calendar, dates, [calendar[i]], []);
    }
    if i < |dates| {
      DatesWithRepeated(f, dates, i);
      TripsWithMore(f, trips, routes, calendar, dates, [], [dates[i]]);
    }
    if i < |shapes| {
      ShapesWithRepeated(f, shapes, i);
    }
    assert calendar + [] == calendar && dates + [] == dates;
  }

  lemma CalendarWithRepeated(f: Formats, rows: Rows, i: nat)
    requires AllCalendar(f, rows) && i < |rows|
    ensures AllCalendar(f, rows + [rows[i]])
  {
    hide DaysOk, PeriodOk, Stripped;
    var longer := rows + [rows[i]];
    forall k | 0 <= k < |longer|
      ensures CalendarOk(f, longer, k)
    {
      assert CalendarOk(f, rows, if k < |rows| then k else i);
    }
  }

  lemma DatesWithRepeated(f: Formats, rows: Rows, i: nat)
    requires AllDates(f, rows) && i < |rows|
    ensures AllDates(f, rows + [rows[i]])
  {
    hide Stripped, Field;
    var longer := rows + [rows[i]];
    forall k | 0 <= k < |longer|
      ensures CalendarDateOk(f, longer, k)
    {
      assert CalendarDateOk(f, rows, if k < |rows| then k else i);
    }
  }

  lemma ShapesWithRepeated(f: Formats, rows: Rows, i: nat)
    requires AllShapes(f, rows) && i < |rows|
    ensures AllShapes(f, rows + [rows[i]])
  {
    hide Stripped, Field;
    var longer := rows + [rows[i]];
    forall k | 0 <= k < |longer|
      ensures ShapeOk(f, longer, k)
    {
      assert ShapeOk(f, rows, if k < |rows| then k else i);
    }
  }

  /** More services never make a trip unsound. */
  lemma TripsWithMore(f: Formats, trips: Rows, routes: Rows, calendar: Rows, dates: Rows, moreCalendar: Rows,
                      moreDates: Rows)
    requires AllTrips(f, trips, routes, calendar, dates)
    ensures AllTrips(f, trips, routes, calendar + moreCalendar, dates + moreDates)
  {
    hide FreshId, Declares, Stripped;
    forall k | 0 <= k < |trips|
      ensures TripOk(f, trips, k, routes, calendar + moreCalendar, dates + moreDates)
    {
      assert TripOk(f, trips, k, routes, calendar, dates);
      DeclaresMore(f, calendar, moreCalendar, ServiceId, Stripped(f, trips[k], ServiceId));
      DeclaresMore(f, dates, moreDates, ServiceId, Stripped(f, trips[k], ServiceId));
    }
  }

  lemma DeclaresMore(f: Formats, rows: Rows, more: Rows, column: Column, id: string)
    ensures Declares(f, rows, column, id) ==> Declares(f, rows + more, column, id)
  {
    hide Stripped;
    if k :| 0 <= k < |rows| && Stripped(f, rows[k], column) == id {
      assert (rows + more)[k] == rows[k];
    }
  }
}
