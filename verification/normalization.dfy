/**
 * Job normalisation: the mapping of a scraped job record onto the common
 * job fields, and the shift heuristic applied to its description.
 */
module Normalization {
  import opened Wrappers
  import Text
  import Scheduler

  /** A value of the scraped record. */
  datatype RawValue = Str(s: string) | Number(x: real) | Null

  /** Python truthiness of a raw value. */
  predicate Truthy(v: RawValue) {
    match v
    case Str(s) => s != ""
    case Number(x) => x != 0.0
    case Null => false
  }

  /** A scraped record: field name to value. */
  type RawJob = map<string, RawValue>

  /** `raw.get(key)`: a missing key reads as `None`. */
  function Get(raw: RawJob, key: string): RawValue {
    if key in raw then raw[key] else Null
  }

  /** `raw.get(primary) or raw.get(fallback)`. */
  function FirstTruthy(raw: RawJob, primary: string, fallback: string): (v: RawValue)
    ensures Truthy(Get(raw, primary)) ==> v == Get(raw, primary)
    ensures !Truthy(Get(raw, primary)) ==> v == Get(raw, fallback)
    ensures Truthy(v) <==> Truthy(Get(raw, primary)) || Truthy(Get(raw, fallback))
  {
    var p := Get(raw, primary);
    if Truthy(p) then p else Get(raw, fallback)
  }

  /** `_parse_salary`: falsy values give `None`; text goes through the float conversion `parseFloat`. */
  function ParseSalary(v: RawValue, parseFloat: string -> Option<real>): (r: Option<real>)
    ensures !Truthy(v) ==> r == None
    ensures v.Number? && Truthy(v) ==> r == Some(v.x)
  {
    match v
    case Null => None
    case Number(x) => if x == 0.0 then None else Some(x)
    case Str(s) => if s == "" then None else parseFloat(s)
  }

  /** Ten in the morning and four in the afternoon. */
  const TenAm: Scheduler.Minute := 600
  const FourPm: Scheduler.Minute := 960

  /** `_extract_shifts`: text mentioning "weekend" (any case) gives the two fixed weekend shifts, anything else none. */
  function ExtractShifts(text: string): (shifts: seq<Scheduler.Slot>)
    ensures |shifts| == 0 || |shifts| == 2
    ensures text == "" ==> shifts == []
    ensures |shifts| == 2 <==> Text.Occurs("weekend", Text.Lower(text))
    ensures |shifts| == 2 ==> shifts[0].day == "Saturday" && shifts[1].day == "Sunday"
    ensures forall k :: 0 <= k < |shifts|
              ==> shifts[k].start == Scheduler.Clock(TenAm) && shifts[k].end == Scheduler.Clock(FourPm)
  {
    Text.ContainsIffOccurs("weekend", Text.Lower(text));
    if text == "" then []
    else if Text.Contains("weekend", Text.Lower(text)) then WeekendShifts()
    else []
  }

  /** The two shifts a weekend job is assumed to have. */
  function WeekendShifts(): seq<Scheduler.Slot> {
    [ Scheduler.Slot("Saturday", Scheduler.Clock(TenAm), Scheduler.Clock(FourPm)),
      Scheduler.Slot("Sunday", Scheduler.Clock(TenAm), Scheduler.Clock(FourPm)) ]
  }

  /** The normalised job fields; `postedAt` is the clock reading the caller supplies. */
  datatype NormalizedJob = NormalizedJob(
    title: RawValue, companyName: RawValue, description: RawValue, location: RawValue,
    salaryMin: Option<real>, salaryMax: Option<real>, currency: RawValue, source: string,
    externalId: RawValue, externalUrl: RawValue, postedAt: int, isActive: bool,
    shifts: seq<Scheduler.Slot>)

  /** Why normalisation stops: a truthy description that is not text cannot be lower-cased. */
  datatype NormalizeError = DescriptionNotText

  /** The shifts read off a description value. */
  function ShiftsOf(description: RawValue): (r: Result<seq<Scheduler.Slot>, NormalizeError>)
    ensures !Truthy(description) ==> r == Success([])
    ensures description.Str? ==> r == Success(ExtractShifts(description.s))
    ensures r.Failure? <==> description.Number? && Truthy(description)
  {
    match description
    case Str(s) => Success(ExtractShifts(s))
    case Null => Success([])
    case Number(x) => if x == 0.0 then Success([]) else Failure(DescriptionNotText)
  }

  /** `normalize_job_data`: source-specific keys first, generic keys as fallback. */
  function NormalizeJob(raw: RawJob, source: string, now: int, parseFloat: string -> Option<real>)
    : (r: Result<NormalizedJob, NormalizeError>)
    // Only a description (after the fallback) that is a non-zero number stops normalisation.
    ensures r.Failure? <==> (var d := FirstTruthy(raw, "jobDescription", "description"); d.Number? && Truthy(d))
    ensures r.Success? ==>
      var n := r.value;
      && (Truthy(Get(raw, "jobTitle")) ==> n.title == Get(raw, "jobTitle"))
      && (!Truthy(Get(raw, "jobTitle")) ==> n.title == Get(raw, "title"))
      && (Truthy(Get(raw, "employerName")) ==> n.companyName == Get(raw, "employerName"))
      && (!Truthy(Get(raw, "employerName")) ==> n.companyName == Get(raw, "company"))
      && (Truthy(Get(raw, "jobDescription")) ==> n.description == Get(raw, "jobDescription"))
      && (!Truthy(Get(raw, "jobDescription")) ==> n.description == Get(raw, "description"))
      && (Truthy(Get(raw, "locationName")) ==> n.location == Get(raw, "locationName"))
      && (!Truthy(Get(raw, "locationName")) ==> n.location == Get(raw, "location"))
      && (Truthy(Get(raw, "jobId")) ==> n.externalId == Get(raw, "jobId"))
      && (!Truthy(Get(raw, "jobId")) ==> n.externalId == Get(raw, "id"))
      && (Truthy(Get(raw, "jobUrl")) ==> n.externalUrl == Get(raw, "jobUrl"))
      && (!Truthy(Get(raw, "jobUrl")) ==> n.externalUrl == Get(raw, "url"))
      && n.salaryMin == ParseSalary(Get(raw, "minimumSalary"), parseFloat)
      && n.salaryMax == ParseSalary(Get(raw, "maximumSalary"), parseFloat)
      && ("currency" !in raw ==> n.currency == Str("GBP"))
      && ("currency" in raw ==> n.currency == raw["currency"])
      && n.source == source && n.postedAt == now && n.isActive
      && (n.description.Str? ==> n.shifts == ExtractShifts(n.description.s))
      && (!Truthy(n.description) ==> n.shifts == [])
  {
    var description := FirstTruthy(raw, "jobDescription", "description");
    match ShiftsOf(description)
    case Failure(e) => Failure(e)
    case Success(shifts) =>
      Success(NormalizedJob(
        FirstTruthy(raw, "jobTitle", "title"),
        FirstTruthy(raw, "employerName", "company"),
        description,
        FirstTruthy(raw, "locationName", "location"),
        ParseSalary(Get(raw, "minimumSalary"), parseFloat),
        ParseSalary(Get(raw, "maximumSalary"), parseFloat),
        if "currency" in raw then raw["currency"] else Str("GBP"),
        source,
        FirstTruthy(raw, "jobId", "id"),
        FirstTruthy(raw, "jobUrl", "url"),
        now,
        true,
        shifts))
  }

  /** Weekend shifts found in a description fit perfectly around a timetable with no weekend classes. */
  lemma WeekendShiftsFitWeekdayTimetable(a: Scheduler.Analyzer, timetable: seq<Scheduler.Slot>, text: string)
    requires forall c :: c in timetable ==> Text.Lower(c.day) != "saturday" && Text.Lower(c.day) != "sunday"
    ensures Scheduler.AnalyzeFit(a, timetable, ExtractShifts(text)).score == 100
    ensures Scheduler.AnalyzeFit(a, timetable, ExtractShifts(text)).status == Scheduler.PerfectFit
  {
    if |ExtractShifts(text)| > 0 {
      WeekendShiftsAreFree(a, timetable);
    }
  }

  lemma WeekendShiftsAreFree(a: Scheduler.Analyzer, timetable: seq<Scheduler.Slot>)
    requires forall c :: c in timetable ==> Text.Lower(c.day) != "saturday" && Text.Lower(c.day) != "sunday"
    ensures Scheduler.AnalyzeFit(a, timetable, WeekendShifts()) == Scheduler.FitResult(100, Scheduler.PerfectFit, Scheduler.Messages([]))
  {
    assert Text.Lower("Saturday") == "saturday";
    assert Text.Lower("Sunday") == "sunday";
    Scheduler.NoSharedDayIsPerfect(a, timetable, WeekendShifts());
  }

  /** The shift heuristic ignores letter case: a lower-cased description gives the same shifts. */
  lemma ExtractShiftsIgnoresCase(text: string)
    ensures ExtractShifts(Text.Lower(text)) == ExtractShifts(text)
  {
    Text.LowerIdempotent(text);
  }
}
