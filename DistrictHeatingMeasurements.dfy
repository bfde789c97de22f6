/**
 * District heating measurements: only monthly values exist; each carries
 * its reading sequence and feed type id as metadata.
 */
module DistrictHeatingMeasurements {
  import opened Wrappers
  import opened MeasurementRows
  import opened Measurements
  import opened Storage

  const ReadingSequenceKey: string := "readingSequence"
  const FeedTypeIdKey: string := "feedTypeId"

  predicate IsDigit(c: char) {
    '0' <= c <= '9'
  }

  predicate AllDigits(s: string) {
    forall i :: 0 <= i < |s| ==> IsDigit(s[i])
  }

  /** The decimal digits of a natural number, most significant first, without leading zeros. */
  function Digits(n: nat): (s: string)
    ensures |s| >= 1 && AllDigits(s)
    ensures s[0] == '0' <==> n == 0
  {
    if n < 10 then [(48 + n) as char] else Digits(n / 10) + [(48 + n % 10) as char]
  }

  /** The number a string of decimal digits denotes. */
  function DigitsValue(s: string): nat
    requires AllDigits(s)
  {
    if s == [] then 0 else DigitsValue(s[..|s| - 1]) * 10 + (s[|s| - 1] as int - 48)
  }

  lemma {:induction false} DigitsRoundTrip(n: nat)
    ensures DigitsValue(Digits(n)) == n
  {
    if n >= 10 {
      var s := Digits(n);
      assert s[..|s| - 1] == Digits(n / 10);
      DigitsRoundTrip(n / 10);
    }
  }

  /** A decimal integer: an optional minus sign followed by at least one digit. */
  predicate IsDecimal(s: string) {
    if |s| > 0 && s[0] == '-' then |s| > 1 && AllDigits(s[1..]) else |s| > 0 && AllDigits(s)
  }

  /** String.valueOf(int): a minus sign for negative numbers, then the digits of the magnitude. */
  function DecimalString(n: int): (s: string)
    ensures IsDecimal(s)
    ensures s[0] == '-' <==> n < 0
    ensures n == 0 ==> s == "0"
    ensures n != 0 ==> s[if n < 0 then 1 else 0] != '0'
  {
    if n < 0 then "-" + Digits(-n) else Digits(n)
  }

  /** Integer.parseInt on a decimal integer. */
  function ParseDecimal(s: string): int
    requires IsDecimal(s)
  {
    if s[0] == '-' then -(DigitsValue(s[1..]) as int) else DigitsValue(s)
  }

  /** The decimal string of a number reads back as the same number. */
  lemma DecimalRoundTrip(n: int)
    ensures ParseDecimal(DecimalString(n)) == n
  {
    if n < 0 {
      assert DecimalString(n)[1..] == Digits(-n);
      DigitsRoundTrip(-n);
    } else {
      DigitsRoundTrip(n);
    }
  }

  /** toString(Integer): the decimal string of the value, or null for null. */
  function ToString(value: Option<int>): (s: Option<string>)
    ensures s.None? <==> value.None?
    ensures value.Some? ==> IsDecimal(s.value) && ParseDecimal(s.value) == value.value
    ensures value.Some? ==> s == Some(DecimalString(value.value))
    ensures value == Some(0) ==> s == Some("0")
    ensures value.Some? && value.value != 0 ==> s.value[if value.value < 0 then 1 else 0] != '0'
  {
    if value.Some? then
      DecimalRoundTrip(value.value);
      Some(DecimalString(value.value))
    else
      None
  }

  /** toMetadata: exactly two entries, the reading sequence first and the feed type id second. */
  function ToMetadata(row: DistrictHeatingMonthRow): (md: seq<MetaData>)
    ensures |md| == 2
    ensures md[0].key == ReadingSequenceKey && md[0].value == ToString(row.readingSequence)
    ensures md[1].key == FeedTypeIdKey && md[1].value == ToString(row.feedTypeId)
  {
    [MetaData(ReadingSequenceKey, ToString(row.readingSequence)), MetaData(FeedTypeIdKey, ToString(row.feedTypeId))]
  }

  /** toMeasurement: the shared columns of the row, with the row's metadata. */
  function ToMeasurementWithMetadata(row: DistrictHeatingMonthRow): (m: Measurement)
    ensures m.facilityId == row.reading.facilityId && m.measurementTimestamp == row.reading.measurementTimestamp
    ensures m.unit == row.reading.unit && m.value == row.reading.usage
    ensures m.metaData == ToMetadata(row)
  {
    ToMeasurement(row.reading).(metaData := ToMetadata(row))
  }

  /**
   * toMeasurements: a null list counts as empty; null rows are dropped; the
   * rest keep their order and are decorated with the caller's party, the
   * aggregation and DISTRICT_HEATING.
   */
  function ToDistrictHeatingMeasurements(entities: Option<seq<Option<DistrictHeatingMonthRow>>>, params: MeasurementParameters, aggregation: Aggregation)
    : (ms: seq<Measurement>)
    ensures var rows := Present(entities.GetOr([]));
      |ms| == |rows| &&
      forall i :: 0 <= i < |rows| ==>
        ms[i].partyId == params.partyId && ms[i].aggregation == Some(aggregation) && ms[i].category == Some(DistrictHeating) &&
        ms[i].facilityId == rows[i].reading.facilityId && ms[i].measurementTimestamp == rows[i].reading.measurementTimestamp &&
        ms[i].unit == rows[i].reading.unit && ms[i].value == rows[i].reading.usage &&
        ms[i].metaData == ToMetadata(rows[i])
  {
    var rows := Present(entities.GetOr([]));
    seq(|rows|, i requires 0 <= i < |rows| => Decorate(ToMeasurementWithMetadata(rows[i]), params.partyId, aggregation, DistrictHeating))
  }

  /**
   * The response for one page of the repository: empty when the requested
   * page lies beyond the last one, whatever the page holds; the caller's page
   * and limit; the repository's totals.
   */
  function Respond(params: MeasurementParameters, aggregation: Aggregation, matches: Page<DistrictHeatingMonthRow>)
    : (r: MeasurementResponse)
    ensures matches.totalPages < params.page ==> r.measurements == []
    ensures matches.totalPages >= params.page ==> r.measurements == ToDistrictHeatingMeasurements(matches.content, params, aggregation)
    ensures r.metaData == PagingMetaData(|r.measurements|, params.limit, params.page, matches.totalPages, matches.totalElements)
  {
    var measurements := if matches.totalPages < params.page then [] else ToDistrictHeatingMeasurements(matches.content, params, aggregation);
    ToMeasurementResponse(params, matches.totalPages, matches.totalElements, measurements)
  }

  /** A default request asks the repository for page index 0 of 100 rows, by ascending measurementTimestamp. */
  lemma DefaultParametersAskForFirstPage()
    ensures PageRequestOf(DefaultParameters().page - 1, DefaultParameters().limit, DefaultParameters().sort)
         == Success(PageRequest(0, 100, Sort(Asc, ["measurementTimestamp"])))
  {
  }

  /** Asking for page 2 of a one-page result gives no measurements but reports page 2 and the repository's totals. */
  lemma PageBeyondLastIsEmpty(content: Option<seq<Option<DistrictHeatingMonthRow>>>, totalElements: nat)
    ensures var r := Respond(DefaultParameters().(page := 2), Month, Page(content, 1, totalElements));
      r.measurements == [] && r.metaData == PagingMetaData(0, 100, 2, 1, totalElements)
  {
  }

  /** The metadata of a row with reading sequence 22 and feed type id 33 carries "22" and "33". */
  lemma MetadataOfSampleRow(reading: Reading)
    ensures ToMetadata(DistrictHeatingMonthRow(reading, Some(22), Some(33)))
         == [MetaData("readingSequence", Some("22")), MetaData("feedTypeId", Some("33"))]
  {
    assert Digits(22) == "22" by { assert Digits(2) == "2"; }
    assert Digits(33) == "33" by { assert Digits(3) == "3"; }
    assert ToString(Some(22)) == Some("22");
    assert ToString(Some(33)) == Some("33");
  }

  class DistrictHeatingMeasurementProvider {
    const districtHeatingMonthRepository: Repository<DistrictHeatingMonthRow>

    constructor (repository: Repository<DistrictHeatingMonthRow>)
      ensures districtHeatingMonthRepository == repository
    {
      districtHeatingMonthRepository := repository;
    }

    /**
     * getMeasurements: any aggregation but MONTH fails with NOT_IMPLEMENTED
     * before the repository is asked; MONTH asks it exactly once, with the
     * caller's filters unchanged and page request (page - 1, limit, sort).
     */
    method GetMeasurements(
      legalId: Option<string>, aggregation: Aggregation, fromDateTime: Option<Timestamp>, toDateTime: Option<Timestamp>,
      searchParams: MeasurementParameters)
      returns (r: Result<MeasurementResponse, Problem>)
      modifies districtHeatingMonthRepository
      ensures aggregation != Month ==>
        r == Failure(NotImplemented(aggregation, DistrictHeating)) &&
        districtHeatingMonthRepository.calls == old(districtHeatingMonthRepository.calls)
      ensures aggregation == Month ==>
        var pageable := PageRequestOf(searchParams.page - 1, searchParams.limit, searchParams.sort);
        (pageable.Failure? ==>
          r == Failure(pageable.error) && districtHeatingMonthRepository.calls == old(districtHeatingMonthRepository.calls)) &&
        (pageable.Success? ==>
          var query := Query(legalId, searchParams.facilityId, fromDateTime, toDateTime, pageable.value);
          districtHeatingMonthRepository.calls == old(districtHeatingMonthRepository.calls) + [query] &&
          r == Success(Respond(searchParams, aggregation, districtHeatingMonthRepository.storage(query))))
    {
      if aggregation != Month {
        return Failure(NotImplemented(aggregation, DistrictHeating));
      }
      var pageable :- PageRequestOf(searchParams.page - 1, searchParams.limit, searchParams.sort);
      var matches := districtHeatingMonthRepository.FindAllMatching(legalId, searchParams.facilityId, fromDateTime, toDateTime, pageable);
      r := Success(Respond(searchParams, aggregation, matches));
    }
  }
}
