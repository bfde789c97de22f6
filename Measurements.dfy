/**
 * The measurement API model (aggregations, categories, measurements, paging
 * parameters and responses) and the shared mapping steps of MeasurementMapper.
 */
module Measurements {
  import opened Wrappers
  import opened MeasurementRows

  /**
   * Time granularity of a measurement. OtherAggregation stands only for the
   * enum's further constants, so its name is never "HOUR", "DAY" or "MONTH".
   */
  datatype Aggregation = Hour | Day | Month | OtherAggregation(name: string)

  /**
   * Utility type of a measurement. OtherCategory stands only for the enum's
   * further constants, so its name is never "DISTRICT_HEATING" or "ELECTRICITY".
   */
  datatype Category = DistrictHeating | Electricity | OtherCategory(name: string)

  /** The enum constant's name, as `String.format("%s", aggregation)` prints it. */
  function AggregationName(a: Aggregation): string {
    match a
    case Hour => "HOUR"
    case Day => "DAY"
    case Month => "MONTH"
    case OtherAggregation(name) => name
  }

  function CategoryName(c: Category): string {
    match c
    case DistrictHeating => "DISTRICT_HEATING"
    case Electricity => "ELECTRICITY"
    case OtherCategory(name) => name
  }

  /** The failures a measurement query can end in. */
  datatype Problem =
    | NotImplemented(aggregation: Aggregation, category: Category)  // Status.NOT_IMPLEMENTED
    | IllegalArgument(reason: string)                               // thrown by PageRequest.of

  /** The detail of a NOT_IMPLEMENTED problem: "aggregation '<agg>' and category '<category>'". */
  function NotImplementedDetail(aggregation: Aggregation, category: Category): (detail: string)
    ensures |detail| == 30 + |AggregationName(aggregation)| + |CategoryName(category)|
    ensures detail[..13] == "aggregation '"
    ensures detail[13..13 + |AggregationName(aggregation)|] == AggregationName(aggregation)
    ensures detail[13 + |AggregationName(aggregation)|..13 + |AggregationName(aggregation)| + 16] == "' and category '"
    ensures detail[|detail| - |CategoryName(category)| - 1..] == CategoryName(category) + "'"
  {
    "aggregation '" + AggregationName(aggregation) + "' and category '" + CategoryName(category) + "'"
  }

  /** The message of an unsupported hourly district heating query names both inputs. */
  lemma HourDistrictHeatingDetail()
    ensures NotImplementedDetail(Hour, DistrictHeating) == "aggregation 'HOUR' and category 'DISTRICT_HEATING'"
  {
  }

  /** One key/value metadata entry of a measurement; the value may be null. */
  datatype MetaData = MetaData(key: string, value: Option<string>)

  /** A measurement as the API returns it. */
  datatype Measurement = Measurement(
    partyId: Option<string>,
    aggregation: Option<Aggregation>,
    category: Option<Category>,
    facilityId: Option<string>,
    measurementTimestamp: Option<Timestamp>,
    unit: Option<string>,
    value: Option<Usage>,
    metaData: seq<MetaData>)

  datatype Direction = Asc | Desc

  /** A sort specification: a direction and the properties to sort by. */
  datatype Sort = Sort(direction: Direction, properties: seq<string>)

  /** The caller's search parameters: party, facility, 1-based page, page size and sort. */
  datatype MeasurementParameters = MeasurementParameters(
    partyId: Option<string>,
    facilityId: Option<string>,
    page: int,
    limit: int,
    sort: Sort)

  /** The parameters a fresh MeasurementParameters object carries: page 1, limit 100, ascending measurementTimestamp. */
  function DefaultParameters(): (params: MeasurementParameters)
    ensures params.page == 1 && params.limit == 100
    ensures params.sort == Sort(Asc, ["measurementTimestamp"])
    ensures params.partyId.None? && params.facilityId.None?
  {
    MeasurementParameters(None, None, 1, 100, Sort(Asc, ["measurementTimestamp"]))
  }

  /** The page description of a response. */
  datatype PagingMetaData = PagingMetaData(count: int, limit: int, page: int, totalPages: int, totalRecords: int)

  datatype MeasurementResponse = MeasurementResponse(measurements: seq<Measurement>, metaData: PagingMetaData)

  /** The rows of a list that are not null, in list order (`.filter(Objects::nonNull)`). */
  function Present<T(!new)>(s: seq<Option<T>>): (r: seq<T>)
    ensures |r| <= |s|
    ensures forall x :: x in r <==> Some(x) in s
  {
    if s == [] then []
    else
      var rest := Present(s[..|s| - 1]);
      assert forall o :: o in s <==> o in s[..|s| - 1] || o == s[|s| - 1];
      if s[|s| - 1].Some? then rest + [s[|s| - 1].value] else rest
  }

  /** Dropping nulls commutes with concatenation, so the rows that remain keep their relative order. */
  lemma {:induction false} PresentDistributes<T(!new)>(a: seq<Option<T>>, b: seq<Option<T>>)
    ensures Present(a + b) == Present(a) + Present(b)
  {
    if b != [] {
      assert (a + b)[..|a + b| - 1] == a + b[..|b| - 1];
      PresentDistributes(a, b[..|b| - 1]);
    } else {
      assert a + b == a;
    }
  }

  /** A list without nulls loses nothing. */
  lemma {:induction false} PresentKeepsAll<T(!new)>(s: seq<Option<T>>)
    requires forall i :: 0 <= i < |s| ==> s[i].Some?
    ensures |Present(s)| == |s|
    ensures forall i :: 0 <= i < |s| ==> Present(s)[i] == s[i].value
  {
    if s != [] {
      PresentKeepsAll(s[..|s| - 1]);
    }
  }

  /** MeasurementMapper.toMeasurement: the shared columns of a row, not yet decorated, with no metadata. */
  function ToMeasurement(r: Reading): (m: Measurement)
    ensures m.facilityId == r.facilityId && m.measurementTimestamp == r.measurementTimestamp
    ensures m.unit == r.unit && m.value == r.usage
    ensures m.partyId.None? && m.aggregation.None? && m.category.None? && m.metaData == []
  {
    Measurement(None, None, None, r.facilityId, r.measurementTimestamp, r.unit, r.usage, [])
  }

  /** MeasurementMapper.decorateMeasurement: sets party, aggregation and category and changes nothing else. */
  function Decorate(m: Measurement, partyId: Option<string>, aggregation: Aggregation, category: Category): (d: Measurement)
    ensures d.partyId == partyId && d.aggregation == Some(aggregation) && d.category == Some(category)
    ensures d.(partyId := m.partyId, aggregation := m.aggregation, category := m.category) == m
  {
    m.(partyId := partyId, aggregation := Some(aggregation), category := Some(category))
  }

  /**
   * MeasurementMapper.toMeasurements: the non-null rows, in storage order,
   * mapped by their shared columns (`attributes` reads them off a row) and
   * decorated with the caller's party, the aggregation and the category.
   */
  function ToMeasurements<R(!new)>(
    content: Option<seq<Option<R>>>, attributes: R -> Reading,
    params: MeasurementParameters, aggregation: Aggregation, category: Category)
    : (ms: seq<Measurement>)
    ensures var rows := Present(content.GetOr([]));
      |ms| == |rows| &&
      forall i :: 0 <= i < |rows| ==>
        ms[i].partyId == params.partyId && ms[i].aggregation == Some(aggregation) && ms[i].category == Some(category) &&
        ms[i].facilityId == attributes(rows[i]).facilityId &&
        ms[i].measurementTimestamp == attributes(rows[i]).measurementTimestamp &&
        ms[i].unit == attributes(rows[i]).unit && ms[i].value == attributes(rows[i]).usage && ms[i].metaData == []
  {
    var rows := Present(content.GetOr([]));
    seq(|rows|, i requires 0 <= i < |rows| => Decorate(ToMeasurement(attributes(rows[i])), params.partyId, aggregation, category))
  }

  /** MeasurementMapper.toMeasurementResponse: the list with its page description. */
  function ToMeasurementResponse(params: MeasurementParameters, totalPages: int, totalRecords: int, measurements: seq<Measurement>)
    : (r: MeasurementResponse)
    ensures r.measurements == measurements
    ensures r.metaData.count == |measurements| && r.metaData.limit == params.limit && r.metaData.page == params.page
    ensures r.metaData.totalPages == totalPages && r.metaData.totalRecords == totalRecords
  {
    MeasurementResponse(measurements, PagingMetaData(|measurements|, params.limit, params.page, totalPages, totalRecords))
  }
}
