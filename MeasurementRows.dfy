/**
 * The measurement rows that the warehouse views return, and the three
 * attributes the measurement filters name.
 */
module MeasurementRows {
  import opened Wrappers
  import opened Predicates

  /** A date-time: nanoseconds since 1970-01-01T00:00 (see module Calendar). */
  type Timestamp = int

  /** A decimal(28,10) usage value, as an integer count of 10^-10 units; it is carried, never computed with. */
  type Usage = int

  /**
   * The columns every measurement view shares (customerorgid, uuid,
   * facilityId, feedType, isInterpolted, Date, unit, Usage). Together they are
   * the row's natural key; uuid is optional.
   */
  datatype Reading = Reading(
    customerOrgId: string,
    uuid: Option<string>,
    facilityId: Option<string>,
    feedType: Option<string>,
    interpolation: int,
    measurementTimestamp: Option<Timestamp>,
    unit: Option<string>,
    usage: Option<Usage>)

  /** A row of the district heating month view: the shared columns plus reading sequence and feed type id. */
  datatype DistrictHeatingMonthRow = DistrictHeatingMonthRow(reading: Reading, readingSequence: Option<int>, feedTypeId: Option<int>)

  /** A row of the electricity month view. */
  datatype ElectricityMonthRow = ElectricityMonthRow(reading: Reading)

  /** A row of the electricity day view. */
  datatype ElectricityDayRow = ElectricityDayRow(reading: Reading)

  /** The attributes the measurement specifications filter on. */
  datatype Attr = CustomerOrgId | FacilityId | MeasurementTimestamp

  /** `root.get(attribute)` on a measurement row. */
  function Get(r: Reading, a: Attr): Option<Value> {
    match a
    case CustomerOrgId => Some(Text(r.customerOrgId))
    case FacilityId => AsText(r.facilityId)
    case MeasurementTimestamp => AsTime(r.measurementTimestamp)
  }

  function View(r: Reading): Attr -> Option<Value> {
    a => Get(r, a)
  }

  /** Every measurement filter reads only the three filterable columns, so rows equal on those are selected alike. */
  lemma {:induction false} SameKeyColumnsSelectedAlike(p: Pred<Attr>, r1: Reading, r2: Reading)
    requires r1.customerOrgId == r2.customerOrgId
    requires r1.facilityId == r2.facilityId
    requires r1.measurementTimestamp == r2.measurementTimestamp
    ensures Holds(p, View(r1)) == Holds(p, View(r2))
  {
    forall a | a in Mentioned(p)
      ensures View(r1)(a) == View(r2)(a)
    {
    }
    HoldsReadsOnlyMentioned(p, View(r1), View(r2));
  }
}
