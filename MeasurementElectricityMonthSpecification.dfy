/**
 * The filters that the electricity month repository combines, one builder per filterable
 * column of an electricity month row.
 */
module MeasurementElectricityMonthSpecification {
  import opened Wrappers
  import opened Predicates
  import opened MeasurementRows

  /** A row as the filters see it: only its shared measurement columns. */
  function RowView(row: ElectricityMonthRow): Attr -> Option<Value> {
    View(row.reading)
  }

  /** Whether p selects the row. */
  predicate Matches(p: Pred<Attr>, row: ElectricityMonthRow) {
    Holds(p, RowView(row))
  }

  /** withCustomerOrgId: the customer organisation must equal the value; null leaves it unconstrained. */
  function WithCustomerOrgId(customerOrgId: Option<string>): (p: Pred<Attr>)
    ensures Mentioned(p) <= {CustomerOrgId}
    ensures forall row :: Matches(p, row) <==> customerOrgId.None? || row.reading.customerOrgId == customerOrgId.value
  {
    EqualFilterMeaning(CustomerOrgId, AsText(customerOrgId));
    EqualFilter(CustomerOrgId, AsText(customerOrgId))
  }

  /** withfacilityId: the facility must equal the value (a NULL facility never does); null leaves it unconstrained. */
  function WithFacilityId(facilityId: Option<string>): (p: Pred<Attr>)
    ensures Mentioned(p) <= {FacilityId}
    ensures forall row :: Matches(p, row) <==> facilityId.None? || row.reading.facilityId == facilityId
  {
    EqualFilterMeaning(FacilityId, AsText(facilityId));
    EqualFilter(FacilityId, AsText(facilityId))
  }

  /** withMeasurementTimestamp: the timestamp must lie in the window, each present bound included. */
  function WithMeasurementTimestamp(from: Option<Timestamp>, to: Option<Timestamp>): (p: Pred<Attr>)
    ensures Mentioned(p) <= {MeasurementTimestamp}
    ensures forall row :: Matches(p, row) <==>
      (from.None? && to.None?) ||
      (row.reading.measurementTimestamp.Some? && InWindow(row.reading.measurementTimestamp.value, from, to))
  {
    RangeFilterMeaning(MeasurementTimestamp, from, to);
    RangeFilter(MeasurementTimestamp, from, to)
  }

  /** The conjunction of the three builders that the repository's findAllMatching applies. */
  function MatchingFilter(customerOrgId: Option<string>, facilityId: Option<string>, from: Option<Timestamp>, to: Option<Timestamp>): (p: Pred<Attr>)
    ensures forall row :: Matches(p, row) <==>
      (customerOrgId.None? || row.reading.customerOrgId == customerOrgId.value) &&
      (facilityId.None? || row.reading.facilityId == facilityId) &&
      ((from.None? && to.None?) ||
       (row.reading.measurementTimestamp.Some? && InWindow(row.reading.measurementTimestamp.value, from, to)))
  {
    var byOrg, byFacility, byTime := WithCustomerOrgId(customerOrgId), WithFacilityId(facilityId), WithMeasurementTimestamp(from, to);
    assert forall row :: Matches(And(byOrg, byFacility), row) <==> Matches(byOrg, row) && Matches(byFacility, row);
    assert forall row :: Matches(And(And(byOrg, byFacility), byTime), row) <==>
      Matches(And(byOrg, byFacility), row) && Matches(byTime, row);
    And(And(byOrg, byFacility), byTime)
  }

  /** With every argument absent, the combined filter selects the whole table, in its order. */
  lemma NoFilteringSelectsWholeTable(table: seq<ElectricityMonthRow>)
    ensures Select(table, MatchingFilter(None, None, None, None), RowView) == table
  {
    SelectEverything(table, MatchingFilter(None, None, None, None), RowView);
  }
}
