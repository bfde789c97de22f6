/**
 * Electricity measurements: daily and monthly values, each kind kept in its
 * own repository; no metadata.
 */
module ElectricityMeasurements {
  import opened Wrappers
  import opened MeasurementRows
  import opened Measurements
  import opened Storage

  function MonthAttributes(row: ElectricityMonthRow): Reading {
    row.reading
  }

  function DayAttributes(row: ElectricityDayRow): Reading {
    row.reading
  }

  /**
   * The response for one page of a repository: empty when the requested page
   * lies beyond the last one; otherwise the page's non-null rows, in order,
   * decorated with the caller's party, the aggregation and ELECTRICITY.
   */
  function Respond<R(!new)>(
    params: MeasurementParameters, aggregation: Aggregation, matches: Page<R>, attributes: R -> Reading)
    : (r: MeasurementResponse)
    ensures matches.totalPages < params.page ==> r.measurements == []
    ensures matches.totalPages >= params.page ==>
      var rows := Present(matches.content.GetOr([]));
      |r.measurements| == |rows| &&
      forall i :: 0 <= i < |rows| ==>
        r.measurements[i].partyId == params.partyId && r.measurements[i].aggregation == Some(aggregation) &&
        r.measurements[i].category == Some(Electricity) &&
        r.measurements[i].facilityId == attributes(rows[i]).facilityId &&
        r.measurements[i].measurementTimestamp == attributes(rows[i]).measurementTimestamp &&
        r.measurements[i].unit == attributes(rows[i]).unit && r.measurements[i].value == attributes(rows[i]).usage &&
        r.measurements[i].metaData == []
    ensures r.metaData == PagingMetaData(|r.measurements|, params.limit, params.page, matches.totalPages, matches.totalElements)
  {
    var measurements := if matches.totalPages < params.page then [] else ToMeasurements(matches.content, attributes, params, aggregation, Electricity);
    ToMeasurementResponse(params, matches.totalPages, matches.totalElements, measurements)
  }

  class ElectricityMeasurementProvider {
    const electricityMonthRepository: Repository<ElectricityMonthRow>
    const electricityDayRepository: Repository<ElectricityDayRow>

    constructor (monthRepository: Repository<ElectricityMonthRow>, dayRepository: Repository<ElectricityDayRow>)
      ensures electricityMonthRepository == monthRepository && electricityDayRepository == dayRepository
    {
      electricityMonthRepository := monthRepository;
      electricityDayRepository := dayRepository;
    }

    /**
     * getMeasurements: DAY is answered from the day repository only, MONTH
     * from the month repository only; any other aggregation fails with
     * NOT_IMPLEMENTED and neither repository is asked.
     */
    method GetMeasurements(
      legalId: Option<string>, aggregateOn: Aggregation, fromDateTime: Option<Timestamp>, toDateTime: Option<Timestamp>,
      parameters: MeasurementParameters)
      returns (r: Result<MeasurementResponse, Problem>)
      modifies electricityMonthRepository, electricityDayRepository
      ensures aggregateOn != Day && aggregateOn != Month ==>
        r == Failure(NotImplemented(aggregateOn, Electricity)) &&
        electricityMonthRepository.calls == old(electricityMonthRepository.calls) &&
        electricityDayRepository.calls == old(electricityDayRepository.calls)
      ensures aggregateOn == Day ==>
        electricityMonthRepository.calls == old(electricityMonthRepository.calls) &&
        var pageable := PageRequestOf(parameters.page - 1, parameters.limit, parameters.sort);
        (pageable.Failure? ==>
          r == Failure(pageable.error) && electricityDayRepository.calls == old(electricityDayRepository.calls)) &&
        (pageable.Success? ==>
          var query := Query(legalId, parameters.facilityId, fromDateTime, toDateTime, pageable.value);
          electricityDayRepository.calls == old(electricityDayRepository.calls) + [query] &&
          r == Success(Respond(parameters, Day, electricityDayRepository.storage(query), DayAttributes)))
      ensures aggregateOn == Month ==>
        electricityDayRepository.calls == old(electricityDayRepository.calls) &&
        var pageable := PageRequestOf(parameters.page - 1, parameters.limit, parameters.sort);
        (pageable.Failure? ==>
          r == Failure(pageable.error) && electricityMonthRepository.calls == old(electricityMonthRepository.calls)) &&
        (pageable.Success? ==>
          var query := Query(legalId, parameters.facilityId, fromDateTime, toDateTime, pageable.value);
          electricityMonthRepository.calls == old(electricityMonthRepository.calls) + [query] &&
          r == Success(Respond(parameters, Month, electricityMonthRepository.storage(query), MonthAttributes)))
    {
      match aggregateOn {
        case Day => r := GetElectricityDay(legalId, fromDateTime, toDateTime, parameters);
        case Month => r := GetElectricityMonth(legalId, fromDateTime, toDateTime, parameters);
        case _ => r := Failure(NotImplemented(aggregateOn, Electricity));
      }
    }

    /** getElectricityMonth: one query of the month repository with page request (page - 1, limit, sort). */
    method GetElectricityMonth(
      legalId: Option<string>, fromDateTime: Option<Timestamp>, toDateTime: Option<Timestamp>, parameters: MeasurementParameters)
      returns (r: Result<MeasurementResponse, Problem>)
      modifies electricityMonthRepository
      ensures var pageable := PageRequestOf(parameters.page - 1, parameters.limit, parameters.sort);
        (pageable.Failure? ==>
          r == Failure(pageable.error) && electricityMonthRepository.calls == old(electricityMonthRepository.calls)) &&
        (pageable.Success? ==>
          var query := Query(legalId, parameters.facilityId, fromDateTime, toDateTime, pageable.value);
          electricityMonthRepository.calls == old(electricityMonthRepository.calls) + [query] &&
          r == Success(Respond(parameters, Month, electricityMonthRepository.storage(query), MonthAttributes)))
    {
      var pageable :- PageRequestOf(parameters.page - 1, parameters.limit, parameters.sort);
      var matches := electricityMonthRepository.FindAllMatching(legalId, parameters.facilityId, fromDateTime, toDateTime, pageable);
      r := Success(Respond(parameters, Month, matches, MonthAttributes));
    }

    /** getElectricityDay: one query of the day repository with page request (page - 1, limit, sort). */
    method GetElectricityDay(
      legalId: Option<string>, fromDateTime: Option<Timestamp>, toDateTime: Option<Timestamp>, parameters: MeasurementParameters)
      returns (r: Result<MeasurementResponse, Problem>)
      modifies electricityDayRepository
      ensures var pageable := PageRequestOf(parameters.page - 1, parameters.limit, parameters.sort);
        (pageable.Failure? ==>
          r == Failure(pageable.error) && electricityDayRepository.calls == old(electricityDayRepository.calls)) &&
        (pageable.Success? ==>
          var query := Query(legalId, parameters.facilityId, fromDateTime, toDateTime, pageable.value);
          electricityDayRepository.calls == old(electricityDayRepository.calls) + [query] &&
          r == Success(Respond(parameters, Day, electricityDayRepository.storage(query), DayAttributes)))
    {
      var pageable :- PageRequestOf(parameters.page - 1, parameters.limit, parameters.sort);
      var matches := electricityDayRepository.FindAllMatching(legalId, parameters.facilityId, fromDateTime, toDateTime, pageable);
      r := Success(Respond(parameters, Day, matches, DayAttributes));
    }
  }
}
