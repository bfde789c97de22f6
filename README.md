# Data warehouse reader: query filters and measurement providers

This project models two parts of the data warehouse reader service.
The service is read-only: it answers questions about customers, agreements, invoices and metered usage (district heating and electricity) from a reporting database.

- **Query filters.** Each `*Specification` interface turns optional request arguments into a row predicate. A predicate is one of these:
  - an equality filter;
  - an IN-list filter;
  - an inclusive date range;
  - a "falls on this calendar day" filter.

  In the model a predicate is a small syntax tree (`Predicates.Pred`). Its meaning is `Predicates.Holds`, which reads a row through its column values. A NULL column never satisfies a comparison. An absent argument always gives the always-true predicate.
- **Measurement providers.** A provider does the following:
  - checks the aggregation it supports;
  - turns the caller's 1-based page into a page request;
  - asks its repository once;
  - returns an empty list when the caller asks for a page beyond the last;
  - maps the non-null rows, in order, to decorated measurements;
  - assembles the paging metadata.

  District heating also attaches a two-entry metadata list to each measurement.

The repositories are objects (`Storage.Repository`). What they answer is left open: it is any function of the query. A ghost log records every query they receive, so the provider methods can state that a repository was never called, or called exactly once and with which arguments.

Time is modelled as integers:
- A `LocalDateTime` is a count of nanoseconds since the epoch.
- A `LocalDate` is an epoch day.
- `LocalTime.MAX` is the last nanosecond of a day.
- Usage values (decimal(28,10)) are integers in units of 10^-10.

## Model

| member | source | states |
|---|---|---|
| Predicates.EqualFilter | src/main/java/se/sundsvall/datawarehousereader/integration/stadsbacken/specification/InvoiceSpecification.java:77-80 | an absent value gives the always-true predicate; the result reads only the named attribute |
| Predicates.EqualFilterMeaning | src/main/java/se/sundsvall/datawarehousereader/integration/stadsbacken/specification/InvoiceSpecification.java:77-80 | a present value holds exactly for the rows whose attribute equals it (a NULL attribute never does); an absent value holds for every row |
| Predicates.InFilter | src/main/java/se/sundsvall/datawarehousereader/integration/stadsbacken/specification/InvoiceSpecification.java:18-27 | a null or empty list gives the always-true predicate; the result reads only the named attribute |
| Predicates.InFilterMeaning | src/main/java/se/sundsvall/datawarehousereader/integration/stadsbacken/specification/InvoiceSpecification.java:18-27 | a non-empty list holds exactly for the rows whose attribute is one of its values; a null or empty list holds for every row |
| Predicates.RangeFilter | src/main/java/se/sundsvall/datawarehousereader/integration/stadsbacken/specification/InvoiceSpecification.java:90-104 | no bound gives the always-true predicate; the result reads only the named attribute |
| Predicates.RangeFilterMeaning | src/main/java/se/sundsvall/datawarehousereader/integration/stadsbacken/specification/InvoiceSpecification.java:90-104 | both bounds: from <= value <= to; only from: value >= from; only to: value <= to; neither: every row |
| Predicates.SameDayFilter | src/main/java/se/sundsvall/datawarehousereader/integration/stadsbacken/specification/AgreementSpecification.java:59-61 | an absent date gives the always-true predicate; the result reads only the named attribute |
| Predicates.SameDayFilterMeaning | src/main/java/se/sundsvall/datawarehousereader/integration/stadsbacken/specification/AgreementSpecification.java:59-61 | a present date holds exactly for the rows whose date-time lies on that calendar day; an absent date holds for every row |
| Predicates.HoldsReadsOnlyMentioned | src/main/java/se/sundsvall/datawarehousereader/integration/stadsbacken/specification/MeasurementDistrictHeatingMonthSpecification.java:13-23 | two rows that agree on every attribute a predicate mentions are selected alike, so no other column affects the result |
| Predicates.Texts | src/main/java/se/sundsvall/datawarehousereader/integration/stadsbacken/specification/InvoiceSpecification.java:106-111 | the clause operands for a list of strings: one per element, in order, and a string is an operand exactly when it is in the list |
| Predicates.Numbers | src/main/java/se/sundsvall/datawarehousereader/integration/stadsbacken/specification/InvoiceSpecification.java:113-118 | the clause operands for a list of integers: one per element, in order, and a number is an operand exactly when it is in the list |
| Predicates.InClause.constructor | src/main/java/se/sundsvall/datawarehousereader/integration/stadsbacken/specification/InvoiceSpecification.java:19 | a fresh IN clause on an attribute holds no operands |
| Predicates.InClause.AddValue | src/main/java/se/sundsvall/datawarehousereader/integration/stadsbacken/specification/InvoiceSpecification.java:108 | adds one operand at the end and keeps the rest |
| Predicates.Select | src/test/java/se/sundsvall/datawarehousereader/integration/stadsbacken/MeasurementElectricityDayRepositoryTest.java:201-209 | the rows of a table a predicate selects: a row is selected exactly when it is in the table and the predicate holds of it |
| Predicates.SelectEverything | src/test/java/se/sundsvall/datawarehousereader/integration/stadsbacken/MeasurementElectricityDayRepositoryTest.java:201-209 | a predicate that holds of every row selects the whole table, in order |
| Calendar.SameDay | src/main/java/se/sundsvall/datawarehousereader/integration/stadsbacken/specification/AgreementSpecification.java:60 | a date-time lies between the start of a day and LocalTime.MAX on that day exactly when its epoch day is that day |
| Calendar.SameDayEverywhere | src/main/java/se/sundsvall/datawarehousereader/integration/stadsbacken/specification/AgreementSpecification.java:60 | the same, for every date-time at once |
| MeasurementRows.SameKeyColumnsSelectedAlike | src/main/java/se/sundsvall/datawarehousereader/integration/stadsbacken/specification/MeasurementElectricityDaySpecification.java:13-23 | two readings with the same organisation, facility and timestamp are selected alike by every measurement filter |
| MeasurementDistrictHeatingMonthSpecification.WithCustomerOrgId | src/main/java/se/sundsvall/datawarehousereader/integration/stadsbacken/specification/MeasurementDistrictHeatingMonthSpecification.java:13-15 | reads only customerOrgId; a row matches exactly when the value is null or equals its customerOrgId |
| MeasurementDistrictHeatingMonthSpecification.WithFacilityId | src/main/java/se/sundsvall/datawarehousereader/integration/stadsbacken/specification/MeasurementDistrictHeatingMonthSpecification.java:17-19 | withfacilityId: reads only facilityId; a row matches exactly when the value is null or equals its facilityId |
| MeasurementDistrictHeatingMonthSpecification.WithMeasurementTimestamp | src/main/java/se/sundsvall/datawarehousereader/integration/stadsbacken/specification/MeasurementDistrictHeatingMonthSpecification.java:46-60 | reads only measurementTimestamp; neither bound matches every row, otherwise the timestamp must be present and lie within the given bounds, each bound inclusive |
| MeasurementDistrictHeatingMonthSpecification.MatchingFilter | src/main/java/se/sundsvall/datawarehousereader/integration/stadsbacken/specification/MeasurementDistrictHeatingMonthSpecification.java:13-23 | the conjunction of the three builders matches exactly the rows that satisfy all three conditions |
| MeasurementDistrictHeatingMonthSpecification.NoFilteringSelectsWholeTable | src/main/java/se/sundsvall/datawarehousereader/integration/stadsbacken/specification/MeasurementDistrictHeatingMonthSpecification.java:13-23 | with every argument absent the combined filter selects the whole table, in order |
| MeasurementElectricityMonthSpecification.WithCustomerOrgId | src/main/java/se/sundsvall/datawarehousereader/integration/stadsbacken/specification/MeasurementElectricityMonthSpecification.java:13-15 | reads only customerOrgId; a row matches exactly when the value is null or equals its customerOrgId |
| MeasurementElectricityMonthSpecification.WithFacilityId | src/main/java/se/sundsvall/datawarehousereader/integration/stadsbacken/specification/MeasurementElectricityMonthSpecification.java:17-19 | withfacilityId: reads only facilityId; a row matches exactly when the value is null or equals its facilityId |
| MeasurementElectricityMonthSpecification.WithMeasurementTimestamp | src/main/java/se/sundsvall/datawarehousereader/integration/stadsbacken/specification/MeasurementElectricityMonthSpecification.java:45-59 | reads only measurementTimestamp; neither bound matches every row, otherwise the timestamp must be present and lie within the given bounds, each bound inclusive |
| MeasurementElectricityMonthSpecification.MatchingFilter | src/main/java/se/sundsvall/datawarehousereader/integration/stadsbacken/specification/MeasurementElectricityMonthSpecification.java:13-23 | the conjunction of the three builders matches exactly the rows that satisfy all three conditions |
| MeasurementElectricityMonthSpecification.NoFilteringSelectsWholeTable | src/main/java/se/sundsvall/datawarehousereader/integration/stadsbacken/specification/MeasurementElectricityMonthSpecification.java:13-23 | with every argument absent the combined filter selects the whole table, in order |
| MeasurementElectricityDaySpecification.WithCustomerOrgId | src/main/java/se/sundsvall/datawarehousereader/integration/stadsbacken/specification/MeasurementElectricityDaySpecification.java:13-15 | reads only customerOrgId; a row matches exactly when the value is null or equals its customerOrgId |
| MeasurementElectricityDaySpecification.WithFacilityId | src/main/java/se/sundsvall/datawarehousereader/integration/stadsbacken/specification/MeasurementElectricityDaySpecification.java:17-19 | withfacilityId: reads only facilityId; a row matches exactly when the value is null or equals its facilityId |
| MeasurementElectricityDaySpecification.WithMeasurementTimestamp | src/main/java/se/sundsvall/datawarehousereader/integration/stadsbacken/specification/MeasurementElectricityDaySpecification.java:45-59 | reads only measurementTimestamp; neither bound matches every row, otherwise the timestamp must be present and lie within the given bounds, each bound inclusive |
| MeasurementElectricityDaySpecification.MatchingFilter | src/main/java/se/sundsvall/datawarehousereader/integration/stadsbacken/specification/MeasurementElectricityDaySpecification.java:13-23 | the conjunction of the three builders matches exactly the rows that satisfy all three conditions |
| MeasurementElectricityDaySpecification.NoFilteringSelectsWholeTable | src/main/java/se/sundsvall/datawarehousereader/integration/stadsbacken/specification/MeasurementElectricityDaySpecification.java:13-23 | with every argument absent the combined filter selects the whole table, in order |
| MeasurementElectricityDaySpecification.SingleInstantWindow | src/main/java/se/sundsvall/datawarehousereader/integration/stadsbacken/specification/MeasurementElectricityDaySpecification.java:48-49 | a window with from = to selects exactly the rows at that instant (given the organisation and facility conditions) |
| MeasurementElectricityDaySpecification.UsageNeverFilters | src/main/java/se/sundsvall/datawarehousereader/integration/stadsbacken/specification/MeasurementElectricityDaySpecification.java:13-23 | rows that differ only in usage are selected together, so same-timestamp duplicates are all kept |
| MeasurementElectricityDaySpecification.BoundsAreInclusive | src/main/java/se/sundsvall/datawarehousereader/integration/stadsbacken/specification/MeasurementElectricityDaySpecification.java:50-53 | a to-only window at t includes a row at t and one at t - 1 excludes it; a from-only window at t includes it and one at t + 1 excludes it |
| InvoiceSpecification.WithCustomerIds | src/main/java/se/sundsvall/datawarehousereader/integration/stadsbacken/specification/InvoiceSpecification.java:18-20 | builds the IN predicate on customerId from the list; reads only customerId; a row matches exactly when the list is null or empty, or its customerId is in the list |
| InvoiceSpecification.WithCustomerType | src/main/java/se/sundsvall/datawarehousereader/integration/stadsbacken/specification/InvoiceSpecification.java:22-24 | reads only customerType; null matches every row, otherwise equality with the translated value |
| InvoiceSpecification.WithFacilityIds | src/main/java/se/sundsvall/datawarehousereader/integration/stadsbacken/specification/InvoiceSpecification.java:26-28 | builds the IN predicate on facilityId from the list; reads only facilityId; a row matches exactly when the list is null or empty, or its facilityId is in the list |
| InvoiceSpecification.WithAdministration | src/main/java/se/sundsvall/datawarehousereader/integration/stadsbacken/specification/InvoiceSpecification.java:30-32 | reads only administration; a row matches exactly when the value is null or equals its administration |
| InvoiceSpecification.WithOcrNumber | src/main/java/se/sundsvall/datawarehousereader/integration/stadsbacken/specification/InvoiceSpecification.java:34-36 | reads only ocrNumber; a row matches exactly when the value is null or equals its ocrNumber |
| InvoiceSpecification.WithInvoiceName | src/main/java/se/sundsvall/datawarehousereader/integration/stadsbacken/specification/InvoiceSpecification.java:42-44 | reads only invoiceName; a row matches exactly when the value is null or equals its invoiceName |
| InvoiceSpecification.WithInvoiceNumber | src/main/java/se/sundsvall/datawarehousereader/integration/stadsbacken/specification/InvoiceSpecification.java:46-48 | reads only invoiceNumber; a row matches exactly when the value is null or equals its invoiceNumber |
| InvoiceSpecification.WithInvoiceType | src/main/java/se/sundsvall/datawarehousereader/integration/stadsbacken/specification/InvoiceSpecification.java:50-52 | reads only invoiceType; a row matches exactly when the value is null or equals its invoiceType |
| InvoiceSpecification.WithInvoiceStatus | src/main/java/se/sundsvall/datawarehousereader/integration/stadsbacken/specification/InvoiceSpecification.java:54-56 | reads only invoiceStatus; a row matches exactly when the value is null or equals its invoiceStatus |
| InvoiceSpecification.WithOrganizationGroup | src/main/java/se/sundsvall/datawarehousereader/integration/stadsbacken/specification/InvoiceSpecification.java:62-64 | reads only organizationGroup; a row matches exactly when the value is null or equals its organizationGroup |
| InvoiceSpecification.WithOrganizationId | src/main/java/se/sundsvall/datawarehousereader/integration/stadsbacken/specification/InvoiceSpecification.java:66-68 | reads only organizationId; a row matches exactly when the value is null or equals its organizationId |
| InvoiceSpecification.WithInvoiceDate | src/main/java/se/sundsvall/datawarehousereader/integration/stadsbacken/specification/InvoiceSpecification.java:38-40 | reads only invoiceDate; no bound matches every row, otherwise the date must be present and within the inclusive bounds |
| InvoiceSpecification.WithDueDate | src/main/java/se/sundsvall/datawarehousereader/integration/stadsbacken/specification/InvoiceSpecification.java:58-60 | reads only dueDate; no bound matches every row, otherwise the date must be present and within the inclusive bounds |
| InvoiceSpecification.AddToInStringClause | src/main/java/se/sundsvall/datawarehousereader/integration/stadsbacken/specification/InvoiceSpecification.java:106-111 | appends one operand per list element, in order, after the operands the clause already had |
| InvoiceSpecification.AddToInIntegerClause | src/main/java/se/sundsvall/datawarehousereader/integration/stadsbacken/specification/InvoiceSpecification.java:113-118 | appends one operand per list element, in order, after the operands the clause already had |
| AgreementSpecification.WithAgreementId | src/main/java/se/sundsvall/datawarehousereader/integration/stadsbacken/specification/AgreementSpecification.java:19-21 | reads only agreementId; a row matches exactly when the value is null or equals its agreementId |
| AgreementSpecification.WithBillingId | src/main/java/se/sundsvall/datawarehousereader/integration/stadsbacken/specification/AgreementSpecification.java:23-25 | reads only billingId; a row matches exactly when the value is null or equals its billingId |
| AgreementSpecification.WithCustomerOrgId | src/main/java/se/sundsvall/datawarehousereader/integration/stadsbacken/specification/AgreementSpecification.java:27-29 | reads only customerOrgId; a row matches exactly when the value is null or equals its customerOrgId |
| AgreementSpecification.WithCustomerId | src/main/java/se/sundsvall/datawarehousereader/integration/stadsbacken/specification/AgreementSpecification.java:31-33 | reads only customerId; a row matches exactly when the value is null or equals its customerId |
| AgreementSpecification.WithFacilityId | src/main/java/se/sundsvall/datawarehousereader/integration/stadsbacken/specification/AgreementSpecification.java:35-37 | reads only facilityId; a row matches exactly when the value is null or equals its facilityId |
| AgreementSpecification.WithDescription | src/main/java/se/sundsvall/datawarehousereader/integration/stadsbacken/specification/AgreementSpecification.java:43-45 | reads only description; a row matches exactly when the value is null or equals its description |
| AgreementSpecification.WithMainAgreement | src/main/java/se/sundsvall/datawarehousereader/integration/stadsbacken/specification/AgreementSpecification.java:47-49 | reads only mainAgreement; a row matches exactly when the value is null or equals its mainAgreement |
| AgreementSpecification.WithBinding | src/main/java/se/sundsvall/datawarehousereader/integration/stadsbacken/specification/AgreementSpecification.java:51-53 | reads only binding; a row matches exactly when the value is null or equals its binding |
| AgreementSpecification.WithBindingRule | src/main/java/se/sundsvall/datawarehousereader/integration/stadsbacken/specification/AgreementSpecification.java:55-57 | reads only bindingRule; a row matches exactly when the value is null or equals its bindingRule |
| AgreementSpecification.WithCategories | src/main/java/se/sundsvall/datawarehousereader/integration/stadsbacken/specification/AgreementSpecification.java:39-41 | reads only category; a row matches exactly when the list is null or empty, or its category is the warehouse value of some category in the list |
| AgreementSpecification.WithFromDate | src/main/java/se/sundsvall/datawarehousereader/integration/stadsbacken/specification/AgreementSpecification.java:59-61 | reads only fromDate; null matches every row, otherwise the row matches exactly when fromDate falls on the given day |
| AgreementSpecification.WithToDate | src/main/java/se/sundsvall/datawarehousereader/integration/stadsbacken/specification/AgreementSpecification.java:63-65 | reads only toDate; null matches every row, otherwise the row matches exactly when toDate falls on the given day |
| AgreementSpecification.TranslatedListMeaning | src/main/java/se/sundsvall/datawarehousereader/integration/stadsbacken/specification/AgreementSpecification.java:39-41 | the IN predicate over the warehouse names of a category list selects exactly the rows whose category is the name of some listed category |
| AgreementSpecification.Translated | src/main/java/se/sundsvall/datawarehousereader/integration/stadsbacken/specification/AgreementSpecification.java:80-81 | the warehouse values of a list of categories: one per category, in order |
| AgreementSpecification.AddToInClause | src/main/java/se/sundsvall/datawarehousereader/integration/stadsbacken/specification/AgreementSpecification.java:79-85 | appends the warehouse value of every category, in order, after the operands the clause already had |
| CustomerSpecification.WithCustomerOrgIds | src/main/java/se/sundsvall/datawarehousereader/integration/stadsbacken/specification/CustomerSpecification.java:16-18 | reads only customerOrgId; a row matches exactly when the list is null or empty, or its customerOrgId is in the list |
| CustomerSpecification.WithOrganizationId | src/main/java/se/sundsvall/datawarehousereader/integration/stadsbacken/specification/CustomerSpecification.java:20-22 | reads only organizationId; a row matches exactly when the value is null or equals its organizationId |
| CustomerSpecification.WithOrganizationName | src/main/java/se/sundsvall/datawarehousereader/integration/stadsbacken/specification/CustomerSpecification.java:24-26 | reads only organizationName; a row matches exactly when the value is null or equals its organizationName |
| CustomerSpecification.WithCustomerId | src/main/java/se/sundsvall/datawarehousereader/integration/stadsbacken/specification/CustomerSpecification.java:28-30 | reads only customerId; a row matches exactly when the value is null or equals its customerId |
| CustomerSpecification.AddToInClause | src/main/java/se/sundsvall/datawarehousereader/integration/stadsbacken/specification/CustomerSpecification.java:44-49 | appends one operand per list element, in order, after the operands the clause already had |
| Measurements.NotImplementedDetail | src/main/java/se/sundsvall/datawarehousereader/service/logic/DistrictHeatingMeasurementProvider.java:35 | the detail is "aggregation '", the aggregation's name, "' and category '", the category's name and a closing quote, in that order |
| Measurements.HourDistrictHeatingDetail | src/test/java/se/sundsvall/datawarehousereader/service/logic/DistrictHeatingMeasurementProviderTest.java:165-174 | the detail for HOUR and DISTRICT_HEATING is "aggregation 'HOUR' and category 'DISTRICT_HEATING'" |
| Measurements.DefaultParameters | src/test/java/se/sundsvall/datawarehousereader/service/logic/DistrictHeatingMeasurementProviderTest.java:84-86 | fresh parameters ask for page 1 of 100, sorted ascending on measurementTimestamp, with no party or facility |
| Measurements.Present | src/main/java/se/sundsvall/datawarehousereader/service/logic/DistrictHeatingMeasurementProvider.java:54-55 | keeps exactly the non-null entries, never more entries than the input |
| Measurements.PresentDistributes | src/main/java/se/sundsvall/datawarehousereader/service/logic/DistrictHeatingMeasurementProvider.java:54-55 | dropping nulls commutes with concatenation, so the remaining rows keep their order |
| Measurements.PresentKeepsAll | src/main/java/se/sundsvall/datawarehousereader/service/logic/DistrictHeatingMeasurementProvider.java:54-55 | a list without nulls loses nothing and keeps its order |
| Measurements.ToMeasurement | src/main/java/se/sundsvall/datawarehousereader/service/logic/DistrictHeatingMeasurementProvider.java:62 | copies facility, timestamp, unit and value of the row; no party, aggregation, category or metadata yet |
| Measurements.Decorate | src/main/java/se/sundsvall/datawarehousereader/service/logic/DistrictHeatingMeasurementProvider.java:57 | sets party, aggregation and category and changes nothing else |
| Measurements.ToMeasurements | src/main/java/se/sundsvall/datawarehousereader/service/logic/ElectricityMeasurementProvider.java:51 | one measurement per non-null row, in order, with the row's shared columns and the given party, aggregation and category |
| Measurements.ToMeasurementResponse | src/main/java/se/sundsvall/datawarehousereader/service/logic/DistrictHeatingMeasurementProvider.java:50 | the list unchanged, with count = its length, the caller's limit and page, and the given totals |
| Storage.PageRequestOf | src/main/java/se/sundsvall/datawarehousereader/service/logic/DistrictHeatingMeasurementProvider.java:45 | fails with an illegal argument exactly when the index is negative or the size below one; otherwise carries index, size and sort unchanged |
| Storage.Repository.constructor | src/main/java/se/sundsvall/datawarehousereader/service/logic/DistrictHeatingMeasurementProvider.java:33 | a repository that has received no query yet |
| Storage.Repository.FindAllMatching | src/main/java/se/sundsvall/datawarehousereader/service/logic/DistrictHeatingMeasurementProvider.java:44-45 | answers the query with the storage function and records exactly that query |
| DistrictHeatingMeasurements.Digits | src/main/java/se/sundsvall/datawarehousereader/service/logic/DistrictHeatingMeasurementProvider.java:74 | the decimal digits of a natural number: non-empty, digits only, a leading zero only for zero |
| DistrictHeatingMeasurements.DigitsRoundTrip | src/main/java/se/sundsvall/datawarehousereader/service/logic/DistrictHeatingMeasurementProvider.java:74 | the digits of n denote n |
| DistrictHeatingMeasurements.DecimalString | src/main/java/se/sundsvall/datawarehousereader/service/logic/DistrictHeatingMeasurementProvider.java:74 | String.valueOf: a well-formed decimal integer that starts with a minus sign exactly for negative numbers, is "0" for zero and otherwise has no leading zero |
| DistrictHeatingMeasurements.DecimalRoundTrip | src/main/java/se/sundsvall/datawarehousereader/service/logic/DistrictHeatingMeasurementProvider.java:74 | the decimal string of n parses back to n |
| DistrictHeatingMeasurements.ToString | src/main/java/se/sundsvall/datawarehousereader/service/logic/DistrictHeatingMeasurementProvider.java:72-76 | null exactly for null; otherwise the canonical decimal string of the value (no leading zero, "0" for zero), which parses back to the value |
| DistrictHeatingMeasurements.ToMetadata | src/main/java/se/sundsvall/datawarehousereader/service/logic/DistrictHeatingMeasurementProvider.java:66-70 | exactly two entries: readingSequence first, feedTypeId second, each with the decimal string of its column or null |
| DistrictHeatingMeasurements.MetadataOfSampleRow | src/test/java/se/sundsvall/datawarehousereader/service/logic/DistrictHeatingMeasurementProviderTest.java:137-139 | reading sequence 22 and feed type id 33 give the values "22" and "33" |
| DistrictHeatingMeasurements.ToMeasurementWithMetadata | src/main/java/se/sundsvall/datawarehousereader/service/logic/DistrictHeatingMeasurementProvider.java:61-64 | the row's shared columns with the row's two-entry metadata |
| DistrictHeatingMeasurements.ToDistrictHeatingMeasurements | src/main/java/se/sundsvall/datawarehousereader/service/logic/DistrictHeatingMeasurementProvider.java:53-59 | a null list counts as empty; one measurement per non-null row, in order, with its columns and metadata, decorated with the party, the aggregation and DISTRICT_HEATING |
| DistrictHeatingMeasurements.Respond | src/main/java/se/sundsvall/datawarehousereader/service/logic/DistrictHeatingMeasurementProvider.java:48-50 | no measurements when totalPages < page, whatever the content; otherwise the mapped rows; paging metadata holds the count, the caller's limit and page and the repository's totals |
| DistrictHeatingMeasurements.DefaultParametersAskForFirstPage | src/test/java/se/sundsvall/datawarehousereader/service/logic/DistrictHeatingMeasurementProviderTest.java:84-86 | default parameters ask for page index 0 of size 100, ascending on measurementTimestamp |
| DistrictHeatingMeasurements.PageBeyondLastIsEmpty | src/test/java/se/sundsvall/datawarehousereader/service/logic/DistrictHeatingMeasurementProviderTest.java:142-163 | page 2 of a one-page result: no measurements, count 0, page 2 and the repository's totals |
| DistrictHeatingMeasurements.DistrictHeatingMeasurementProvider.GetMeasurements | src/main/java/se/sundsvall/datawarehousereader/service/logic/DistrictHeatingMeasurementProvider.java:39-51 | any aggregation but MONTH fails with NOT_IMPLEMENTED for DISTRICT_HEATING and the repository is not called; MONTH calls it exactly once with the caller's legalId, facilityId, from and to and page request (page - 1, limit, sort), and answers Respond of that page |
| ElectricityMeasurements.Respond | src/main/java/se/sundsvall/datawarehousereader/service/logic/ElectricityMeasurementProvider.java:50-53 | no measurements when totalPages < page; otherwise one measurement per non-null row, in order, decorated with the party, the branch aggregation and ELECTRICITY; the repository's totals unchanged |
| ElectricityMeasurements.ElectricityMeasurementProvider.GetMeasurements | src/main/java/se/sundsvall/datawarehousereader/service/logic/ElectricityMeasurementProvider.java:37-44 | DAY calls only the day repository and MONTH only the month repository, each exactly once; any other aggregation fails with NOT_IMPLEMENTED for ELECTRICITY and calls neither |
| ElectricityMeasurements.ElectricityMeasurementProvider.GetElectricityMonth | src/main/java/se/sundsvall/datawarehousereader/service/logic/ElectricityMeasurementProvider.java:46-54 | one month-repository call with the caller's filters and page request (page - 1, limit, sort); the response for MONTH |
| ElectricityMeasurements.ElectricityMeasurementProvider.GetElectricityDay | src/main/java/se/sundsvall/datawarehousereader/service/logic/ElectricityMeasurementProvider.java:56-64 | one day-repository call with the caller's filters and page request (page - 1, limit, sort); the response for DAY |

## Left out

- SQL generation and the JPA Criteria API (`cb.equal`, `cb.between`, `cb.in`, `cb.and`) are not modelled. Their meaning is modelled by `Predicates.Holds`: SQL three-valued logic with only conjunction, so a comparison with NULL never selects a row.
- Sorting and page slicing inside the repository are left out. The repository's answer (`Storage.Repository.storage`) is an arbitrary function of the query. So nothing is proved about the order of rows, or about totalPages = ceil(total / limit).
- The repository that combines the three measurement builders (findAllMatching) is not part of this model. `MatchingFilter` in each measurement specification module states its conjunction of the three builders.
- The entity classes are not part of this model, apart from the electricity day entity's fields. The row datatypes carry only the columns the filters and mappers read, with the types the builders' parameters imply.
- MeasurementMapper is not part of this model. `Measurements.ToMeasurement`, `Decorate`, `ToMeasurements` and `ToMeasurementResponse` follow the behaviour its callers rely on:
  - facility id, measurement timestamp, unit and usage are copied, and no other column;
  - decoration sets party, aggregation and category only;
  - null rows and a null list are dropped;
  - `toMeasurement` gives an empty metadata list, which `ElectricityMeasurements.Respond` relies on;
  - count is the list length.

  The electricity path assumes the mapper handles null content the way the district heating provider does.
- MeasurementParameters is not part of this model. Its defaults (page 1, limit 100, ascending measurementTimestamp) are `Measurements.DefaultParameters`.
- `Category.toStadsbackenValue` and `CustomerType.getStadsbackenTranslation` are not part of this model. They are function parameters of the builders that use them.
- HTTP problems and `String.format` are reduced to the `Measurements.Problem` datatype. `NotImplemented` carries the aggregation and the category, and `NotImplementedDetail` gives the detail text. The "Not Implemented: " title prefix is left out.
- `PageRequest.of` is modelled by `Storage.PageRequestOf`. It throws IllegalArgumentException, modelled as the `IllegalArgument` failure. Its messages are Spring's own texts, "Page index must not be less than zero" and "Page size must not be less than one".
- A null aggregation is not modelled: the aggregation parameter is never null. In the source, the district heating guard would report it as not implemented and the electricity switch would fail on the null itself.
- Integer widths are not modelled. Integer, Long and the int paging fields are unbounded. Overflow of `page - 1` at the smallest int is not captured.
- `DistrictHeatingMeasurements.ToString` covers all integers, not only 32-bit ones. Its decimal form matches String.valueOf for every 32-bit value.
- InvoiceSpecification.WithCustomerIds: a null element inside a non-empty list is not modelled, because the list is a sequence of integers. In the source it becomes an `IN (NULL)` operand that matches no row, so `[null]` selects nothing.
- InvoiceSpecification.WithFacilityIds: a null element inside a non-empty list is not modelled, because the list is a sequence of strings. In the source it becomes an `IN (NULL)` operand that matches no row.
- CustomerSpecification.WithCustomerOrgIds: a null element inside a non-empty list is not modelled, because the list is a sequence of strings. In the source it becomes an `IN (NULL)` operand that matches no row.
- AgreementSpecification.WithCategories: a null category inside a non-empty list is not modelled, because the list is a sequence of categories. In the source the translation `Category::toStadsbackenValue` throws on it.
- `Measurements.Aggregation` and `Measurements.Category` name the enum's further constants by `OtherAggregation` and `OtherCategory`. Those names are assumed to differ from the named constants ("HOUR", "DAY", "MONTH", "DISTRICT_HEATING", "ELECTRICITY"); the datatypes do not enforce it.
- Measurements.ToMeasurement: only facility id, measurement timestamp, unit and usage are carried into a measurement. The measurement datatype has no field for the feed type, which the unshown mapper also reads, so nothing is stated about what the mapper does with it. Interpolation, uuid and customer organisation id are not carried either.
- Java's `withfacilityId` is named `WithFacilityId` in the model.
- Spring wiring is replaced by constructor parameters. The integration test's HTTP and database transport is not modelled.
