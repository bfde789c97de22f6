/**
 * The filters on the invoice view. Dates (invoiceDate, dueDate) are epoch days.
 */
module InvoiceSpecification {
  import opened Wrappers
  import opened Predicates

  /** The invoice columns the filters name (numbers are Integer or Long columns). */
  datatype Row = Row(
    customerId: Option<int>,
    customerType: Option<string>,
    facilityId: Option<string>,
    administration: Option<string>,
    ocrNumber: Option<int>,
    invoiceDate: Option<int>,
    invoiceName: Option<string>,
    invoiceNumber: Option<int>,
    invoiceType: Option<string>,
    invoiceStatus: Option<string>,
    dueDate: Option<int>,
    organizationGroup: Option<string>,
    organizationId: Option<string>)

  datatype Attr = CustomerId | CustomerType | FacilityId | Administration | OcrNumber | InvoiceDate | InvoiceName | InvoiceNumber | InvoiceType | InvoiceStatus | DueDate | OrganizationGroup | OrganizationId

  /** `root.get(attribute)`. */
  function Get(r: Row, a: Attr): Option<Value> {
    match a
    case CustomerId => AsNumber(r.customerId)
    case CustomerType => AsText(r.customerType)
    case FacilityId => AsText(r.facilityId)
    case Administration => AsText(r.administration)
    case OcrNumber => AsNumber(r.ocrNumber)
    case InvoiceDate => AsTime(r.invoiceDate)
    case InvoiceName => AsText(r.invoiceName)
    case InvoiceNumber => AsNumber(r.invoiceNumber)
    case InvoiceType => AsText(r.invoiceType)
    case InvoiceStatus => AsText(r.invoiceStatus)
    case DueDate => AsTime(r.dueDate)
    case OrganizationGroup => AsText(r.organizationGroup)
    case OrganizationId => AsText(r.organizationId)
  }

  function View(r: Row): Attr -> Option<Value> {
    a => Get(r, a)
  }

  /** Whether p selects the row. */
  predicate Matches(p: Pred<Attr>, r: Row) {
    Holds(p, View(r))
  }

  /** withCustomerIds: a non-empty list requires the customer id to be one of its values; null or empty leaves it unconstrained. */
  method WithCustomerIds(customerIds: Option<seq<int>>) returns (p: Pred<Attr>)
    ensures p == InFilter(CustomerId, if customerIds.Some? then Some(Numbers(customerIds.value)) else None)
    ensures Mentioned(p) <= {CustomerId}
    ensures forall row :: Matches(p, row) <==>
      customerIds.None? || customerIds.value == [] || (row.customerId.Some? && row.customerId.value in customerIds.value)
  {
    if customerIds.None? || customerIds.value == [] {
      return Always;
    }
    var clause := new InClause(CustomerId);
    AddToInIntegerClause(clause, customerIds.value);
    p := Within(clause.attr, clause.values);
    InFilterMeaning(CustomerId, Some(clause.values));
  }

  /**
   * withCustomerType: the customer type column must equal the warehouse
   * translation of the value; null leaves it unconstrained. The translation
   * (CustomerType.getStadsbackenTranslation) is a parameter.
   */
  function WithCustomerType<T>(customerType: Option<T>, stadsbackenTranslation: T -> string): (p: Pred<Attr>)
    ensures Mentioned(p) <= {CustomerType}
    ensures forall row :: Matches(p, row) <==>
      customerType.None? || row.customerType == Some(stadsbackenTranslation(customerType.value))
  {
    var translated := if customerType.Some? then Some(stadsbackenTranslation(customerType.value)) else None;
    EqualFilterMeaning(CustomerType, AsText(translated));
    EqualFilter(CustomerType, AsText(translated))
  }

  /** withFacilityIds: a non-empty list requires the facility id to be one of its values; null or empty leaves it unconstrained. */
  method WithFacilityIds(facilityIds: Option<seq<string>>) returns (p: Pred<Attr>)
    ensures p == InFilter(FacilityId, if facilityIds.Some? then Some(Texts(facilityIds.value)) else None)
    ensures Mentioned(p) <= {FacilityId}
    ensures forall row :: Matches(p, row) <==>
      facilityIds.None? || facilityIds.value == [] || (row.facilityId.Some? && row.facilityId.value in facilityIds.value)
  {
    if facilityIds.None? || facilityIds.value == [] {
      return Always;
    }
    var clause := new InClause(FacilityId);
    AddToInStringClause(clause, facilityIds.value);
    p := Within(clause.attr, clause.values);
    InFilterMeaning(FacilityId, Some(clause.values));
  }

  /** withAdministration: the administration must equal the value; null leaves it unconstrained. */
  function WithAdministration(administration: Option<string>): (p: Pred<Attr>)
    ensures Mentioned(p) <= {Administration}
    ensures forall row :: Matches(p, row) <==> administration.None? || row.administration == administration
  {
    EqualFilterMeaning(Administration, AsText(administration));
    EqualFilter(Administration, AsText(administration))
  }

  /** withOcrNumber: the OCR number must equal the value; null leaves it unconstrained. */
  function WithOcrNumber(ocrNumber: Option<int>): (p: Pred<Attr>)
    ensures Mentioned(p) <= {OcrNumber}
    ensures forall row :: Matches(p, row) <==> ocrNumber.None? || row.ocrNumber == ocrNumber
  {
    EqualFilterMeaning(OcrNumber, AsNumber(ocrNumber));
    EqualFilter(OcrNumber, AsNumber(ocrNumber))
  }

  /** withInvoiceDate: the invoice date must lie in [dateFrom, dateTo], a missing bound leaving that side open; no bound leaves it unconstrained. */
  function WithInvoiceDate(dateFrom: Option<int>, dateTo: Option<int>): (p: Pred<Attr>)
    ensures Mentioned(p) <= {InvoiceDate}
    ensures forall row :: Matches(p, row) <==>
      (dateFrom.None? && dateTo.None?) || (row.invoiceDate.Some? && InWindow(row.invoiceDate.value, dateFrom, dateTo))
  {
    RangeFilterMeaning(InvoiceDate, dateFrom, dateTo);
    RangeFilter(InvoiceDate, dateFrom, dateTo)
  }

  /** withInvoiceName: the invoice name must equal the value; null leaves it unconstrained. */
  function WithInvoiceName(invoiceName: Option<string>): (p: Pred<Attr>)
    ensures Mentioned(p) <= {InvoiceName}
    ensures forall row :: Matches(p, row) <==> invoiceName.None? || row.invoiceName == invoiceName
  {
    EqualFilterMeaning(InvoiceName, AsText(invoiceName));
    EqualFilter(InvoiceName, AsText(invoiceName))
  }

  /** withInvoiceNumber: the invoice number must equal the value; null leaves it unconstrained. */
  function WithInvoiceNumber(invoiceNumber: Option<int>): (p: Pred<Attr>)
    ensures Mentioned(p) <= {InvoiceNumber}
    ensures forall row :: Matches(p, row) <==> invoiceNumber.None? || row.invoiceNumber == invoiceNumber
  {
    EqualFilterMeaning(InvoiceNumber, AsNumber(invoiceNumber));
    EqualFilter(InvoiceNumber, AsNumber(invoiceNumber))
  }

  /** withInvoiceType: the invoice type must equal the value; null leaves it unconstrained. */
  function WithInvoiceType(invoiceType: Option<string>): (p: Pred<Attr>)
    ensures Mentioned(p) <= {InvoiceType}
    ensures forall row :: Matches(p, row) <==> invoiceType.None? || row.invoiceType == invoiceType
  {
    EqualFilterMeaning(InvoiceType, AsText(invoiceType));
    EqualFilter(InvoiceType, AsText(invoiceType))
  }

  /** withInvoiceStatus: the invoice status must equal the value; null leaves it unconstrained. */
  function WithInvoiceStatus(invoiceStatus: Option<string>): (p: Pred<Attr>)
    ensures Mentioned(p) <= {InvoiceStatus}
    ensures forall row :: Matches(p, row) <==> invoiceStatus.None? || row.invoiceStatus == invoiceStatus
  {
    EqualFilterMeaning(InvoiceStatus, AsText(invoiceStatus));
    EqualFilter(InvoiceStatus, AsText(invoiceStatus))
  }

  /** withDueDate: the due date must lie in [dateFrom, dateTo], a missing bound leaving that side open; no bound leaves it unconstrained. */
  function WithDueDate(dateFrom: Option<int>, dateTo: Option<int>): (p: Pred<Attr>)
    ensures Mentioned(p) <= {DueDate}
    ensures forall row :: Matches(p, row) <==>
      (dateFrom.None? && dateTo.None?) || (row.dueDate.Some? && InWindow(row.dueDate.value, dateFrom, dateTo))
  {
    RangeFilterMeaning(DueDate, dateFrom, dateTo);
    RangeFilter(DueDate, dateFrom, dateTo)
  }

  /** withOrganizationGroup: the organization group must equal the value; null leaves it unconstrained. */
  function WithOrganizationGroup(organizationGroup: Option<string>): (p: Pred<Attr>)
    ensures Mentioned(p) <= {OrganizationGroup}
    ensures forall row :: Matches(p, row) <==> organizationGroup.None? || row.organizationGroup == organizationGroup
  {
    EqualFilterMeaning(OrganizationGroup, AsText(organizationGroup));
    EqualFilter(OrganizationGroup, AsText(organizationGroup))
  }

  /** withOrganizationId: the organization id must equal the value; null leaves it unconstrained. */
  function WithOrganizationId(organizationId: Option<string>): (p: Pred<Attr>)
    ensures Mentioned(p) <= {OrganizationId}
    ensures forall row :: Matches(p, row) <==> organizationId.None? || row.organizationId == organizationId
  {
    EqualFilterMeaning(OrganizationId, AsText(organizationId));
    EqualFilter(OrganizationId, AsText(organizationId))
  }

  /** addToInStringClause: every list value becomes an operand of the clause, in list order. */
  method AddToInStringClause(clause: InClause<Attr>, values: seq<string>)
    modifies clause
    ensures clause.values == old(clause.values) + Texts(values)
  {
    for i := 0 to |values|
      invariant clause.values == old(clause.values) + Texts(values[..i])
    {
      clause.AddValue(Text(values[i]));
      assert values[..i + 1][..i] == values[..i];
    }
    assert values[..|values|] == values;
  }

  /** addToInIntegerClause: every list value becomes an operand of the clause, in list order. */
  method AddToInIntegerClause(clause: InClause<Attr>, values: seq<int>)
    modifies clause
    ensures clause.values == old(clause.values) + Numbers(values)
  {
    for i := 0 to |values|
      invariant clause.values == old(clause.values) + Numbers(values[..i])
    {
      clause.AddValue(Number(values[i]));
      assert values[..i + 1][..i] == values[..i];
    }
    assert values[..|values|] == values;
  }
}
