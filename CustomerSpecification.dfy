/**
 * The filters on the customer view.
 */
module CustomerSpecification {
  import opened Wrappers
  import opened Predicates

  /** The customer columns the filters name. */
  datatype Row = Row(
    customerOrgId: Option<string>,
    organizationId: Option<string>,
    organizationName: Option<string>,
    customerId: Option<int>)

  datatype Attr = CustomerOrgId | OrganizationId | OrganizationName | CustomerId

  /** `root.get(attribute)`. */
  function Get(r: Row, a: Attr): Option<Value> {
    match a
    case CustomerOrgId => AsText(r.customerOrgId)
    case OrganizationId => AsText(r.organizationId)
    case OrganizationName => AsText(r.organizationName)
    case CustomerId => AsNumber(r.customerId)
  }

  function View(r: Row): Attr -> Option<Value> {
    a => Get(r, a)
  }

  /** Whether p selects the row. */
  predicate Matches(p: Pred<Attr>, r: Row) {
    Holds(p, View(r))
  }

  /** withCustomerOrgIds: a non-empty list requires the customer organisation to be one of its values; null or empty leaves it unconstrained. */
  method WithCustomerOrgIds(customerOrgIds: Option<seq<string>>) returns (p: Pred<Attr>)
    ensures p == InFilter(CustomerOrgId, if customerOrgIds.Some? then Some(Texts(customerOrgIds.value)) else None)
    ensures Mentioned(p) <= {CustomerOrgId}
    ensures forall row :: Matches(p, row) <==>
      customerOrgIds.None? || customerOrgIds.value == [] ||
      (row.customerOrgId.Some? && row.customerOrgId.value in customerOrgIds.value)
  {
    if customerOrgIds.None? || customerOrgIds.value == [] {
      return Always;
    }
    var clause := new InClause(CustomerOrgId);
    AddToInClause(clause, customerOrgIds.value);
    p := Within(clause.attr, clause.values);
    InFilterMeaning(CustomerOrgId, Some(clause.values));
  }

  /** withOrganizationId: the organization id must equal the value; null leaves it unconstrained. */
  function WithOrganizationId(organizationId: Option<string>): (p: Pred<Attr>)
    ensures Mentioned(p) <= {OrganizationId}
    ensures forall row :: Matches(p, row) <==> organizationId.None? || row.organizationId == organizationId
  {
    EqualFilterMeaning(OrganizationId, AsText(organizationId));
    EqualFilter(OrganizationId, AsText(organizationId))
  }

  /** withOrganizationName: the organization name must equal the value; null leaves it unconstrained. */
  function WithOrganizationName(organizationName: Option<string>): (p: Pred<Attr>)
    ensures Mentioned(p) <= {OrganizationName}
    ensures forall row :: Matches(p, row) <==> organizationName.None? || row.organizationName == organizationName
  {
    EqualFilterMeaning(OrganizationName, AsText(organizationName));
    EqualFilter(OrganizationName, AsText(organizationName))
  }

  /** withCustomerId: the customer id must equal the value; null leaves it unconstrained. */
  function WithCustomerId(customerId: Option<int>): (p: Pred<Attr>)
    ensures Mentioned(p) <= {CustomerId}
    ensures forall row :: Matches(p, row) <==> customerId.None? || row.customerId == customerId
  {
    EqualFilterMeaning(CustomerId, AsNumber(customerId));
    EqualFilter(CustomerId, AsNumber(customerId))
  }

  /** addToInClause: every list value becomes an operand of the clause, in list order. */
  method AddToInClause(clause: InClause<Attr>, values: seq<string>)
    modifies clause
    ensures clause.values == old(clause.values) + Texts(values)
  {
    for i := 0 to |values|
      invariant clause.values == old(clause.values) + Texts(values[..i])
    {
      clause.AddValue(Text(values[i]));
      assert values[..i + 1][..i] == values[..i];
    }
    assert values[..|values|] == values;
  }
}
