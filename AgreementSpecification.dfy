/**
 * The filters on the agreement view. fromDate and toDate are date-times
 * (nanoseconds since the epoch); the filters on them take a date (an epoch day).
 */
module AgreementSpecification {
  import opened Wrappers
  import opened Predicates
  import Calendar
  import Measurements

  /** The agreement columns the filters name; category holds the warehouse's name of a category. */
  datatype Row = Row(
    agreementId: Option<int>,
    billingId: Option<int>,
    customerOrgId: Option<string>,
    customerId: Option<int>,
    facilityId: Option<string>,
    category: Option<string>,
    description: Option<string>,
    mainAgreement: Option<string>,
    binding: Option<string>,
    bindingRule: Option<string>,
    fromDate: Option<int>,
    toDate: Option<int>)

  datatype Attr = AgreementId | BillingId | CustomerOrgId | CustomerId | FacilityId | Category | Description | MainAgreement | Binding | BindingRule | FromDate | ToDate

  /** `root.get(attribute)`. */
  function Get(r: Row, a: Attr): Option<Value> {
    match a
    case AgreementId => AsNumber(r.agreementId)
    case BillingId => AsNumber(r.billingId)
    case CustomerOrgId => AsText(r.customerOrgId)
    case CustomerId => AsNumber(r.customerId)
    case FacilityId => AsText(r.facilityId)
    case Category => AsText(r.category)
    case Description => AsText(r.description)
    case MainAgreement => AsText(r.mainAgreement)
    case Binding => AsText(r.binding)
    case BindingRule => AsText(r.bindingRule)
    case FromDate => AsTime(r.fromDate)
    case ToDate => AsTime(r.toDate)
  }

  function View(r: Row): Attr -> Option<Value> {
    a => Get(r, a)
  }

  /** Whether p selects the row. */
  predicate Matches(p: Pred<Attr>, r: Row) {
    Holds(p, View(r))
  }

  /** withAgreementId: the agreement id must equal the value; null leaves it unconstrained. */
  function WithAgreementId(agreementId: Option<int>): (p: Pred<Attr>)
    ensures Mentioned(p) <= {AgreementId}
    ensures forall row :: Matches(p, row) <==> agreementId.None? || row.agreementId == agreementId
  {
    EqualFilterMeaning(AgreementId, AsNumber(agreementId));
    EqualFilter(AgreementId, AsNumber(agreementId))
  }

  /** withBillingId: the billing id must equal the value; null leaves it unconstrained. */
  function WithBillingId(billingId: Option<int>): (p: Pred<Attr>)
    ensures Mentioned(p) <= {BillingId}
    ensures forall row :: Matches(p, row) <==> billingId.None? || row.billingId == billingId
  {
    EqualFilterMeaning(BillingId, AsNumber(billingId));
    EqualFilter(BillingId, AsNumber(billingId))
  }

  /** withCustomerOrgId: the customer organisation must equal the value; null leaves it unconstrained. */
  function WithCustomerOrgId(customerOrgId: Option<string>): (p: Pred<Attr>)
    ensures Mentioned(p) <= {CustomerOrgId}
    ensures forall row :: Matches(p, row) <==> customerOrgId.None? || row.customerOrgId == customerOrgId
  {
    EqualFilterMeaning(CustomerOrgId, AsText(customerOrgId));
    EqualFilter(CustomerOrgId, AsText(customerOrgId))
  }

  /** withCustomerId: the customer id must equal the value; null leaves it unconstrained. */
  function WithCustomerId(customerId: Option<int>): (p: Pred<Attr>)
    ensures Mentioned(p) <= {CustomerId}
    ensures forall row :: Matches(p, row) <==> customerId.None? || row.customerId == customerId
  {
    EqualFilterMeaning(CustomerId, AsNumber(customerId));
    EqualFilter(CustomerId, AsNumber(customerId))
  }

  /** withFacilityId: the facility id must equal the value; null leaves it unconstrained. */
  function WithFacilityId(facilityId: Option<string>): (p: Pred<Attr>)
    ensures Mentioned(p) <= {FacilityId}
    ensures forall row :: Matches(p, row) <==> facilityId.None? || row.facilityId == facilityId
  {
    EqualFilterMeaning(FacilityId, AsText(facilityId));
    EqualFilter(FacilityId, AsText(facilityId))
  }

  /**
   * withCategories: a non-empty list requires the category column to be the
   * warehouse name of one of its categories; null or empty leaves it
   * unconstrained. The naming (Category.toStadsbackenValue) is a parameter.
   */
  method WithCategories(categories: Option<seq<Measurements.Category>>, toStadsbackenValue: Measurements.Category -> string)
    returns (p: Pred<Attr>)
    ensures p == InFilter(Category, if categories.Some? then Some(Texts(Translated(categories.value, toStadsbackenValue))) else None)
    ensures Mentioned(p) <= {Category}
    ensures forall row :: Matches(p, row) <==>
      categories.None? || categories.value == [] ||
      (row.category.Some? && exists c :: c in categories.value && toStadsbackenValue(c) == row.category.value)
  {
    if categories.None? || categories.value == [] {
      return Always;
    }
    var clause := new InClause(Category);
    AddToInClause(clause, categories.value, toStadsbackenValue);
    p := Within(clause.attr, clause.values);
    TranslatedListMeaning(categories.value, toStadsbackenValue);
  }

  /** The IN predicate over the warehouse names of a category list selects the rows whose category is one of them. */
  lemma TranslatedListMeaning(categories: seq<Measurements.Category>, toStadsbackenValue: Measurements.Category -> string)
    ensures forall row :: Matches(Within(Category, Texts(Translated(categories, toStadsbackenValue))), row) <==>
      row.category.Some? && exists c :: c in categories && toStadsbackenValue(c) == row.category.value
  {
    var names := Translated(categories, toStadsbackenValue);
    var operands := Texts(names);
    forall row
      ensures Matches(Within(Category, operands), row) <==> row.category.Some? && row.category.value in names
    {
      if row.category.Some? {
        assert Text(row.category.value) in operands <==> row.category.value in names;
      }
    }
  }

  /** withDescription: the description must equal the value; null leaves it unconstrained. */
  function WithDescription(description: Option<string>): (p: Pred<Attr>)
    ensures Mentioned(p) <= {Description}
    ensures forall row :: Matches(p, row) <==> description.None? || row.description == description
  {
    EqualFilterMeaning(Description, AsText(description));
    EqualFilter(Description, AsText(description))
  }

  /** withMainAgreement: the main agreement must equal the value; null leaves it unconstrained. */
  function WithMainAgreement(mainAgreement: Option<string>): (p: Pred<Attr>)
    ensures Mentioned(p) <= {MainAgreement}
    ensures forall row :: Matches(p, row) <==> mainAgreement.None? || row.mainAgreement == mainAgreement
  {
    EqualFilterMeaning(MainAgreement, AsText(mainAgreement));
    EqualFilter(MainAgreement, AsText(mainAgreement))
  }

  /** withBinding: the binding must equal the value; null leaves it unconstrained. */
  function WithBinding(binding: Option<string>): (p: Pred<Attr>)
    ensures Mentioned(p) <= {Binding}
    ensures forall row :: Matches(p, row) <==> binding.None? || row.binding == binding
  {
    EqualFilterMeaning(Binding, AsText(binding));
    EqualFilter(Binding, AsText(binding))
  }

  /** withBindingRule: the binding rule must equal the value; null leaves it unconstrained. */
  function WithBindingRule(bindingRule: Option<string>): (p: Pred<Attr>)
    ensures Mentioned(p) <= {BindingRule}
    ensures forall row :: Matches(p, row) <==> bindingRule.None? || row.bindingRule == bindingRule
  {
    EqualFilterMeaning(BindingRule, AsText(bindingRule));
    EqualFilter(BindingRule, AsText(bindingRule))
  }

  /** withFromDate: the agreement start must fall on the given day (between its first and last nanosecond); null leaves it unconstrained. */
  function WithFromDate(date: Option<int>): (p: Pred<Attr>)
    ensures Mentioned(p) <= {FromDate}
    ensures forall row :: Matches(p, row) <==>
      date.None? || (row.fromDate.Some? && Calendar.EpochDay(row.fromDate.value) == date.value)
  {
    SameDayFilterMeaning(FromDate, date);
    SameDayFilter(FromDate, date)
  }

  /** withToDate: the agreement end must fall on the given day (between its first and last nanosecond); null leaves it unconstrained. */
  function WithToDate(date: Option<int>): (p: Pred<Attr>)
    ensures Mentioned(p) <= {ToDate}
    ensures forall row :: Matches(p, row) <==>
      date.None? || (row.toDate.Some? && Calendar.EpochDay(row.toDate.value) == date.value)
  {
    SameDayFilterMeaning(ToDate, date);
    SameDayFilter(ToDate, date)
  }

  /** The warehouse names of a list of categories, in list order. */
  function Translated(categories: seq<Measurements.Category>, toStadsbackenValue: Measurements.Category -> string): (names: seq<string>)
    ensures |names| == |categories|
    ensures forall i :: 0 <= i < |categories| ==> names[i] == toStadsbackenValue(categories[i])
    ensures forall s :: s in names <==> exists c :: c in categories && toStadsbackenValue(c) == s
  {
    if categories == [] then []
    else
      var names := Translated(categories[..|categories| - 1], toStadsbackenValue) + [toStadsbackenValue(categories[|categories| - 1])];
      assert forall c :: c in categories <==> c in categories[..|categories| - 1] || c == categories[|categories| - 1];
      names
  }

  /** addToInClause: the warehouse name of every category becomes an operand of the clause, in list order. */
  method AddToInClause(clause: InClause<Attr>, values: seq<Measurements.Category>, toStadsbackenValue: Measurements.Category -> string)
    modifies clause
    ensures clause.values == old(clause.values) + Texts(Translated(values, toStadsbackenValue))
  {
    ghost var before := clause.values;
    for i := 0 to |values|
      invariant |clause.values| == |before| + i
      invariant clause.values[..|before|] == before
      invariant forall k :: 0 <= k < i ==> clause.values[|before| + k] == Text(toStadsbackenValue(values[k]))
    {
      clause.AddValue(Text(toStadsbackenValue(values[i])));
    }
    ghost var operands := Texts(Translated(values, toStadsbackenValue));
    assert forall k :: 0 <= k < |values| ==> operands[k] == Text(toStadsbackenValue(values[k]));
    assert clause.values == before + operands;
  }
}
