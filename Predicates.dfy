/**
 * The WHERE clauses that the query-builder specifications produce, and their meaning.
 *
 * Every builder of the repository follows one of four shapes: an equality
 * filter, an IN filter, a range filter and (for agreements) a same-day filter.
 * Each turns an absent argument into the always-true predicate `cb.and()`, so
 * that an absent filter never narrows a query. The shapes are defined once
 * here, generic in the attribute type of the table they filter.
 */
module Predicates {
  import opened Wrappers
  import Calendar

  /**
   * A column value as a filter sees it. Strings and whole numbers are only
   * compared for equality; dates and date-times are ordered and carried as an
   * integer in their own unit (see module Calendar).
   */
  datatype Value = Text(s: string) | Number(n: int) | Time(t: int)

  /** A predicate over the attributes A of one table. */
  datatype Pred<A> =
    | Always                               // cb.and() with no operands
    | Equal(attr: A, value: Value)         // cb.equal(root.get(attr), value)
    | Within(attr: A, values: seq<Value>)  // cb.in(root.get(attr)).value(v1).value(v2)...
    | Between(attr: A, lo: int, hi: int)   // cb.between(root.get(attr), lo, hi), both ends included
    | AtLeast(attr: A, lo: int)            // cb.greaterThanOrEqualTo(root.get(attr), lo)
    | AtMost(attr: A, hi: int)             // cb.lessThanOrEqualTo(root.get(attr), hi)
    | And(left: Pred<A>, right: Pred<A>)   // Specification.and

  function AsText(o: Option<string>): Option<Value> {
    if o.Some? then Some(Text(o.value)) else None
  }

  function AsNumber(o: Option<int>): Option<Value> {
    if o.Some? then Some(Number(o.value)) else None
  }

  function AsTime(o: Option<int>): Option<Value> {
    if o.Some? then Some(Time(o.value)) else None
  }

  /** The ordered value of a column, when it holds one. */
  function TimeOf(v: Option<Value>): Option<int> {
    if v.Some? && v.value.Time? then Some(v.value.t) else None
  }

  /**
   * Whether a row, seen through `get` (None is SQL NULL), is selected by p.
   * A comparison with NULL is never true, so it never selects a row.
   */
  predicate Holds<A>(p: Pred<A>, get: A -> Option<Value>) {
    match p
    case Always => true
    case Equal(a, v) => get(a) == Some(v)
    case Within(a, vs) => get(a).Some? && get(a).value in vs
    case Between(a, lo, hi) => TimeOf(get(a)).Some? && lo <= TimeOf(get(a)).value <= hi
    case AtLeast(a, lo) => TimeOf(get(a)).Some? && lo <= TimeOf(get(a)).value
    case AtMost(a, hi) => TimeOf(get(a)).Some? && TimeOf(get(a)).value <= hi
    case And(l, r) => Holds(l, get) && Holds(r, get)
  }

  /** The attributes a predicate reads. */
  ghost function Mentioned<A>(p: Pred<A>): set<A> {
    match p
    case Always => {}
    case Equal(a, _) => {a}
    case Within(a, _) => {a}
    case Between(a, _, _) => {a}
    case AtLeast(a, _) => {a}
    case AtMost(a, _) => {a}
    case And(l, r) => Mentioned(l) + Mentioned(r)
  }

  /** Two rows that agree on every attribute p reads are selected alike: no other column affects p. */
  lemma {:induction false} HoldsReadsOnlyMentioned<A>(p: Pred<A>, get1: A -> Option<Value>, get2: A -> Option<Value>)
    requires forall a :: a in Mentioned(p) ==> get1(a) == get2(a)
    ensures Holds(p, get1) == Holds(p, get2)
  {
    match p
    case And(l, r) =>
      HoldsReadsOnlyMentioned(l, get1, get2);
      HoldsReadsOnlyMentioned(r, get1, get2);
    case _ =>
  }

  /** `[from, to]` with a missing end left open: only `from` is [from, +inf), only `to` is (-inf, to]. */
  predicate InWindow(t: int, from: Option<int>, to: Option<int>) {
    (from.None? || from.value <= t) && (to.None? || t <= to.value)
  }

  /** buildEqualFilter: equality with a present value; absent gives the always-true predicate. */
  function EqualFilter<A>(attr: A, value: Option<Value>): (p: Pred<A>)
    ensures value.None? ==> p == Always
    ensures Mentioned(p) <= {attr}
  {
    if value.Some? then Equal(attr, value.value) else Always
  }

  /** A present value selects exactly the rows whose attribute equals it (never a NULL); absent selects every row. */
  lemma EqualFilterMeaning<A>(attr: A, value: Option<Value>)
    ensures forall get :: Holds(EqualFilter(attr, value), get) <==> value.None? || get(attr) == value
  {
  }

  /**
   * The shape of withCustomerIds, withFacilityIds, withCategories and
   * withCustomerOrgIds: membership in a non-empty list; a null or empty list
   * gives the always-true predicate. NULL is a member of no list.
   */
  function InFilter<A>(attr: A, values: Option<seq<Value>>): (p: Pred<A>)
    ensures values.None? || values.value == [] ==> p == Always
    ensures Mentioned(p) <= {attr}
  {
    if values.None? || values.value == [] then Always else Within(attr, values.value)
  }

  /** A non-empty list selects the rows whose attribute is one of its values; null or empty selects every row. */
  lemma InFilterMeaning<A>(attr: A, values: Option<seq<Value>>)
    ensures forall get :: Holds(InFilter(attr, values), get) <==>
      values.None? || values.value == [] || (get(attr).Some? && get(attr).value in values.value)
  {
  }

  /**
   * buildDateFilter: inclusive between when both bounds are present, `>=` with
   * only `from`, `<=` with only `to`, and always-true with neither.
   */
  function RangeFilter<A>(attr: A, from: Option<int>, to: Option<int>): (p: Pred<A>)
    ensures from.None? && to.None? ==> p == Always
    ensures Mentioned(p) <= {attr}
  {
    if from.Some? && to.Some? then Between(attr, from.value, to.value)
    else if from.Some? then AtLeast(attr, from.value)
    else if to.Some? then AtMost(attr, to.value)
    else Always
  }

  /** Each of the four branches selects exactly the rows inside the (possibly open) window; no bound selects every row. */
  lemma RangeFilterMeaning<A>(attr: A, from: Option<int>, to: Option<int>)
    ensures forall get :: Holds(RangeFilter(attr, from, to), get) <==>
      (from.None? && to.None?) || (TimeOf(get(attr)).Some? && InWindow(TimeOf(get(attr)).value, from, to))
  {
  }

  /**
   * The agreement date filter: between `date.atStartOfDay()` and
   * `date.atTime(LocalTime.MAX)`, so a date-time attribute matches exactly
   * when it falls on that day; an absent date gives always-true.
   */
  function SameDayFilter<A>(attr: A, date: Option<int>): (p: Pred<A>)
    ensures date.None? ==> p == Always
    ensures Mentioned(p) <= {attr}
  {
    if date.Some? then Between(attr, Calendar.AtStartOfDay(date.value), Calendar.AtEndOfDay(date.value)) else Always
  }

  /** A present date selects exactly the rows whose date-time falls on that day; absent selects every row. */
  lemma SameDayFilterMeaning<A>(attr: A, date: Option<int>)
    ensures forall get :: Holds(SameDayFilter(attr, date), get) <==>
      date.None? || (TimeOf(get(attr)).Some? && Calendar.EpochDay(TimeOf(get(attr)).value) == date.value)
  {
    if date.Some? {
      Calendar.SameDayEverywhere(date.value);
    }
  }

  /** The operands an IN clause receives for a list of strings, in list order. */
  function Texts(xs: seq<string>): (vs: seq<Value>)
    ensures |vs| == |xs|
    ensures forall i :: 0 <= i < |xs| ==> vs[i] == Text(xs[i])
    ensures forall s :: Text(s) in vs <==> s in xs
    ensures forall v :: v in vs ==> v.Text?
  {
    if xs == [] then [] else Texts(xs[..|xs| - 1]) + [Text(xs[|xs| - 1])]
  }

  /** The operands an IN clause receives for a list of whole numbers, in list order. */
  function Numbers(xs: seq<int>): (vs: seq<Value>)
    ensures |vs| == |xs|
    ensures forall i :: 0 <= i < |xs| ==> vs[i] == Number(xs[i])
    ensures forall n :: Number(n) in vs <==> n in xs
    ensures forall v :: v in vs ==> v.Number?
  {
    if xs == [] then [] else Numbers(xs[..|xs| - 1]) + [Number(xs[|xs| - 1])]
  }

  /** The IN clause that `cb.in(root.get(attr))` creates; AddValue is its `value(v)`. */
  class InClause<A> {
    const attr: A
    var values: seq<Value>

    constructor (attr: A)
      ensures this.attr == attr && values == []
    {
      this.attr := attr;
      values := [];
    }

    method AddValue(v: Value)
      modifies this
      ensures values == old(values) + [v]
    {
      values := values + [v];
    }
  }

  /** The rows of a table that p selects, in table order. */
  function Select<R(!new), A>(table: seq<R>, p: Pred<A>, view: R -> A -> Option<Value>): (s: seq<R>)
    ensures |s| <= |table|
    ensures forall r :: r in s <==> r in table && Holds(p, view(r))
  {
    if table == [] then []
    else if Holds(p, view(table[0])) then [table[0]] + Select(table[1..], p, view)
    else Select(table[1..], p, view)
  }

  /** A predicate that holds of every row of a table selects the whole table, in order. */
  lemma {:induction false} SelectEverything<R(!new), A>(table: seq<R>, p: Pred<A>, view: R -> A -> Option<Value>)
    requires forall r :: r in table ==> Holds(p, view(r))
    ensures Select(table, p, view) == table
  {
    if table != [] {
      assert table[0] in table;
      SelectEverything(table[1..], p, view);
    }
  }
}
