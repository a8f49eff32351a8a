/**
 * Translation of parsed filters into SQL where-clauses and their bound
 * values (internal/persistence/intermediaries/filter.go). A filter table
 * maps an attribute and an operator to a function that builds the clause;
 * the first filter the table does not allow aborts the translation.
 */
module FilterTranslation {
  import opened Common
  import opened QueryFilters

  /** A where-clause with `?` placeholders and the values bound to them. */
  datatype Fragment = Fragment(clause: string, values: seq<string>)

  /** attribute -> operator -> clause builder */
  type FilterTable = map<string, map<string, string -> Fragment>>

  /** All where-clauses, in filter order, and all bound values, in order. */
  datatype Fragments = Fragments(clauses: seq<string>, values: seq<string>)

  predicate Allowed(table: FilterTable, f: Filter) {
    f.key in table && f.operator in table[f.key]
  }

  /** The fragment an allowed filter builds. */
  function FragmentOf(table: FilterTable, f: Filter): Fragment
    requires Allowed(table, f)
  {
    table[f.key][f.operator](f.value)
  }

  /** The error a filter the table does not allow is rejected with. */
  function RejectionOf(table: FilterTable, f: Filter): string {
    if f.key !in table then "may not filter on attribute, " + f.key
    else "may not filter with operator, " + f.operator + ", on attribute, " + f.key
  }

  /** The outcome of translating `filters` in order. */
  function Translation(filters: seq<Filter>, table: FilterTable): Result<Fragments, string> {
    if filters == [] then Success(Fragments([], []))
    else
      match Translation(filters[..|filters| - 1], table)
      case Failure(e) => Failure(e)
      case Success(acc) =>
        var f := filters[|filters| - 1];
        if Allowed(table, f) then
          Success(Fragments(acc.clauses + [FragmentOf(table, f).clause], acc.values + FragmentOf(table, f).values))
        else Failure(RejectionOf(table, f))
  }

  /** Once a prefix fails, the whole translation fails with that error. */
  lemma {:induction false} TranslationFailureSticks(filters: seq<Filter>, table: FilterTable, n: nat)
    requires n <= |filters| && Translation(filters[..n], table).Failure?
    ensures Translation(filters, table) == Translation(filters[..n], table)
  {
    if n < |filters| {
      assert filters[..|filters| - 1][..n] == filters[..n];
      TranslationFailureSticks(filters[..|filters| - 1], table, n);
    } else {
      assert filters[..n] == filters;
    }
  }

  method TranslateFiltersToQueryFragments(filters: seq<Filter>, table: FilterTable)
    returns (r: Result<Fragments, string>)
    ensures r == Translation(filters, table)
  {
    var whereClauses: seq<string> := [];
    var values: seq<string> := [];
    for i := 0 to |filters|
      invariant Translation(filters[..i], table) == Success(Fragments(whereClauses, values))
    {
      var filter := filters[i];
      assert filters[..i + 1][..i] == filters[..i];
      if filter.key in table {
        var operators := table[filter.key];
        if filter.operator in operators {
          var fragment := operators[filter.operator](filter.value);
          whereClauses := whereClauses + [fragment.clause];
          for j := 0 to |fragment.values|
            invariant values == Translation(filters[..i], table).value.values + fragment.values[..j]
          {
            assert fragment.values[..j + 1] == fragment.values[..j] + [fragment.values[j]];
            values := values + [fragment.values[j]];
          }
          assert fragment.values[..|fragment.values|] == fragment.values;
        } else {
          r := Failure("may not filter with operator, " + filter.operator + ", on attribute, " + filter.key);
          TranslationFailureSticks(filters, table, i + 1);
          return;
        }
      } else {
        r := Failure("may not filter on attribute, " + filter.key);
        TranslationFailureSticks(filters, table, i + 1);
        return;
      }
    }
    assert filters[..|filters|] == filters;
    r := Success(Fragments(whereClauses, values));
  }

  // ---------------------------------------------------------------------
  // What a translation means

  /** The translation succeeds exactly when the table allows every filter. */
  lemma {:induction false} TranslationSucceedsIff(filters: seq<Filter>, table: FilterTable)
    ensures Translation(filters, table).Success? <==> forall i :: 0 <= i < |filters| ==> Allowed(table, filters[i])
  {
    if filters != [] {
      var init := filters[..|filters| - 1];
      TranslationSucceedsIff(init, table);
    }
  }

  /** On success there is one clause per filter, built by that filter's entry. */
  lemma {:induction false} TranslationClauses(filters: seq<Filter>, table: FilterTable)
    requires Translation(filters, table).Success?
    ensures |Translation(filters, table).value.clauses| == |filters|
    ensures forall i :: 0 <= i < |filters| ==>
              Allowed(table, filters[i])
              && Translation(filters, table).value.clauses[i] == FragmentOf(table, filters[i]).clause
  {
    if filters != [] {
      TranslationClauses(filters[..|filters| - 1], table);
    }
  }

  /**
   * The error reports the first filter the table does not allow: every
   * filter before it is allowed.
   */
  lemma {:induction false} TranslationFailsAtFirstRejected(filters: seq<Filter>, table: FilterTable)
    requires Translation(filters, table).Failure?
    ensures exists n :: 0 <= n < |filters| && !Allowed(table, filters[n])
              && (forall i :: 0 <= i < n ==> Allowed(table, filters[i]))
              && Translation(filters, table).error == RejectionOf(table, filters[n])
  {
    var init := filters[..|filters| - 1];
    if Translation(init, table).Failure? {
      TranslationFailsAtFirstRejected(init, table);
      var n :| 0 <= n < |init| && !Allowed(table, init[n])
               && (forall i :: 0 <= i < n ==> Allowed(table, init[i]))
               && Translation(init, table).error == RejectionOf(table, init[n]);
      assert filters[n] == init[n] && forall i :: 0 <= i < n ==> filters[i] == init[i];
    } else {
      TranslationSucceedsIff(init, table);
      assert forall i :: 0 <= i < |filters| - 1 ==> filters[i] == init[i];
    }
  }

  /** When every fragment binds one value, the values line up with the filters. */
  lemma {:induction false} TranslationSingleValues(filters: seq<Filter>, table: FilterTable)
    requires Translation(filters, table).Success?
    requires forall i :: 0 <= i < |filters| ==> Allowed(table, filters[i]) ==> FragmentOf(table, filters[i]).values == [filters[i].value]
    ensures |Translation(filters, table).value.values| == |filters|
    ensures forall i :: 0 <= i < |filters| ==> Translation(filters, table).value.values[i] == filters[i].value
  {
    if filters != [] {
      TranslationSingleValues(filters[..|filters| - 1], table);
    }
  }

}
