/**
 * Query-string filters of the form `key[operator]=value`
 * (restmodels/queryfilters.go). A query key is split by the regular
 * expression `^(.+)\[(.+)\]$`; keys that do not match are ignored, and a
 * matching key yields one filter per value given for it.
 */
module QueryFilters {
  import opened Common

  datatype Filter = Filter(operator: string, key: string, value: string)

  /** The two submatches of the query-key expression. */
  datatype KeyOperator = KeyOperator(key: string, operator: string)

  /** The query key a key/operator pair is written as. */
  function QueryKeyOf(ko: KeyOperator): string {
    ko.key + "[" + ko.operator + "]"
  }

  function KeyOperatorOf(f: Filter): KeyOperator {
    KeyOperator(f.key, f.operator)
  }

  /** `.` in Go's regular expressions matches any character but a newline. */
  predicate NoNewline(s: string) {
    forall i :: 0 <= i < |s| ==> s[i] != '\n'
  }

  /** The largest index `i` with `1 <= i < hi` and `s[i] == '['`. */
  function LastOpenBracket(s: string, hi: nat): (r: Option<nat>)
    requires hi <= |s|
    ensures r.Some? ==> 1 <= r.value < hi && s[r.value] == '['
                        && forall j :: r.value < j < hi ==> s[j] != '['
    ensures r.None? ==> forall j :: 1 <= j < hi ==> s[j] != '['
  {
    if hi <= 1 then None
    else if s[hi - 1] == '[' then Some(hi - 1)
    else LastOpenBracket(s, hi - 1)
  }

  /**
   * The submatches of `^(.+)\[(.+)\]$`. The first group is greedy, so the
   * split is at the last `[` that still leaves a non-empty operator before
   * the closing `]`.
   */
  function SplitQueryKey(q: string): (r: Option<KeyOperator>)
    ensures r.Some? ==> q == QueryKeyOf(r.value)
    ensures r.Some? ==> r.value.key != "" && r.value.operator != ""
    ensures r.Some? ==> NoNewline(r.value.key) && NoNewline(r.value.operator)
  {
    if |q| >= 4 && q[|q| - 1] == ']' && NoNewline(q) then
      match LastOpenBracket(q, |q| - 2)
      case None => None
      case Some(i) =>
        assert q == q[..i] + "[" + q[i + 1..|q| - 1] + "]";
        Some(KeyOperator(q[..i], q[i + 1..|q| - 1]))
    else None
  }

  /**
   * The key is the longest one possible: no `[` after it could start the
   * operator part instead.
   */
  lemma SplitQueryKeyIsLongest(q: string)
    requires SplitQueryKey(q).Some?
    ensures forall j :: |SplitQueryKey(q).value.key| < j < |q| - 2 ==> q[j] != '['
  {
  }

  /**
   * Every string of the form `key[operator]` with a non-empty key and
   * operator and no newline matches; with the lemma above and the
   * ensures of SplitQueryKey, matching is exactly this shape.
   */
  lemma {:induction false} SplitQueryKeyMatches(key: string, operator: string)
    requires key != "" && operator != ""
    requires NoNewline(key) && NoNewline(operator)
    ensures SplitQueryKey(key + "[" + operator + "]").Some?
  {
    var q := key + "[" + operator + "]";
    assert q[|key|] == '[';
    assert NoNewline(q) by {
      forall i | 0 <= i < |q| ensures q[i] != '\n' {
        if i < |key| {
          assert q[i] == key[i];
        } else if |key| < i < |q| - 1 {
          assert q[i] == operator[i - |key| - 1];
        }
      }
    }
    var r := LastOpenBracket(q, |q| - 2);
    assert 1 <= |key| < |q| - 2;
    assert r.Some?;
  }

  /** Distinct matching query keys never split into the same pair. */
  lemma SplitQueryKeyInjective(q1: string, q2: string)
    requires SplitQueryKey(q1).Some? && SplitQueryKey(q1) == SplitQueryKey(q2)
    ensures q1 == q2
  {
  }

  // ---------------------------------------------------------------------
  // Parsing a whole query

  /** One filter per value, in order, all with the key and operator of `ko`. */
  function FiltersFor(ko: KeyOperator, values: seq<string>): (fs: seq<Filter>)
  {
    seq(|values|, i requires 0 <= i < |values| => Filter(ko.operator, ko.key, values[i]))
  }

  /** The filters contributed by one query key: none unless it matches. */
  function FiltersOfKey(query: map<string, seq<string>>, queryKey: string): seq<Filter>
    requires queryKey in query
  {
    match SplitQueryKey(queryKey)
    case None => []
    case Some(ko) => FiltersFor(ko, query[queryKey])
  }

  /** A visit order: every key of the query exactly once, in some order. */
  ghost predicate IsVisitOrder(order: seq<string>, query: map<string, seq<string>>) {
    Distinct(order) && (forall k :: k in order <==> k in query)
  }

  /** The filters produced when the query's keys are visited in `order`. */
  function FiltersFrom(order: seq<string>, query: map<string, seq<string>>): seq<Filter>
    requires forall k :: k in order ==> k in query
  {
    if order == [] then []
    else FiltersFrom(order[..|order| - 1], query) + FiltersOfKey(query, order[|order| - 1])
  }

  /** The inner loop of ParseQueryIntoFilters: one filter appended per value, in order. */
  method AppendFilters(filters: seq<Filter>, ko: KeyOperator, values: seq<string>) returns (extended: seq<Filter>)
    ensures extended == filters + FiltersFor(ko, values)
  {
    extended := filters;
    for j := 0 to |values|
      invariant extended == filters + FiltersFor(ko, values[..j])
    {
      assert FiltersFor(ko, values[..j + 1]) == FiltersFor(ko, values[..j]) + [Filter(ko.operator, ko.key, values[j])];
      extended := extended + [Filter(ko.operator, ko.key, values[j])];
    }
    assert values[..|values|] == values;
  }

  /**
   * Go visits a map in an unspecified order; `visited` records the order
   * this run chose, and the filters are those of every matching key in
   * that order. Whatever the order, every filter comes from a value of a
   * matching key, and the filters of each matching key are its values in
   * their given order.
   */
  method ParseQueryIntoFilters(query: map<string, seq<string>>)
    returns (filters: seq<Filter>, ghost visited: seq<string>)
    ensures IsVisitOrder(visited, query)
    ensures filters == FiltersFrom(visited, query)
    ensures forall f :: f in filters ==>
              var qk := QueryKeyOf(KeyOperatorOf(f));
              qk in query && SplitQueryKey(qk) == Some(KeyOperatorOf(f)) && f.value in query[qk]
    ensures forall qk :: qk in query && SplitQueryKey(qk).Some? ==>
              WithKeyOperator(filters, SplitQueryKey(qk).value) == FiltersFor(SplitQueryKey(qk).value, query[qk])
  {
    filters := [];
    visited := [];
    var remaining := query.Keys;
    while remaining != {}
      invariant remaining <= query.Keys
      invariant forall k :: k in visited <==> k in query && k !in remaining
      invariant Distinct(visited)
      invariant filters == FiltersFrom(visited, query)
      decreases remaining
    {
      var queryKey :| queryKey in remaining;
      remaining := remaining - {queryKey};
      var before := filters;
      var found := SplitQueryKey(queryKey);
      if found.Some? {
        filters := AppendFilters(filters, found.value, query[queryKey]);
      }
      assert filters == before + FiltersOfKey(query, queryKey);
      assert (visited + [queryKey])[..|visited|] == visited;
      visited := visited + [queryKey];
    }
    ParsedFilterOrigin(visited, query);
    forall qk | qk in query && SplitQueryKey(qk).Some?
      ensures WithKeyOperator(filters, SplitQueryKey(qk).value) == FiltersFor(SplitQueryKey(qk).value, query[qk])
    {
      ParsedFiltersOfKey(visited, query, qk);
    }
  }

  // ---------------------------------------------------------------------
  // What the parsed list holds, whatever the visit order

  /** An empty query gives an empty list. */
  lemma ParseEmptyQuery(order: seq<string>)
    requires IsVisitOrder(order, map[])
    ensures FiltersFrom(order, map[]) == []
  {
    assert forall i :: 0 <= i < |order| ==> order[i] in order;
  }

  /**
   * Every filter comes from a matching query key that is in the query,
   * and its value is one of the values given for that key.
   */
  lemma {:induction false} ParsedFilterOrigin(order: seq<string>, query: map<string, seq<string>>)
    requires forall k :: k in order ==> k in query
    ensures forall f :: f in FiltersFrom(order, query) ==>
              var qk := QueryKeyOf(KeyOperatorOf(f));
              qk in query && SplitQueryKey(qk) == Some(KeyOperatorOf(f)) && f.value in query[qk]
  {
    if order != [] {
      var init := order[..|order| - 1];
      var k := order[|order| - 1];
      assert k in order;
      ParsedFilterOrigin(init, query);
      forall f | f in FiltersOfKey(query, k)
        ensures var qk := QueryKeyOf(KeyOperatorOf(f));
                qk in query && SplitQueryKey(qk) == Some(KeyOperatorOf(f)) && f.value in query[qk]
      {
        var ko := SplitQueryKey(k).value;
        var i :| 0 <= i < |query[k]| && FiltersFor(ko, query[k])[i] == f;
        assert KeyOperatorOf(f) == ko;
      }
    }
  }

  /**
   * A key that does not match contributes nothing: whatever values it
   * carries, the parsed list is the same.
   */
  lemma {:induction false} NonMatchingKeyIgnored(order: seq<string>, query: map<string, seq<string>>,
                                                 queryKey: string, values: seq<string>)
    requires forall k :: k in order ==> k in query
    requires queryKey in query && SplitQueryKey(queryKey).None?
    ensures FiltersFrom(order, query) == FiltersFrom(order, query[queryKey := values])
  {
    if order != [] {
      NonMatchingKeyIgnored(order[..|order| - 1], query, queryKey, values);
      assert order[|order| - 1] in order;
    }
  }

  /** The parsed filters that carry one key/operator pair, in order. */
  function WithKeyOperator(fs: seq<Filter>, ko: KeyOperator): seq<Filter> {
    Where(fs, KeyOperatorOf, ko)
  }

  lemma {:induction false} FiltersForWithKeyOperator(ko: KeyOperator, values: seq<string>, other: KeyOperator)
    ensures WithKeyOperator(FiltersFor(ko, values), other) == if ko == other then FiltersFor(ko, values) else []
  {
    if values != [] {
      var init := values[..|values| - 1];
      var fs := FiltersFor(ko, values);
      assert fs[..|fs| - 1] == FiltersFor(ko, init);
      FiltersForWithKeyOperator(ko, init, other);
    }
  }

  /**
   * A matching key with n values yields exactly n filters with its key and
   * operator, their values those n values in the order given.
   */
  lemma {:induction false} ParsedFiltersOfKey(order: seq<string>, query: map<string, seq<string>>, queryKey: string)
    requires IsVisitOrder(order, query)
    requires queryKey in query && SplitQueryKey(queryKey).Some?
    ensures WithKeyOperator(FiltersFrom(order, query), SplitQueryKey(queryKey).value)
            == FiltersFor(SplitQueryKey(queryKey).value, query[queryKey])
  {
    ParsedFiltersOfKeyIn(order, query, queryKey);
  }

  lemma {:induction false} ParsedFiltersOfKeyIn(order: seq<string>, query: map<string, seq<string>>, queryKey: string)
    requires Distinct(order) && forall k :: k in order ==> k in query
    requires queryKey in query && SplitQueryKey(queryKey).Some?
    ensures WithKeyOperator(FiltersFrom(order, query), SplitQueryKey(queryKey).value)
            == if queryKey in order then FiltersFor(SplitQueryKey(queryKey).value, query[queryKey]) else []
  {
    var ko := SplitQueryKey(queryKey).value;
    if order != [] {
      var init := order[..|order| - 1];
      var k := order[|order| - 1];
      assert k in order;
      assert Distinct(init);
      ParsedFiltersOfKeyIn(init, query, queryKey);
      WhereAppend(FiltersFrom(init, query), FiltersOfKey(query, k), KeyOperatorOf, ko);
      match SplitQueryKey(k)
      case None =>
      case Some(ko') =>
        FiltersForWithKeyOperator(ko', query[k], ko);
        if ko' == ko {
          SplitQueryKeyInjective(k, queryKey);
        }
      if k == queryKey {
        assert queryKey !in init;
      } else {
        assert queryKey in order <==> queryKey in init;
      }
    }
  }

  /** The total of the numbers of values given for the matching keys. */
  function MatchingValueCount(order: seq<string>, query: map<string, seq<string>>): nat
    requires forall k :: k in order ==> k in query
  {
    if order == [] then 0
    else
      var k := order[|order| - 1];
      MatchingValueCount(order[..|order| - 1], query) + (if SplitQueryKey(k).Some? then |query[k]| else 0)
  }

  /** There are exactly as many filters as values under matching keys. */
  lemma {:induction false} ParsedFilterCount(order: seq<string>, query: map<string, seq<string>>)
    requires forall k :: k in order ==> k in query
    ensures |FiltersFrom(order, query)| == MatchingValueCount(order, query)
  {
    if order != [] {
      assert order[|order| - 1] in order;
      ParsedFilterCount(order[..|order| - 1], query);
    }
  }
}
