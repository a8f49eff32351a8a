/**
 * Shared vocabulary of the device store model: optional values (Go's nil
 * pointers), results with errors, the HTTP errors the web framework builds,
 * ASCII digit strings, and the "last write wins" and "group by" shapes that
 * Go code produces when it fills a map in a loop.
 */
module Common {

  /** A Go pointer that may be nil. */
  datatype Option<+T> = None | Some(value: T)

  /** A Go `(value, error)` pair where only one side is meaningful. */
  datatype Result<+T, +E> = Success(value: T) | Failure(error: E)

  /** A Go `error` return that is either nil or an error. */
  datatype Outcome<+E> = Pass | Fail(error: E)

  /** An error carrying an HTTP status, as built by the web framework. */
  datatype HttpError = HttpError(status: int, message: string)

  const StatusBadRequest: int := 400
  const StatusUnauthorized: int := 401
  const StatusForbidden: int := 403
  const StatusNotFound: int := 404
  const StatusInternalServerError: int := 500

  function BadRequest(message: string): (e: HttpError)
    ensures e.status == 400 && e.message == message
  {
    HttpError(StatusBadRequest, message)
  }

  // ---------------------------------------------------------------------
  // ASCII digits (the `\d` class of Go's regexp package is ASCII only)

  predicate IsDigit(c: char) {
    '0' <= c <= '9'
  }

  predicate AllDigits(s: string) {
    forall i :: 0 <= i < |s| ==> IsDigit(s[i])
  }

  /** The digit string matches `^\d+$`. */
  predicate IsDigitString(s: string) {
    |s| > 0 && AllDigits(s)
  }

  function DigitValue(c: char): (d: nat)
    requires IsDigit(c)
    ensures d < 10
  {
    (c as int) - ('0' as int)
  }

  function DigitChar(d: nat): (c: char)
    requires d < 10
    ensures IsDigit(c) && DigitValue(c) == d
  {
    (('0' as int) + d) as char
  }

  /** The decimal value of a digit string, most significant digit first. */
  function DecimalValue(s: string): (n: nat)
    requires AllDigits(s)
  {
    if s == [] then 0 else 10 * DecimalValue(s[..|s| - 1]) + DigitValue(s[|s| - 1])
  }

  /** `n` written with exactly `width` decimal digits, zero padded. */
  function PaddedDecimal(n: nat, width: nat): (s: string)
    ensures |s| == width && AllDigits(s)
  {
    if width == 0 then [] else PaddedDecimal(n / 10, width - 1) + [DigitChar(n % 10)]
  }

  function Pow10(k: nat): (p: nat)
    ensures p >= 1
  {
    if k == 0 then 1 else 10 * Pow10(k - 1)
  }

  /** Reading back a zero-padded number gives the number when it fits. */
  lemma {:induction false} DecimalOfPadded(n: nat, width: nat)
    requires n < Pow10(width)
    ensures DecimalValue(PaddedDecimal(n, width)) == n
  {
    if width > 0 {
      var s := PaddedDecimal(n, width);
      assert s[..|s| - 1] == PaddedDecimal(n / 10, width - 1);
      DecimalOfPadded(n / 10, width - 1);
    }
  }

  /** Writing a digit string's value back with its own width gives the string. */
  lemma {:induction false} PaddedOfDecimal(s: string)
    requires AllDigits(s)
    ensures DecimalValue(s) < Pow10(|s|)
    ensures PaddedDecimal(DecimalValue(s), |s|) == s
  {
    if s != [] {
      var init := s[..|s| - 1];
      PaddedOfDecimal(init);
      var n := DecimalValue(s);
      assert n / 10 == DecimalValue(init) && n % 10 == DigitValue(s[|s| - 1]);
      assert s == init + [s[|s| - 1]];
    }
  }

  // ---------------------------------------------------------------------
  // Maps filled in a loop

  /**
   * The map `m[key(x)] = val(x)` built by visiting `s` in order: for a key
   * that occurs more than once the last occurrence wins.
   */
  function LastWins<T, K, V>(s: seq<T>, key: T -> K, val: T -> V): map<K, V>
  {
    if s == [] then map[]
    else LastWins(s[..|s| - 1], key, val)[key(s[|s| - 1]) := val(s[|s| - 1])]
  }

  function KeySet<T(==), K>(s: seq<T>, key: T -> K): set<K> {
    set x | x in s :: key(x)
  }

  lemma {:induction false} LastWinsKeys<T, K, V>(s: seq<T>, key: T -> K, val: T -> V)
    ensures LastWins(s, key, val).Keys == KeySet(s, key)
  {
    if s != [] {
      var init := s[..|s| - 1];
      LastWinsKeys(init, key, val);
      assert s == init + [s[|s| - 1]];
      forall k | k in KeySet(s, key) ensures k in LastWins(s, key, val) {
        var x :| x in s && key(x) == k;
        if x != s[|s| - 1] {
          assert x in init;
        }
      }
    }
  }

  /**
   * The value stored under `k` is `val` of the last element whose key is `k`:
   * it comes from position `j`, and no later element has that key.
   */
  lemma {:induction false} LastWinsValue<T, K, V>(s: seq<T>, key: T -> K, val: T -> V, k: K)
    requires k in LastWins(s, key, val)
    ensures exists j :: 0 <= j < |s| && key(s[j]) == k && LastWins(s, key, val)[k] == val(s[j])
                        && forall i :: j < i < |s| ==> key(s[i]) != k
  {
    var init := s[..|s| - 1];
    var last := s[|s| - 1];
    if key(last) != k {
      LastWinsValue(init, key, val, k);
      var j :| 0 <= j < |init| && key(init[j]) == k && LastWins(init, key, val)[k] == val(init[j])
               && forall i :: j < i < |init| ==> key(init[i]) != k;
      assert key(s[j]) == k && forall i :: j < i < |s| ==> key(s[i]) != k;
    } else {
      assert key(s[|s| - 1]) == k && LastWins(s, key, val)[k] == val(s[|s| - 1]);
    }
  }

  /** The subsequence of elements whose key is `k`, in their original order. */
  function Where<T, K(==)>(s: seq<T>, key: T -> K, k: K): (r: seq<T>)
    ensures |r| <= |s|
  {
    if s == [] then []
    else Where(s[..|s| - 1], key, k) + (if key(s[|s| - 1]) == k then [s[|s| - 1]] else [])
  }

  lemma {:induction false} WhereMembers<T, K>(s: seq<T>, key: T -> K, k: K)
    ensures forall x :: x in Where(s, key, k) ==> x in s
    ensures forall x :: x in Where(s, key, k) ==> key(x) == k
    ensures forall x :: x in s && key(x) == k ==> x in Where(s, key, k)
  {
    if s != [] {
      var init := s[..|s| - 1];
      WhereMembers(init, key, k);
      assert s == init + [s[|s| - 1]];
    }
  }

  lemma {:induction false} WhereAppend<T, K>(a: seq<T>, b: seq<T>, key: T -> K, k: K)
    ensures Where(a + b, key, k) == Where(a, key, k) + Where(b, key, k)
  {
    if b != [] {
      var b' := b[..|b| - 1];
      assert (a + b)[..|a + b| - 1] == a + b';
      WhereAppend(a, b', key, k);
    } else {
      assert a + b == a;
    }
  }

  lemma {:induction false} WhereNone<T, K>(s: seq<T>, key: T -> K, k: K)
    requires k !in KeySet(s, key)
    ensures Where(s, key, k) == []
  {
    if s != [] {
      var init := s[..|s| - 1];
      assert key(s[|s| - 1]) in KeySet(s, key);
      assert KeySet(init, key) <= KeySet(s, key) by {
        forall y | y in KeySet(init, key) ensures y in KeySet(s, key) {
          var x :| x in init && key(x) == y;
          assert x in s;
        }
      }
      WhereNone(init, key, k);
    }
  }

  /**
   * The map from each key to the elements carrying it, in order: what a Go
   * loop `m[key(x)] = append(m[key(x)], x)` builds.
   */
  function GroupBy<T, K>(s: seq<T>, key: T -> K): map<K, seq<T>>
  {
    if s == [] then map[]
    else
      var m := GroupBy(s[..|s| - 1], key);
      var k := key(s[|s| - 1]);
      m[k := (if k in m then m[k] else []) + [s[|s| - 1]]]
  }

  lemma {:induction false} GroupByIsWhere<T, K>(s: seq<T>, key: T -> K)
    ensures GroupBy(s, key).Keys == KeySet(s, key)
    ensures forall k :: k in GroupBy(s, key) ==> GroupBy(s, key)[k] == Where(s, key, k)
  {
    if s != [] {
      var init := s[..|s| - 1];
      var last := s[|s| - 1];
      GroupByIsWhere(init, key);
      assert s == init + [last];
      WhereMembers(init, key, key(last));
      forall k | k in KeySet(s, key) ensures k in GroupBy(s, key) {
        var x :| x in s && key(x) == k;
        if x != last {
          assert x in init;
        }
      }
      forall k | k in GroupBy(s, key) ensures GroupBy(s, key)[k] == Where(s, key, k) {
        if k != key(last) {
          assert k in GroupBy(init, key);
        } else if k !in GroupBy(init, key) {
          assert k !in KeySet(init, key);
          WhereNone(init, key, k);
        }
      }
    }
  }

  /** Pairwise distinct elements. */
  predicate Distinct<T(==)>(s: seq<T>) {
    forall i, j :: 0 <= i < j < |s| ==> s[i] != s[j]
  }

  // ---------------------------------------------------------------------
  // Element-wise list conversion

  /** `f` applied to every element, in order. */
  function Mapped<A, B>(xs: seq<A>, f: A -> B): (ys: seq<B>)
    ensures |ys| == |xs|
    ensures forall i :: 0 <= i < |xs| ==> ys[i] == f(xs[i])
  {
    seq(|xs|, i requires 0 <= i < |xs| => f(xs[i]))
  }

  /**
   * The Go loop `out := []B{}; for _, x := range xs { out = append(out, f(x)) }`:
   * it starts from an empty, non-nil list and converts every element in order.
   */
  method ConvertEach<A, B>(xs: seq<A>, f: A -> B) returns (ys: seq<B>)
    ensures |ys| == |xs|
    ensures forall i :: 0 <= i < |xs| ==> ys[i] == f(xs[i])
  {
    ys := [];
    for i := 0 to |xs|
      invariant |ys| == i
      invariant forall j :: 0 <= j < i ==> ys[j] == f(xs[j])
    {
      ys := ys + [f(xs[i])];
    }
  }

  /** Converting there and back element-wise restores a list whose elements all round-trip. */
  lemma MappedRoundTrip<A, B>(xs: seq<A>, f: A -> B, g: B -> A)
    requires forall i :: 0 <= i < |xs| ==> g(f(xs[i])) == xs[i]
    ensures Mapped(Mapped(xs, f), g) == xs
  {
  }

  // ---------------------------------------------------------------------
  // Ranging over a Go map

  /**
   * `order` lists every key of `keys` exactly once: the order in which a Go
   * `range` over a map visits its keys, which the language leaves unspecified.
   */
  ghost predicate IsEnumeration<K>(order: seq<K>, keys: set<K>) {
    Distinct(order)
    && (forall i :: 0 <= i < |order| ==> order[i] in keys)
    && (forall k :: k in keys ==> k in order)
  }

  /** An enumeration has exactly as many entries as there are keys. */
  lemma {:induction false} EnumerationSize<K>(order: seq<K>, keys: set<K>)
    requires IsEnumeration(order, keys)
    ensures |order| == |keys|
  {
    if order != [] {
      var init := order[..|order| - 1];
      var last := order[|order| - 1];
      assert order == init + [last];
      forall k | k in keys - {last} ensures k in init {
        var i :| 0 <= i < |order| && order[i] == k;
        assert i != |order| - 1;
        assert init[i] == k;
      }
      EnumerationSize(init, keys - {last});
    } else {
      assert forall k :: k !in keys;
      assert keys == {};
    }
  }

  /**
   * The Go loop `out := []T{}; for k, v := range m { out = append(out, f(k, v)) }`:
   * one converted entry per key, in the visiting order `order`.
   */
  method EnumerateMap<K, V, T>(m: map<K, V>, f: (K, V) -> T) returns (out: seq<T>, ghost order: seq<K>)
    ensures IsEnumeration(order, m.Keys)
    ensures |out| == |m|
    ensures |out| == |order|
    ensures forall i :: 0 <= i < |order| ==> out[i] == f(order[i], m[order[i]])
  {
    out, order := [], [];
    var remaining := m.Keys;
    while remaining != {}
      invariant remaining <= m.Keys
      invariant Distinct(order)
      invariant forall i :: 0 <= i < |order| ==> order[i] in m && order[i] !in remaining
      invariant forall k :: k in m ==> k in remaining || k in order
      invariant |out| == |order|
      invariant forall i :: 0 <= i < |order| ==> out[i] == f(order[i], m[order[i]])
      decreases remaining
    {
      var k :| k in remaining;
      out, order := out + [f(k, m[k])], order + [k];
      remaining := remaining - {k};
    }
    EnumerationSize(order, m.Keys);
  }

  // ---------------------------------------------------------------------
  // Checks chained with early returns

  /** The first error of a chain of checks run in order, or none. */
  function FirstError<E>(checks: seq<Option<E>>): (r: Option<E>)
    ensures r.None? <==> forall i :: 0 <= i < |checks| ==> checks[i].None?
    ensures r.Some? ==> exists i :: 0 <= i < |checks| && checks[i] == r && forall j :: 0 <= j < i ==> checks[j].None?
  {
    if checks == [] then None
    else if checks[0].Some? then checks[0]
    else
      var r := FirstError(checks[1..]);
      assert forall i :: 1 <= i < |checks| ==> checks[i] == checks[1..][i - 1];
      r
  }

  lemma FirstErrorOfThree<E>(a: Option<E>, b: Option<E>, c: Option<E>)
    ensures FirstError([a, b, c]) == if a.Some? then a else if b.Some? then b else c
  {
    assert [a, b, c][1..] == [b, c];
    assert [b, c][1..] == [c];
    assert [c][1..] == [];
    assert FirstError([c]) == c;
    assert FirstError([b, c]) == if b.Some? then b else c;
  }
}
