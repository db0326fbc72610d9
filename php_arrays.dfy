/**
 * The behaviour of the PHP array built-ins the package mail relies on, on
 * ordered lists: first-seen de-duplication (what assigning to an array key
 * does), `array_filter` without a callback, and `array_select_keys`.
 */
module PhpArrays {

  /** A PHP value that may be `null`. */
  datatype Option<T> = None | Some(value: T)

  /** No element occurs twice. */
  predicate Distinct<T(==)>(s: seq<T>)
  {
    forall i, j :: 0 <= i < j < |s| ==> s[i] != s[j]
  }

  /** Appends `x` unless it is already present, as `$a[$x] = ...` does for keys. */
  function AddNew<T(==)>(s: seq<T>, x: T): seq<T>
  {
    if x in s then s else s + [x]
  }

  /** Appending a new element to a list without repetitions keeps it without repetitions. */
  lemma AddNewKeepsDistinct<T>(s: seq<T>, x: T)
    requires Distinct(s)
    ensures Distinct(AddNew(s, x))
  {
    var r := AddNew(s, x);
    if x !in s {
      forall i, j | 0 <= i < j < |r| ensures r[i] != r[j] {
        if j == |s| {
          assert r[i] == s[i];
        }
      }
    }
  }

  /** The elements of `s`, each once, in the order in which they first occur. */
  function Dedup<T(==)>(s: seq<T>): (r: seq<T>)
    ensures Distinct(r)
    ensures forall x :: x in r ==> x in s
    ensures forall x :: x in s ==> x in r
    decreases |s|
  {
    if |s| == 0 then [] else AddNew(Dedup(s[..|s| - 1]), s[|s| - 1])
  }

  /** The position of the first occurrence of `x` in `s`. */
  function FirstIndex<T(==)>(s: seq<T>, x: T): (k: nat)
    requires x in s
    ensures k < |s| && s[k] == x && x !in s[..k]
    decreases |s|
  {
    if s[0] == x then 0
    else
      var k := 1 + FirstIndex(s[1..], x);
      assert s[..k] == [s[0]] + s[1..][..k - 1];
      k
  }

  /** A position holding `x` with no earlier `x` is the first index of `x`. */
  lemma FirstIndexUnique<T>(s: seq<T>, x: T, k: nat)
    requires k < |s| && s[k] == x && x !in s[..k]
    ensures FirstIndex(s, x) == k
  {
  }

  /** Appending elements does not move the first occurrence of an element already present. */
  lemma FirstIndexOfPrefix<T>(s: seq<T>, t: seq<T>, x: T)
    requires x in s
    ensures FirstIndex(s + t, x) == FirstIndex(s, x)
  {
    var k := FirstIndex(s, x);
    assert (s + t)[..k] == s[..k];
    FirstIndexUnique(s + t, x, k);
  }

  /** `Dedup` keeps first-seen order: earlier in the result means first seen earlier in the input. */
  lemma {:induction false} DedupKeepsFirstSeenOrder<T>(s: seq<T>, i: nat, j: nat)
    requires i < j < |Dedup(s)|
    ensures FirstIndex(s, Dedup(s)[i]) < FirstIndex(s, Dedup(s)[j])
    decreases |s|
  {
    var n := |s|;
    var init, x := s[..n - 1], s[n - 1];
    assert s == init + [x];
    var d := Dedup(init);
    if j < |d| {
      assert Dedup(s)[i] == d[i] && Dedup(s)[j] == d[j];
      DedupKeepsFirstSeenOrder(init, i, j);
      FirstIndexOfPrefix(init, [x], d[i]);
      FirstIndexOfPrefix(init, [x], d[j]);
    } else {
      assert x !in init && Dedup(s) == d + [x] && Dedup(s)[j] == x;
      FirstIndexOfPrefix(init, [x], d[i]);
      assert s[..n - 1] == init;
      FirstIndexUnique(s, x, n - 1);
    }
  }

  /** Without its last element a list without repetitions still has none, and does not hold that element. */
  lemma DistinctInit<T>(s: seq<T>)
    requires |s| > 0 && Distinct(s)
    ensures Distinct(s[..|s| - 1]) && s[|s| - 1] !in s[..|s| - 1]
  {
    var init := s[..|s| - 1];
    forall i, j | 0 <= i < j < |init| ensures init[i] != init[j] {
      assert init[i] == s[i] && init[j] == s[j];
    }
    forall i | 0 <= i < |init| ensures init[i] != s[|s| - 1] {
      assert init[i] == s[i];
    }
  }

  /** De-duplicating a list without repetitions changes nothing. */
  lemma {:induction false} DedupOfDistinct<T>(s: seq<T>)
    requires Distinct(s)
    ensures Dedup(s) == s
    decreases |s|
  {
    if |s| > 0 {
      var init := s[..|s| - 1];
      DistinctInit(s);
      DedupOfDistinct(init);
      assert init + [s[|s| - 1]] == s;
    }
  }

  /** PHP truthiness of a string or `null`: `null`, `""` and `"0"` are false. */
  predicate Truthy(x: Option<string>)
  {
    x.Some? && x.value != "" && x.value != "0"
  }

  /** The number of truthy slots in `xs`. */
  function TruthyCount(xs: seq<Option<string>>): nat
    decreases |xs|
  {
    if |xs| == 0 then 0 else (if Truthy(xs[0]) then 1 else 0) + TruthyCount(xs[1..])
  }

  /** `array_filter` without a callback, followed by the values in order: only truthy values are kept. */
  function ArrayFilter(xs: seq<Option<string>>): (r: seq<string>)
    ensures forall i :: 0 <= i < |r| ==> Truthy(Some(r[i]))
    decreases |xs|
  {
    if |xs| == 0 then []
    else if Truthy(xs[0]) then [xs[0].value] + ArrayFilter(xs[1..])
    else ArrayFilter(xs[1..])
  }

  /** `array_filter` keeps one entry per truthy slot. */
  lemma {:induction false} ArrayFilterCount(xs: seq<Option<string>>)
    ensures |ArrayFilter(xs)| == TruthyCount(xs)
    decreases |xs|
  {
    if |xs| > 0 {
      ArrayFilterCount(xs[1..]);
    }
  }

  /** Every truthy value survives `array_filter`. */
  lemma {:induction false} ArrayFilterKeepsTruthy(xs: seq<Option<string>>, i: nat)
    requires i < |xs| && Truthy(xs[i])
    ensures xs[i].value in ArrayFilter(xs)
    decreases |xs|
  {
    if i > 0 {
      assert xs[i] == xs[1..][i - 1];
      ArrayFilterKeepsTruthy(xs[1..], i - 1);
    }
  }

  /** `array_filter` keeps order: filtering a concatenation concatenates the filtered halves. */
  lemma {:induction false} ArrayFilterAppend(a: seq<Option<string>>, b: seq<Option<string>>)
    ensures ArrayFilter(a + b) == ArrayFilter(a) + ArrayFilter(b)
    decreases |a|
  {
    if |a| > 0 {
      assert (a + b)[0] == a[0];
      assert (a + b)[1..] == a[1..] + b;
      ArrayFilterAppend(a[1..], b);
    } else {
      assert a + b == b;
    }
  }

  /** The keys of a list of key/value pairs, in order. */
  function PairKeys<K, V>(pairs: seq<(K, V)>): seq<K>
  {
    seq(|pairs|, i requires 0 <= i < |pairs| => pairs[i].0)
  }

  /**
   * `array_select_keys(dict, keys)`: for each key in order that `dict` holds,
   * the entry of `dict`; a key named twice keeps its first position.
   */
  function SelectKeys<K(==), V>(dict: map<K, V>, keys: seq<K>): (r: seq<(K, V)>)
    ensures Distinct(PairKeys(r))
    ensures forall i :: 0 <= i < |r| ==> r[i].0 in dict && r[i].1 == dict[r[i].0]
    ensures forall k :: k in PairKeys(r) ==> k in keys && k in dict
    ensures forall k :: k in keys && k in dict ==> k in PairKeys(r)
    decreases |keys|
  {
    if |keys| == 0 then []
    else
      var prev := SelectKeys(dict, keys[..|keys| - 1]);
      var k := keys[|keys| - 1];
      if k in dict && k !in PairKeys(prev) then
        assert PairKeys(prev + [(k, dict[k])]) == PairKeys(prev) + [k];
        prev + [(k, dict[k])]
      else prev
  }

  /** When every key is present, the selected keys are the keys de-duplicated in first-seen order. */
  lemma {:induction false} SelectKeysAllPresent<K, V>(dict: map<K, V>, keys: seq<K>)
    requires forall k :: k in keys ==> k in dict
    ensures PairKeys(SelectKeys(dict, keys)) == Dedup(keys)
    decreases |keys|
  {
    if |keys| > 0 {
      var init, k := keys[..|keys| - 1], keys[|keys| - 1];
      SelectKeysAllPresent(dict, init);
      var prev := SelectKeys(dict, init);
      if k !in PairKeys(prev) {
        assert PairKeys(prev + [(k, dict[k])]) == PairKeys(prev) + [k];
      }
    }
  }
}
