/**
 * The PHP value semantics the server-side services rely on: truthiness, ordered arrays with
 * string keys, `array_filter` without a callback, `array_merge`, Laravel's `data_get` on an
 * array, loose `in_array` and the coercion of a scalar to a `string` parameter.
 */
module Php {
  import opened Wrappers
  import Text

  /**
   * A PHP value. An array is its ordered list of entries; integer keys are written as their
   * decimal strings. Floats and objects are not modelled.
   */
  datatype Value = Null | Bool(b: bool) | Int(i: int) | Str(s: string) | Arr(entries: seq<(string, Value)>)

  /** PHP truthiness: null, false, 0, "", "0" and the empty array are falsy. */
  predicate Truthy(v: Value)
  {
    match v
    case Null => false
    case Bool(b) => b
    case Int(i) => i != 0
    case Str(s) => s != "" && s != "0"
    case Arr(es) => es != []
  }

  function KeySet(es: seq<(string, Value)>): (ks: set<string>)
    ensures forall i :: 0 <= i < |es| ==> es[i].0 in ks
    ensures forall k :: k in ks ==> exists i :: 0 <= i < |es| && es[i].0 == k
  {
    set i | 0 <= i < |es| :: es[i].0
  }

  /** A PHP array never holds a key twice. */
  predicate DistinctKeys(es: seq<(string, Value)>)
  {
    forall i, j :: 0 <= i < j < |es| ==> es[i].0 != es[j].0
  }

  /** `$array[$k]` for a present key. */
  function Get(es: seq<(string, Value)>, k: string): (r: Option<Value>)
    ensures r.None? <==> k !in KeySet(es)
    ensures r.Some? ==> (k, r.value) in es
  {
    if es == [] then None else if es[0].0 == k then Some(es[0].1) else Get(es[1..], k)
  }

  /** In an array, a key's entry is the one `Get` finds. */
  lemma {:induction false} GetDistinct(es: seq<(string, Value)>, i: nat)
    requires DistinctKeys(es) && i < |es|
    ensures Get(es, es[i].0) == Some(es[i].1)
  {
    if i > 0 {
      assert es[0].0 != es[i].0;
      assert es[1..][i - 1] == es[i];
      GetDistinct(es[1..], i - 1);
    }
  }

  /** `array_filter($array)`: the truthy entries, in their order and with their keys. */
  function ArrayFilter(es: seq<(string, Value)>): (r: seq<(string, Value)>)
    ensures |r| <= |es|
  {
    if es == [] then []
    else (if Truthy(es[0].1) then [es[0]] else []) + ArrayFilter(es[1..])
  }

  /** An entry survives filtering iff it is an entry with a truthy value; no key is invented. */
  lemma {:induction false} FilterMembers(es: seq<(string, Value)>)
    ensures forall e :: e in ArrayFilter(es) <==> e in es && Truthy(e.1)
    ensures KeySet(ArrayFilter(es)) <= KeySet(es)
  {
    if es != [] {
      FilterMembers(es[1..]);
      assert es == [es[0]] + es[1..];
    }
  }

  /** Filtering distributes over concatenation, so the surviving entries keep their order. */
  lemma {:induction false} FilterAppend(a: seq<(string, Value)>, b: seq<(string, Value)>)
    ensures ArrayFilter(a + b) == ArrayFilter(a) + ArrayFilter(b)
  {
    if a == [] {
      assert a + b == b;
    } else {
      assert (a + b)[0] == a[0];
      assert (a + b)[1..] == a[1..] + b;
      FilterAppend(a[1..], b);
      if Truthy(a[0].1) {
        assert ArrayFilter(a + b) == [a[0]] + ArrayFilter(a[1..] + b);
        assert ArrayFilter(a) == [a[0]] + ArrayFilter(a[1..]);
      } else {
        assert ArrayFilter(a + b) == ArrayFilter(a[1..] + b);
        assert ArrayFilter(a) == ArrayFilter(a[1..]);
      }
    }
  }

  /** A single entry survives filtering exactly when its value is truthy. */
  lemma FilterSingle(e: (string, Value))
    ensures ArrayFilter([e]) == if Truthy(e.1) then [e] else []
  {
    assert [e][1..] == [];
  }

  /** Filtering keeps a key exactly when its value is truthy. */
  lemma {:induction false} FilterGet(es: seq<(string, Value)>, k: string)
    requires DistinctKeys(es)
    ensures DistinctKeys(ArrayFilter(es))
    ensures Get(ArrayFilter(es), k) == if Get(es, k).Some? && Truthy(Get(es, k).value) then Get(es, k) else None
  {
    if es != [] {
      DistinctTail(es);
      FilterMembers(es[1..]);
      FilterGet(es[1..], k);
      var rest := ArrayFilter(es[1..]);
      if Truthy(es[0].1) {
        assert ArrayFilter(es) == [es[0]] + rest;
        DistinctCons(es[0], rest);
        assert ([es[0]] + rest)[1..] == rest;
      } else {
        assert ArrayFilter(es) == rest;
      }
    }
  }

  /** The rest of an array is an array that does not hold its first key. */
  lemma DistinctTail(es: seq<(string, Value)>)
    requires DistinctKeys(es) && es != []
    ensures DistinctKeys(es[1..]) && es[0].0 !in KeySet(es[1..])
  {
    forall i, j | 0 <= i < j < |es[1..]| ensures es[1..][i].0 != es[1..][j].0 {
      assert es[1..][i] == es[i + 1] && es[1..][j] == es[j + 1];
    }
    forall i | 0 <= i < |es[1..]| ensures es[1..][i].0 != es[0].0 {
      assert es[1..][i] == es[i + 1];
    }
  }

  /** An entry whose key is new in front of an array makes an array. */
  lemma DistinctCons(e: (string, Value), es: seq<(string, Value)>)
    requires DistinctKeys(es) && e.0 !in KeySet(es)
    ensures DistinctKeys([e] + es)
  {
    forall i, j | 0 <= i < j < |[e] + es| ensures ([e] + es)[i].0 != ([e] + es)[j].0 {
      assert ([e] + es)[j] == es[j - 1];
      if i > 0 {
        assert ([e] + es)[i] == es[i - 1];
      }
    }
  }

  /** Storing `v` under `k`. */
  function Put(es: seq<(string, Value)>, k: string, v: Value): seq<(string, Value)>
  {
    if es == [] then [(k, v)]
    else if es[0].0 == k then [(k, v)] + es[1..]
    else [es[0]] + Put(es[1..], k, v)
  }

  /**
   * Storing overwrites an existing key in place and appends a new one; every other key keeps
   * its value and every old key its place.
   */
  lemma PutSpec(es: seq<(string, Value)>, k: string, v: Value, k': string)
    ensures KeySet(Put(es, k, v)) == KeySet(es) + {k}
    ensures Get(Put(es, k, v), k') == if k' == k then Some(v) else Get(es, k')
    ensures |Put(es, k, v)| == if k in KeySet(es) then |es| else |es| + 1
    ensures forall i :: 0 <= i < |es| ==> Put(es, k, v)[i].0 == es[i].0
  {
    PutKeys(es, k, v);
    PutGet(es, k, v, k');
    PutPlaces(es, k, v);
  }

  lemma {:induction false} PutKeys(es: seq<(string, Value)>, k: string, v: Value)
    ensures KeySet(Put(es, k, v)) == KeySet(es) + {k}
    ensures |Put(es, k, v)| == if k in KeySet(es) then |es| else |es| + 1
  {
    var r := Put(es, k, v);
    KeySetCons(r);
    if es == [] {
      assert r[1..] == [];
    } else {
      KeySetCons(es);
      if es[0].0 == k {
        assert r[1..] == es[1..];
      } else {
        PutKeys(es[1..], k, v);
        assert r[1..] == Put(es[1..], k, v);
      }
    }
  }

  lemma {:induction false} PutGet(es: seq<(string, Value)>, k: string, v: Value, k': string)
    ensures Get(Put(es, k, v), k') == if k' == k then Some(v) else Get(es, k')
  {
    if es != [] {
      var r := Put(es, k, v);
      if es[0].0 == k {
        assert r[1..] == es[1..];
      } else {
        PutGet(es[1..], k, v, k');
        assert r[1..] == Put(es[1..], k, v);
      }
    }
  }

  lemma {:induction false} PutPlaces(es: seq<(string, Value)>, k: string, v: Value)
    ensures |Put(es, k, v)| >= |es|
    ensures forall i :: 0 <= i < |es| ==> Put(es, k, v)[i].0 == es[i].0
  {
    if es != [] && es[0].0 != k {
      var r := Put(es, k, v);
      PutPlaces(es[1..], k, v);
      assert r[1..] == Put(es[1..], k, v);
      forall i | 1 <= i < |es| ensures r[i].0 == es[i].0 {
        assert r[i] == r[1..][i - 1] && es[i] == es[1..][i - 1];
      }
    }
  }

  /** The keys of a non-empty array: its first key and the keys of the rest. */
  lemma KeySetCons(es: seq<(string, Value)>)
    requires es != []
    ensures KeySet(es) == {es[0].0} + KeySet(es[1..])
  {
    forall x | x in KeySet(es) ensures x in {es[0].0} + KeySet(es[1..]) {
      var i :| 0 <= i < |es| && es[i].0 == x;
      if i > 0 {
        assert es[1..][i - 1] == es[i];
      }
    }
  }

  /** `array_merge($a, $b)` for string keys: the entries of `b` are stored into `a` one by one. */
  function ArrayMerge(a: seq<(string, Value)>, b: seq<(string, Value)>): seq<(string, Value)>
    decreases |b|
  {
    if b == [] then a else ArrayMerge(Put(a, b[0].0, b[0].1), b[1..])
  }

  /**
   * After a merge every key of either array is present, a key of `b` has `b`'s value, any other
   * keeps `a`'s, and the keys of `a` keep their places.
   */
  lemma MergeGet(a: seq<(string, Value)>, b: seq<(string, Value)>, k: string)
    requires DistinctKeys(b)
    ensures KeySet(ArrayMerge(a, b)) == KeySet(a) + KeySet(b)
    ensures Get(ArrayMerge(a, b), k) == if k in KeySet(b) then Get(b, k) else Get(a, k)
    ensures |ArrayMerge(a, b)| >= |a|
    ensures forall i :: 0 <= i < |a| ==> ArrayMerge(a, b)[i].0 == a[i].0
  {
    MergeKeys(a, b);
    MergeValue(a, b, k);
    MergePlaces(a, b);
  }

  lemma {:induction false} MergeKeys(a: seq<(string, Value)>, b: seq<(string, Value)>)
    ensures KeySet(ArrayMerge(a, b)) == KeySet(a) + KeySet(b)
    decreases |b|
  {
    if b != [] {
      MergeKeys(Put(a, b[0].0, b[0].1), b[1..]);
      PutSpec(a, b[0].0, b[0].1, b[0].0);
      KeySetCons(b);
    }
  }

  lemma {:induction false} MergeValue(a: seq<(string, Value)>, b: seq<(string, Value)>, k: string)
    requires DistinctKeys(b)
    ensures Get(ArrayMerge(a, b), k) == if k in KeySet(b) then Get(b, k) else Get(a, k)
    decreases |b|
  {
    if b != [] {
      DistinctTail(b);
      MergeValue(Put(a, b[0].0, b[0].1), b[1..], k);
      PutSpec(a, b[0].0, b[0].1, k);
      KeySetCons(b);
    }
  }

  lemma {:induction false} MergePlaces(a: seq<(string, Value)>, b: seq<(string, Value)>)
    ensures |ArrayMerge(a, b)| >= |a|
    ensures forall i :: 0 <= i < |a| ==> ArrayMerge(a, b)[i].0 == a[i].0
    decreases |b|
  {
    if b != [] {
      MergePlaces(Put(a, b[0].0, b[0].1), b[1..]);
      PutSpec(a, b[0].0, b[0].1, b[0].0);
    }
  }

  /** Laravel `data_get($array, $key, $default)` for a plain key. */
  function DataGet(v: Value, key: string, default: Value): (r: Value)
    ensures v.Arr? && key in KeySet(v.entries) ==> Some(r) == Get(v.entries, key)
    ensures !(v.Arr? && key in KeySet(v.entries)) ==> r == default
  {
    if v.Arr? then (match Get(v.entries, key) case Some(x) => x case None => default) else default
  }

  /** A string PHP never reads as a number: one that starts with an ASCII letter. */
  predicate NonNumeric(s: string)
  {
    s != [] && (Text.IsAsciiLower(s[0]) || Text.IsAsciiUpper(s[0]))
  }

  /** PHP 8 `$v == $s` for a non-numeric string `$s`. */
  predicate LooseEqualsString(v: Value, s: string)
    requires NonNumeric(s)
  {
    match v
    case Null => s == ""
    case Bool(b) => b == (s != "" && s != "0")
    case Int(i) => Text.IntToString(i) == s
    case Str(t) => t == s
    case Arr(_) => false
  }

  /** `in_array($v, $haystack)` with loose comparison, for a haystack of non-numeric strings. */
  predicate InArrayLoose(v: Value, haystack: seq<string>)
    requires forall i :: 0 <= i < |haystack| ==> NonNumeric(haystack[i])
  {
    exists i :: 0 <= i < |haystack| && LooseEqualsString(v, haystack[i])
  }

  /**
   * A non-numeric string is loosely equal to exactly itself and to `true`: null, integers and
   * arrays never match it.
   */
  lemma LooseEqualsNonNumeric(v: Value, s: string)
    requires NonNumeric(s)
    ensures LooseEqualsString(v, s) <==> v == Str(s) || v == Bool(true)
  {
    if v.Int? {
      if v.i >= 0 {
        Text.NatToStringRoundTrip(v.i);
      } else {
        assert Text.IntToString(v.i)[0] == '-';
      }
    }
  }

  /**
   * A value passed to a `string` parameter outside strict mode: scalars are converted and
   * `None` stands for the `TypeError` that null and arrays raise.
   */
  function StringArg(v: Value): (r: Option<string>)
    ensures r.None? <==> v.Null? || v.Arr?
    ensures v.Str? ==> r == Some(v.s)
  {
    match v
    case Null => None
    case Bool(b) => Some(if b then "1" else "")
    case Int(i) => Some(Text.IntToString(i))
    case Str(s) => Some(s)
    case Arr(_) => None
  }
}
