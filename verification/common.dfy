/** Small building blocks shared by every component of the admin front-end:
    optional values, the outcome of a REST call, and the order-preserving
    filter that the components apply to their local lists. */
module Common {

  /** A value that may be missing (`null`/`undefined` in the source). */
  datatype Option<+T> = None | Some(value: T) {
    function GetOr(default: T): T {
      match this
      case Some(v) => v
      case None => default
    }
  }

  /** What a REST call returned, as far as the caller can tell: it resolved,
      or it threw (transport error or a non-2xx answer). */
  datatype Outcome = Success | Failure

  /** `prefix` is a prefix of `s` (JavaScript `s.startsWith(prefix)`). */
  predicate StartsWith(s: string, prefix: string) {
    prefix <= s
  }

  /** `Array.prototype.filter`: the elements of `s` that `keep` accepts, in
      their original order. */
  function Filter<T(!new)>(s: seq<T>, keep: T -> bool): (r: seq<T>)
    ensures |r| <= |s|
    ensures forall x :: x in r <==> x in s && keep(x)
  {
    if s == [] then []
    else (if keep(s[0]) then [s[0]] else []) + Filter(s[1..], keep)
  }

  /** Filtering a concatenation filters each part: together with the two
      base cases this pins down the order of the result. */
  lemma {:induction false} FilterAppend<T(!new)>(s: seq<T>, t: seq<T>, keep: T -> bool)
    ensures Filter(s + t, keep) == Filter(s, keep) + Filter(t, keep)
  {
    if s == [] {
      assert s + t == t;
    } else {
      assert (s + t)[1..] == s[1..] + t;
      FilterAppend(s[1..], t, keep);
    }
  }

  /** Filtering keeps every accepted element as often as it occurs, and
      drops the others entirely. */
  lemma {:induction false} FilterMultiset<T(!new)>(s: seq<T>, keep: T -> bool)
    ensures forall x :: multiset(Filter(s, keep))[x] == if keep(x) then multiset(s)[x] else 0
  {
    if s != [] {
      FilterMultiset(s[1..], keep);
      assert s == [s[0]] + s[1..];
      var head := if keep(s[0]) then [s[0]] else [];
      assert Filter(s, keep) == head + Filter(s[1..], keep);
    }
  }

  /** Filtering a one-element list keeps it or drops it. */
  lemma FilterSingleton<T(!new)>(x: T, keep: T -> bool)
    ensures Filter([x], keep) == if keep(x) then [x] else []
  {
    assert [x][1..] == [];
  }

  /** A filter that keeps every element returns the list unchanged. */
  lemma {:induction false} FilterKeepsAll<T(!new)>(s: seq<T>, keep: T -> bool)
    requires forall i :: 0 <= i < |s| ==> keep(s[i])
    ensures Filter(s, keep) == s
  {
    if s != [] {
      FilterKeepsAll(s[1..], keep);
    }
  }

  /** Filtering a four-element list keeps or drops each element in place. */
  lemma FilterFour<T(!new)>(a: T, b: T, c: T, d: T, keep: T -> bool)
    ensures Filter([a, b, c, d], keep)
            == (if keep(a) then [a] else []) + (if keep(b) then [b] else [])
               + (if keep(c) then [c] else []) + (if keep(d) then [d] else [])
  {
    assert [a, b, c, d] == [a] + [b] + [c] + [d];
    FilterAppend([a] + [b] + [c], [d], keep);
    FilterAppend([a] + [b], [c], keep);
    FilterAppend([a], [b], keep);
    FilterSingleton(a, keep);
    FilterSingleton(b, keep);
    FilterSingleton(c, keep);
    FilterSingleton(d, keep);
  }

  /** The keys of `s` strictly increase along the list. */
  predicate IncreasingBy<T>(s: seq<T>, key: T -> int) {
    forall i, j :: 0 <= i < j < |s| ==> key(s[i]) < key(s[j])
  }

  /** A lower bound on the keys of a list bounds the keys of its filter. */
  lemma {:induction false} FilterBoundedBelow<T(!new)>(s: seq<T>, keep: T -> bool, key: T -> int, b: int)
    requires forall i :: 0 <= i < |s| ==> b < key(s[i])
    ensures forall j :: 0 <= j < |Filter(s, keep)| ==> b < key(Filter(s, keep)[j])
  {
    if s != [] {
      FilterBoundedBelow(s[1..], keep, key, b);
      var head := if keep(s[0]) then [s[0]] else [];
      assert Filter(s, keep) == head + Filter(s[1..], keep);
    }
  }

  /** Putting a key below all of an increasing list in front keeps it
      increasing. */
  lemma ConsIncreasing<T>(x: T, s: seq<T>, key: T -> int)
    requires IncreasingBy(s, key)
    requires forall j :: 0 <= j < |s| ==> key(x) < key(s[j])
    ensures IncreasingBy([x] + s, key)
  {
    var r := [x] + s;
    forall i, j | 0 <= i < j < |r| ensures key(r[i]) < key(r[j]) {
      assert r[j] == s[j - 1];
      if i > 0 {
        assert r[i] == s[i - 1];
      }
    }
  }

  /** Filtering keeps the relative order of the survivors: a list whose
      keys strictly increase filters to one whose keys strictly increase. */
  lemma {:induction false} FilterIncreasing<T(!new)>(s: seq<T>, keep: T -> bool, key: T -> int)
    requires IncreasingBy(s, key)
    ensures IncreasingBy(Filter(s, keep), key)
  {
    if s != [] {
      var rest := Filter(s[1..], keep);
      FilterIncreasing(s[1..], keep, key);
      if keep(s[0]) {
        FilterBoundedBelow(s[1..], keep, key, key(s[0]));
        ConsIncreasing(s[0], rest, key);
        assert Filter(s, keep) == [s[0]] + rest;
      } else {
        assert Filter(s, keep) == rest;
      }
    }
  }

  /** The value the table gives to the first key of `keys`, in list order,
      that the table maps (a `for ... of` loop with `break`); `None` when no
      key is mapped. */
  function FirstMapped<K, V(==)>(keys: seq<K>, table: map<K, V>): (r: Option<V>)
    ensures r.None? <==> forall i :: 0 <= i < |keys| ==> keys[i] !in table
    ensures r.Some? ==> exists i :: 0 <= i < |keys| && keys[i] in table && table[keys[i]] == r.value
                                    && forall j :: 0 <= j < i ==> keys[j] !in table
    ensures r.Some? ==> r.value in table.Values
  {
    if keys == [] then None
    else if keys[0] in table then assert table[keys[0]] in table.Values; Some(table[keys[0]])
    else
      var rest := FirstMapped(keys[1..], table);
      assert keys == [keys[0]] + keys[1..];
      rest
  }

  /** When the first mapped key sits at index `i`, its value is the answer. */
  lemma {:induction false} FirstMappedAt<K, V>(keys: seq<K>, table: map<K, V>, i: nat)
    requires i < |keys| && keys[i] in table
    requires forall j :: 0 <= j < i ==> keys[j] !in table
    ensures FirstMapped(keys, table) == Some(table[keys[i]])
  {
    if i > 0 {
      FirstMappedAt(keys[1..], table, i - 1);
    }
  }

  /** `Array.prototype.find`: the first element of `s` that `test` accepts. */
  function Find<T>(s: seq<T>, test: T -> bool): (r: Option<T>)
    ensures r.None? <==> forall i :: 0 <= i < |s| ==> !test(s[i])
    ensures r.Some? ==> exists i :: 0 <= i < |s| && s[i] == r.value && test(s[i])
                                    && forall j :: 0 <= j < i ==> !test(s[j])
  {
    if s == [] then None
    else if test(s[0]) then Some(s[0])
    else
      var rest := Find(s[1..], test);
      assert forall i :: 1 <= i < |s| ==> s[i] == s[1..][i - 1];
      rest
  }
}
