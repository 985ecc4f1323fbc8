/**
 * The small dictionary helpers of the service: `dict_without`, `filter_none`,
 * `merge_two_dicts` and `pairwise`, and `dict(pairs)` which the configuration
 * parser applies to the result of `pairwise`.
 *
 * `dict_without` exists in three identical copies in the repository
 * (storage_api/utils.py, utils.py and apis/common/__init__.py); all three are
 * the one function DictWithout below. Python dictionaries are keyed here by
 * strings, the only keys the service passes; a Python `None` value is
 * `Option.None`.
 */
module DictUtils {
  import opened Common

  /** The keys listed in `keys` are pairwise different. */
  predicate Distinct<T(==)>(keys: seq<T>)
  {
    forall i, j :: 0 <= i < j < |keys| ==> keys[i] != keys[j]
  }

  /**
   * `dict_without(d, *keys)`: pops every listed key, in order, from a copy of
   * `d`. A key that is no longer there when it is popped, because `d` never
   * had it or because it is listed twice, raises `KeyError(key)`. The argument
   * itself is a value and so is never changed.
   */
  function DictWithout<V>(d: map<string, V>, keys: seq<string>): (r: Result<map<string, V>>)
    ensures r.Ok? <==> Distinct(keys) && forall i :: 0 <= i < |keys| ==> keys[i] in d
    ensures r.Ok? ==> r.value.Keys == d.Keys - set k | k in keys
    ensures r.Ok? ==> forall k :: k in r.value ==> r.value[k] == d[k]
    ensures r.Raised? ==> r.exc.KeyError? && r.exc.arg in keys
  {
    if keys == [] then Ok(d)
    else if keys[0] !in d then Raised(KeyError(keys[0]))
    else
      var r := DictWithout(d - {keys[0]}, keys[1..]);
      assert r.Ok? ==> forall i :: 1 <= i < |keys| ==> keys[i] != keys[0] by {
        if r.Ok? {
          forall i | 1 <= i < |keys| ensures keys[i] != keys[0] {
            assert keys[1..][i - 1] == keys[i];
          }
        }
      }
      r
  }

  /** The first listed key that `dict_without` cannot pop is the one it reports. */
  lemma {:induction false} DictWithoutReportsFirstBadKey<V>(d: map<string, V>, keys: seq<string>, n: nat)
    requires n < |keys|
    requires forall i :: 0 <= i < n ==> keys[i] in d
    requires Distinct(keys[..n])
    requires keys[n] !in d || exists i :: 0 <= i < n && keys[i] == keys[n]
    ensures DictWithout(d, keys) == Raised(KeyError(keys[n]))
  {
    if n == 0 {
    } else {
      assert keys[0] in d;
      var d' := d - {keys[0]};
      forall i | 0 <= i < n - 1 ensures keys[1..][i] in d' {
        assert keys[1..][i] == keys[i + 1];
        assert keys[..n][0] != keys[..n][i + 1];
      }
      assert keys[1..][..n - 1] == keys[..n][1..];
      if keys[n] in d {
        var i :| 0 <= i < n && keys[i] == keys[n];
        if i == 0 {
          assert keys[1..][n - 1] !in d';
        } else {
          assert keys[1..][i - 1] == keys[1..][n - 1];
        }
      } else {
        assert keys[1..][n - 1] !in d';
      }
      DictWithoutReportsFirstBadKey(d', keys[1..], n - 1);
    }
  }

  /**
   * `filter_none(d)`: the entries of `d` whose value is not `None`, with their
   * values unchanged.
   */
  function FilterNone<V>(d: map<string, Option<V>>): (r: map<string, Option<V>>)
    ensures forall k :: k in r ==> r[k].Some?
  {
    map k | k in d && d[k].Some? :: d[k]
  }

  /**
   * `filter_none` is written as `dict_without(d, *<the keys holding None>)`;
   * whatever order those keys are listed in, the pops all succeed and leave
   * exactly the entries that are not `None`.
   */
  lemma FilterNoneIsDictWithout<V>(d: map<string, Option<V>>, noneKeys: seq<string>)
    requires Distinct(noneKeys)
    requires forall k :: k in noneKeys <==> k in d && d[k].None?
    ensures DictWithout(d, noneKeys) == Ok(FilterNone(d))
  {
    var r := DictWithout(d, noneKeys);
    assert r.Ok?;
    var f := FilterNone(d);
    forall k ensures k in r.value <==> k in f {
      assert k in r.value <==> k in d && k !in noneKeys;
    }
    assert r.value.Keys == f.Keys;
    forall k | k in f ensures r.value[k] == f[k] { }
    assert r.value == f;
  }

  /**
   * `merge_two_dicts(x, y)`: a new dictionary with the keys of both, the value
   * from `y` winning where both have the key.
   */
  function MergeTwoDicts<V>(x: map<string, V>, y: map<string, V>): (z: map<string, V>)
    ensures z.Keys == x.Keys + y.Keys
    ensures forall k :: k in y ==> z[k] == y[k]
    ensures forall k :: k in x && k !in y ==> z[k] == x[k]
  {
    x + y
  }

  /** `s[0::2]`: the elements at even positions. */
  function EveryOther<T>(s: seq<T>): (r: seq<T>)
    ensures |r| == (|s| + 1) / 2
    ensures forall i :: 0 <= i < |r| ==> r[i] == s[2 * i]
  {
    if |s| <= 1 then s
    else [s[0]] + EveryOther(s[2..])
  }

  /** `zip(a, b)`: pairs up positions until the shorter sequence runs out. */
  function Zip<A, B>(a: seq<A>, b: seq<B>): (r: seq<(A, B)>)
    ensures |r| == if |a| < |b| then |a| else |b|
    ensures forall i :: 0 <= i < |r| ==> r[i] == (a[i], b[i])
  {
    if a == [] || b == [] then [] else [(a[0], b[0])] + Zip(a[1..], b[1..])
  }

  /**
   * `pairwise(s)`, that is `zip(s[0::2], s[1::2])`: the pairs (s[2i], s[2i+1])
   * for every complete pair; an odd last element is dropped.
   */
  function Pairwise<T>(s: seq<T>): (r: seq<(T, T)>)
    ensures |r| == |s| / 2
    ensures forall i :: 0 <= i < |r| ==> r[i] == (s[2 * i], s[2 * i + 1])
  {
    var odd := if s == [] then [] else EveryOther(s[1..]);
    Zip(EveryOther(s), odd)
  }

  /** `dict(pairs)`: later pairs overwrite earlier ones with the same key. */
  function DictOf<V>(pairs: seq<(string, V)>): map<string, V>
  {
    if pairs == [] then map[]
    else DictOf(pairs[..|pairs| - 1])[pairs[|pairs| - 1].0 := pairs[|pairs| - 1].1]
  }

  /** Adding a pair at the end updates the dictionary at its key. */
  lemma DictOfSnoc<V>(pairs: seq<(string, V)>, p: (string, V))
    ensures DictOf(pairs + [p]) == DictOf(pairs)[p.0 := p.1]
  {
    assert (pairs + [p])[..|pairs|] == pairs;
  }

  /**
   * A key is in `dict(pairs)` exactly when some pair carries it, and its value
   * is that of the last such pair.
   */
  lemma {:induction false} DictOfLastWins<V>(pairs: seq<(string, V)>, k: string)
    ensures k in DictOf(pairs) <==> exists i :: 0 <= i < |pairs| && pairs[i].0 == k
    ensures forall i :: 0 <= i < |pairs| && pairs[i].0 == k &&
                        (forall j :: i < j < |pairs| ==> pairs[j].0 != k)
                    ==> k in DictOf(pairs) && DictOf(pairs)[k] == pairs[i].1
  {
    if pairs != [] {
      var init := pairs[..|pairs| - 1];
      DictOfLastWins(init, k);
      forall i | 0 <= i < |init| ensures init[i] == pairs[i] { }
      if (exists i :: 0 <= i < |pairs| && pairs[i].0 == k) && pairs[|pairs| - 1].0 != k {
        var i :| 0 <= i < |pairs| && pairs[i].0 == k;
        assert init[i].0 == k;
      }
    }
  }

  /**
   * `list(d.values())`: one value per key of `d`, listed in the order of an
   * enumeration `order` of its keys.
   */
  method ListValues<K, V>(d: map<K, V>) returns (vs: seq<V>, ghost order: seq<K>)
    ensures |order| == |vs| == |d|
    ensures Distinct(order)
    ensures forall k :: k in order <==> k in d
    ensures forall i :: 0 <= i < |vs| ==> order[i] in d && vs[i] == d[order[i]]
  {
    vs, order := [], [];
    var rest := d.Keys;
    while rest != {}
      invariant rest <= d.Keys
      invariant |order| == |vs| && |order| + |rest| == |d|
      invariant Distinct(order)
      invariant forall k :: k in order <==> k in d && k !in rest
      invariant forall i :: 0 <= i < |vs| ==> order[i] in d && vs[i] == d[order[i]]
      decreases rest
    {
      var k :| k in rest;
      vs, order := vs + [d[k]], order + [k];
      rest := rest - {k};
    }
  }
}
