/** Types every other module uses. */
module Prelude {
  datatype Option<+T> = None | Some(value: T)

  datatype Result<+T, +E> = Ok(value: T) | Err(error: E)

  /** The error of an object that contradicts the rest of the collection. */
  datatype Corrupt = Corrupt

  const U32_MAX: nat := 0xFFFF_FFFF
  const U64_MAX: nat := 0xFFFF_FFFF_FFFF_FFFF

  type Byte = n: nat | n < 256

  /** `u64::saturating_add`. */
  function SaturatingAdd(a: nat, b: nat): (r: nat)
    ensures r <= U64_MAX
    ensures a + b <= U64_MAX ==> r == a + b
  {
    if a + b <= U64_MAX then a + b else U64_MAX
  }

  /** The elements of `s` that satisfy `keep`, in order. */
  function Filter<T>(keep: T -> bool, s: seq<T>): (r: seq<T>)
  {
    if s == [] then []
    else Filter(keep, s[..|s| - 1]) + (if keep(s[|s| - 1]) then [s[|s| - 1]] else [])
  }

  lemma FilterStep<T>(keep: T -> bool, s: seq<T>, x: T)
    ensures Filter(keep, s + [x]) == Filter(keep, s) + if keep(x) then [x] else []
  {
    assert (s + [x])[..|s|] == s;
  }

  lemma {:induction false} FilterKeeps<T>(keep: T -> bool, s: seq<T>)
    ensures forall i :: 0 <= i < |Filter(keep, s)| ==> keep(Filter(keep, s)[i])
  {
    if s != [] {
      FilterKeeps(keep, s[..|s| - 1]);
    }
  }

  lemma {:induction false} FilterConcat<T>(keep: T -> bool, a: seq<T>, b: seq<T>)
    ensures Filter(keep, a + b) == Filter(keep, a) + Filter(keep, b)
    decreases |b|
  {
    if b == [] {
      assert a + b == a;
    } else {
      FilterConcat(keep, a, b[..|b| - 1]);
      assert (a + b)[..|a + b| - 1] == a + b[..|b| - 1];
    }
  }

  /** One sequence after another. */
  function Concat<T>(parts: seq<seq<T>>): (r: seq<T>)
  {
    if parts == [] then [] else Concat(parts[..|parts| - 1]) + parts[|parts| - 1]
  }

  /** The elements `f` gives for all of `keys`, together. */
  ghost function Gathered<K, T>(f: K -> multiset<T>, keys: set<K>): (r: multiset<T>)
    decreases |keys|
  {
    if keys == {} then multiset{}
    else
      var k :| k in keys;
      f(k) + Gathered(f, keys - {k})
  }

  lemma {:induction false} GatheredAdd<K, T>(f: K -> multiset<T>, keys: set<K>, key: K)
    requires key !in keys
    ensures Gathered(f, keys + {key}) == Gathered(f, keys) + f(key)
    decreases |keys|
  {
    var all := keys + {key};
    var k :| k in all && Gathered(f, all) == f(k) + Gathered(f, all - {k});
    if k == key {
      assert all - {k} == keys;
    } else {
      assert all - {k} == keys - {k} + {key};
      assert keys == keys - {k} + {k};
      GatheredAdd(f, keys - {k}, key);
      GatheredAdd(f, keys - {k}, k);
    }
  }

  lemma {:induction false} GatheredSame<K, T>(f: K -> multiset<T>, g: K -> multiset<T>, keys: set<K>)
    requires forall k :: k in keys ==> f(k) == g(k)
    ensures Gathered(f, keys) == Gathered(g, keys)
    decreases |keys|
  {
    if keys != {} {
      var k :| k in keys;
      var rest := keys - {k};
      assert keys == rest + {k};
      GatheredSame(f, g, rest);
      GatheredAdd(f, rest, k);
      GatheredAdd(g, rest, k);
    }
  }

  /** The sum of `f` over `keys`. */
  ghost function Total<K>(f: K -> int, keys: set<K>): (r: int)
    decreases |keys|
  {
    if keys == {} then 0
    else
      var k :| k in keys;
      f(k) + Total(f, keys - {k})
  }

  lemma {:induction false} TotalAdd<K>(f: K -> int, keys: set<K>, key: K)
    requires key !in keys
    ensures Total(f, keys + {key}) == Total(f, keys) + f(key)
    decreases |keys|
  {
    var all := keys + {key};
    var k :| k in all && Total(f, all) == f(k) + Total(f, all - {k});
    if k == key {
      assert all - {k} == keys;
    } else {
      assert all - {k} == keys - {k} + {key};
      assert keys == keys - {k} + {k};
      TotalAdd(f, keys - {k}, key);
      TotalAdd(f, keys - {k}, k);
    }
  }

  /** Sums add up term by term. */
  lemma {:induction false} TotalSum<K>(f: K -> int, g: K -> int, h: K -> int, keys: set<K>)
    requires forall k :: k in keys ==> h(k) == f(k) + g(k)
    ensures Total(h, keys) == Total(f, keys) + Total(g, keys)
    decreases |keys|
  {
    if keys != {} {
      var k :| k in keys;
      var rest := keys - {k};
      TotalSum(f, g, h, rest);
      assert keys == rest + {k};
      TotalAdd(f, rest, k);
      TotalAdd(g, rest, k);
      TotalAdd(h, rest, k);
    }
  }

  /** Keys where `f` is 0 do not matter to the sum. */
  lemma {:induction false} TotalOutside<K>(f: K -> int, keys: set<K>, more: set<K>)
    requires keys <= more && forall k :: k in more - keys ==> f(k) == 0
    ensures Total(f, more) == Total(f, keys)
    decreases |more|
  {
    if more - keys == {} {
      assert keys == more;
    } else {
      var k :| k in more - keys;
      TotalOutside(f, keys, more - {k});
      assert more == more - {k} + {k};
      TotalAdd(f, more - {k}, k);
    }
  }
}
