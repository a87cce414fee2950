/** Finite maps read as counters: an absent key counts zero. Sums run over a finite set of keys. */
module Counts {
  datatype Option<+T> = None | Some(value: T)

  function Max(a: int, b: int): int {
    if a < b then b else a
  }

  function Get<K>(m: map<K, int>, k: K): int {
    if k in m then m[k] else 0
  }

  ghost function Sum<K(!new)>(m: map<K, int>, keys: set<K>): int {
    if keys == {} then 0
    else
      var k :| k in keys;
      Get(m, k) + Sum(m, keys - {k})
  }

  // The sum does not depend on which key is taken first.
  lemma {:induction false} SumPick<K(!new)>(m: map<K, int>, keys: set<K>, k: K)
    requires k in keys
    ensures Sum(m, keys) == Get(m, k) + Sum(m, keys - {k})
    decreases |keys|
  {
    var first :| first in keys && Sum(m, keys) == Get(m, first) + Sum(m, keys - {first});
    if first != k {
      SumPick(m, keys - {first}, k);
      SumPick(m, keys - {k}, first);
      assert keys - {first} - {k} == keys - {k} - {first};
    }
  }

  // Three maps that satisfy c == a + b on the keys have sums that do.
  lemma {:induction false} SumAdds<K(!new)>(a: map<K, int>, b: map<K, int>, c: map<K, int>, keys: set<K>)
    requires forall k :: k in keys ==> Get(c, k) == Get(a, k) + Get(b, k)
    ensures Sum(c, keys) == Sum(a, keys) + Sum(b, keys)
    decreases |keys|
  {
    if keys != {} {
      var k :| k in keys;
      SumPick(a, keys, k);
      SumPick(b, keys, k);
      SumPick(c, keys, k);
      SumAdds(a, b, c, keys - {k});
    }
  }

  lemma {:induction false} SumSame<K(!new)>(a: map<K, int>, b: map<K, int>, keys: set<K>)
    requires forall k :: k in keys ==> Get(a, k) == Get(b, k)
    ensures Sum(a, keys) == Sum(b, keys)
    decreases |keys|
  {
    if keys != {} {
      var k :| k in keys;
      SumPick(a, keys, k);
      SumPick(b, keys, k);
      SumSame(a, b, keys - {k});
    }
  }

  // Keys that count zero may be added to the range of a sum.
  lemma {:induction false} SumWiden<K(!new)>(m: map<K, int>, keys: set<K>, wider: set<K>)
    requires keys <= wider
    requires forall k :: k in wider - keys ==> Get(m, k) == 0
    ensures Sum(m, wider) == Sum(m, keys)
    decreases |wider|
  {
    if wider - keys == {} {
      assert keys == wider;
    } else {
      var k :| k in wider - keys;
      SumPick(m, wider, k);
      SumWiden(m, keys, wider - {k});
    }
  }

  lemma {:induction false} SumNonNegative<K(!new)>(m: map<K, int>, keys: set<K>)
    requires forall k :: k in keys ==> Get(m, k) >= 0
    ensures Sum(m, keys) >= 0
    ensures Sum(m, keys) == 0 <==> forall k :: k in keys ==> Get(m, k) == 0
    decreases |keys|
  {
    if keys != {} {
      var k :| k in keys;
      SumPick(m, keys, k);
      SumNonNegative(m, keys - {k});
    }
  }
}
