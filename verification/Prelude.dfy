/** Shared result types and sums over finite maps. */
module Prelude {
  datatype Option<+T> = None | Some(value: T)

  datatype Result<+T, +E> = Ok(value: T) | Err(error: E)

  function Max(a: int, b: int): int {
    if a >= b then a else b
  }

  function Min(a: int, b: int): int {
    if a <= b then a else b
  }

  function Init<T>(s: seq<T>): seq<T>
    requires s != []
  {
    s[..|s| - 1]
  }

  function Last<T>(s: seq<T>): T
    requires s != []
  {
    s[|s| - 1]
  }

  /** A reason is noted once, in the order in which it first arises. */
  function Note<T(==)>(reasons: seq<T>, reason: T): seq<T> {
    if reason in reasons then reasons else reasons + [reason]
  }

  function Without<T(==)>(s: seq<T>, drop: seq<T>): seq<T> {
    if s == [] then [] else Without(Init(s), drop) + if Last(s) in drop then [] else [Last(s)]
  }

  lemma {:induction false} WithoutIff<T>(s: seq<T>, drop: seq<T>, e: T)
    ensures e in Without(s, drop) <==> e in s && e !in drop
  {
    if s != [] {
      WithoutIff(Init(s), drop, e);
      assert s == Init(s) + [Last(s)];
    }
  }

  lemma SubsetSize<T>(a: set<T>, b: set<T>)
    requires a <= b
    ensures |a| <= |b|
  {
    assert b == a + (b - a);
  }

  /** The sum of the values of a finite map. */
  ghost function Total<K>(m: map<K, nat>): nat {
    if m.Keys == {} then 0
    else
      var k :| k in m.Keys;
      m[k] + Total(m - {k})
  }

  lemma {:induction false} TotalRemove<K>(m: map<K, nat>, k: K)
    requires k in m
    ensures Total(m) == m[k] + Total(m - {k})
    decreases |m|
  {
    var p :| p in m.Keys && Total(m) == m[p] + Total(m - {p});
    if p != k {
      TotalRemove(m - {p}, k);
      TotalRemove(m - {k}, p);
      assert m - {p} - {k} == m - {k} - {p};
    }
  }

  lemma TotalInsert<K>(m: map<K, nat>, k: K, v: nat)
    requires k !in m
    ensures Total(m[k := v]) == Total(m) + v
  {
    TotalRemove(m[k := v], k);
    assert m[k := v] - {k} == m;
  }

  /** A map split by a set of keys: the sums of the two parts add up. */
  lemma {:induction false} TotalSplit<K>(m: map<K, nat>, part: set<K>)
    ensures Total(m) == Total(Restrict(m, part)) + Total(m - part)
    decreases |m|
  {
    if m.Keys == {} {
      assert Restrict(m, part) == m && m - part == m;
    } else {
      var k :| k in m.Keys;
      TotalRemove(m, k);
      TotalSplit(m - {k}, part);
      RestrictRemove(m, part, k);
      if k in part {
        TotalRemove(Restrict(m, part), k);
      } else {
        TotalRemove(m - part, k);
      }
    }
  }

  lemma RestrictRemove<K>(m: map<K, nat>, part: set<K>, k: K)
    requires k in m
    ensures k in part ==> Restrict(m, part) - {k} == Restrict(m - {k}, part) && m - {k} - part == m - part
    ensures k !in part ==> Restrict(m, part) == Restrict(m - {k}, part) && m - {k} - part == m - part - {k}
  {
  }

  ghost function Restrict<K>(m: map<K, nat>, part: set<K>): map<K, nat> {
    map k | k in m && k in part :: m[k]
  }

  /** A sub-map never sums to more. */
  lemma TotalSubmap<K>(small: map<K, nat>, big: map<K, nat>)
    requires forall k <- small :: k in big && small[k] == big[k]
    ensures Total(small) <= Total(big)
  {
    TotalSplit(big, small.Keys);
    assert Restrict(big, small.Keys) == small;
  }
}
