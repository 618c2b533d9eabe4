/** Small vocabulary shared by every component: optional values, finite sets and sequences. */
module Common {

  datatype Option<+T> = None | Some(value: T) {
    function GetOr(default: T): T {
      match this
      case Some(v) => v
      case None => default
    }
  }

  function Max(a: int, b: int): int {
    if a < b then b else a
  }

  function Min(a: int, b: int): int {
    if a < b then a else b
  }

  /** The last `n` elements of `s`, or all of it when it is shorter. */
  function LastN<T>(s: seq<T>, n: nat): seq<T> {
    if |s| <= n then s else s[|s| - n..]
  }

  lemma LastNAt<T>(s: seq<T>, n: nat)
    ensures |LastN(s, n)| == if |s| < n then |s| else n
    ensures forall i :: 0 <= i < |LastN(s, n)| ==> LastN(s, n)[i] == s[|s| - |LastN(s, n)| + i]
  {
  }

  lemma LastNPosition<T>(s: seq<T>, n: nat, x: T) returns (i: nat)
    requires x in LastN(s, n)
    ensures i < |s| && i >= |s| - n && s[i] == x
  {
    if |s| <= n {
      i :| i < |s| && s[i] == x;
    } else {
      var window := s[|s| - n..];
      var k: nat :| k < |window| && window[k] == x;
      i := |s| - n + k;
    }
  }

  lemma LastNHas<T>(s: seq<T>, n: nat, i: nat)
    requires i < |s| && i >= |s| - n
    ensures s[i] in LastN(s, n)
  {
    LastNAt(s, n);
    assert LastN(s, n)[i - (|s| - |LastN(s, n)|)] == s[i];
  }

  ghost predicate Injective<A(!new), B>(f: map<A, B>) {
    forall x, y :: x in f && y in f && f[x] == f[y] ==> x == y
  }

  /** A one-to-one map has as many keys as values, so at most as many keys as any set holding its values. */
  lemma {:induction false} InjectiveMapSize<A(!new), B>(f: map<A, B>, t: set<B>)
    requires Injective(f)
    requires f.Values <= t
    ensures |f| <= |t|
    ensures f.Values == t ==> |f| == |t|
  {
    if f.Keys == {} {
      assert f == map[];
      assert f.Values == {};
    } else {
      var x :| x in f;
      var rest := map y | y in f && y != x :: f[y];
      assert rest.Keys == f.Keys - {x};
      assert |f| == |f.Keys| == |rest.Keys| + 1 == |rest| + 1;
      forall y | y in f && y != x ensures f[y] in rest.Values {
        assert y in rest && rest[y] == f[y];
      }
      InjectiveMapSize(rest, t - {f[x]});
    }
  }

  lemma {:induction false} SubsetSize<T>(s: set<T>, t: set<T>)
    requires s <= t
    ensures |s| <= |t|
  {
    if s == {} {
    } else {
      var x :| x in s;
      SubsetSize(s - {x}, t - {x});
    }
  }

  lemma SubmapSize<K, V>(m: map<K, V>, n: map<K, V>)
    requires m.Keys <= n.Keys
    ensures |m| <= |n|
  {
    SubsetSize(m.Keys, n.Keys);
    assert |m.Keys| == |m| && |n.Keys| == |n|;
  }

  lemma UpdateSize<K, V>(m: map<K, V>, k: K, v: V)
    ensures |m[k := v]| == if k in m then |m| else |m| + 1
  {
    assert m[k := v].Keys == m.Keys + {k};
    assert |m.Keys| == |m| && |m[k := v].Keys| == |m[k := v]|;
  }

  lemma MaximumOf(s: set<nat>) returns (m: nat)
    requires s != {}
    ensures m in s && forall i :: i in s ==> i <= m
  {
    var x :| x in s;
    m := x;
    if s != {x} {
      assert s - {x} != {};
      var rest := MaximumOf(s - {x});
      if x < rest {
        m := rest;
      }
      assert forall i :: i in s ==> i == x || i in s - {x};
    }
  }

  /** How many of the first `n` indices satisfy `p`. */
  ghost function CountUpTo(n: nat, p: int -> bool): nat {
    |set i | 0 <= i < n && p(i)|
  }

  lemma CountUpToNext(n: nat, p: int -> bool)
    ensures CountUpTo(0, p) == 0
    ensures CountUpTo(n + 1, p) == CountUpTo(n, p) + (if p(n) then 1 else 0)
  {
    var before, after := set i | 0 <= i < n && p(i), set i | 0 <= i < n + 1 && p(i);
    assert after == if p(n) then before + {n} else before;
    assert (set i | 0 <= i < 0 && p(i)) == {};
  }

  lemma CountUpToSame(n: nat, p: int -> bool, q: int -> bool)
    requires forall i :: 0 <= i < n ==> (p(i) <==> q(i))
    ensures CountUpTo(n, p) == CountUpTo(n, q)
  {
    assert (set i | 0 <= i < n && p(i)) == (set i | 0 <= i < n && q(i));
  }

  /** Any element, as a database might return the first row of an unordered query. */
  method Choose<T>(s: set<T>) returns (x: T)
    requires s != {}
    ensures x in s
  {
    x :| x in s;
  }

  lemma Pick<T>(s: set<T>) returns (x: T)
    requires s != {}
    ensures x in s
  {
    x :| x in s;
  }

  ghost predicate NoDuplicates<T>(s: seq<T>) {
    forall i, j :: 0 <= i < j < |s| ==> s[i] != s[j]
  }
}
