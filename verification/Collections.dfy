/** Small general definitions shared by the other modules. */
module Collections {

  datatype Option<+T> = None | Some(value: T)

  /** The elements of `s` that satisfy `keep`, in order. */
  function Filter<T(!new)>(s: seq<T>, keep: T -> bool): (r: seq<T>)
    ensures |r| <= |s|
  {
    if s == [] then []
    else (if keep(s[0]) then [s[0]] else []) + Filter(s[1..], keep)
  }

  lemma {:induction false} FilterMembers<T(!new)>(s: seq<T>, keep: T -> bool)
    ensures forall x :: x in Filter(s, keep) <==> x in s && keep(x)
  {
    if s == [] {
    } else {
      FilterMembers(s[1..], keep);
      assert s == [s[0]] + s[1..];
    }
  }

  ghost predicate NoDuplicates<T>(s: seq<T>) {
    forall i, j :: 0 <= i < j < |s| ==> s[i] != s[j]
  }

  lemma ConcatAssoc<T>(a: seq<T>, b: seq<T>, c: seq<T>)
    ensures (a + b) + c == a + (b + c)
  {
  }

  /** Moving the first element of `b` to the end of `a`. */
  lemma MoveFirst<T>(a: seq<T>, b: seq<T>)
    requires b != []
    ensures (a + [b[0]]) + b[1..] == a + b
  {
  }

  lemma {:induction false} FilterAppend<T(!new)>(a: seq<T>, b: seq<T>, keep: T -> bool)
    ensures Filter(a + b, keep) == Filter(a, keep) + Filter(b, keep)
  {
    if a == [] {
      assert a + b == b;
    } else {
      var head := if keep(a[0]) then [a[0]] else [];
      assert (a + b)[1..] == a[1..] + b;
      FilterAppend(a[1..], b, keep);
      ConcatAssoc(head, Filter(a[1..], keep), Filter(b, keep));
    }
  }

  /** A filter drops nothing, and keeps the length, exactly when every element satisfies it. */
  lemma {:induction false} FilterAll<T(!new)>(s: seq<T>, keep: T -> bool)
    ensures |Filter(s, keep)| == |s| <==> (forall x :: x in s ==> keep(x))
    ensures (forall x :: x in s ==> keep(x)) ==> Filter(s, keep) == s
  {
    if s == [] {
    } else {
      assert s == [s[0]] + s[1..];
      FilterAll(s[1..], keep);
    }
  }

  /** A filter by a stronger condition keeps as much exactly when the condition is not stronger here. */
  lemma {:induction false} FilterNarrower<T(!new)>(s: seq<T>, wide: T -> bool, narrow: T -> bool)
    requires forall x :: narrow(x) ==> wide(x)
    ensures |Filter(s, narrow)| <= |Filter(s, wide)|
    ensures |Filter(s, narrow)| == |Filter(s, wide)| <==> (forall x :: x in s && wide(x) ==> narrow(x))
    ensures (forall x :: x in s && wide(x) ==> narrow(x)) ==> Filter(s, narrow) == Filter(s, wide)
  {
    if s == [] {
    } else {
      assert s == [s[0]] + s[1..];
      FilterNarrower(s[1..], wide, narrow);
    }
  }

  lemma {:induction false} FilterSame<T(!new)>(s: seq<T>, p: T -> bool, q: T -> bool)
    requires forall x :: x in s ==> p(x) == q(x)
    ensures Filter(s, p) == Filter(s, q)
  {
    if s == [] {
    } else {
      assert s == [s[0]] + s[1..];
      FilterSame(s[1..], p, q);
    }
  }

  // ---------------------------------------------------------------- the least element of a set

  ghost predicate IsTotalOrder<K(!new)>(leq: (K, K) -> bool) {
    && (forall a, b :: leq(a, b) || leq(b, a))
    && (forall a, b :: leq(a, b) && leq(b, a) ==> a == b)
    && (forall a, b, c :: leq(a, b) && leq(b, c) ==> leq(a, c))
  }

  predicate IsLeast<K>(k: K, keys: set<K>, leq: (K, K) -> bool) {
    k in keys && forall x :: x in keys ==> leq(k, x)
  }

  lemma {:induction false} LeastExists<K(!new)>(keys: set<K>, leq: (K, K) -> bool)
    requires IsTotalOrder(leq) && keys != {}
    ensures exists k :: IsLeast(k, keys, leq)
  {
    var x :| x in keys;
    if keys == {x} {
      assert IsLeast(x, keys, leq);
    } else {
      LeastExists(keys - {x}, leq);
      var m :| IsLeast(m, keys - {x}, leq);
      var k := if leq(x, m) then x else m;
      forall y | y in keys ensures leq(k, y) {
        assert y == x || y in keys - {x};
      }
      assert IsLeast(k, keys, leq);
    }
  }

  function Least<K(!new)>(keys: set<K>, leq: (K, K) -> bool): (k: K)
    requires IsTotalOrder(leq) && keys != {}
    ensures IsLeast(k, keys, leq)
  {
    LeastExists(keys, leq);
    var k :| IsLeast(k, keys, leq);
    k
  }
}
