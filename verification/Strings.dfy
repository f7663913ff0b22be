/** Strings as the toolkit compares, splits and orders them. */
module Strings {
  import opened Collections

  // ---------------------------------------------------------------- order

  /** Lexicographic order on characters, the order in which maps with string keys are iterated. */
  predicate LessEq(a: string, b: string) {
    a == "" || (b != "" && (a[0] < b[0] || (a[0] == b[0] && LessEq(a[1..], b[1..]))))
  }

  predicate Less(a: string, b: string) {
    LessEq(a, b) && a != b
  }

  lemma {:induction false} LessEqTotal(a: string, b: string)
    ensures LessEq(a, b) || LessEq(b, a)
  {
    if a == "" || b == "" || a[0] != b[0] {
    } else {
      LessEqTotal(a[1..], b[1..]);
    }
  }

  lemma {:induction false} LessEqAntisymmetric(a: string, b: string)
    requires LessEq(a, b) && LessEq(b, a)
    ensures a == b
  {
    if a == "" {
    } else {
      LessEqAntisymmetric(a[1..], b[1..]);
      assert a == [a[0]] + a[1..] && b == [b[0]] + b[1..];
    }
  }

  lemma {:induction false} LessEqTransitive(a: string, b: string, c: string)
    requires LessEq(a, b) && LessEq(b, c)
    ensures LessEq(a, c)
  {
    if a == "" || !(a[0] == b[0] == c[0]) {
    } else {
      LessEqTransitive(a[1..], b[1..], c[1..]);
    }
  }

  // ---------------------------------------------------------------- keys of a map, in order

  lemma LessEqIsTotalOrder()
    ensures IsTotalOrder(LessEq)
  {
    forall a, b ensures LessEq(a, b) || LessEq(b, a) {
      LessEqTotal(a, b);
    }
    forall a, b | LessEq(a, b) && LessEq(b, a) ensures a == b {
      LessEqAntisymmetric(a, b);
    }
    forall a, b, c | LessEq(a, b) && LessEq(b, c) ensures LessEq(a, c) {
      LessEqTransitive(a, b, c);
    }
  }

  /** The keys in ascending order, each once. */
  function InOrder(keys: set<string>): (r: seq<string>)
    ensures forall k :: k in r <==> k in keys
    ensures forall i, j :: 0 <= i < j < |r| ==> Less(r[i], r[j])
    ensures NoDuplicates(r)
  {
    if keys == {} then []
    else
      LessEqIsTotalOrder();
      var k := Least(keys, LessEq);
      [k] + InOrder(keys - {k})
  }

  // ---------------------------------------------------------------- splitting

  /** The fields once `c` has been put in front of the text: a separator starts a new field. */
  function Push(c: char, fields: seq<string>, sep: char): seq<string>
    requires fields != []
  {
    if c == sep then [""] + fields else [[c] + fields[0]] + fields[1..]
  }

  /** The fields of `s` between the separators, empty ones included. */
  function Split(s: string, sep: char): (r: seq<string>)
    ensures |r| >= 1
    ensures |r| == 1 <==> sep !in s
  {
    if s == "" then [""] else Push(s[0], Split(s[1..], sep), sep)
  }

  ghost predicate Without(fields: seq<string>, c: char) {
    forall f :: f in fields ==> c !in f
  }

  lemma {:induction false} SplitHasNoSeparator(s: string, sep: char)
    ensures Without(Split(s, sep), sep)
  {
    if s == "" {
    } else {
      SplitHasNoSeparator(s[1..], sep);
    }
  }

  lemma {:induction false} SplitIntroducesNothing(s: string, sep: char, c: char)
    requires c !in s
    ensures Without(Split(s, sep), c)
  {
    if s == "" {
    } else {
      SplitIntroducesNothing(s[1..], sep, c);
    }
  }

  lemma {:induction false} SplitWhole(s: string, sep: char)
    requires sep !in s
    ensures Split(s, sep) == [s]
  {
    if s == "" {
    } else {
      SplitWhole(s[1..], sep);
      assert [s[0]] + s[1..] == s;
    }
  }

  lemma PushAppend(c: char, a: seq<string>, b: seq<string>, sep: char)
    requires a != []
    ensures Push(c, a + b, sep) == Push(c, a, sep) + b
  {
    assert (a + b)[1..] == a[1..] + b;
  }

  /** A separator between two strings separates their fields. */
  lemma {:induction false} SplitAt(a: string, b: string, sep: char)
    ensures Split(a + [sep] + b, sep) == Split(a, sep) + Split(b, sep)
  {
    var s := a + [sep] + b;
    if a == "" {
      assert s[0] == sep && s[1..] == b;
    } else {
      assert s[0] == a[0] && s[1..] == a[1..] + [sep] + b;
      SplitAt(a[1..], b, sep);
      PushAppend(a[0], Split(a[1..], sep), Split(b, sep), sep);
    }
  }
}
