/** Splitting and joining strings at a separator, and sorting them. */
module Strings {
  import opened Sets

  /** Cuts s at every separator. */
  function Split(s: string, sep: char): (parts: seq<string>)
    ensures |parts| >= 1
    ensures forall i :: 0 <= i < |parts| ==> sep !in parts[i]
  {
    if |s| == 0 then [""]
    else
      var rest := Split(s[1..], sep);
      if s[0] == sep then [""] + rest else [[s[0]] + rest[0]] + rest[1..]
  }

  function Join(parts: seq<string>, sep: char): string
    requires |parts| >= 1
  {
    if |parts| == 1 then parts[0] else parts[0] + [sep] + Join(parts[1..], sep)
  }

  lemma {:induction false} JoinOfSplit(s: string, sep: char)
    ensures Join(Split(s, sep), sep) == s
  {
    if |s| > 0 {
      var rest := Split(s[1..], sep);
      JoinOfSplit(s[1..], sep);
      if s[0] == sep {
        assert ([""] + rest)[1..] == rest;
        assert "" + [sep] + Join(rest, sep) == s;
      } else {
        var parts := [[s[0]] + rest[0]] + rest[1..];
        assert parts[1..] == rest[1..];
        assert Join(parts, sep) == [s[0]] + Join(rest, sep);
      }
    }
  }

  lemma {:induction false} SplitAppend(a: string, s: string, sep: char)
    requires sep !in a
    ensures Split(a + s, sep) == [a + Split(s, sep)[0]] + Split(s, sep)[1..]
  {
    if |a| == 0 {
      assert a + s == s && a + Split(s, sep)[0] == Split(s, sep)[0];
    } else {
      SplitAppend(a[1..], s, sep);
      assert (a + s)[1..] == a[1..] + s;
      assert [a[0]] + (a[1..] + Split(s, sep)[0]) == a + Split(s, sep)[0];
    }
  }

  lemma {:induction false} SplitOfJoin(parts: seq<string>, sep: char)
    requires |parts| >= 1 && forall i :: 0 <= i < |parts| ==> sep !in parts[i]
    ensures Split(Join(parts, sep), sep) == parts
  {
    if |parts| == 1 {
      SplitAppend(parts[0], "", sep);
      assert parts[0] + "" == parts[0];
    } else {
      var rest := [sep] + Join(parts[1..], sep);
      SplitOfJoin(parts[1..], sep);
      assert rest[1..] == Join(parts[1..], sep);
      assert Split(rest, sep) == [""] + parts[1..];
      SplitAppend(parts[0], rest, sep);
      assert parts[0] + [sep] + Join(parts[1..], sep) == parts[0] + rest;
      assert parts[0] + "" == parts[0];
    }
  }

  // --------------------------------------------------------------------- order

  predicate Less(a: string, b: string) {
    |b| > 0 && (|a| == 0 || a[0] < b[0] || (a[0] == b[0] && Less(a[1..], b[1..])))
  }

  lemma {:induction false} Trichotomy(a: string, b: string)
    ensures Less(a, b) || a == b || Less(b, a)
    ensures !(Less(a, b) && Less(b, a)) && !(a == b && Less(a, b))
  {
    if |a| > 0 && |b| > 0 && a[0] == b[0] {
      Trichotomy(a[1..], b[1..]);
      assert a == [a[0]] + a[1..] && b == [b[0]] + b[1..];
    }
  }

  lemma {:induction false} Transitive(a: string, b: string, c: string)
    requires Less(a, b) && Less(b, c)
    ensures Less(a, c)
  {
    if |a| > 0 && a[0] == b[0] == c[0] {
      Transitive(a[1..], b[1..], c[1..]);
    }
  }

  predicate Least(x: string, s: set<string>) {
    x in s && forall y :: y in s && y != x ==> Less(x, y)
  }

  lemma {:induction false} LeastExists(s: set<string>)
    requires s != {}
    ensures exists x :: Least(x, s)
    decreases |s|
  {
    NonEmpty(s);
    var z :| z in s;
    assert s == {z} + (s - {z});
    if s - {z} == {} {
      assert s == {z};
      assert Least(z, s);
    } else {
      LeastExists(s - {z});
      var x :| Least(x, s - {z});
      Trichotomy(x, z);
      if Less(x, z) {
        assert Least(x, s);
      } else {
        forall y | y in s && y != z ensures Less(z, y) {
          if y != x {
            Transitive(z, x, y);
          }
        }
        assert Least(z, s);
      }
    }
  }

  /** The elements of s in increasing order. */
  function Sorted(s: set<string>): (r: seq<string>)
    ensures (set x | x in r) == s && |r| == |s|
    decreases |s|
  {
    if s == {} then []
    else
      LeastExists(s);
      assert forall x, y :: Least(x, s) && Least(y, s) ==> x == y by {
        forall x, y | Least(x, s) && Least(y, s) ensures x == y {
          Trichotomy(x, y);
        }
      }
      var x :| Least(x, s);
      var rest := Sorted(s - {x});
      assert (set y | y in [x] + rest) == {x} + (set y | y in rest);
      [x] + rest
  }

  // --------------------------------------------------------------------- sorting

  /** No element comes after one whose key is greater. */
  ghost predicate InOrder<T>(xs: seq<T>, key: T -> string) {
    forall i, j :: 0 <= i < j < |xs| ==> !Less(key(xs[j]), key(xs[i]))
  }

  lemma NotLessTransitive(a: string, b: string, c: string)
    requires !Less(b, a) && !Less(c, b)
    ensures !Less(c, a)
  {
    Trichotomy(a, b);
    Trichotomy(b, c);
    Trichotomy(a, c);
    if Less(a, b) && Less(b, c) {
      Transitive(a, b, c);
    }
  }

  function Insert<T>(xs: seq<T>, x: T, key: T -> string): seq<T> {
    if |xs| == 0 || !Less(key(xs[0]), key(x)) then [x] + xs else [xs[0]] + Insert(xs[1..], x, key)
  }

  lemma {:induction false} InsertAdds<T>(xs: seq<T>, x: T, key: T -> string)
    ensures multiset(Insert(xs, x, key)) == multiset(xs) + multiset{x}
  {
    if |xs| > 0 {
      assert xs == [xs[0]] + xs[1..];
      InsertAdds(xs[1..], x, key);
    }
  }

  lemma ConsKeepsOrder<T>(x: T, xs: seq<T>, key: T -> string)
    requires InOrder(xs, key) && forall y :: y in multiset(xs) ==> !Less(key(y), key(x))
    ensures InOrder([x] + xs, key)
  {
    assert forall j :: 0 <= j < |xs| ==> xs[j] in multiset(xs);
  }

  lemma {:induction false} InsertKeepsOrder<T>(xs: seq<T>, x: T, key: T -> string)
    requires InOrder(xs, key)
    ensures InOrder(Insert(xs, x, key), key)
  {
    if |xs| > 0 {
      var tail := xs[1..];
      if Less(key(xs[0]), key(x)) {
        InsertKeepsOrder(tail, x, key);
        InsertAdds(tail, x, key);
        Trichotomy(key(xs[0]), key(x));
        forall y | y in multiset(Insert(tail, x, key)) ensures !Less(key(y), key(xs[0])) {
          if y != x {
            assert y in tail;
          }
        }
        ConsKeepsOrder(xs[0], Insert(tail, x, key), key);
      } else {
        forall y | y in multiset(xs) ensures !Less(key(y), key(x)) {
          if y != xs[0] {
            var j :| 0 <= j < |xs| && xs[j] == y;
            NotLessTransitive(key(x), key(xs[0]), key(xs[j]));
          }
        }
        ConsKeepsOrder(x, xs, key);
      }
    }
  }

  /** The elements of xs in the order of their keys. */
  function SortBy<T>(xs: seq<T>, key: T -> string): (r: seq<T>)
    ensures InOrder(r, key) && multiset(r) == multiset(xs)
  {
    if |xs| == 0 then []
    else
      var front := SortBy(xs[..|xs| - 1], key);
      InsertKeepsOrder(front, xs[|xs| - 1], key);
      InsertAdds(front, xs[|xs| - 1], key);
      assert xs == xs[..|xs| - 1] + [xs[|xs| - 1]];
      Insert(front, xs[|xs| - 1], key)
  }

  /** What is picked from a sorted list in its order is sorted. */
  lemma PickKeepsOrder<T>(all: seq<T>, i: nat, picked: seq<T>, key: T -> string)
    requires InOrder(all, key) && i < |all| && InOrder(picked, key) && forall x :: x in picked ==> x in all[..i]
    ensures InOrder(picked + [all[i]], key)
  {
    forall j | 0 <= j < |picked| ensures !Less(key(all[i]), key(picked[j])) {
      assert picked[j] in all[..i];
    }
  }

  lemma SortedPair(a: string, b: string)
    requires Less(a, b)
    ensures Sorted({a, b}) == [a, b]
  {
    Trichotomy(a, b);
    assert Least(a, {a, b});
    assert {a, b} - {a} == {b} && {b} - {b} == {};
    assert Sorted({b}) == [b] by {
      assert Least(b, {b});
    }
  }
}
