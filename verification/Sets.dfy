/** Facts about finite sets, and sums over them. */
module Sets {

  lemma NonEmpty<T>(s: set<T>)
    requires s != {}
    ensures exists n :: n in s
  {
  }

  /** Some element, as a range over a map would yield next. */
  method Pick<T>(s: set<T>) returns (x: T)
    requires s != {}
    ensures x in s
  {
    x :| x in s;
  }

  function Weight<T>(m: map<T, nat>, x: T): nat {
    if x in m then m[x] else 0
  }

  /** The sum of m over s; a key m lacks weighs nothing. */
  ghost function Total<T>(m: map<T, nat>, s: set<T>): nat {
    if s == {} then 0
    else
      NonEmpty(s);
      var x :| x in s;
      Weight(m, x) + Total(m, s - {x})
  }

  /** Any element can be split off the sum first. */
  lemma {:induction false} TotalSplit<T>(m: map<T, nat>, s: set<T>, x: T)
    requires x in s
    ensures Total(m, s) == Weight(m, x) + Total(m, s - {x})
    decreases |s|
  {
    var y :| y in s && Total(m, s) == Weight(m, y) + Total(m, s - {y});
    if y != x {
      TotalSplit(m, s - {y}, x);
      TotalSplit(m, s - {x}, y);
      assert s - {y} - {x} == s - {x} - {y};
    }
  }

  lemma {:induction false} TotalUnion<T>(m: map<T, nat>, s: set<T>, t: set<T>)
    requires s !! t
    ensures Total(m, s + t) == Total(m, s) + Total(m, t)
    decreases |t|
  {
    if t == {} {
      assert s + t == s;
    } else {
      NonEmpty(t);
      var x :| x in t;
      TotalSplit(m, t, x);
      TotalSplit(m, s + t, x);
      TotalUnion(m, s, t - {x});
      assert s + t - {x} == s + (t - {x});
    }
  }

  /** Dropping keys and lowering weights never raises the sum. */
  lemma {:induction false} TotalMonotone<T>(m: map<T, nat>, s: set<T>, m': map<T, nat>, s': set<T>)
    requires s <= s'
    requires forall x :: x in s ==> Weight(m, x) <= Weight(m', x)
    ensures Total(m, s) <= Total(m', s')
    decreases |s|
  {
    if s != {} {
      NonEmpty(s);
      var x :| x in s;
      TotalSplit(m, s, x);
      TotalSplit(m', s', x);
      TotalMonotone(m, s - {x}, m', s' - {x});
    }
  }

  /** A weight that rises, or that is new, shows in the sum. */
  lemma TotalRises<T>(m: map<T, nat>, s: set<T>, m': map<T, nat>, s': set<T>, x: T)
    requires s <= s' && x in s' && (if x in s then Weight(m, x) < Weight(m', x) else 0 < Weight(m', x))
    requires forall y :: y in s ==> Weight(m, y) <= Weight(m', y)
    ensures Total(m, s) < Total(m', s')
  {
    TotalSplit(m', s', x);
    if x in s {
      TotalSplit(m, s, x);
      TotalMonotone(m, s - {x}, m', s' - {x});
    } else {
      TotalMonotone(m, s, m', s' - {x});
    }
  }

  lemma TotalSame<T>(m: map<T, nat>, m': map<T, nat>, s: set<T>)
    requires forall x :: x in s ==> Weight(m, x) == Weight(m', x)
    ensures Total(m, s) == Total(m', s)
  {
    TotalMonotone(m, s, m', s);
    TotalMonotone(m', s, m, s);
  }
}
