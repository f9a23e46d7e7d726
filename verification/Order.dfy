/** Go's order on strings, and sorting by distinct string keys. */
module Order {
  /** a < b, byte by byte. */
  predicate Less(a: string, b: string) {
    b != [] && (a == [] || a[0] < b[0] || (a[0] == b[0] && Less(a[1..], b[1..])))
  }

  /** The two agree up to `k`, where `a` has the smaller character. */
  predicate SmallerAt(a: string, b: string, k: nat) {
    k < |a| && k < |b| && a[..k] == b[..k] && a[k] < b[k]
  }

  /** One string is below another exactly if it is a proper beginning of it, or has the
      smaller character where the two first differ. */
  lemma {:induction false} LessExactly(a: string, b: string)
    ensures Less(a, b) <==> a < b || exists k :: SmallerAt(a, b, k)
    decreases |a|
  {
    if a != [] && b != [] && a[0] == b[0] {
      LessExactly(a[1..], b[1..]);
      assert a == [a[0]] + a[1..] && b == [b[0]] + b[1..];
      assert a < b <==> a[1..] < b[1..];
      forall k: nat | SmallerAt(a[1..], b[1..], k)
        ensures SmallerAt(a, b, k + 1)
      {
        assert a[..k + 1] == [a[0]] + a[1..][..k] && b[..k + 1] == [b[0]] + b[1..][..k];
      }
      forall k: nat | SmallerAt(a, b, k)
        ensures k > 0 && SmallerAt(a[1..], b[1..], k - 1)
      {
        assert a[1..][..k - 1] == a[..k][1..] && b[1..][..k - 1] == b[..k][1..];
      }
    } else if a != [] && b != [] {
      FirstCharacterDecides(a, b);
    }
  }

  lemma SameStart(x: string, a: string, y: string, b: string, k: nat)
    requires |x| == |y|
    ensures |x| <= k <= |x + a| && k <= |y + b| && (x + a)[..k] == (y + b)[..k] ==> x == y
  {
    if |x| <= k <= |x + a| && k <= |y + b| {
      assert (x + a)[..k][..|x|] == x && (y + b)[..k][..|x|] == y;
    }
  }

  lemma FirstCharacterDecides(a: string, b: string)
    requires a != [] && b != [] && a[0] != b[0]
    ensures !(a < b) && (a[0] < b[0] <==> exists k :: SmallerAt(a, b, k))
  {
    if a[0] < b[0] {
      assert SmallerAt(a, b, 0);
    }
    forall k: nat
      ensures SmallerAt(a, b, k) ==> k == 0
    {
      SameStart(a[..1], a[1..], b[..1], b[1..], k);
      assert a[..1] + a[1..] == a && b[..1] + b[1..] == b;
    }
  }

  // ----- time stamps ------------------------------------------------------------------

  predicate AllDigits(s: string) {
    forall i :: 0 <= i < |s| ==> '0' <= s[i] <= '9'
  }

  /** The number that decimal digits stand for. */
  function DecimalValue(s: string): nat
    requires AllDigits(s)
  {
    if s == [] then 0 else 10 * DecimalValue(s[..|s| - 1]) + (s[|s| - 1] as int - '0' as int)
  }

  lemma {:induction false} DecimalValueBelow(s: string, bound: nat)
    requires AllDigits(s) && bound == Pow10(|s|)
    ensures DecimalValue(s) < bound
    decreases |s|
  {
    if s != [] {
      DecimalValueBelow(s[..|s| - 1], Pow10(|s| - 1));
    }
  }

  function Pow10(n: nat): nat {
    if n == 0 then 1 else 10 * Pow10(n - 1)
  }

  /** The first digit counts most. */
  lemma {:induction false} DecimalValueFront(s: string)
    requires AllDigits(s) && s != []
    ensures DecimalValue(s) == (s[0] as int - '0' as int) * Pow10(|s| - 1) + DecimalValue(s[1..])
    decreases |s|
  {
    var n := |s| - 1;
    if n == 0 {
      assert s[..0] == [] && s[1..] == [];
    } else {
      DecimalValueFront(s[..n]);
      assert s[..n][1..] == s[1..][..n - 1] && s[1..][n - 1] == s[n];
      TimesTen(s[0] as int - '0' as int, Pow10(n - 1));
    }
  }

  lemma TimesTen(d: int, p: int)
    ensures 10 * (d * p) == d * (10 * p)
  {
  }

  lemma DigitStep(x: int, y: int, p: int)
    requires x < y && 0 <= p
    ensures x * p + p <= y * p
  {
    assert (y - x) * p >= p by {
      AtLeast(y - x, p);
    }
  }

  lemma AtLeast(d: int, p: int)
    requires d >= 1 && p >= 0
    ensures d * p >= p
  {
  }

  /** Leading digits decide before what follows them. */
  lemma LeadingDecides(x: int, y: int, p: int, u: int, v: int)
    requires 0 <= u < p && 0 <= v < p
    ensures x * p + u < y * p + v <==> x < y || (x == y && u < v)
    ensures x * p + u == y * p + v <==> x == y && u == v
  {
    if x < y {
      DigitStep(x, y, p);
    } else if y < x {
      DigitStep(y, x, p);
    }
  }

  /** Numbers with equally many digits are ordered as strings as they are as numbers. */
  lemma {:induction false} DigitsInOrder(a: string, b: string)
    requires AllDigits(a) && AllDigits(b) && |a| == |b|
    ensures Less(a, b) <==> DecimalValue(a) < DecimalValue(b)
    ensures a == b <==> DecimalValue(a) == DecimalValue(b)
    decreases |a|
  {
    if a != [] {
      var x, y, p, u, v := a[0] as int - '0' as int, b[0] as int - '0' as int, Pow10(|a| - 1), a[1..], b[1..];
      DigitsInOrder(u, v);
      DecimalValueFront(a);
      DecimalValueFront(b);
      DecimalValueBelow(u, p);
      DecimalValueBelow(v, p);
      LeadingDecides(x, y, p, DecimalValue(u), DecimalValue(v));
      assert a == [a[0]] + u && b == [b[0]] + v;
    }
  }

  /** A stamp as `20060102-150405` formats it. */
  predicate IsStamp(t: string) {
    |t| == 15 && AllDigits(t[..8]) && t[8] == '-' && AllDigits(t[9..])
  }

  lemma {:induction false} LessAfterFront(front: string, a: string, b: string)
    ensures Less(front + a, front + b) <==> Less(a, b)
    decreases |front|
  {
    if front == [] {
      assert front + a == a && front + b == b;
    } else {
      LessAfterFront(front[1..], a, b);
      assert (front + a)[1..] == front[1..] + a && (front + b)[1..] == front[1..] + b;
    }
  }

  lemma FrontDecides(x: string, y: string, a: string, b: string)
    requires |x| == |y| && x != y
    ensures Less(x + a, y + b) <==> Less(x, y)
  {
    LessExactly(x + a, y + b);
    LessExactly(x, y);
    forall k: nat
      ensures SmallerAt(x + a, y + b, k) && k < |x| <==> SmallerAt(x, y, k)
    {
      if k < |x| {
        assert (x + a)[..k] == x[..k] && (y + b)[..k] == y[..k];
      }
    }
    forall k: nat
      ensures SmallerAt(x + a, y + b, k) ==> k < |x|
    {
      SameStart(x, a, y, b, k);
    }
    SameStart(x, a, y, b, |x + a|);
  }

  /** An earlier date, or an earlier time on the same date. */
  predicate Earlier(a: string, b: string)
    requires IsStamp(a) && IsStamp(b)
  {
    var day, day', time, time' := DecimalValue(a[..8]), DecimalValue(b[..8]), DecimalValue(a[9..]), DecimalValue(b[9..]);
    day < day' || (day == day' && time < time')
  }

  /** Stamps are ordered as strings as the moments are that they stand for. */
  lemma StampsInOrder(a: string, b: string)
    requires IsStamp(a) && IsStamp(b)
    ensures Less(a, b) <==> Earlier(a, b)
  {
    assert a == a[..8] + ("-" + a[9..]) && b == b[..8] + ("-" + b[9..]);
    DigitsInOrder(a[..8], b[..8]);
    if a[..8] == b[..8] {
      LessAfterFront(a[..8], "-" + a[9..], "-" + b[9..]);
      LessAfterFront("-", a[9..], b[9..]);
      DigitsInOrder(a[9..], b[9..]);
    } else {
      FrontDecides(a[..8], b[..8], "-" + a[9..], "-" + b[9..]);
    }
  }

  lemma {:induction false} LessIsTotal(a: string, b: string)
    ensures Less(a, b) || Less(b, a) || a == b
    ensures !(Less(a, b) && Less(b, a)) && !Less(a, a)
    decreases |a|
  {
    if a != [] {
      LessIsTotal(a[1..], a[1..]);
      if b != [] {
        LessIsTotal(a[1..], b[1..]);
        assert a == [a[0]] + a[1..] && b == [b[0]] + b[1..];
      }
    }
  }

  /** `u` is an earlier stamp, perhaps with something behind it. */
  predicate BeginsEarlier(u: string, stamp: string)
    requires IsStamp(stamp)
  {
    |u| >= 15 && IsStamp(u[..15]) && Earlier(u[..15], stamp)
  }

  /** No matter what is behind it. */
  lemma LaterStampIsAbove(u: string, stamp: string)
    requires IsStamp(stamp) && BeginsEarlier(u, stamp)
    ensures Less(u, stamp)
  {
    assert u == u[..15] + u[15..] && stamp + [] == stamp;
    StampsInOrder(u[..15], stamp);
    LessIsTotal(stamp, stamp);
    FrontDecides(u[..15], stamp, u[15..], []);
  }

  lemma {:induction false} LessIsTransitive(a: string, b: string, c: string)
    requires Less(a, b) && Less(b, c)
    ensures Less(a, c)
    decreases |a|
  {
    if a != [] && a[0] == b[0] && b[0] == c[0] {
      LessIsTransitive(a[1..], b[1..], c[1..]);
    }
  }

  /** Strictly ascending keys. */
  ghost predicate Ascending<T>(s: seq<(string, T)>) {
    forall i, j :: 0 <= i < j < |s| ==> Less(s[i].0, s[j].0)
  }

  ghost predicate DistinctKeys<T>(s: seq<(string, T)>) {
    forall i, j :: 0 <= i < j < |s| ==> s[i].0 != s[j].0
  }

  lemma AscendingKeysDiffer<T>(s: seq<(string, T)>)
    requires Ascending(s)
    ensures DistinctKeys(s)
  {
    forall i, j | 0 <= i < j < |s|
      ensures s[i].0 != s[j].0
    {
      LessIsTotal(s[i].0, s[j].0);
    }
  }

  /** Where a new key belongs in an ascending list. */
  method FindPlace<T>(s: seq<(string, T)>, key: string) returns (k: nat)
    requires Ascending(s) && forall i :: 0 <= i < |s| ==> s[i].0 != key
    ensures k <= |s|
    ensures forall i :: 0 <= i < k ==> Less(s[i].0, key)
    ensures forall i :: k <= i < |s| ==> Less(key, s[i].0)
  {
    k := 0;
    while k < |s| && Less(s[k].0, key)
      invariant k <= |s| && forall i :: 0 <= i < k ==> Less(s[i].0, key)
    {
      k := k + 1;
    }
    if k < |s| {
      LessIsTotal(s[k].0, key);
      forall i | k <= i < |s|
        ensures Less(key, s[i].0)
      {
        if i > k {
          LessIsTransitive(key, s[k].0, s[i].0);
        }
      }
    }
  }

  lemma InsertKeepsOrder<T>(s: seq<(string, T)>, k: nat, x: (string, T))
    requires Ascending(s) && k <= |s|
    requires forall i :: 0 <= i < k ==> Less(s[i].0, x.0)
    requires forall i :: k <= i < |s| ==> Less(x.0, s[i].0)
    ensures Ascending(s[..k] + [x] + s[k..])
    ensures multiset(s[..k] + [x] + s[k..]) == multiset(s) + multiset{x}
  {
    assert s == s[..k] + s[k..];
  }

  /** Stands for `sort.Strings` and `sort.Slice` where all keys differ, so that
      stability does not matter. */
  method Sort<T>(items: seq<(string, T)>) returns (r: seq<(string, T)>)
    requires DistinctKeys(items)
    ensures Ascending(r) && multiset(r) == multiset(items)
  {
    r := [];
    for n := 0 to |items|
      invariant Ascending(r) && multiset(r) == multiset(items[..n])
    {
      var x := items[n];
      forall i | 0 <= i < |r|
        ensures r[i].0 != x.0
      {
        assert r[i] in multiset(items[..n]);
      }
      var k := FindPlace(r, x.0);
      InsertKeepsOrder(r, k, x);
      r := r[..k] + [x] + r[k..];
      assert items[..n + 1] == items[..n] + [x];
    }
    assert items[..|items|] == items;
  }

  lemma SmallestFirst<T>(s: seq<(string, T)>, t: seq<(string, T)>)
    requires Ascending(s) && Ascending(t) && multiset(s) == multiset(t) && s != [] && t != []
    ensures s[0] == t[0]
  {
    assert s[0] in multiset(t) && t[0] in multiset(s);
    var i :| 0 <= i < |t| && t[i] == s[0];
    var j :| 0 <= j < |s| && s[j] == t[0];
    LessIsTotal(s[0].0, t[0].0);
  }

  lemma WithoutFirst<T>(s: seq<T>)
    requires s != []
    ensures multiset(s[1..]) == multiset(s) - multiset{s[0]}
  {
    assert s == [s[0]] + s[1..];
  }

  /** An ascending list is determined by its elements. */
  lemma {:induction false} AscendingIsUnique<T>(s: seq<(string, T)>, t: seq<(string, T)>)
    requires Ascending(s) && Ascending(t) && multiset(s) == multiset(t)
    ensures s == t
    decreases |s|
  {
    assert |s| == |multiset(s)| == |multiset(t)| == |t|;
    if s != [] {
      SmallestFirst(s, t);
      WithoutFirst(s);
      WithoutFirst(t);
      AscendingIsUnique(s[1..], t[1..]);
    }
  }
}
