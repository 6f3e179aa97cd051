/** Shared vocabulary: optional values, instants, and a few facts about finite sets and reals. */
module Prelude {

  datatype Option<+T> = None | Some(value: T)

  /** An instant or a span, in whole nanoseconds. */
  type Time = int

  const SECOND: Time := 1_000_000_000
  const HOUR: Time := 3600 * SECOND

  /** All but the last element of a run. */
  function Init<T>(s: seq<T>): seq<T>
    requires s != []
  {
    s[..|s| - 1]
  }

  function Last<T>(s: seq<T>): T
    requires s != []
  {
    s[|s| - 1]
  }

  // ----- finite sets of numbers -----

  lemma Inhabited(s: set<int>)
    requires s != {}
    ensures exists x :: x in s
  {
    assert (forall x :: x !in s) ==> s == {};
  }

  lemma {:induction false} LeastExists(s: set<int>)
    requires s != {}
    ensures exists m :: m in s && forall x | x in s :: m <= x
  {
    Inhabited(s);
    var x :| x in s;
    if s != {x} {
      LeastExists(s - {x});
      var m :| m in s - {x} && forall y | y in s - {x} :: m <= y;
      var least := if x < m then x else m;
      forall y | y in s ensures least <= y {
        assert y == x || y in s - {x};
      }
    } else {
      assert forall y | y in s :: x <= y;
    }
  }

  function Least(s: set<int>): (m: int)
    requires s != {}
    ensures m in s && forall x | x in s :: m <= x
  {
    LeastExists(s);
    var m :| m in s && forall x | x in s :: m <= x;
    m
  }

  /** The elements in increasing order. */
  function Ascending(s: set<int>): seq<int> {
    if s == {} then [] else [Least(s)] + Ascending(s - {Least(s)})
  }

  lemma {:induction false} AscendingListsTheSet(s: set<int>)
    ensures |Ascending(s)| == |s|
    ensures forall x :: x in s <==> x in Ascending(s)
    ensures forall i, j | 0 <= i < j < |Ascending(s)| :: Ascending(s)[i] < Ascending(s)[j]
  {
    if s != {} {
      var m := Least(s);
      AscendingListsTheSet(s - {m});
      var rest := Ascending(s - {m});
      assert Ascending(s) == [m] + rest;
      forall i | 0 <= i < |rest| ensures m < rest[i] {
        assert rest[i] in rest;
      }
    }
  }

  // ----- sizes -----

  lemma {:induction false} SubsetSize<T>(a: set<T>, b: set<T>)
    requires a <= b
    ensures |a| <= |b|
  {
    if x :| x in a {
      SubsetSize(a - {x}, b - {x});
    }
  }

  lemma FewerKeys<K, V>(a: map<K, V>, b: map<K, V>)
    requires a.Keys <= b.Keys
    ensures |a| <= |b|
  {
    SubsetSize(a.Keys, b.Keys);
    assert |a| == |a.Keys| && |b| == |b.Keys|;
  }

  // ----- products of reals -----

  lemma ProductSign(x: real, m: real)
    requires m > 0.0
    ensures x * m < 0.0 <==> x < 0.0
  {
  }

  lemma Distributes(x: real, y: real, m: real)
    ensures (x - y) * m == x * m - y * m
  {
  }

  lemma QuotientBetween(sum: real, n: real, low: real, high: real)
    requires n > 0.0 && low * n <= sum <= high * n
    ensures low <= sum / n <= high
  {
    var x := sum / n;
    assert x * n == sum;
    Distributes(x, low, n);
    Distributes(high, x, n);
    ProductSign(x - low, n);
    ProductSign(high - x, n);
  }
}
