/** The ascending list of a finite set, as an ordered iterator produces it. */
module Ordered {
  import opened Bytes

  ghost predicate StrictOrder<T(!new)>(less: (T, T) -> bool) {
    && (forall x :: !less(x, x))
    && (forall x, y, z :: less(x, y) && less(y, z) ==> less(x, z))
    && (forall x, y :: x == y || less(x, y) || less(y, x))
  }

  ghost predicate Ascending<T>(less: (T, T) -> bool, s: seq<T>) {
    forall i, j :: 0 <= i < j < |s| ==> less(s[i], s[j])
  }

  ghost predicate Lists<T(!new)>(less: (T, T) -> bool, s: seq<T>, elems: set<T>) {
    Ascending(less, s) && forall x :: x in s <==> x in elems
  }

  lemma {:induction false} LeastExists<T(!new)>(less: (T, T) -> bool, elems: set<T>) returns (m: T)
    requires StrictOrder(less) && elems != {}
    ensures m in elems && forall x | x in elems && x != m :: less(m, x)
  {
    var a :| a in elems;
    if elems - {a} == {} {
      m := a;
      assert forall x | x in elems :: x == a || x in elems - {a};
    } else {
      var b := LeastExists(less, elems - {a});
      m := if less(a, b) then a else b;
      forall x | x in elems && x != m ensures less(m, x) {
        assert x == a || x == b || less(b, x);
      }
    }
  }

  lemma {:induction false} ListExists<T(!new)>(less: (T, T) -> bool, elems: set<T>) returns (s: seq<T>)
    requires StrictOrder(less)
    ensures Lists(less, s, elems) && |s| == |elems|
  {
    if elems == {} {
      s := [];
    } else {
      var m := LeastExists(less, elems);
      var rest := ListExists(less, elems - {m});
      s := [m] + rest;
    }
  }

  /** The ascending list of `elems`. */
  ghost function Sort<T(!new)>(less: (T, T) -> bool, elems: set<T>): (s: seq<T>)
    requires StrictOrder(less)
    ensures Lists(less, s, elems) && |s| == |elems|
  {
    assert exists s :: Lists(less, s, elems) && |s| == |elems| by { var s := ListExists(less, elems); }
    var s :| Lists(less, s, elems) && |s| == |elems|;
    s
  }

  /** Yields the elements one by one, least first. */
  method Iterate<T(!new, ==)>(less: (T, T) -> bool, elems: set<T>) returns (s: seq<T>)
    requires StrictOrder(less)
    ensures s == Sort(less, elems)
  {
    s := [];
    var rest := elems;
    while rest != {}
      invariant rest <= elems && forall x :: x in elems <==> x in s || x in rest
      invariant Ascending(less, s)
      invariant forall x, y :: x in s && y in rest ==> less(x, y)
      decreases rest
    {
      var least := LeastExists(less, rest);
      var m :| m in rest && forall x | x in rest && x != m :: less(m, x);
      s := s + [m];
      rest := rest - {m};
    }
    ListsUnique(less, s, Sort(less, elems), elems);
  }

  lemma HeadIsMember<T>(s: seq<T>)
    ensures s == [] || s[0] in s
  {}

  /** A set has only one ascending list. */
  lemma {:induction false} ListsUnique<T(!new)>(less: (T, T) -> bool, s: seq<T>, t: seq<T>, elems: set<T>)
    requires StrictOrder(less)
    requires Lists(less, s, elems) && Lists(less, t, elems)
    ensures s == t
  {
    if s == [] {
      HeadIsMember(t);
    } else {
      assert s[0] in elems;
      assert t != [];
      assert t[0] in elems;
      assert s[0] == t[0];
      forall x ensures x in s[1..] <==> x in elems - {s[0]} { assert s == [s[0]] + s[1..]; }
      forall x ensures x in t[1..] <==> x in elems - {s[0]} { assert t == [t[0]] + t[1..]; }
      ListsUnique(less, s[1..], t[1..], elems - {s[0]});
    }
  }

  predicate IntLess(x: i64, y: i64) { x < y }

  lemma IntOrder()
    ensures StrictOrder(IntLess)
  {}

  /** The integers of a set in ascending order. */
  ghost function Sorted(elems: set<i64>): (s: seq<i64>)
    ensures Lists(IntLess, s, elems)
    ensures |s| == |elems| && (forall x :: x in s <==> x in elems)
    ensures forall i, j :: 0 <= i < j < |s| ==> s[i] < s[j]
  {
    IntOrder();
    var s := Sort(IntLess, elems);
    assert forall i, j :: 0 <= i < j < |s| ==> IntLess(s[i], s[j]);
    s
  }

  lemma SortedUnique(s: seq<i64>, elems: set<i64>)
    requires Lists(IntLess, s, elems)
    ensures s == Sorted(elems)
  {
    IntOrder();
    ListsUnique(IntLess, s, Sorted(elems), elems);
  }

  /** The elements of a set that come first in its list are listed by that part of the list. */
  lemma SortedPrefix(elems: set<i64>, part: set<i64>, k: nat)
    requires part <= elems && k <= |elems|
    requires forall i :: 0 <= i < |elems| ==> (Sorted(elems)[i] in part <==> i < k)
    ensures Sorted(part) == Sorted(elems)[..k]
  {
    var s := Sorted(elems);
    forall x ensures x in s[..k] <==> x in part {
      if x in part {
        assert x in s;
        var i :| 0 <= i < |s| && s[i] == x;
        assert s[..k][i] == x;
      }
    }
    SortedUnique(s[..k], part);
  }

  /** Under an encoding that keeps the order, the ascending list of the encoded
      set is the ascending list of the integers, encoded one by one. */
  lemma SortedImage<T(!new)>(less: (T, T) -> bool, enc: i64 -> T, ids: set<i64>, keys: set<T>, listed: seq<T>)
    requires StrictOrder(less)
    requires forall m, n :: m in ids && n in ids && m < n ==> less(enc(m), enc(n))
    requires forall m :: m in ids ==> enc(m) in keys
    requires forall k :: k in keys ==> exists m :: m in ids && enc(m) == k
    requires Lists(less, listed, keys)
    ensures |listed| == |ids|
    ensures forall i :: 0 <= i < |listed| ==> Sorted(ids)[i] in ids && listed[i] == enc(Sorted(ids)[i])
  {
    var expected := Image(enc, Sorted(ids));
    ImageAscends(less, enc, ids);
    ImageMembers(enc, ids, keys);
    ListsUnique(less, listed, expected, keys);
    assert forall i :: 0 <= i < |expected| ==> Sorted(ids)[i] in Sorted(ids);
  }

  function Image<T>(enc: i64 -> T, s: seq<i64>): (r: seq<T>)
    ensures |r| == |s| && forall i :: 0 <= i < |s| ==> r[i] == enc(s[i])
  {
    seq(|s|, i requires 0 <= i < |s| => enc(s[i]))
  }

  lemma ImageAscends<T(!new)>(less: (T, T) -> bool, enc: i64 -> T, ids: set<i64>)
    requires forall m, n :: m in ids && n in ids && m < n ==> less(enc(m), enc(n))
    ensures Ascending(less, Image(enc, Sorted(ids)))
  {
    var s := Sorted(ids);
    forall i, j | 0 <= i < j < |s| ensures less(enc(s[i]), enc(s[j])) {
      assert s[i] in ids && s[j] in ids;
    }
  }

  lemma ImageMembers<T(!new)>(enc: i64 -> T, ids: set<i64>, keys: set<T>)
    requires forall m :: m in ids ==> enc(m) in keys
    requires forall k :: k in keys ==> exists m :: m in ids && enc(m) == k
    ensures forall k :: k in Image(enc, Sorted(ids)) <==> k in keys
  {
    var s := Sorted(ids);
    forall k | k in keys ensures k in Image(enc, s) {
      var m :| m in ids && enc(m) == k;
      assert m in s;
      var i :| 0 <= i < |s| && s[i] == m;
      assert Image(enc, s)[i] == k;
    }
    forall k | k in Image(enc, s) ensures k in keys {
      var i :| 0 <= i < |s| && enc(s[i]) == k;
      assert s[i] in ids;
    }
  }

  /** The last `n` elements. */
  function Last<T>(s: seq<T>, n: nat): (r: seq<T>)
    ensures |r| == if |s| <= n then |s| else n
    ensures forall i :: 0 <= i < |r| ==> r[i] == s[|s| - |r| + i]
  {
    if |s| <= n then s else s[|s| - n..]
  }

  /** The first `n` elements. */
  function First<T>(s: seq<T>, n: nat): (r: seq<T>)
    ensures |r| == if |s| <= n then |s| else n
    ensures forall i :: 0 <= i < |r| ==> r[i] == s[i]
  {
    if |s| <= n then s else s[..n]
  }

  function Reverse<T>(s: seq<T>): (r: seq<T>)
    ensures |r| == |s|
    ensures forall i :: 0 <= i < |s| ==> r[i] == s[|s| - 1 - i]
  {
    seq(|s|, i requires 0 <= i < |s| => s[|s| - 1 - i])
  }

  /** Collecting from the end and reversing yields the last elements in their order. */
  lemma CollectedFromEnd<T>(collected: seq<T>, s: seq<T>, n: nat)
    requires |collected| == if |s| <= n then |s| else n
    requires forall j :: 0 <= j < |collected| ==> collected[j] == s[|s| - 1 - j]
    ensures Reverse(collected) == Last(s, n) && collected == First(Reverse(s), n)
  {}

  lemma ReversePrefix<T>(s: seq<T>, k: nat)
    requires k <= |s|
    ensures Reverse(s[..k]) == Reverse(s)[|s| - k..]
  {}

  ghost function AtLeast(elems: set<i64>, bound: i64): set<i64> { set x | x in elems && x >= bound }

  lemma SortedSuffix(elems: set<i64>, k: nat)
    requires k < |elems|
    ensures Sorted(AtLeast(elems, Sorted(elems)[k])) == Sorted(elems)[k..]
  {
    var s, part := Sorted(elems), AtLeast(elems, Sorted(elems)[k]);
    forall x ensures x in s[k..] <==> x in part {
      if x in part {
        assert x in s;
        var i :| 0 <= i < |s| && s[i] == x;
        assert s[k..][i - k] == x;
      }
    }
    SortedUnique(s[k..], part);
  }

  /** An element is among the last `n` exactly when at most `n` are at least as large. */
  lemma LastMembers(elems: set<i64>, n: nat, x: i64)
    ensures x in Last(Sorted(elems), n) <==> x in elems && |AtLeast(elems, x)| <= n
  {
    var s := Sorted(elems);
    if x in elems {
      assert x in s;
      var k :| 0 <= k < |s| && s[k] == x;
      SortedSuffix(elems, k);
      if k >= |s| - |Last(s, n)| { assert Last(s, n)[k - (|s| - |Last(s, n)|)] == x; }
    } else {
      assert x !in s;
    }
  }

  lemma {:induction false} SubsetSize(a: set<i64>, b: set<i64>)
    requires a <= b
    ensures |a| <= |b|
  {
    if a != {} {
      var x :| x in a;
      SubsetSize(a - {x}, b - {x});
    }
  }
}
