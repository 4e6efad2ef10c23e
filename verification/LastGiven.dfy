/** What the last of a list of gifts was. */
module LastGiven {
  import opened Results

  /** The value was given, and nothing after it; or nothing was given, and it was there already. */
  ghost predicate IsLast<V>(given: seq<Option<V>>, v: V, already: bool) {
    || (already && forall j :: 0 <= j < |given| ==> given[j].None?)
    || exists i :: 0 <= i < |given| && given[i] == Some(v) && NothingAfter(given, i)
  }

  ghost predicate NothingAfter<V>(given: seq<Option<V>>, i: nat) { forall j :: i < j < |given| ==> given[j].None? }

  lemma NothingGiven<V>(v: V, already: bool)
    ensures IsLast([], v, already) <==> already
  {}

  lemma OneMoreGift<V>(given: seq<Option<V>>, g: Option<V>, v: V, already: bool)
    ensures IsLast(given + [g], v, already) <==> if g.Some? then g.value == v else IsLast(given, v, already)
  {
    var more, n := given + [g], |given|;
    assert more[n] == g && forall j :: 0 <= j < n ==> more[j] == given[j];
    if g == Some(v) { assert NothingAfter(more, n); }
    if g.None? {
      forall i | 0 <= i < n ensures NothingAfter(more, i) <==> NothingAfter(given, i) {}
      if i :| 0 <= i < n && given[i] == Some(v) && NothingAfter(given, i) { assert more[i] == Some(v); }
    } else if i :| 0 <= i < |more| && more[i] == Some(v) && NothingAfter(more, i) {
      assert i == n;
    }
  }
}
