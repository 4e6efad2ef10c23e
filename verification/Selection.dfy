/** Keeping and converting some elements of a list, in order. */
module Selection {
  import opened Results

  function Select<T, F>(f: T -> Option<F>, s: seq<T>): seq<F> {
    if s == [] then [] else
      (if f(s[0]).Some? then [f(s[0]).value] else []) + Select(f, s[1..])
  }

  lemma {:induction false} SelectAppend<T, F>(f: T -> Option<F>, s: seq<T>, t: seq<T>)
    ensures Select(f, s + t) == Select(f, s) + Select(f, t)
  {
    if s == [] {
      assert s + t == t;
    } else {
      var head := if f(s[0]).Some? then [f(s[0]).value] else [];
      assert (s + t)[1..] == s[1..] + t;
      SelectAppend(f, s[1..], t);
      assert head + (Select(f, s[1..]) + Select(f, t)) == (head + Select(f, s[1..])) + Select(f, t);
    }
  }

  lemma SelectOne<T, F>(f: T -> Option<F>, s: seq<T>, x: T)
    ensures Select(f, s + [x]) == Select(f, s) + if f(x).Some? then [f(x).value] else []
  {
    SelectAppend(f, s, [x]);
    assert Select(f, [x]) == (if f(x).Some? then [f(x).value] else []) + Select(f, []);
  }

  lemma {:induction false} SelectShorter<T, F>(f: T -> Option<F>, s: seq<T>)
    ensures |Select(f, s)| <= |s|
  {
    if s != [] { SelectShorter(f, s[1..]); }
  }

  /** What is selected is exactly what some element converts to. */
  lemma {:induction false} SelectMembers<T(!new), F>(f: T -> Option<F>, s: seq<T>, y: F)
    ensures y in Select(f, s) <==> exists x :: x in s && f(x) == Some(y)
  {
    if s != [] {
      SelectMembers(f, s[1..], y);
      assert s == [s[0]] + s[1..];
      assert y in Select(f, s) <==> f(s[0]) == Some(y) || y in Select(f, s[1..]);
    }
  }

  /** Every selected element comes from some position of the list. */
  lemma {:induction false} SelectOrigin<T, F>(f: T -> Option<F>, s: seq<T>, k: nat) returns (p: nat)
    requires k < |Select(f, s)|
    ensures p < |s| && f(s[p]) == Some(Select(f, s)[k])
  {
    var here := if f(s[0]).Some? then 1 else 0;
    if k < here {
      p := 0;
    } else {
      p := SelectOrigin(f, s[1..], k - here);
      p := p + 1;
    }
  }

  /** Selection keeps the order. */
  lemma {:induction false} SelectOrigins<T, F>(f: T -> Option<F>, s: seq<T>, k: nat, l: nat) returns (p: nat, q: nat)
    requires k < l < |Select(f, s)|
    ensures p < q < |s| && f(s[p]) == Some(Select(f, s)[k]) && f(s[q]) == Some(Select(f, s)[l])
  {
    var here := if f(s[0]).Some? then 1 else 0;
    if k < here {
      p := 0;
      q := SelectOrigin(f, s[1..], l - here);
      q := q + 1;
    } else {
      p, q := SelectOrigins(f, s[1..], k - here, l - here);
      p, q := p + 1, q + 1;
    }
  }

  /** Selecting in two passes is selecting in one. */
  lemma {:induction false} SelectCompose<T, F, G>(f: T -> Option<F>, g: F -> Option<G>, h: T -> Option<G>, s: seq<T>)
    requires forall i :: 0 <= i < |s| ==> h(s[i]) == if f(s[i]).Some? then g(f(s[i]).value) else None
    ensures Select(g, Select(f, s)) == Select(h, s)
  {
    if s != [] {
      SelectCompose(f, g, h, s[1..]);
      var head := if f(s[0]).Some? then [f(s[0]).value] else [];
      SelectAppend(g, head, Select(f, s[1..]));
      if head != [] { assert Select(g, head) == (if g(head[0]).Some? then [g(head[0]).value] else []) + Select(g, []); }
    }
  }
}
