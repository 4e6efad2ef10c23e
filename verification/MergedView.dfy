/** The merged view of the messages as a fold over everything that was stored and taken in. */
module MergedView {
  import opened Bytes
  import opened Results
  import opened Payloads

  /** A sender stores its message first and lets the merged view take it in afterwards; between
      the two, other senders may do either. */
  datatype Event = Sent(mid: i64, payload: Payload) | Applied(mid: i64, payload: Payload) | Cleared(mids: set<i64>)

  type View = map<i64, Merged>

  /** How the view takes in a message. */
  function Apply(v: View, mid: i64, p: Payload): View {
    match p.detail
    case Normal(content, _) => v[mid := Payloads.Merged(p.from, p.target, content, p.createdAt)]
    case Reply(_, content) => v[mid := Payloads.Merged(p.from, p.target, content, p.createdAt)]
    case Reaction(aimedAt, action) =>
      if action.Edit? && aimedAt in v then v[aimedAt := v[aimedAt].(content := action.content)] else v
  }

  function Step(v: View, e: Event): View {
    match e
    case Sent(_, _) => v
    case Applied(mid, p) => Apply(v, mid, p)
    case Cleared(mids) => v - mids
  }

  function ViewOf(h: seq<Event>): View {
    if h == [] then map[] else Step(ViewOf(h[..|h| - 1]), h[|h| - 1])
  }

  type Writers = map<i64, i64>

  function WriterStep(w: Writers, e: Event): Writers {
    match e
    case Sent(_, _) => w
    case Applied(mid, p) =>
      if !p.detail.Reaction? then w[mid := mid]
      else if p.detail.action.Edit? && p.detail.mid in w then w[p.detail.mid := mid] else w
    case Cleared(mids) => w - mids
  }

  /** For every entry of the view, the message that wrote it last: the original or an edit. */
  function WritersOf(h: seq<Event>): Writers {
    if h == [] then map[] else WriterStep(WritersOf(h[..|h| - 1]), h[|h| - 1])
  }

  function StoredStep(stored: map<i64, Payload>, e: Event): map<i64, Payload> {
    match e
    case Sent(mid, p) => stored[mid := p]
    case Applied(_, _) => stored
    case Cleared(mids) => stored - mids
  }

  /** The stored messages themselves. */
  function StoredOf(h: seq<Event>): map<i64, Payload> {
    if h == [] then map[] else StoredStep(StoredOf(h[..|h| - 1]), h[|h| - 1])
  }

  // ---------- histories ----------

  /** No id is stored twice, and the view takes in what was stored, each message once. */
  ghost predicate InSequence(h: seq<Event>) {
    && (forall i, j :: 0 <= i < j < |h| && h[i].Sent? && h[j].Sent? ==> h[i].mid != h[j].mid)
    && (forall i, j :: 0 <= i < j < |h| && h[i].Applied? && h[j].Applied? ==> h[i].mid != h[j].mid)
    && (forall i :: 0 <= i < |h| && h[i].Applied? ==> WasSent(h[..i], h[i]))
  }

  ghost predicate WasSent(h: seq<Event>, e: Event)
    requires e.Applied?
  {
    Sent(e.mid, e.payload) in h
  }

  /** At some moment the reaction passed the check against the message as it was stored then. */
  ghost predicate PassedAt(h: seq<Event>, n: nat, p: Payload)
    requires p.detail.Reaction?
  {
    && n <= |h| && p.detail.mid in StoredOf(h[..n])
    && exists isAdmin: bool :: CanReact(p.detail.action, p.from, isAdmin, StoredOf(h[..n])[p.detail.mid])
  }

  /** Every reaction was let through by the check before it was stored. */
  ghost predicate Checked(h: seq<Event>) {
    forall j :: 0 <= j < |h| && h[j].Sent? && h[j].payload.detail.Reaction? ==>
      exists n: nat :: PassedAt(h[..j], n, h[j].payload)
  }

  lemma StepSnoc(h: seq<Event>, e: Event)
    ensures ViewOf(h + [e]) == Step(ViewOf(h), e)
    ensures StoredOf(h + [e]) == StoredStep(StoredOf(h), e)
  {
    assert (h + [e])[..|h|] == h;
  }

  lemma InSequenceSnoc(h: seq<Event>, e: Event)
    requires InSequence(h)
    requires e.Sent? ==> forall i :: 0 <= i < |h| && h[i].Sent? ==> h[i].mid != e.mid
    requires e.Applied? ==> WasSent(h, e) && forall i :: 0 <= i < |h| && h[i].Applied? ==> h[i].mid != e.mid
    ensures InSequence(h + [e])
  {
    var longer := h + [e];
    forall i | 0 <= i < |longer| && longer[i].Applied? ensures WasSent(longer[..i], longer[i]) {
      assert longer[..i] == if i < |h| then h[..i] else h;
    }
  }

  /** A check that was passed at any moment before keeps the history checked. */
  lemma CheckedSnoc(h: seq<Event>, e: Event, n: nat)
    requires Checked(h) && (e.Sent? && e.payload.detail.Reaction? ==> PassedAt(h, n, e.payload))
    ensures Checked(h + [e])
  {
    var longer := h + [e];
    forall j | 0 <= j < |longer| && longer[j].Sent? && longer[j].payload.detail.Reaction?
      ensures exists n: nat :: PassedAt(longer[..j], n, longer[j].payload)
    {
      assert longer[..j] == if j < |h| then h[..j] else h;
      if j == |h| { assert PassedAt(longer[..j], n, longer[j].payload); }
    }
  }

  lemma Prefix(h: seq<Event>)
    requires h != [] && InSequence(h)
    ensures InSequence(h[..|h| - 1])
  {
    var before := h[..|h| - 1];
    forall i | 0 <= i < |before| && before[i].Applied? ensures WasSent(before[..i], before[i]) {
      assert before[..i] == h[..i];
    }
  }

  // ---------- what the view shows ----------

  /** The view takes in a message with content. */
  predicate IsOriginal(e: Event, mid: i64) { e.Applied? && e.mid == mid && !e.payload.detail.Reaction? }

  /** It takes in an edit. */
  predicate Edits(e: Event, mid: i64) {
    e.Applied? && e.payload.detail.Reaction? && e.payload.detail.mid == mid && e.payload.detail.action.Edit?
  }

  predicate Clears(e: Event, mid: i64) { e.Cleared? && mid in e.mids }

  function ContentOf(p: Payload): Content
    requires !p.detail.Reaction?
  {
    p.detail.content
  }

  /** What a message says about `mid`: its own content, or what an edit puts there. */
  function WordOf(e: Event, mid: i64): Content
    requires IsOriginal(e, mid) || Edits(e, mid)
  {
    if Edits(e, mid) then e.payload.detail.action.content else ContentOf(e.payload)
  }

  /** Message `mid` was taken in at `i` and has not been cleared since. */
  ghost predicate Alive(h: seq<Event>, mid: i64, i: nat) {
    i < |h| && IsOriginal(h[i], mid) && forall k :: i < k < |h| ==> !Clears(h[k], mid)
  }

  /** `j` is where the view took in the last edit of the message taken in at `i`, or is `i` if there is none. */
  ghost predicate LastWord(h: seq<Event>, mid: i64, i: nat, j: nat) {
    && Alive(h, mid, i) && i <= j < |h| && (j > i ==> Edits(h[j], mid))
    && forall k :: j < k < |h| ==> !Edits(h[k], mid)
  }

  lemma {:induction false} SameKeys(h: seq<Event>)
    ensures WritersOf(h).Keys == ViewOf(h).Keys
  {
    if h != [] { SameKeys(h[..|h| - 1]); }
  }

  /** The view holds a message exactly when it took it in and has not cleared it since; reactions create nothing. */
  lemma {:induction false} ViewMembers(h: seq<Event>, mid: i64)
    requires InSequence(h)
    ensures mid in ViewOf(h) <==> exists i: nat :: Alive(h, mid, i)
  {
    if h != [] {
      Prefix(h);
      ViewMembers(h[..|h| - 1], mid);
      hide InSequence, Alive, Step;
      StepMembers(ViewOf(h[..|h| - 1]), h[|h| - 1], mid);
      AliveLast(h, h[..|h| - 1], mid);
    }
  }

  lemma StepMembers(v: View, e: Event, mid: i64)
    ensures mid in Step(v, e) <==> IsOriginal(e, mid) || (mid in v && !Clears(e, mid))
  {}

  lemma AliveLast(h: seq<Event>, before: seq<Event>, mid: i64)
    requires h != [] && before == h[..|h| - 1]
    ensures (exists i: nat :: Alive(h, mid, i)) <==>
            IsOriginal(h[|h| - 1], mid) || ((exists i: nat :: Alive(before, mid, i)) && !Clears(h[|h| - 1], mid))
  {
    var last := |h| - 1;
    if i: nat :| Alive(before, mid, i) && !Clears(h[last], mid) { assert Alive(h, mid, i); }
    if i: nat :| Alive(h, mid, i) {
      if i < last { assert Alive(before, mid, i); }
    }
    if IsOriginal(h[last], mid) { assert Alive(h, mid, last); }
  }

  /** What it shows is the last word taken in: the content of the last edit, or the original one, with
      author, target and time as first sent; and the writer is the message whose word that is. */
  lemma {:induction false} ViewContent(h: seq<Event>, mid: i64, i: nat, j: nat)
    requires InSequence(h) && LastWord(h, mid, i, j)
    ensures mid in ViewOf(h) && mid in WritersOf(h) && WritersOf(h)[mid] == h[j].mid
    ensures var p := h[i].payload;
            ViewOf(h)[mid] == Payloads.Merged(p.from, p.target, WordOf(h[j], mid), p.createdAt)
  {
    var before, last := h[..|h| - 1], |h| - 1;
    if i < last {
      Prefix(h);
      var k := if j < last then j else EarlierWord(before, mid, i);
      assert LastWord(before, mid, i, k);
      ViewContent(before, mid, i, k);
    }
  }

  ghost function EarlierWord(h: seq<Event>, mid: i64, i: nat): (j: nat)
    requires Alive(h, mid, i)
    ensures LastWord(h, mid, i, j)
    decreases |h|
  {
    LastWordExists(h, mid, i);
    var j: nat :| LastWord(h, mid, i, j);
    j
  }

  lemma LastWordExists(h: seq<Event>, mid: i64, i: nat)
    requires Alive(h, mid, i)
    ensures exists j: nat :: LastWord(h, mid, i, j)
  {
    var j := |h| - 1;
    while j > i && !Edits(h[j], mid)
      invariant i <= j < |h| && forall k :: j < k < |h| ==> !Edits(h[k], mid)
    {
      j := j - 1;
    }
    assert LastWord(h, mid, i, j);
  }

  /** The view shows the word of message `e`, the original or any edit of it, the last stored one for
      instance, exactly when it took it in after the original and after every other edit it took in,
      and the message is not cleared: the order of storing plays no part. */
  lemma ShownIsLastTakenIn(h: seq<Event>, mid: i64, e: i64)
    requires InSequence(h)
    ensures mid in WritersOf(h) <==> mid in ViewOf(h)
    ensures mid in WritersOf(h) && WritersOf(h)[mid] == e
            <==> exists i: nat, j: nat :: LastWord(h, mid, i, j) && h[j].mid == e
  {
    SameKeys(h);
    if mid in ViewOf(h) {
      ViewMembers(h, mid);
      var i: nat :| Alive(h, mid, i);
      var j := EarlierWord(h, mid, i);
      ViewContent(h, mid, i, j);
    }
    forall i: nat, j: nat | LastWord(h, mid, i, j) ensures mid in WritersOf(h) && WritersOf(h)[mid] == h[j].mid {
      ViewContent(h, mid, i, j);
    }
  }

  // ---------- only authors change what a message says ----------

  lemma {:induction false} StoredWasSent(h: seq<Event>, mid: i64) returns (i: nat)
    requires mid in StoredOf(h)
    ensures i < |h| && h[i] == Sent(mid, StoredOf(h)[mid])
  {
    var last := |h| - 1;
    if h[last].Sent? && h[last].mid == mid {
      i := last;
    } else {
      i := StoredWasSent(h[..last], mid);
    }
  }

  /** A stored edit is by the author of a message with content that was stored before it ... */
  lemma EditsAreByTheAuthor(h: seq<Event>, j: nat) returns (i: nat)
    requires Checked(h) && j < |h| && h[j].Sent? && h[j].payload.detail.Reaction? && h[j].payload.detail.action.Edit?
    ensures i < j && h[i].Sent? && h[i].mid == h[j].payload.detail.mid
    ensures !h[i].payload.detail.Reaction? && h[i].payload.from == h[j].payload.from
  {
    var n: nat :| PassedAt(h[..j], n, h[j].payload);
    i := StoredWasSent(h[..j][..n], h[j].payload.detail.mid);
  }

  /** What the view takes in at `j` is what was stored at `s`. */
  ghost predicate TakenFrom(h: seq<Event>, j: nat, s: nat) {
    s < j < |h| && h[j].Applied? && h[s] == Sent(h[j].mid, h[j].payload)
  }

  lemma WhereSent(h: seq<Event>, j: nat) returns (s: nat)
    requires InSequence(h) && j < |h| && h[j].Applied?
    ensures TakenFrom(h, j, s)
  {
    assert WasSent(h[..j], h[j]);
    s :| 0 <= s < j && h[..j][s] == Sent(h[j].mid, h[j].payload);
  }

  /** ... so what the view shows was written by the author it shows. */
  lemma ViewShowsTheAuthor(h: seq<Event>, mid: i64, i: nat, j: nat)
    requires InSequence(h) && Checked(h) && LastWord(h, mid, i, j)
    ensures mid in ViewOf(h) && ViewOf(h)[mid].content == WordOf(h[j], mid)
    ensures ViewOf(h)[mid].from == h[j].payload.from
  {
    ViewContent(h, mid, i, j);
    if j > i {
      var s := WhereSent(h, i);
      var t := WhereSent(h, j);
      var k := EditsAreByTheAuthor(h, t);
      assert k == s;
    }
  }

  // ---------- the order of storing and the order of taking in ----------

  /** Message `e` is the last edit of `mid` that was stored. */
  ghost predicate LastStored(h: seq<Event>, mid: i64, e: i64, s: nat) {
    && s < |h| && StoresEdit(h[s], mid) && h[s].mid == e
    && forall t :: s < t < |h| ==> !StoresEdit(h[t], mid)
  }

  predicate StoresEdit(e: Event, mid: i64) {
    e.Sent? && e.payload.detail.Reaction? && e.payload.detail.mid == mid && e.payload.detail.action.Edit?
  }

  /** The view takes messages in as they are stored. */
  ghost predicate InOrder(h: seq<Event>) {
    forall i: nat, j: nat, s: nat, t: nat :: i < j && TakenFrom(h, i, s) && TakenFrom(h, j, t) ==> s < t
  }

  lemma NoEditAfter(h: seq<Event>, mid: i64, e: i64, s: nat, j: nat, k: nat)
    requires InSequence(h) && InOrder(h) && LastStored(h, mid, e, s) && TakenFrom(h, j, s) && j < k < |h|
    ensures !Edits(h[k], mid)
  {
    if h[k].Applied? {
      var t := WhereSent(h, k);
      assert s < t;
    }
  }

  /** In that order, the last stored edit is the one that is shown once it has been taken in. */
  lemma InOrderShowsTheLast(h: seq<Event>, mid: i64, e: i64, s: nat, j: nat)
    requires InSequence(h) && Checked(h) && InOrder(h) && mid in ViewOf(h)
    requires LastStored(h, mid, e, s) && TakenFrom(h, j, s)
    ensures mid in WritersOf(h) && WritersOf(h)[mid] == e
    ensures ViewOf(h)[mid].content == h[s].payload.detail.action.content
  {
    ViewMembers(h, mid);
    var i: nat :| Alive(h, mid, i);
    var k := EditsAreByTheAuthor(h, s);
    var o := WhereSent(h, i);
    assert k == o < s;
    hide ViewOf, WritersOf, StoredOf, Checked;
    assert i < j by { assert i != j; assert j < i ==> s < o; }
    forall l | j < l < |h| ensures !Edits(h[l], mid) { NoEditAfter(h, mid, e, s, j, l); }
    hide InSequence, InOrder;
    assert LastWord(h, mid, i, j);
    ViewContent(h, mid, i, j);
  }

  /** A message is stored; its author's edit passes the check, is stored and taken in; then the message is. */
  function Overtaking(first: Payload, edit: Payload): seq<Event> {
    [Sent(1, first), Sent(2, edit), Applied(2, edit), Applied(1, first)]
  }

  /** Out of order an edit can be lost: the view goes on showing the original, though the edit was stored
      after it, let through and taken in. */
  lemma OvertakingEditIsLost(first: Payload, edit: Payload)
    requires !first.detail.Reaction? && edit.from == first.from
    requires edit.detail.Reaction? && edit.detail.mid == 1 && edit.detail.action.Edit?
    ensures var h := Overtaking(first, edit);
            && InSequence(h) && Checked(h) && LastStored(h, 1, 2, 1) && Applied(2, edit) in h
            && 1 in ViewOf(h) && WritersOf(h)[1] == 1 && ViewOf(h)[1].content == ContentOf(first)
  {
    var h := Overtaking(first, edit);
    assert h[..1] == [Sent(1, first)] && h[..1][..1] == [Sent(1, first)];
    assert StoredOf([Sent(1, first)]) == map[1 := first] by { assert [Sent(1, first)][..0] == []; }
    assert PassedAt(h[..1], 1, edit) by { assert CanReact(edit.detail.action, edit.from, false, first); }
    assert h[0] in h[..2] && h[0] in h[..3];
    assert h[1] in h[..2];
    assert LastWord(h, 1, 3, 3);
    ViewContent(h, 1, 3, 3);
  }
}
