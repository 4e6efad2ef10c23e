/** Senders and event subscribers under the cache lock: what one session receives. */
module Subscription {
  import opened Bytes
  import opened Results
  import opened Selection
  import opened Ordered
  import opened MessageLog
  import opened MessageDb
  import opened Payloads

  const MAX_NEWEST_MESSAGES: nat := 5000
  const CHANNEL_CAPACITY: nat := 128

  // ---------- the messages a new session starts with ----------

  /** Reads the target out of a stored payload; none if the bytes are no payload. */
  type Decoder = bytes -> Option<Target>

  predicate Shown(target: Option<Target>, groups: set<i64>) {
    target.Some? && (target.value.ToGroup? ==> target.value.gid in groups)
  }

  function Show(decode: Decoder, groups: set<i64>): ((i64, bytes)) -> Option<(i64, bytes)> {
    (record: (i64, bytes)) => if Shown(decode(record.1), groups) then Some(record) else None
  }

  ghost function Candidates(log: Log, uid: i64, after: Option<i64>): seq<(i64, bytes)> {
    Last(Messages(log, After(Inbox(log, uid), after)), MAX_NEWEST_MESSAGES)
  }

  ghost function Newest(decode: Decoder, log: Log, groups: set<i64>, uid: i64, after: Option<i64>): seq<(i64, bytes)> {
    Select(Show(decode, groups), Candidates(log, uid, after))
  }

  ghost predicate AscendingRows(rows: seq<(i64, bytes)>) {
    forall i, j :: 0 <= i < j < |rows| ==> rows[i].0 < rows[j].0
  }

  lemma {:induction false} ShownMembers(decode: Decoder, groups: set<i64>, rows: seq<(i64, bytes)>, r: (i64, bytes))
    ensures r in Select(Show(decode, groups), rows) <==> r in rows && Shown(decode(r.1), groups)
  {
    if rows != [] {
      ShownMembers(decode, groups, rows[1..], r);
      assert rows == [rows[0]] + rows[1..];
    }
  }

  lemma {:induction false} ShownAscends(decode: Decoder, groups: set<i64>, rows: seq<(i64, bytes)>)
    requires AscendingRows(rows)
    ensures AscendingRows(Select(Show(decode, groups), rows))
  {
    if rows != [] {
      var rest := Select(Show(decode, groups), rows[1..]);
      ShownAscends(decode, groups, rows[1..]);
      forall i | 0 <= i < |rest| ensures rows[0].0 < rest[i].0 {
        ShownMembers(decode, groups, rows[1..], rest[i]);
      }
    }
  }

  lemma CandidateRows(log: Log, uid: i64, after: Option<i64>)
    ensures AscendingRows(Candidates(log, uid, after))
    ensures forall i :: 0 <= i < |Candidates(log, uid, after)| ==>
              var r := Candidates(log, uid, after)[i]; r.0 in log && uid in log[r.0].targets && r.1 == log[r.0].data
  {
    var mids := After(Inbox(log, uid), after);
    forall i | 0 <= i < |mids| ensures Sorted(mids)[i] in mids { assert Sorted(mids)[i] in Sorted(mids); }
  }

  /** The candidates are the last ids, each with its bytes. */
  lemma CandidateAt(log: Log, uid: i64, after: Option<i64>, i: nat)
    requires i < |Last(Sorted(After(Inbox(log, uid), after)), MAX_NEWEST_MESSAGES)|
    ensures |Candidates(log, uid, after)| == |Last(Sorted(After(Inbox(log, uid), after)), MAX_NEWEST_MESSAGES)|
    ensures var m := Last(Sorted(After(Inbox(log, uid), after)), MAX_NEWEST_MESSAGES)[i];
            m in log && Candidates(log, uid, after)[i] == (m, log[m].data)
  {
    hide Last, After, Messages;
    LastMessage(log, After(Inbox(log, uid), after), MAX_NEWEST_MESSAGES, i);
  }

  lemma CandidateCount(log: Log, uid: i64, after: Option<i64>)
    ensures |Candidates(log, uid, after)| == |Last(Sorted(After(Inbox(log, uid), after)), MAX_NEWEST_MESSAGES)|
  {}

  lemma CandidateIsLast(log: Log, uid: i64, after: Option<i64>, m: i64, data: bytes)
    requires (m, data) in Candidates(log, uid, after)
    ensures m in Last(Sorted(After(Inbox(log, uid), after)), MAX_NEWEST_MESSAGES)
    ensures m in log && log[m].data == data
  {
    hide Candidates;
    hide Last;
    var i :| 0 <= i < |Candidates(log, uid, after)| && Candidates(log, uid, after)[i] == (m, data);
    CandidateCount(log, uid, after);
    CandidateAt(log, uid, after, i);
  }

  lemma LastIsCandidate(log: Log, uid: i64, after: Option<i64>, m: i64)
    requires m in Last(Sorted(After(Inbox(log, uid), after)), MAX_NEWEST_MESSAGES)
    ensures m in log && (m, log[m].data) in Candidates(log, uid, after)
  {
    hide Candidates;
    hide Last;
    var ids := Last(Sorted(After(Inbox(log, uid), after)), MAX_NEWEST_MESSAGES);
    var i :| 0 <= i < |ids| && ids[i] == m;
    CandidateAt(log, uid, after, i);
  }

  /** A message is a candidate exactly when it is in the inbox, after the given id, and
      at most 5000 of those are at least as new. */
  lemma CandidateMembers(log: Log, uid: i64, after: Option<i64>, m: i64, data: bytes)
    ensures (m, data) in Candidates(log, uid, after) <==>
              var mids := After(Inbox(log, uid), after);
              m in mids && log[m].data == data && |AtLeast(mids, m)| <= 5000
  {
    hide Candidates;
    hide Last;
    var mids := After(Inbox(log, uid), after);
    LastMembers(mids, MAX_NEWEST_MESSAGES, m);
    if (m, data) in Candidates(log, uid, after) {
      CandidateIsLast(log, uid, after, m, data);
    }
    if m in Last(Sorted(mids), MAX_NEWEST_MESSAGES) {
      LastIsCandidate(log, uid, after, m);
    }
  }

  /** What the session starts with, in ascending order: exactly these messages. */
  lemma NewestMembers(decode: Decoder, log: Log, groups: set<i64>, uid: i64, after: Option<i64>)
    ensures AscendingRows(Newest(decode, log, groups, uid, after))
    ensures forall m, data :: (m, data) in Newest(decode, log, groups, uid, after) <==>
              var mids := After(Inbox(log, uid), after);
              && m in mids && log[m].data == data && |AtLeast(mids, m)| <= 5000
              && decode(data).Some? && (decode(data).value.ToGroup? ==> decode(data).value.gid in groups)
  {
    var rows := Candidates(log, uid, after);
    CandidateRows(log, uid, after);
    ShownAscends(decode, groups, rows);
    forall m, data
      ensures (m, data) in Newest(decode, log, groups, uid, after) <==>
                var mids := After(Inbox(log, uid), after);
                && m in mids && log[m].data == data && |AtLeast(mids, m)| <= 5000
                && decode(data).Some? && (decode(data).value.ToGroup? ==> decode(data).value.gid in groups)
    {
      CandidateMembers(log, uid, after, m, data);
      ShownMembers(decode, groups, rows, (m, data));
    }
  }

  method FetchNewestMessages(db: MsgDb, decode: Decoder, groups: set<i64>, uid: i64, after: Option<i64>)
      returns (msgs: seq<(i64, bytes)>)
    requires db.Valid()
    ensures msgs == Newest(decode, db.stored.log, groups, uid, after)
  {
    var rows := db.FetchUserMessagesAfter(uid, after, MAX_NEWEST_MESSAGES);
    msgs := KeepShown(decode, groups, rows);
  }

  method KeepShown(decode: Decoder, groups: set<i64>, rows: seq<(i64, bytes)>) returns (msgs: seq<(i64, bytes)>)
    ensures msgs == Select(Show(decode, groups), rows)
  {
    msgs := [];
    for i := 0 to |rows|
      invariant msgs == Select(Show(decode, groups), rows[..i])
    {
      SelectOne(Show(decode, groups), rows[..i], rows[i]);
      assert rows[..i + 1] == rows[..i] + [rows[i]];
      if Shown(decode(rows[i].1), groups) { msgs := msgs + [rows[i]]; }
    }
    assert rows[..|rows|] == rows;
  }

  // ---------- the loop that relays broadcast events ----------

  datatype Event =
    | Chat(targets: set<i64>, mid: i64, data: bytes)
    | UserLog(logId: int)
    | Other

  datatype Item = Message(mid: i64, data: bytes) | Log(logId: int)

  /** What an event means to a user, had the session no memory at all. */
  function Wanted(uid: i64): Event -> Option<Item> {
    (event: Event) =>
      match event
      case Chat(targets, mid, data) => if uid in targets then Some(Message(mid, data)) else None
      case UserLog(id) => Some(Log(id))
      case Other => None
  }

  /** What the loop sends for one event, and the `push_start_id` it goes on with. */
  function Relay(uid: i64, push: Option<i64>, event: Event): (seq<Item>, Option<i64>) {
    match event
    case Chat(targets, mid, data) =>
      if uid !in targets || (push.Some? && mid <= push.value) then ([], push) else ([Message(mid, data)], None)
    case UserLog(id) => ([Log(id)], push)
    case Other => ([], push)
  }

  function RelayAll(uid: i64, push: Option<i64>, events: seq<Event>): (seq<Item>, Option<i64>)
    decreases |events|
  {
    if events == [] then ([], push) else
      var (items, next) := Relay(uid, push, events[0]);
      var (more, end) := RelayAll(uid, next, events[1..]);
      (items + more, end)
  }

  method EventsLoop(uid: i64, pushStartId: Option<i64>, events: seq<Event>) returns (sent: seq<Item>)
    ensures sent == RelayAll(uid, pushStartId, events).0
  {
    sent := [];
    var push := pushStartId;
    for i := 0 to |events|
      invariant RelayAll(uid, pushStartId, events).0 == sent + RelayAll(uid, push, events[i..]).0
    {
      RelayFirst(uid, push, events[i..], sent);
      assert events[i..][1..] == events[i + 1..];
      match events[i] {
        case Chat(targets, mid, data) =>
          if uid !in targets { continue; }
          if push.Some? {
            if mid <= push.value { continue; }
            push := None;
          }
          sent := sent + [Message(mid, data)];
        case UserLog(id) =>
          sent := sent + [Log(id)];
        case Other =>
      }
    }
  }

  lemma RelayFirst(uid: i64, push: Option<i64>, events: seq<Event>, sent: seq<Item>)
    requires events != []
    ensures var (items, next) := Relay(uid, push, events[0]);
            && sent + RelayAll(uid, push, events).0 == (sent + items) + RelayAll(uid, next, events[1..]).0
            && sent + [] == sent
  {
    var (items, next) := Relay(uid, push, events[0]);
    var rest := RelayAll(uid, next, events[1..]).0;
    assert RelayAll(uid, push, events).0 == items + rest;
    hide *;
    assert sent + (items + rest) == (sent + items) + rest;
  }

  predicate Addressed(uid: i64, event: Event) { event.Chat? && uid in event.targets }

  /** The first message for the user that the loop sees lies above `push_start_id`. */
  ghost predicate StartsAbove(uid: i64, push: Option<i64>, events: seq<Event>) {
    push.Some? && events != [] ==>
      if Addressed(uid, events[0]) then events[0].mid > push.value else StartsAbove(uid, push, events[1..])
  }

  lemma {:induction false} NoFilterLength(uid: i64, push: Option<i64>, events: seq<Event>)
    ensures |RelayAll(uid, push, events).0| <= |Select(Wanted(uid), events)|
    decreases |events|
  {
    if events != [] { NoFilterLength(uid, Relay(uid, push, events[0]).1, events[1..]); }
  }

  lemma PrependInjective<T>(p: seq<T>, a: seq<T>, b: seq<T>)
    ensures p + a == p + b <==> a == b
  {
    assert (p + a)[|p|..] == a && (p + b)[|p|..] == b;
  }

  /** The `push_start_id` check drops nothing exactly when the first message for the
      user lies above it; the later ones are not compared at all then. */
  lemma {:induction false} FilterIsTransparent(uid: i64, push: Option<i64>, events: seq<Event>)
    ensures RelayAll(uid, push, events).0 == Select(Wanted(uid), events) <==> StartsAbove(uid, push, events)
    decreases |events|
  {
    if events != [] {
      var next := Relay(uid, push, events[0]).1;
      FilterIsTransparent(uid, next, events[1..]);
      NoFilterLength(uid, next, events[1..]);
      var items := if Wanted(uid)(events[0]).Some? then [Wanted(uid)(events[0]).value] else [];
      if Relay(uid, push, events[0]).0 == items {
        PrependInjective(items, RelayAll(uid, next, events[1..]).0, Select(Wanted(uid), events[1..]));
      }
    }
  }
}
