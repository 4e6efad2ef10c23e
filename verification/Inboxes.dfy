/** What is in an inbox after any run of sending and clearing: what was sent to its owner. */
module Inboxes {
  import opened Bytes
  import opened Results
  import opened Ordered
  import opened MessageLog
  import opened MessageDb
  import opened Payloads
  import opened MergedView
  import GroupKinds
  import opened Sending

  /** A message handed to the server, with the users and groups as they are at that moment, or a group
      that is cleared. */
  datatype Act = Send(d: Directory, p: Payload) | Clear(gid: i64)

  datatype Store = Store(log: Log, next: int)

  ghost function Do(c: Codec, st: Store, act: Act): Store {
    match act
    case Send(d, p) =>
      if !(1 <= st.next <= ID_LIMIT) || RouteOf(d, p).Err? then st else
        var route := RouteOf(d, p).value;
        Store(st.log[st.next := Entry(route.conversation, route.targets, c.put(Stamp(d, p)))], st.next + 1)
    case Clear(gid) => st.(log := st.log - History(st.log, InGroup(gid)))
  }

  ghost function Run(c: Codec, start: Store, acts: seq<Act>): Store {
    if acts == [] then start else Do(c, Run(c, start, acts[..|acts| - 1]), acts[|acts| - 1])
  }

  ghost predicate IdsBelow(st: Store) { 1 <= st.next && forall m :: m in st.log ==> m < st.next }

  // ---------- the acts are what the handlers do ----------

  ghost predicate Matches(db: MsgDb, st: Store)
    reads db
  {
    db.Valid() && db.stored.log == st.log && db.next == st.next
  }

  method SendStep(db: MsgDb, c: Codec, d: Directory, p: Payload, ghost h: seq<Event>, ghost st: Store)
      returns (r: Result<i64, GroupKinds.ApiError>)
    requires Matches(db, st) && 1 <= db.next <= ID_LIMIT && Lawful(c) && Holds(c, db.stored, db.next, h)
    modifies db
    ensures Matches(db, Do(c, st, Send(d, p)))
  {
    hide Holds;
    var broadcast, queued;
    r, broadcast, queued := SendMessage(db, c, d, p, h);
  }

  method ClearStep(db: MsgDb, c: Codec, gid: i64, ghost st: Store)
    requires Matches(db, st)
    modifies db
    ensures Matches(db, Do(c, st, Clear(gid)))
  {
    var removed := db.ClearGroupMessages(gid);
  }

  // ---------- where the messages come from ----------

  /** The act stores its message under this id. */
  ghost predicate SentAt(c: Codec, start: Store, acts: seq<Act>, i: nat, m: i64) {
    && i < |acts| && acts[i].Send? && Sendable(acts[i].d, acts[i].p)
    && Run(c, start, acts[..i]).next == m && 1 <= m <= ID_LIMIT
  }

  /** No later act clears the message's group. */
  ghost predicate KeptSince(acts: seq<Act>, i: nat, t: Target) {
    t.ToGroup? ==> forall j :: i < j < |acts| ==> acts[j] != Clear(t.gid)
  }

  ghost predicate StoredBy(c: Codec, start: Store, acts: seq<Act>, i: nat, m: i64) {
    SentAt(c, start, acts, i, m) && KeptSince(acts, i, acts[i].p.target)
  }

  /** The entry of a message: in its conversation, for those who receive it, as bytes. */
  ghost predicate EntryFor(c: Codec, d: Directory, p: Payload, e: Entry) {
    && !Unknown(d, p) && Between(e.conversation, p) && (forall u :: u in e.targets <==> Receives(d, p, u))
    && e.data == c.put(Stamp(d, p))
  }

  lemma DoKeepsIds(c: Codec, st: Store, act: Act)
    requires IdsBelow(st)
    ensures IdsBelow(Do(c, st, act))
  {
    hide RouteOf;
  }

  lemma {:induction false} RunKeepsIds(c: Codec, start: Store, acts: seq<Act>)
    requires IdsBelow(start)
    ensures IdsBelow(Run(c, start, acts))
  {
    hide Do, IdsBelow;
    if acts != [] {
      RunKeepsIds(c, start, acts[..|acts| - 1]);
      DoKeepsIds(c, Run(c, start, acts[..|acts| - 1]), acts[|acts| - 1]);
    }
  }

  lemma DoStores(c: Codec, st: Store, d: Directory, p: Payload)
    requires Sendable(d, p) && 1 <= st.next <= ID_LIMIT
    ensures var after := Do(c, st, Send(d, p)); st.next in after.log && EntryFor(c, d, p, after.log[st.next])
  {
    RouteIs(d, p);
    hide RouteOf, Receives, Between, Unknown, Barred, Missing;
  }

  /** What is there stays, unless its group is cleared. */
  lemma DoKeeps(c: Codec, st: Store, act: Act, m: i64)
    requires IdsBelow(st) && m in st.log && (act.Clear? ==> st.log[m].conversation != InGroup(act.gid))
    ensures m in Do(c, st, act).log && Do(c, st, act).log[m] == st.log[m]
  {
    hide RouteOf;
  }

  /** What was sent and not cleared since is in the store, for those whom it was for. */
  lemma {:induction false} SentIsStored(c: Codec, start: Store, acts: seq<Act>, i: nat, m: i64)
    requires IdsBelow(start) && StoredBy(c, start, acts, i, m)
    ensures var log := Run(c, start, acts).log; m in log && EntryFor(c, acts[i].d, acts[i].p, log[m])
  {
    hide Do, Sendable, Receives, IdsBelow;
    var last := |acts| - 1;
    if i == last {
      DoStores(c, Run(c, start, acts[..last]), acts[i].d, acts[i].p);
    } else {
      assert acts[..last][..i] == acts[..i];
      SentIsStored(c, start, acts[..last], i, m);
      RunKeepsIds(c, start, acts[..last]);
      DoKeeps(c, Run(c, start, acts[..last]), acts[last], m);
    }
  }

  lemma StillStored(c: Codec, st: Store, act: Act, m: i64)
    requires IdsBelow(st) && m in st.log && m in Do(c, st, act).log
    ensures Do(c, st, act).log[m] == st.log[m] && (act.Clear? ==> st.log[m].conversation != InGroup(act.gid))
  {
    hide RouteOf;
  }

  lemma NewlyStored(c: Codec, st: Store, act: Act, m: i64)
    requires m !in st.log && m in Do(c, st, act).log
    ensures act.Send? && Sendable(act.d, act.p) && st.next == m && 1 <= m <= ID_LIMIT
  {
    if act.Send? { RouteIs(act.d, act.p); }
    hide RouteOf, Unknown, Barred, Missing;
  }

  /** Whatever is in the store was sent, or was there at the start. */
  lemma {:induction false} StoredWasSent(c: Codec, start: Store, acts: seq<Act>, m: i64)
    requires IdsBelow(start) && m in Run(c, start, acts).log
    ensures (m in start.log && Run(c, start, acts).log[m] == start.log[m]) || exists i: nat ::
              StoredBy(c, start, acts, i, m)
  {
    if acts != [] {
      var last := |acts| - 1;
      var st, act := Run(c, start, acts[..last]), acts[last];
      RunKeepsIds(c, start, acts[..last]);
      hide Run, IdsBelow;
      if m in st.log {
        StoredWasSent(c, start, acts[..last], m);
        StillStored(c, st, act, m);
        if i: nat :| StoredBy(c, start, acts[..last], i, m) {
          SentIsStored(c, start, acts[..last], i, m);
          assert acts[..last][..i] == acts[..i];
          assert StoredBy(c, start, acts, i, m);
        }
      } else {
        NewlyStored(c, st, act, m);
        assert StoredBy(c, start, acts, last, m);
      }
    }
  }

  /** On a store that was empty, a message is in somebody's inbox exactly when it was sent in a way that let it
      through, by whoever it was, to a conversation of which this user was a part at that moment, and the group
      has not been cleared since. */
  lemma InboxIsWhatWasSent(c: Codec, start: Store, acts: seq<Act>, u: i64, m: i64)
    requires IdsBelow(start) && start.log == map[]
    ensures m in Inbox(Run(c, start, acts).log, u)
            <==> exists i: nat :: StoredBy(c, start, acts, i, m) && Receives(acts[i].d, acts[i].p, u)
  {
    hide Run, Do, Sendable, Receives, IdsBelow;
    var log := Run(c, start, acts).log;
    if m in log { StoredWasSent(c, start, acts, m); }
    forall i: nat | StoredBy(c, start, acts, i, m)
      ensures m in Inbox(log, u) <==> Receives(acts[i].d, acts[i].p, u)
    {
      SentIsStored(c, start, acts, i, m);
    }
  }

  /** The user belonged to the conversation when the message was sent: one of the two, a member of the private
      group, or a user at all. */
  predicate Belonged(d: Directory, t: Target, from: i64, u: i64) {
    match t
    case ToUser(uid) => u == uid || u == from
    case ToGroup(gid) =>
      gid in d.groups && (d.groups[gid].kind.Private? ==> u in d.groups[gid].members)
      && (d.groups[gid].kind.Public? ==> u in d.users)
  }

  ghost predicate WasSentTo(c: Codec, start: Store, acts: seq<Act>, u: i64, row: (i64, bytes)) {
    exists i: nat :: StoredBy(c, start, acts, i, row.0) && row.1 == c.put(Stamp(acts[i].d, acts[i].p))
                && Belonged(acts[i].d, acts[i].p.target, acts[i].p.from, u)
  }

  lemma InboxRow(c: Codec, start: Store, acts: seq<Act>, u: i64, m: i64)
    requires IdsBelow(start) && start.log == map[] && m in Inbox(Run(c, start, acts).log, u)
    ensures m in Run(c, start, acts).log
    ensures WasSentTo(c, start, acts, u, (m, Run(c, start, acts).log[m].data))
  {
    hide Run, Do, Sendable, IdsBelow;
    InboxIsWhatWasSent(c, start, acts, u, m);
    var i: nat :| StoredBy(c, start, acts, i, m) && Receives(acts[i].d, acts[i].p, u);
    SentIsStored(c, start, acts, i, m);
  }

  /** What a user fetches was sent while the user belonged to the conversation. */
  method FetchReceived(db: MsgDb, uid: i64, after: Option<i64>, limit: nat, ghost c: Codec, ghost start: Store,
      ghost acts: seq<Act>) returns (msgs: seq<(i64, bytes)>)
    requires IdsBelow(start) && start.log == map[] && Matches(db, Run(c, start, acts))
    ensures forall row :: row in msgs ==> WasSentTo(c, start, acts, uid, row)
  {
    hide Run, WasSentTo, IdsBelow;
    msgs := db.FetchUserMessagesAfter(uid, after, limit);
    var ids := After(Inbox(db.stored.log, uid), after);
    forall row | row in msgs ensures WasSentTo(c, start, acts, uid, row) {
      var k :| 0 <= k < |msgs| && msgs[k] == row;
      LastIndex(db.stored.log, ids, limit, k);
      InboxRow(c, start, acts, uid, row.0);
    }
  }

  lemma LastIndex(log: Log, mids: set<i64>, limit: nat, k: nat)
    requires mids <= log.Keys && k < |Last(Messages(log, mids), limit)|
    ensures var row := Last(Messages(log, mids), limit)[k]; row.0 in mids && row.1 == log[row.0].data
  {
    hide Last, Messages;
    LastMessage(log, mids, limit, k);
  }
}
