/** Sending a message, from the checks to the store: what `send_message` and the reaction
    handlers leave in the database. */
module Sending {
  import opened Bytes
  import opened Results
  import opened Ordered
  import opened MessageLog
  import opened MessageDb
  import opened Payloads
  import opened MergedView
  import opened GroupKinds
  import opened Groups
  import Subscription
  import Delivery

  // ---------- who may send what where ----------

  datatype Sender = Sender(frozen: bool, blocked: set<i64>, expiresUsers: map<i64, int>, expiresGroups: map<i64, int>)

  /** What the checks look at in the cache. */
  datatype Directory = Directory(users: map<i64, Sender>, groups: map<i64, Groups.Group>)

  datatype Route = Route(conversation: Conversation, targets: set<i64>)

  function ConversationOf(p: Payload): Conversation {
    match p.target
    case ToUser(uid) => DirectOf(p.from, uid)
    case ToGroup(gid) => InGroup(gid)
  }

  /** Only these contents make a notification text. */
  predicate Notifies(p: Payload) {
    !p.detail.Reaction? && p.detail.content.contentType in {"text/plain", "text/markdown", "vachat/file"}
  }

  function Expiry(d: Directory, p: Payload): Option<int>
    requires p.from in d.users
  {
    var s := d.users[p.from];
    match p.target
    case ToUser(uid) => if uid in s.expiresUsers then Some(s.expiresUsers[uid]) else None
    case ToGroup(gid) => if gid in s.expiresGroups then Some(s.expiresGroups[gid]) else None
  }

  /** A message with content of its own takes its sender's settings for disappearing messages. */
  function Stamp(d: Directory, p: Payload): Payload
    requires p.detail.Normal? ==> p.from in d.users
  {
    if p.detail.Normal? then p.(detail := p.detail.(expiresIn := Expiry(d, p))) else p
  }

  function RouteOf(d: Directory, p: Payload): Result<Route, ApiError> {
    if p.detail.Normal? && p.from !in d.users then Err(Unauthorized)
    else match p.target
      case ToUser(uid) =>
        if uid in d.users && p.from in d.users[uid].blocked then Err(Forbidden)
        else if p.from in d.users && !d.users[p.from].frozen && Notifies(p) && uid !in d.users then Err(NotFound)
        else Ok(Route(DirectOf(p.from, uid), {p.from, uid}))
      case ToGroup(gid) =>
        if gid !in d.groups then Err(NotFound)
        else if !d.groups[gid].kind.Public? && p.from !in d.groups[gid].members then Err(Forbidden)
        else Ok(Route(InGroup(gid), if d.groups[gid].kind.Public? then d.users.Keys else d.groups[gid].members))
  }

  // ---------- who receives a message, and who may not send it ----------

  /** For whom a message is: both sides of a direct conversation, the members of a private group, every user
      for a public one. */
  predicate Receives(d: Directory, p: Payload, u: i64) {
    match p.target
    case ToUser(uid) => u == p.from || u == uid
    case ToGroup(gid) =>
      gid in d.groups && if d.groups[gid].kind.Public? then u in d.users else u in d.groups[gid].members
  }

  /** A new message needs a sender who exists; reactions and replies do not ask. */
  predicate Unknown(d: Directory, p: Payload) { p.detail.Normal? && p.from !in d.users }

  /** The receiver has blocked the sender, or the sender is no member of the private group. */
  predicate Barred(d: Directory, p: Payload) {
    match p.target
    case ToUser(uid) => uid in d.users && p.from in d.users[uid].blocked
    case ToGroup(gid) => gid in d.groups && d.groups[gid].kind.Private? && p.from !in d.groups[gid].members
  }

  /** There is no such group. A receiver who does not exist is missed only when a notification is due: for texts
      and files, from a sender who exists and is not frozen. */
  predicate Missing(d: Directory, p: Payload) {
    match p.target
    case ToUser(uid) =>
      && uid !in d.users && p.from in d.users && !d.users[p.from].frozen && !p.detail.Reaction?
      && (var kind := p.detail.content.contentType;
          kind == "text/plain" || kind == "text/markdown" || kind == "vachat/file")
    case ToGroup(gid) => gid !in d.groups
  }

  /** What a sending answers, and for whom the message is stored. */
  lemma RouteIs(d: Directory, p: Payload)
    ensures RouteOf(d, p) == Err(Unauthorized) <==> Unknown(d, p)
    ensures RouteOf(d, p) == Err(Forbidden) <==> !Unknown(d, p) && Barred(d, p)
    ensures RouteOf(d, p) == Err(NotFound) <==> !Unknown(d, p) && Missing(d, p)
    ensures RouteOf(d, p).Ok? <==> !Unknown(d, p) && !Barred(d, p) && !Missing(d, p)
    ensures RouteOf(d, p).Ok? ==>
              && Between(RouteOf(d, p).value.conversation, p)
              && forall u :: u in RouteOf(d, p).value.targets <==> Receives(d, p, u)
  {}

  /** The conversation of the group, or of the two users. */
  predicate Between(c: Conversation, p: Payload) {
    match p.target
    case ToUser(uid) => c.Direct? && {c.low, c.high} == {p.from, uid}
    case ToGroup(gid) => c == InGroup(gid)
  }

  /** The inboxes of those who receive the message gain its id; nothing else changes in any inbox. */
  ghost predicate InboxesGain(before: Log, after: Log, mid: i64, d: Directory, p: Payload) {
    forall u, m :: m in Inbox(after, u) <==> m in Inbox(before, u) || (m == mid && Receives(d, p, u))
  }

  lemma InboxGains(log: Log, mid: i64, entry: Entry, d: Directory, p: Payload)
    requires mid !in log && forall u :: u in entry.targets <==> Receives(d, p, u)
    ensures InboxesGain(log, log[mid := entry], mid, d, p)
  {
    hide Receives;
  }

  /** The message as it was given, but that a new one disappears when its sender's setting for this user or group
      says so, and never without such a setting. */
  ghost predicate StampedFrom(d: Directory, p: Payload, q: Payload) {
    && q.from == p.from && q.createdAt == p.createdAt && q.target == p.target
    && (!p.detail.Normal? ==> q.detail == p.detail)
    && (p.detail.Normal? ==>
          && p.from in d.users && q.detail.Normal? && q.detail.content == p.detail.content
          && var chosen := if p.target.ToUser? then d.users[p.from].expiresUsers else d.users[p.from].expiresGroups;
             var id := if p.target.ToUser? then p.target.uid else p.target.gid;
             forall x :: q.detail.expiresIn == Some(x) <==> id in chosen && chosen[id] == x)
  }

  lemma StampIsRight(d: Directory, p: Payload)
    requires !Unknown(d, p)
    ensures StampedFrom(d, p, Stamp(d, p))
  {}

  /** A reaction stays in the conversation of the message exactly when that is a group's, or the
      one who reacts takes part in it. */
  lemma ReactionStaysInConversation(uid: i64, p: Payload, now: int, detail: Detail)
    ensures ConversationOf(Payload(uid, now, ReactionTarget(uid, p), detail)) == ConversationOf(p)
            <==> p.target.ToGroup? || uid == p.from || uid == p.target.uid
  {}

  // ---------- payloads as bytes ----------

  datatype Codec = Codec(
    put: Payload -> bytes, get: bytes -> Option<Payload>,
    putMerged: Payloads.Merged -> bytes, getMerged: bytes -> Option<Payloads.Merged>)

  ghost predicate Lawful(c: Codec) {
    && (forall p {:trigger c.put(p)} :: c.get(c.put(p)) == Some(p))
    && (forall m {:trigger c.putMerged(m)} :: c.getMerged(c.putMerged(m)) == Some(m))
  }

  /** The change that an edit makes to the bytes of a merged message. */
  function EditBytes(c: Codec, content: Content): bytes -> bytes {
    (data: bytes) =>
      match c.getMerged(data)
      case Some(m) => c.putMerged(m.(content := content))
      case None => data
  }

  ghost predicate Encodes(c: Codec, merged: MessageLog.Merged, view: View) {
    merged.Keys == view.Keys && forall mid :: mid in view ==> merged[mid] == c.putMerged(view[mid])
  }

  /** The database holds what was sent: the messages, and the merged view of them. */
  ghost predicate Holds(c: Codec, s: Stored, next: int, h: seq<Event>) {
    && Encodes(c, s.merged, ViewOf(h))
    && s.log.Keys == StoredOf(h).Keys
    && (forall mid :: mid in s.log ==>
          && s.log[mid].data == c.put(StoredOf(h)[mid])
          && s.log[mid].conversation == ConversationOf(StoredOf(h)[mid]))
    && (forall i :: 0 <= i < |h| && (h[i].Sent? || h[i].Applied?) ==> h[i].mid < next)
    && InSequence(h)
  }

  /** A message that has been stored and that the merged view has yet to take in. */
  ghost predicate Pending(h: seq<Event>, mid: i64, p: Payload) {
    WasSent(h, Applied(mid, p)) && forall i :: 0 <= i < |h| && h[i].Applied? ==> h[i].mid != mid
  }

  function ToQueue(mid: i64, p: Payload): Option<i64> {
    if !p.detail.Reaction? then Some(mid) else if p.detail.action.Edit? then Some(p.detail.mid) else None
  }

  /** The merged view takes in one stored message, whatever others did since it was stored. Returns the id
      to queue for the updater that refreshes pinned copies. */
  method UpdateMerged(db: MsgDb, c: Codec, mid: i64, p: Payload, ghost h: seq<Event>) returns (queued: Option<i64>)
    requires db.Valid() && Lawful(c) && Holds(c, db.stored, db.next, h) && Pending(h, mid, p)
    modifies db`tree, db`table, db`stored
    ensures db.Valid() && db.stored.log == old(db.stored).log
    ensures Holds(c, db.stored, db.next, h + [Applied(mid, p)])
    ensures queued == ToQueue(mid, p)
  {
    hide Holds, Pending;
    HoldsView(c, db.stored, db.next, h);
    queued := WriteMerged(db, c, mid, p, ViewOf(h));
    ApplyHolds(c, old(db.stored), db.next, h, mid, p, db.stored);
  }

  lemma ApplyHolds(c: Codec, before: Stored, next: int, h: seq<Event>, mid: i64, p: Payload, after: Stored)
    requires Holds(c, before, next, h) && Pending(h, mid, p)
    requires after.log == before.log && Encodes(c, after.merged, MergedView.Apply(ViewOf(h), mid, p))
    ensures Holds(c, after, next, h + [Applied(mid, p)])
  {
    StepSnoc(h, Applied(mid, p));
    InSequenceSnoc(h, Applied(mid, p));
    hide InSequence;
  }

  method WriteMerged(db: MsgDb, c: Codec, mid: i64, p: Payload, ghost view: View) returns (queued: Option<i64>)
    requires db.Valid() && Lawful(c) && Encodes(c, db.stored.merged, view)
    modifies db`tree, db`table, db`stored
    ensures db.Valid() && db.stored.log == old(db.stored).log
    ensures Encodes(c, db.stored.merged, MergedView.Apply(view, mid, p))
    ensures queued == ToQueue(mid, p)
  {
    match p.detail {
      case Normal(content, _) =>
        db.InsertMergedMsg(mid, c.putMerged(Payloads.Merged(p.from, p.target, content, p.createdAt)));
        queued := Some(mid);
      case Reply(_, content) =>
        db.InsertMergedMsg(mid, c.putMerged(Payloads.Merged(p.from, p.target, content, p.createdAt)));
        queued := Some(mid);
      case Reaction(aimedAt, action) =>
        match action {
          case Edit(content) =>
            db.UpdateMergedMsg(aimedAt, EditBytes(c, content));
            queued := Some(aimedAt);
          case Like(_) => queued := None;
          case Withdraw => queued := None;
        }
    }
  }

  lemma AppendHolds(c: Codec, before: Stored, next: int, h: seq<Event>, mid: i64, p: Payload, after: Stored)
    requires Holds(c, before, next, h) && mid == next
    requires mid in after.log && after.log == before.log[mid := after.log[mid]] && after.merged == before.merged
    requires after.log[mid].data == c.put(p) && after.log[mid].conversation == ConversationOf(p)
    ensures Holds(c, after, next + 1, h + [Sent(mid, p)]) && Pending(h + [Sent(mid, p)], mid, p)
  {
    hide InSequence, ViewOf, StoredOf;
    StepSnoc(h, Sent(mid, p));
    InSequenceSnoc(h, Sent(mid, p));
    assert (h + [Sent(mid, p)])[|h|] == Sent(mid, p);
  }

  /** The first half of sending: the message is stored, the merged view does not know of it yet. */
  method StoreMessage(db: MsgDb, c: Codec, targets: seq<i64>, p: Payload, ghost h: seq<Event>) returns (mid: i64)
    requires db.Valid() && db.next <= ID_LIMIT && Lawful(c) && Holds(c, db.stored, db.next, h)
    requires p.target.ToUser? ==> (set u | u in targets) == {p.from, p.target.uid}
    modifies db
    ensures db.Valid() && mid == old(db.next) && db.next == mid + 1
    ensures db.stored.log == old(db.stored.log)[mid := Entry(ConversationOf(p), (set u | u in targets), c.put(p))]
    ensures Holds(c, db.stored, db.next, h + [Sent(mid, p)]) && Pending(h + [Sent(mid, p)], mid, p)
  {
    hide Holds, Pending;
    match p.target {
      case ToGroup(gid) => mid := db.SendToGroup(gid, targets, c.put(p));
      case ToUser(uid) => mid := db.SendToDm(p.from, uid, c.put(p));
    }
    assert db.stored.log[mid].targets == set u | u in targets;
    assert db.stored.log[mid] == Entry(ConversationOf(p), (set u | u in targets), c.put(p));
    assert db.stored.log == old(db.stored.log)[mid := db.stored.log[mid]];
    AppendHolds(c, old(db.stored), old(db.next), h, mid, p, db.stored);
  }

  /** Stores a message, lets the merged view take it in and broadcasts it: to those for whom it was stored,
      with the bytes that were stored. */
  method InternalSendMessage(db: MsgDb, c: Codec, targets: seq<i64>, p: Payload, ghost h: seq<Event>)
      returns (mid: i64, broadcast: Subscription.Event, queued: Option<i64>)
    requires db.Valid() && db.next <= ID_LIMIT && Lawful(c) && Holds(c, db.stored, db.next, h)
    requires p.target.ToUser? ==> (set u | u in targets) == {p.from, p.target.uid}
    modifies db
    ensures db.Valid() && mid == old(db.next) && db.next == mid + 1
    ensures db.stored.log == old(db.stored.log)[mid := Entry(ConversationOf(p), (set u | u in targets), c.put(p))]
    ensures Holds(c, db.stored, db.next, h + [Sent(mid, p)] + [Applied(mid, p)])
    ensures broadcast == Subscription.Chat(db.stored.log[mid].targets, mid, db.stored.log[mid].data)
    ensures queued == ToQueue(mid, p)
  {
    hide Holds, Pending;
    mid := StoreMessage(db, c, targets, p, h);
    queued := UpdateMerged(db, c, mid, p, h + [Sent(mid, p)]);
    var recipients := match p.target case ToGroup(_) => targets case ToUser(uid) => [p.from, uid];
    broadcast := Subscription.Chat((set u | u in recipients), mid, c.put(p));
  }

  lemma HoldsView(c: Codec, s: Stored, next: int, h: seq<Event>)
    requires Holds(c, s, next, h)
    ensures Encodes(c, s.merged, ViewOf(h))
  {}

  ghost predicate Matches(db: MsgDb, st: Delivery.State)
    reads db
  {
    db.Valid() && db.stored.log == st.log && db.next == st.next
  }

  /** The steps of a sender in `Delivery`, one after the other, are what sending does: to the log, to
      the ids and to the channel. */
  method SendStep(db: MsgDb, c: Codec, targets: seq<i64>, p: Payload, ghost h: seq<Event>,
      ghost decode: Subscription.Decoder, ghost st: Delivery.State, ghost tid: nat)
      returns (mid: i64, broadcast: Subscription.Event)
    requires db.next <= ID_LIMIT && Lawful(c) && Holds(c, db.stored, db.next, h)
    requires p.target.ToUser? ==> (set u | u in targets) == {p.from, p.target.uid}
    requires Matches(db, st) && st.lock.Free? && tid !in st.senders
    modifies db
    ensures mid in db.stored.log
    ensures var after := Delivery.Run(decode, st, Delivery.WholeSend(tid, db.stored.log[mid]));
            Matches(db, after) && after.broadcast == st.broadcast + [broadcast] && after.senders == st.senders
  {
    hide Holds;
    var queued;
    mid, broadcast, queued := InternalSendMessage(db, c, targets, p, h);
    Delivery.WholeSendDone(decode, st, tid, db.stored.log[mid]);
  }

  /** Clearing a group, and what a session under the exclusive guard is given, are steps there, too. */
  method ClearStep(db: MsgDb, gid: i64, ghost decode: Subscription.Decoder, ghost st: Delivery.State)
    requires Matches(db, st) && Delivery.Enabled(st, Delivery.ClearGroup(gid))
    modifies db
    ensures Matches(db, Delivery.Take(decode, st, Delivery.ClearGroup(gid)))
  {
    var removed := db.ClearGroupMessages(gid);
  }

  method JoinStep(db: MsgDb, decode: Subscription.Decoder, groups: set<i64>, request: Delivery.Request,
      ghost st: Delivery.State) returns (snapshot: seq<(i64, bytes)>, pushStart: Option<i64>)
    requires Matches(db, st) && st.groups == groups && Delivery.Enabled(st, Delivery.TakeSnapshot)
    requires st.lock.request == request
    ensures var after := Delivery.Take(decode, st, Delivery.TakeSnapshot);
            && Matches(db, after) && request.sid in after.sessions
            && after.sessions[request.sid].snapshot == snapshot && after.sessions[request.sid].push == pushStart
            && after.sessions[request.sid].sent == []
  {
    snapshot := Subscription.FetchNewestMessages(db, decode, groups, request.uid, request.after);
    pushStart := if snapshot == [] then None else Some(snapshot[|snapshot| - 1].0);
  }

  /** All of `send_message` under the read guard: the checks, the recipients, the store, the broadcast. */
  method SendMessage(db: MsgDb, c: Codec, d: Directory, p: Payload, ghost h: seq<Event>)
      returns (r: Result<i64, ApiError>, broadcast: Option<Subscription.Event>, queued: Option<i64>)
    requires db.Valid() && db.next <= ID_LIMIT && Lawful(c) && Holds(c, db.stored, db.next, h)
    modifies db
    ensures db.Valid()
    ensures match RouteOf(d, p)
            case Err(e) =>
              r == Err(e) && broadcast.None? && queued.None? && db.stored == old(db.stored) && db.next == old(db.next)
            case Ok(route) =>
              && r == Ok(old(db.next)) && queued == ToQueue(r.value, p)
              && Holds(c, db.stored, db.next, h + [Sent(r.value, Stamp(d, p))] + [Applied(r.value, Stamp(d, p))])
              && db.stored.log == old(db.stored.log)[
                   r.value := Entry(route.conversation, route.targets, c.put(Stamp(d, p)))]
              && broadcast == Some(Subscription.Chat(route.targets, r.value, c.put(Stamp(d, p))))
    ensures r == Err(Unauthorized) <==> Unknown(d, p)
    ensures r == Err(Forbidden) <==> !Unknown(d, p) && Barred(d, p)
    ensures r == Err(NotFound) <==> !Unknown(d, p) && Missing(d, p)
    ensures r.Ok? <==> !Unknown(d, p) && !Barred(d, p) && !Missing(d, p)
    ensures r.Ok? ==>
              && db.next == old(db.next) + 1
              && InboxesGain(old(db.stored.log), db.stored.log, r.value, d, p)
              && broadcast.Some? && broadcast.value.Chat? && broadcast.value.mid == r.value
              && (forall u :: u in broadcast.value.targets <==> Receives(d, p, u))
              && r.value in db.stored.log && Between(db.stored.log[r.value].conversation, p)
              && exists q :: StampedFrom(d, p, q) && c.get(db.stored.log[r.value].data) == Some(q)
                             && broadcast.value.data == db.stored.log[r.value].data
  {
    hide Holds, Receives, Unknown, Barred, Missing, StampedFrom, InboxesGain;
    RouteIs(d, p);
    if p.detail.Normal? && p.from !in d.users { return Err(Unauthorized), None, None; }
    var stamped := Stamp(d, p);
    var targets := [];
    match p.target {
      case ToUser(uid) =>
        if uid in d.users && p.from in d.users[uid].blocked { return Err(Forbidden), None, None; }
        if p.from in d.users && !d.users[p.from].frozen {
          if Notifies(p) && uid !in d.users { return Err(NotFound), None, None; }
        }
        targets := [p.from, uid];
      case ToGroup(gid) =>
        if gid !in d.groups { return Err(NotFound), None, None; }
        var group := d.groups[gid];
        if !group.kind.Public? && p.from !in group.members { return Err(Forbidden), None, None; }
        targets := Recipients(if group.kind.Public? then d.users.Keys else group.members);
    }
    var mid, event, q := InternalSendMessage(db, c, targets, stamped, h);
    ghost var route := RouteOf(d, p).value;
    assert (set u | u in targets) == route.targets;
    assert db.stored.log[mid] == Entry(route.conversation, route.targets, c.put(stamped));
    InboxGains(old(db.stored.log), mid, db.stored.log[mid], d, p);
    StampIsRight(d, p);
    return Ok(mid), Some(event), q;
  }

  method Recipients(uids: set<i64>) returns (s: seq<i64>)
    ensures (set u | u in s) == uids
  {
    IntOrder();
    s := Iterate<i64>(IntLess, uids);
  }

  // ---------- reacting and replying ----------

  /** What the reaction handlers make of a request, given the messages as stored. */
  function ReactionResult(d: Directory, stored: map<i64, Payload>, uid: i64, isAdmin: bool, mid: i64, action: Action,
      now: int)
      : Result<Payload, ApiError>
  {
    if mid !in stored then Err(NotFound)
    else if !CanReact(action, uid, isAdmin, stored[mid]) then Err(Forbidden)
    else
      var p := Payload(uid, now, ReactionTarget(uid, stored[mid]), Reaction(mid, action));
      match RouteOf(d, p)
      case Err(e) => Err(e)
      case Ok(_) => Ok(p)
  }

  predicate TakesPart(d: Directory, uid: i64, p: Payload) {
    match p.target
    case ToUser(to) => to == uid || p.from == uid
    case ToGroup(gid) => gid in d.groups && ContainsUser(d.groups[gid], uid)
  }

  function ReplyResult(d: Directory, stored: map<i64, Payload>, uid: i64, mid: i64, content: Content, now: int)
      : Result<Payload, ApiError>
  {
    if mid !in stored then Err(NotFound)
    else if stored[mid].detail.Reaction? || !TakesPart(d, uid, stored[mid]) then Err(Forbidden)
    else
      var p := Payload(uid, now, ReactionTarget(uid, stored[mid]), Reply(mid, content));
      match RouteOf(d, p)
      case Err(e) => Err(e)
      case Ok(_) => Ok(p)
  }

  /** Only messages with content can be reacted to: edited by their author alone, withdrawn by the author and by
      administrators, liked by anybody. */
  predicate MayReact(action: Action, uid: i64, isAdmin: bool, m: Payload) {
    && (m.detail.Normal? || m.detail.Reply?)
    && (action.Edit? ==> uid == m.from)
    && (action.Withdraw? ==> uid == m.from || isAdmin)
  }

  /** Who answers in a direct conversation addresses the other side. */
  predicate Addressed(t: Target, uid: i64, m: Payload) {
    match m.target
    case ToUser(to) => t == ToUser(if uid == to then m.from else to)
    case ToGroup(gid) => t == ToGroup(gid)
  }

  predicate Sendable(d: Directory, p: Payload) { !Unknown(d, p) && !Barred(d, p) && !Missing(d, p) }

  /** A reaction goes through exactly when its message is there, may be reacted to in this way, and the reaction
      itself may be sent; it is then what was asked for, to the right side. */
  lemma ReactionIs(d: Directory, stored: map<i64, Payload>, uid: i64, isAdmin: bool, mid: i64, action: Action, now: int)
    ensures var r := ReactionResult(d, stored, uid, isAdmin, mid, action, now);
            && (mid !in stored ==> r == Err(NotFound))
            && (mid in stored && !MayReact(action, uid, isAdmin, stored[mid]) ==> r == Err(Forbidden))
            && (mid in stored && MayReact(action, uid, isAdmin, stored[mid]) ==>
                  forall p: Payload :: p.from == uid && p.createdAt == now && p.detail == Reaction(mid, action)
                                       && Addressed(p.target, uid, stored[mid]) ==>
                    && (Sendable(d, p) <==> r == Ok(p))
                    && (Barred(d, p) <==> r == Err(Forbidden)) && (Missing(d, p) <==> r == Err(NotFound)))
  {
    if mid in stored {
      RouteIs(d, Payload(uid, now, ReactionTarget(uid, stored[mid]), Reaction(mid, action)));
    }
    hide RouteOf, Barred, Missing;
  }

  /** A reply needs a message with content in a conversation in which one takes part: as one of the two, as
      a member, or anybody in a public group. */
  predicate MayReply(d: Directory, uid: i64, m: Payload) {
    && (m.detail.Normal? || m.detail.Reply?)
    && match m.target
       case ToUser(to) => uid == to || uid == m.from
       case ToGroup(gid) => gid in d.groups && (d.groups[gid].kind.Public? || uid in d.groups[gid].members)
  }

  lemma ReplyIs(d: Directory, stored: map<i64, Payload>, uid: i64, mid: i64, content: Content, now: int)
    ensures var r := ReplyResult(d, stored, uid, mid, content, now);
            && (mid !in stored ==> r == Err(NotFound))
            && (mid in stored && !MayReply(d, uid, stored[mid]) ==> r == Err(Forbidden))
            && (mid in stored && MayReply(d, uid, stored[mid]) ==>
                  forall p: Payload :: p.from == uid && p.createdAt == now && p.detail == Reply(mid, content)
                                       && Addressed(p.target, uid, stored[mid]) ==>
                    && (Sendable(d, p) <==> r == Ok(p))
                    && (Barred(d, p) <==> r == Err(Forbidden)) && (Missing(d, p) <==> r == Err(NotFound)))
  {
    if mid in stored {
      RouteIs(d, Payload(uid, now, ReactionTarget(uid, stored[mid]), Reply(mid, content)));
    }
    hide RouteOf, Barred, Missing;
  }

  lemma StoredPayload(c: Codec, s: Stored, next: int, h: seq<Event>, mid: i64)
    requires Lawful(c) && Holds(c, s, next, h)
    ensures mid in s.log <==> mid in StoredOf(h)
    ensures mid in s.log ==> c.get(s.log[mid].data) == Some(StoredOf(h)[mid])
  {}

  method DoReaction(db: MsgDb, c: Codec, d: Directory, uid: i64, isAdmin: bool, mid: i64, action: Action, now: int,
      ghost h: seq<Event>) returns (r: Result<i64, ApiError>)
    requires db.Valid() && db.next <= ID_LIMIT && Lawful(c) && Holds(c, db.stored, db.next, h)
    modifies db
    ensures db.Valid()
    ensures match ReactionResult(d, StoredOf(h), uid, isAdmin, mid, action, now)
            case Err(e) => r == Err(e) && db.stored == old(db.stored)
            case Ok(p) =>
              && r == Ok(old(db.next)) && InboxesGain(old(db.stored.log), db.stored.log, r.value, d, p)
              && Holds(c, db.stored, db.next, h + [Sent(r.value, p)] + [Applied(r.value, p)])
  {
    StoredPayload(c, db.stored, db.next, h, mid);
    var data := db.Get(mid);
    if data.None? { return Err(NotFound); }
    var p := c.get(data.value);
    if p.None? { return Err(Internal); }
    if !CanReact(action, uid, isAdmin, p.value) { return Err(Forbidden); }
    var reaction := Payload(uid, now, ReactionTarget(uid, p.value), Reaction(mid, action));
    var broadcast, queued;
    r, broadcast, queued := SendMessage(db, c, d, reaction, h);
  }

  method ReplyTo(db: MsgDb, c: Codec, d: Directory, uid: i64, mid: i64, content: Content, now: int, ghost h: seq<Event>)
      returns (r: Result<i64, ApiError>)
    requires db.Valid() && db.next <= ID_LIMIT && Lawful(c) && Holds(c, db.stored, db.next, h)
    modifies db
    ensures db.Valid()
    ensures match ReplyResult(d, StoredOf(h), uid, mid, content, now)
            case Err(e) => r == Err(e) && db.stored == old(db.stored)
            case Ok(p) =>
              && r == Ok(old(db.next)) && InboxesGain(old(db.stored.log), db.stored.log, r.value, d, p)
              && Holds(c, db.stored, db.next, h + [Sent(r.value, p)] + [Applied(r.value, p)])
  {
    StoredPayload(c, db.stored, db.next, h, mid);
    var data := db.Get(mid);
    if data.None? { return Err(NotFound); }
    var p := c.get(data.value);
    if p.None? { return Err(Internal); }
    if p.value.detail.Reaction? || !TakesPart(d, uid, p.value) { return Err(Forbidden); }
    var reply := Payload(uid, now, ReactionTarget(uid, p.value), Reply(mid, content));
    var broadcast, queued;
    r, broadcast, queued := SendMessage(db, c, d, reply, h);
  }

  /** A reaction that goes through keeps the history checked, even if others come between its check and its storing:
      edits stay with their authors. */
  lemma ReactionsAreChecked(d: Directory, h: seq<Event>, n: nat, uid: i64, isAdmin: bool, mid: i64, action: Action,
      now: int, id: i64)
    requires Checked(h) && n <= |h| && ReactionResult(d, StoredOf(h[..n]), uid, isAdmin, mid, action, now).Ok?
    ensures var p := ReactionResult(d, StoredOf(h[..n]), uid, isAdmin, mid, action, now).value;
            Checked(h + [Sent(id, p)]) && Checked(h + [Sent(id, p)] + [Applied(id, p)])
  {
    var p := ReactionResult(d, StoredOf(h[..n]), uid, isAdmin, mid, action, now).value;
    assert PassedAt(h, n, p);
    CheckedSnoc(h, Sent(id, p), n);
    CheckedSnoc(h + [Sent(id, p)], Applied(id, p), 0);
  }

  /** The race in which an edit is lost, through the handlers themselves: a message is stored, its author edits it,
      and then the merged view takes the message in. */
  method EditWhileSending(db: MsgDb, c: Codec, d: Directory, targets: seq<i64>, p: Payload, content: Content, now: int,
      ghost h: seq<Event>) returns (mid: i64, r: Result<i64, ApiError>)
    requires db.Valid() && db.next + 1 <= ID_LIMIT && Lawful(c) && Holds(c, db.stored, db.next, h)
    requires !p.detail.Reaction? && (p.target.ToUser? ==> (set u | u in targets) == {p.from, p.target.uid})
    requires ReactionResult(d, map[db.next := p], p.from, false, db.next, Edit(content), now).Ok?
    modifies db
    ensures db.Valid() && mid == old(db.next) && r == Ok(mid + 1)
    ensures mid in db.stored.merged && db.stored.merged[mid] ==
            c.putMerged(Payloads.Merged(p.from, p.target, ContentOf(p), p.createdAt))
  {
    hide Holds, Pending;
    mid := StoreMessage(db, c, targets, p, h);
    SameResult(d, h, mid, p, Edit(content), now);
    ghost var edit := ReactionResult(d, map[mid := p], p.from, false, mid, Edit(content), now).value;
    ghost var sent := h + [Sent(mid, p)];
    r := DoReaction(db, c, d, p.from, false, mid, Edit(content), now, sent);
    ghost var edited := sent + [Sent(mid + 1, edit)] + [Applied(mid + 1, edit)];
    StaysPending(sent, mid, p, Sent(mid + 1, edit));
    StaysPending(sent + [Sent(mid + 1, edit)], mid, p, Applied(mid + 1, edit));
    var queued := UpdateMerged(db, c, mid, p, edited);
    StepSnoc(edited, Applied(mid, p));
    HoldsView(c, db.stored, db.next, edited + [Applied(mid, p)]);
  }

  lemma StaysPending(h: seq<Event>, mid: i64, p: Payload, e: Event)
    requires Pending(h, mid, p) && (e.Applied? ==> e.mid != mid)
    ensures Pending(h + [e], mid, p)
  {}

  lemma SameResult(d: Directory, h: seq<Event>, mid: i64, p: Payload, action: Action, now: int)
    ensures ReactionResult(d, StoredOf(h + [Sent(mid, p)]), p.from, false, mid, action, now) ==
            ReactionResult(d, map[mid := p], p.from, false, mid, action, now)
  {
    StepSnoc(h, Sent(mid, p));
  }

  function AsSet(mids: seq<i64>): (s: set<i64>)
    ensures forall m :: m in s <==> m in mids
  {
    set m | m in mids
  }

  /** Clearing a group removes its messages from the log and the merged view alike. */
  method ClearGroup(db: MsgDb, c: Codec, gid: i64, ghost h: seq<Event>) returns (removed: seq<i64>)
    requires db.Valid() && Holds(c, db.stored, db.next, h)
    modifies db`tree, db`table, db`stored
    ensures db.Valid() && Holds(c, db.stored, db.next, h + [Cleared(AsSet(removed))])
    ensures forall m :: m in removed <==> m in StoredOf(h) && StoredOf(h)[m].target == ToGroup(gid)
  {
    removed := db.ClearGroupMessages(gid);
    ClearHolds(c, old(db.stored), db.next, h, gid, removed);
  }

  lemma ClearHolds(c: Codec, s: Stored, next: int, h: seq<Event>, gid: i64, removed: seq<i64>)
    requires Holds(c, s, next, h) && removed == Sorted(History(s.log, InGroup(gid)))
    ensures Holds(c, Clear(s, gid), next, h + [Cleared(AsSet(removed))])
    ensures forall m :: m in removed <==> m in StoredOf(h) && StoredOf(h)[m].target == ToGroup(gid)
  {
    hide Holds, StoredOf, ViewOf;
    GroupMessages(c, s, next, h, gid);
    var gone := History(s.log, InGroup(gid));
    assert AsSet(removed) == gone;
    RemoveHolds(c, s, next, h, gone);
  }

  lemma GroupMessages(c: Codec, s: Stored, next: int, h: seq<Event>, gid: i64)
    requires Holds(c, s, next, h)
    ensures forall m :: m in History(s.log, InGroup(gid)) <==> m in StoredOf(h) && StoredOf(h)[m].target == ToGroup(gid)
  {
    hide InSequence, Encodes, ViewOf, StoredOf;
    assert forall m :: m in s.log <==> m in StoredOf(h);
  }

  lemma RemoveHolds(c: Codec, s: Stored, next: int, h: seq<Event>, gone: set<i64>)
    requires Holds(c, s, next, h)
    ensures Holds(c, s.(log := s.log - gone, merged := s.merged - gone), next, h + [Cleared(gone)])
  {
    StepSnoc(h, Cleared(gone));
    InSequenceSnoc(h, Cleared(gone));
    hide InSequence, ViewOf, StoredOf;
  }
}
