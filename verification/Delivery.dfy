/** All interleavings of senders, group changes and event subscribers: the cache
    lock, the id sequence, the store and the broadcast channel as one machine. */
module Delivery {
  import opened Bytes
  import opened Results
  import opened Selection
  import opened Ordered
  import opened MessageLog
  import opened Subscription

  // ---------- the machine ----------

  /** A sender holds the read guard from its first to its last step. */
  datatype Phase = Waiting | Numbered(mid: i64) | Committed(mid: i64)
  datatype Sender = Sender(entry: Entry, phase: Phase)

  datatype Request = Request(sid: nat, uid: i64, after: Option<i64>)

  /** Who holds the write guard, and how far `events` has come under it. */
  datatype Lock = Free | Entered(request: Request) | Listening(request: Request, join: nat)

  /** How things stood when a session took its snapshot. */
  datatype Moment = Moment(log: MessageLog.Log, groups: set<i64>, cleared: set<i64>, next: int, logs: nat)

  /** `join` and `cursor`: the part of the broadcast channel the session has consumed. */
  datatype Session = Session(request: Request, join: nat, cursor: nat, push: Option<i64>,
    snapshot: seq<(i64, bytes)>, sent: seq<Item>, alive: bool, at: Moment)

  /** `cleared`: messages removed with their group. `logs`: the ids of the user log. */
  datatype State = State(
    next: int, log: MessageLog.Log, cleared: set<i64>, groups: set<i64>, logs: seq<int>,
    senders: map<nat, Sender>, lock: Lock, broadcast: seq<Event>, sessions: map<nat, Session>)

  datatype Step =
    | StartSend(tid: nat, entry: Entry)
    | TakeNumber(tid: nat)
    | Commit(tid: nat)
    | Announce(tid: nat)
    | Fail(tid: nat)
    | Notice
    | LogUser(logId: int)
    | ClearGroup(gid: i64)
    | ChangeGroups(groups: set<i64>)
    | Enter(request: Request)
    | Listen
    | TakeSnapshot
    | Deliver(sid: nat)
    | Stop(sid: nat)

  /** Nobody holds a guard, so the write guard can be taken. */
  ghost predicate Quiet(st: State) { st.lock.Free? && st.senders == map[] }

  ghost predicate Enabled(st: State, step: Step) {
    match step
    case StartSend(tid, entry) => st.lock.Free? && tid !in st.senders
    case TakeNumber(tid) => tid in st.senders && st.senders[tid].phase.Waiting? && 1 <= st.next < I64_MAX
    case Commit(tid) => tid in st.senders && st.senders[tid].phase.Numbered?
    case Announce(tid) => tid in st.senders && st.senders[tid].phase.Committed?
    case Fail(tid) => tid in st.senders
    case Notice => true
    case LogUser(logId) => Quiet(st) && forall i :: 0 <= i < |st.logs| ==> st.logs[i] < logId
    case ClearGroup(gid) => Quiet(st)
    case ChangeGroups(groups) => Quiet(st)
    case Enter(request) => Quiet(st) && request.sid !in st.sessions
    case Listen => st.lock.Entered?
    case TakeSnapshot => st.lock.Listening?
    case Deliver(sid) => sid in st.sessions && st.sessions[sid].alive && st.sessions[sid].cursor < |st.broadcast|
    case Stop(sid) => sid in st.sessions
  }

  ghost function Take(decode: Decoder, st: State, step: Step): State
    requires Enabled(st, step)
  {
    match step
    case StartSend(tid, entry) => st.(senders := st.senders[tid := Sender(entry, Waiting)])
    case TakeNumber(tid) =>
      st.(senders := st.senders[tid := st.senders[tid].(phase := Numbered(st.next))], next := st.next + 1)
    case Commit(tid) =>
      var Sender(entry, phase) := st.senders[tid];
      st.(senders := st.senders[tid := Sender(entry, Committed(phase.mid))], log := st.log[phase.mid := entry])
    case Announce(tid) =>
      var Sender(entry, phase) := st.senders[tid];
      st.(senders := st.senders - {tid}, broadcast := st.broadcast + [Chat(entry.targets, phase.mid, entry.data)])
    case Fail(tid) => st.(senders := st.senders - {tid})
    case Notice => st.(broadcast := st.broadcast + [Other])
    case LogUser(logId) => st.(logs := st.logs + [logId], broadcast := st.broadcast + [UserLog(logId)])
    case ClearGroup(gid) =>
      var gone := History(st.log, InGroup(gid));
      st.(log := st.log - gone, cleared := st.cleared + gone)
    case ChangeGroups(groups) => st.(groups := groups)
    case Enter(request) => st.(lock := Entered(request))
    case Listen => st.(lock := Listening(st.lock.request, |st.broadcast|))
    case TakeSnapshot =>
      var Listening(request, join) := st.lock;
      st.(lock := Free, sessions := st.sessions[request.sid := Open(decode, st, request, join)])
    case Deliver(sid) => st.(sessions := st.sessions[sid := Receive(st.sessions[sid], st.broadcast)])
    case Stop(sid) => st.(sessions := st.sessions[sid := st.sessions[sid].(alive := false)])
  }

  ghost function Open(decode: Decoder, st: State, request: Request, join: nat): Session {
    var snapshot := Newest(decode, st.log, st.groups, request.uid, request.after);
    Session(request, join, join, PushStart(snapshot), snapshot, [], true,
            Moment(st.log, st.groups, st.cleared, st.next, |st.logs|))
  }

  /** The `push_start_id` that a session begins with. */
  function PushStart(snapshot: seq<(i64, bytes)>): Option<i64> {
    if snapshot == [] then None else Some(snapshot[|snapshot| - 1].0)
  }

  /** A receiver that has fallen more than the channel's capacity behind stops. */
  ghost function Receive(s: Session, broadcast: seq<Event>): Session
    requires s.cursor < |broadcast|
  {
    if |broadcast| - s.cursor > CHANNEL_CAPACITY then s.(alive := false) else
      var (items, push) := Relay(s.request.uid, s.push, broadcast[s.cursor]);
      s.(cursor := s.cursor + 1, push := push, sent := s.sent + items)
  }

  /** A server that has just started on an existing store. */
  ghost predicate Fresh(st: State) {
    && st.senders == map[] && st.lock.Free? && st.broadcast == [] && st.sessions == map[]
    && (forall m :: m in st.log || m in st.cleared ==> 1 <= m < st.next)
  }

  ghost function Run(decode: Decoder, start: State, steps: seq<Step>): State {
    if steps == [] then start else
      var st := Run(decode, start, steps[..|steps| - 1]);
      var step := steps[|steps| - 1];
      if Enabled(st, step) then Take(decode, st, step) else st
  }

  lemma RunSnoc(decode: Decoder, st: State, steps: seq<Step>, step: Step)
    ensures Run(decode, st, steps + [step]) ==
              var before := Run(decode, st, steps); if Enabled(before, step) then Take(decode, before, step) else before
  {
    assert (steps + [step])[..|steps|] == steps;
  }

  lemma RunOne(decode: Decoder, st: State, step: Step)
    ensures Run(decode, st, [step]) == if Enabled(st, step) then Take(decode, st, step) else st
  {
    assert [] + [step] == [step];
    RunSnoc(decode, st, [], step);
  }

  /** One sender from beginning to end. */
  ghost function WholeSend(tid: nat, entry: Entry): seq<Step> {
    [StartSend(tid, entry)] + [TakeNumber(tid)] + [Commit(tid)] + [Announce(tid)]
  }

  /** The first three steps of a sender that nobody holds up. */
  lemma SenderSteps(decode: Decoder, st: State, tid: nat, entry: Entry)
    requires st.lock.Free? && tid !in st.senders && 1 <= st.next < I64_MAX
    ensures var s1 := st.(senders := st.senders[tid := Sender(entry, Waiting)]);
            var s2 := st.(senders := st.senders[tid := Sender(entry, Numbered(st.next))], next := st.next + 1);
            && Enabled(st, StartSend(tid, entry)) && Take(decode, st, StartSend(tid, entry)) == s1
            && Enabled(s1, TakeNumber(tid)) && Take(decode, s1, TakeNumber(tid)) == s2
            && Enabled(s2, Commit(tid)) && Take(decode, s2, Commit(tid)) == CommittedBy(st, tid, entry)
  {
    hide Open, Receive;
    PutTwice(st.senders, tid, Sender(entry, Waiting), Sender(entry, Numbered(st.next)));
    PutTwice(st.senders, tid, Sender(entry, Numbered(st.next)), Sender(entry, Committed(st.next)));
  }

  lemma PutTwice(senders: map<nat, Sender>, tid: nat, first: Sender, second: Sender)
    ensures senders[tid := first][tid := second] == senders[tid := second]
  {}

  ghost function CommittedBy(st: State, tid: nat, entry: Entry): State
    requires 1 <= st.next < I64_MAX
  {
    st.(senders := st.senders[tid := Sender(entry, Committed(st.next))], next := st.next + 1,
        log := st.log[st.next := entry])
  }

  lemma SendCommitted(decode: Decoder, st: State, tid: nat, entry: Entry)
    requires st.lock.Free? && tid !in st.senders && 1 <= st.next < I64_MAX
    ensures Run(decode, st, [StartSend(tid, entry)] + [TakeNumber(tid)] + [Commit(tid)]) == CommittedBy(st, tid, entry)
  {
    hide *;
    SenderSteps(decode, st, tid, entry);
    RunOne(decode, st, StartSend(tid, entry));
    RunSnoc(decode, st, [StartSend(tid, entry)], TakeNumber(tid));
    RunSnoc(decode, st, [StartSend(tid, entry)] + [TakeNumber(tid)], Commit(tid));
  }

  lemma WholeSendDone(decode: Decoder, st: State, tid: nat, entry: Entry)
    requires st.lock.Free? && tid !in st.senders && 1 <= st.next < I64_MAX
    ensures Run(decode, st, WholeSend(tid, entry)) ==
            st.(next := st.next + 1, log := st.log[st.next := entry],
                broadcast := st.broadcast + [Chat(entry.targets, st.next, entry.data)])
  {
    hide Run, Open, Receive;
    SendCommitted(decode, st, tid, entry);
    var committed := CommittedBy(st, tid, entry);
    RunSnoc(decode, st, [StartSend(tid, entry)] + [TakeNumber(tid)] + [Commit(tid)], Announce(tid));
    assert Enabled(committed, Announce(tid)) && committed.senders - {tid} == st.senders;
  }

  // ---------- what every reachable state satisfies ----------

  ghost predicate HasMid(s: Sender) { !s.phase.Waiting? }

  ghost predicate IsChat(broadcast: seq<Event>, p: int) { 0 <= p < |broadcast| && broadcast[p].Chat? }

  /** All ids in use lie below the next one. */
  ghost predicate Numbers(st: State) {
    && (forall m :: m in st.log || m in st.cleared ==> 1 <= m < st.next)
    && (forall p :: IsChat(st.broadcast, p) ==> st.broadcast[p].mid < st.next)
    && (forall t :: t in st.senders && HasMid(st.senders[t]) ==> 1 <= st.senders[t].phase.mid < st.next)
  }

  /** The message of an event, as it was stored when it was sent. */
  ghost predicate StoredAs(log: MessageLog.Log, cleared: set<i64>, event: Event)
    requires event.Chat?
  {
    && (event.mid in cleared || event.mid in log)
    && (event.mid in log ==> log[event.mid].targets == event.targets && log[event.mid].data == event.data)
  }

  ghost predicate Chats(st: State) {
    && (forall p :: IsChat(st.broadcast, p) ==> StoredAs(st.log, st.cleared, st.broadcast[p]))
    && (forall p, q :: IsChat(st.broadcast, p) && IsChat(st.broadcast, q) && p != q ==>
      st.broadcast[p].mid != st.broadcast[q].mid)
  }

  ghost predicate InFlight(st: State) {
    && (forall t :: t in st.senders && st.senders[t].phase.Numbered? ==>
          st.senders[t].phase.mid !in st.log && st.senders[t].phase.mid !in st.cleared)
    && (forall t :: t in st.senders && st.senders[t].phase.Committed? ==>
          st.senders[t].phase.mid in st.log && st.log[st.senders[t].phase.mid] == st.senders[t].entry)
    && (forall t, p :: t in st.senders && HasMid(st.senders[t]) && IsChat(st.broadcast, p) ==>
          st.senders[t].phase.mid != st.broadcast[p].mid)
    && (forall t, u :: t in st.senders && u in st.senders && t != u
                       && HasMid(st.senders[t]) && HasMid(st.senders[u]) ==>
          st.senders[t].phase.mid != st.senders[u].phase.mid)
  }

  ghost predicate Locked(st: State) {
    && (!st.lock.Free? ==> st.senders == map[] && st.lock.request.sid !in st.sessions)
    && (st.lock.Listening? ==>
          && st.lock.join <= |st.broadcast|
          && forall p :: st.lock.join <= p < |st.broadcast| ==> st.broadcast[p].Other?)
  }

  /** The session has consumed a window of the channel and passed on all of it that concerns its user. */
  ghost predicate Window(s: Session, broadcast: seq<Event>) {
    && s.join <= s.cursor <= |broadcast|
    && s.sent == Select(Wanted(s.request.uid), broadcast[s.join..s.cursor])
  }

  /** Whatever is broadcast after the session joined lies above all it had then. */
  ghost predicate Fence(s: Session, st: State) {
    && (s.push.Some? ==> s.push.value < s.at.next)
    && s.at.next <= st.next
    && (forall p :: s.join <= p && IsChat(st.broadcast, p) ==> st.broadcast[p].mid >= s.at.next)
    && (forall t :: t in st.senders && HasMid(st.senders[t]) ==> st.senders[t].phase.mid >= s.at.next)
  }

  /** The snapshot, and what was broadcast before it: all of it was in the store then. */
  ghost predicate Start(decode: Decoder, s: Session, broadcast: seq<Event>) {
    && s.snapshot == Newest(decode, s.at.log, s.at.groups, s.request.uid, s.request.after)
    && (forall m :: m in s.at.log ==> 1 <= m < s.at.next)
    && (forall p :: p < s.join && IsChat(broadcast, p) ==>
      StoredAs(s.at.log, s.at.cleared, broadcast[p]) && broadcast[p].mid < s.at.next)
  }

  function LogOf(event: Event): Option<int> { if event.UserLog? then Some(event.logId) else None }

  /** The user-log events since the session joined are the rows added since then. */
  ghost predicate Logs(s: Session, broadcast: seq<Event>, logs: seq<int>) {
    && s.join <= |broadcast| && s.at.logs <= |logs|
    && Select(LogOf, broadcast[s.join..]) == logs[s.at.logs..]
  }

  ghost predicate SessionOk(decode: Decoder, s: Session, st: State) {
    && Window(s, st.broadcast) && Fence(s, st) && Start(decode, s, st.broadcast) && Logs(s, st.broadcast, st.logs)
  }

  ghost predicate Core(st: State) {
    Numbers(st) && Chats(st) && InFlight(st) && Locked(st)
  }

  ghost predicate Inv(decode: Decoder, st: State) {
    Core(st) && forall sid :: sid in st.sessions ==> SessionOk(decode, st.sessions[sid], st)
  }

  // ---------- every step keeps it ----------

  lemma NumberKeepsOrder(decode: Decoder, st: State, step: Step)
    requires Core(st) && Enabled(st, step)
    requires step.StartSend? || step.TakeNumber? || step.Fail?
    ensures var after := Take(decode, st, step); Numbers(after) && Chats(after) && Locked(after)
  {
    hide InFlight;
  }

  lemma NumberKeepsInFlight(decode: Decoder, st: State, step: Step)
    requires Core(st) && Enabled(st, step)
    requires step.StartSend? || step.TakeNumber? || step.Fail?
    ensures InFlight(Take(decode, st, step))
  {
    hide Chats, Locked;
  }

  lemma CommitKeepsOrder(decode: Decoder, st: State, tid: nat)
    requires Core(st) && Enabled(st, Commit(tid))
    ensures var after := Take(decode, st, Commit(tid)); Numbers(after) && Chats(after) && Locked(after)
  {}

  lemma CommitKeepsInFlight(decode: Decoder, st: State, tid: nat)
    requires Core(st) && Enabled(st, Commit(tid))
    ensures InFlight(Take(decode, st, Commit(tid)))
  {
    hide Chats, Locked, Numbers;
  }

  lemma AnnounceKeepsCore(decode: Decoder, st: State, tid: nat)
    requires Core(st) && Enabled(st, Announce(tid))
    ensures Core(Take(decode, st, Announce(tid)))
  {
    hide Open, Receive;
  }

  lemma NoticeKeepsCore(decode: Decoder, st: State)
    requires Core(st)
    ensures Core(Take(decode, st, Notice))
  {
    hide Open, Receive;
  }

  lemma LogUserKeepsCore(decode: Decoder, st: State, logId: int)
    requires Core(st) && Enabled(st, LogUser(logId))
    ensures Core(Take(decode, st, LogUser(logId)))
  {}

  lemma GroupStepKeepsCore(decode: Decoder, st: State, step: Step)
    requires Core(st) && Enabled(st, step) && (step.ClearGroup? || step.ChangeGroups?)
    ensures Core(Take(decode, st, step))
  {}

  lemma SessionStepKeepsCore(decode: Decoder, st: State, step: Step)
    requires Core(st) && Enabled(st, step)
    requires step.Enter? || step.Listen? || step.TakeSnapshot? || step.Deliver? || step.Stop?
    ensures Core(Take(decode, st, step))
  {
    hide Numbers, Chats, InFlight, Locked, Open, Receive;
    SameNumbers(st, Take(decode, st, step));
    SessionStepKeepsLock(decode, st, step);
  }

  lemma SameNumbers(st: State, after: State)
    requires Numbers(st) && Chats(st) && InFlight(st)
    requires after.next == st.next && after.log == st.log && after.cleared == st.cleared
    requires after.senders == st.senders && after.broadcast == st.broadcast
    ensures Numbers(after) && Chats(after) && InFlight(after)
  {}

  lemma SessionStepKeepsLock(decode: Decoder, st: State, step: Step)
    requires Locked(st) && Enabled(st, step)
    requires step.Enter? || step.Listen? || step.TakeSnapshot? || step.Deliver? || step.Stop?
    ensures Locked(Take(decode, st, step))
  {
    hide Open, Receive;
  }

  lemma StepKeepsCore(decode: Decoder, st: State, step: Step)
    requires Core(st) && Enabled(st, step)
    ensures Core(Take(decode, st, step))
  {
    match step {
      case Commit(tid) => CommitKeepsOrder(decode, st, tid); CommitKeepsInFlight(decode, st, tid);
      case Announce(tid) => AnnounceKeepsCore(decode, st, tid);
      case Notice => NoticeKeepsCore(decode, st);
      case LogUser(logId) => LogUserKeepsCore(decode, st, logId);
      case ClearGroup(_) => GroupStepKeepsCore(decode, st, step);
      case ChangeGroups(_) => GroupStepKeepsCore(decode, st, step);
      case _ =>
        if step.StartSend? || step.TakeNumber? || step.Fail? {
          NumberKeepsOrder(decode, st, step);
          NumberKeepsInFlight(decode, st, step);
        } else {
          SessionStepKeepsCore(decode, st, step);
        }
    }
  }

  /** No step of anybody else breaks what a session relies on. */
  lemma SilentStepKeepsSession(decode: Decoder, st: State, step: Step, s: Session)
    requires Core(st) && SessionOk(decode, s, st) && Enabled(st, step)
    requires !step.Announce? && !step.Notice? && !step.LogUser?
    ensures SessionOk(decode, s, Take(decode, st, step))
  {}

  lemma WindowExtends(s: Session, broadcast: seq<Event>, event: Event)
    requires Window(s, broadcast)
    ensures Window(s, broadcast + [event])
  {
    assert (broadcast + [event])[s.join..s.cursor] == broadcast[s.join..s.cursor];
  }

  lemma LogsExtend(s: Session, broadcast: seq<Event>, logs: seq<int>, event: Event)
    requires Logs(s, broadcast, logs)
    ensures Logs(s, broadcast + [event], if event.UserLog? then logs + [event.logId] else logs)
  {
    assert (broadcast + [event])[s.join..] == broadcast[s.join..] + [event];
    SelectOne(LogOf, broadcast[s.join..], event);
  }

  lemma StartExtends(decode: Decoder, s: Session, broadcast: seq<Event>, event: Event)
    requires Start(decode, s, broadcast) && s.join <= |broadcast|
    ensures Start(decode, s, broadcast + [event])
  {
    hide Newest, StoredAs;
    forall p | p < s.join && IsChat(broadcast + [event], p) ensures (broadcast + [event])[p] == broadcast[p] {}
  }

  lemma FenceExtends(s: Session, st: State, after: State, event: Event)
    requires Fence(s, st) && after.broadcast == st.broadcast + [event] && after.next == st.next
    requires event.Chat? ==> event.mid >= s.at.next
    requires forall t :: t in after.senders ==> t in st.senders && after.senders[t] == st.senders[t]
    ensures Fence(s, after)
  {}

  lemma AnnounceKeepsSession(decode: Decoder, st: State, tid: nat, s: Session)
    requires Core(st) && SessionOk(decode, s, st) && Enabled(st, Announce(tid))
    ensures SessionOk(decode, s, Take(decode, st, Announce(tid)))
  {
    var Sender(entry, phase) := st.senders[tid];
    assert s.join <= |st.broadcast| && phase.mid >= s.at.next;
    hide Window, Logs, Start, Fence, Core;
    var event := Chat(entry.targets, phase.mid, entry.data);
    WindowExtends(s, st.broadcast, event);
    LogsExtend(s, st.broadcast, st.logs, event);
    StartExtends(decode, s, st.broadcast, event);
    FenceExtends(s, st, Take(decode, st, Announce(tid)), event);
  }

  lemma EventKeepsSession(decode: Decoder, st: State, step: Step, s: Session)
    requires Core(st) && SessionOk(decode, s, st) && Enabled(st, step) && (step.Notice? || step.LogUser?)
    ensures SessionOk(decode, s, Take(decode, st, step))
  {
    assert s.join <= |st.broadcast|;
    hide Window, Logs, Start, Fence, Core;
    var event := if step.Notice? then Other else UserLog(step.logId);
    WindowExtends(s, st.broadcast, event);
    LogsExtend(s, st.broadcast, st.logs, event);
    StartExtends(decode, s, st.broadcast, event);
    FenceExtends(s, st, Take(decode, st, step), event);
  }

  lemma StepKeepsSession(decode: Decoder, st: State, step: Step, s: Session)
    requires Core(st) && SessionOk(decode, s, st) && Enabled(st, step)
    ensures SessionOk(decode, s, Take(decode, st, step))
  {
    hide SessionOk, Core;
    match step {
      case Announce(tid) => AnnounceKeepsSession(decode, st, tid, s);
      case Notice => EventKeepsSession(decode, st, step, s);
      case LogUser(_) => EventKeepsSession(decode, st, step, s);
      case _ => SilentStepKeepsSession(decode, st, step, s);
    }
  }

  /** A new session satisfies it: nobody could be sending while it joined. */
  lemma OpenOk(decode: Decoder, st: State)
    requires Core(st) && st.lock.Listening?
    ensures SessionOk(decode, Open(decode, st, st.lock.request, st.lock.join), st)
  {
    var Listening(request, join) := st.lock;
    NewestBelow(decode, st, request.uid, request.after);
    NoLogs(st.broadcast[join..]);
  }

  lemma {:induction false} NoLogs(events: seq<Event>)
    requires forall p :: 0 <= p < |events| ==> events[p].Other?
    ensures Select(LogOf, events) == []
  {
    if events != [] { NoLogs(events[1..]); }
  }

  lemma NewestBelow(decode: Decoder, st: State, uid: i64, after: Option<i64>)
    requires Core(st)
    ensures forall i :: 0 <= i < |Newest(decode, st.log, st.groups, uid, after)| ==>
              Newest(decode, st.log, st.groups, uid, after)[i].0 < st.next
  {
    var newest := Newest(decode, st.log, st.groups, uid, after);
    NewestMembers(decode, st.log, st.groups, uid, after);
    forall i | 0 <= i < |newest| ensures newest[i].0 < st.next {
      assert (newest[i].0, newest[i].1) in newest;
    }
  }

  lemma RelayIsWanted(uid: i64, push: Option<i64>, event: Event)
    requires push.Some? && event.Chat? ==> event.mid > push.value
    ensures Relay(uid, push, event).0 == if Wanted(uid)(event).Some? then [Wanted(uid)(event).value] else []
  {}

  lemma ReceiveWindow(s: Session, broadcast: seq<Event>)
    requires Window(s, broadcast) && s.cursor < |broadcast|
    requires s.push.Some? && IsChat(broadcast, s.cursor) ==> broadcast[s.cursor].mid > s.push.value
    ensures Window(Receive(s, broadcast), broadcast)
  {
    hide Select;
    var event := broadcast[s.cursor];
    assert broadcast[s.join..s.cursor + 1] == broadcast[s.join..s.cursor] + [event];
    SelectOne(Wanted(s.request.uid), broadcast[s.join..s.cursor], event);
    RelayIsWanted(s.request.uid, s.push, event);
    assert s.sent + [] == s.sent;
  }

  lemma ReceiveFence(s: Session, st: State)
    requires Fence(s, st) && s.cursor < |st.broadcast|
    ensures Fence(Receive(s, st.broadcast), st)
  {}

  lemma ReceiveOk(decode: Decoder, st: State, s: Session)
    requires SessionOk(decode, s, st) && s.cursor < |st.broadcast|
    ensures SessionOk(decode, Receive(s, st.broadcast), st)
  {
    ReceivedAbove(s, st);
    hide Window, Fence;
    ReceiveWindow(s, st.broadcast);
    ReceiveFence(s, st);
  }

  /** A session goes on exactly while at most 128 events wait for it. */
  lemma StopsWhenLagging(s: Session, broadcast: seq<Event>)
    requires s.cursor < |broadcast| && s.alive
    ensures Receive(s, broadcast).alive <==> |broadcast| - s.cursor <= 128
    ensures !Receive(s, broadcast).alive ==> Receive(s, broadcast) == s.(alive := false)
  {}

  lemma ReceivedAbove(s: Session, st: State)
    requires Fence(s, st) && Window(s, st.broadcast) && s.cursor < |st.broadcast|
    ensures s.push.Some? && IsChat(st.broadcast, s.cursor) ==> st.broadcast[s.cursor].mid > s.push.value
  {}

  /** What a session relies on is only the channel, the senders, the ids and the user log. */
  lemma SameSurroundings(decode: Decoder, s: Session, st: State, after: State)
    requires SessionOk(decode, s, st)
    requires after.broadcast == st.broadcast && after.senders == st.senders && after.next == st.next
          && after.logs == st.logs
    ensures SessionOk(decode, s, after) && SessionOk(decode, s.(alive := false), after)
  {}

  lemma SessionsKept(decode: Decoder, st: State, step: Step, sid: nat)
    requires Inv(decode, st) && Enabled(st, step)
    requires sid in Take(decode, st, step).sessions
    ensures SessionOk(decode, Take(decode, st, step).sessions[sid], Take(decode, st, step))
  {
    hide SessionOk, Core, Open, Receive;
    var after := Take(decode, st, step);
    if step.TakeSnapshot? && sid == st.lock.request.sid {
      OpenOk(decode, st);
      SameSurroundings(decode, after.sessions[sid], st, after);
    } else if step.Deliver? && sid == step.sid {
      ReceiveOk(decode, st, st.sessions[sid]);
      SameSurroundings(decode, after.sessions[sid], st, after);
    } else if step.Stop? && sid == step.sid {
      SameSurroundings(decode, st.sessions[sid], st, after);
    } else {
      StepKeepsSession(decode, st, step, st.sessions[sid]);
    }
  }

  lemma StepKeeps(decode: Decoder, st: State, step: Step)
    requires Inv(decode, st) && Enabled(st, step)
    ensures Inv(decode, Take(decode, st, step))
  {
    hide SessionOk, Core;
    StepKeepsCore(decode, st, step);
    forall sid | sid in Take(decode, st, step).sessions
      ensures SessionOk(decode, Take(decode, st, step).sessions[sid], Take(decode, st, step))
    {
      SessionsKept(decode, st, step, sid);
    }
  }

  lemma {:induction false} RunKeeps(decode: Decoder, start: State, steps: seq<Step>)
    requires Inv(decode, start)
    ensures Inv(decode, Run(decode, start, steps))
  {
    if steps != [] {
      RunKeeps(decode, start, steps[..|steps| - 1]);
      var st := Run(decode, start, steps[..|steps| - 1]);
      if Enabled(st, steps[|steps| - 1]) { StepKeeps(decode, st, steps[|steps| - 1]); }
    }
  }

  lemma FreshInv(decode: Decoder, start: State)
    requires Fresh(start)
    ensures Inv(decode, start)
  {}

  // ---------- what a session receives ----------

  /** What the session has passed on is all that was broadcast for its user since it
      joined, up to where it has read, in broadcast order: `push_start_id` drops nothing. */
  lemma LiveIsExact(decode: Decoder, start: State, steps: seq<Step>, sid: nat)
    requires Fresh(start) && sid in Run(decode, start, steps).sessions
    ensures var st := Run(decode, start, steps);
            var s := st.sessions[sid];
            && s.join <= s.cursor <= |st.broadcast|
            && s.sent == Select(Wanted(s.request.uid), st.broadcast[s.join..s.cursor])
  {
    FreshInv(decode, start);
    RunKeeps(decode, start, steps);
  }

  /** The loop of a session, run over that part of the channel, sends just this. */
  lemma SentIsRelayed(decode: Decoder, start: State, steps: seq<Step>, sid: nat)
    requires Fresh(start) && sid in Run(decode, start, steps).sessions
    ensures var st := Run(decode, start, steps);
            var s := st.sessions[sid];
            && s.join <= s.cursor <= |st.broadcast|
            && s.sent == RelayAll(s.request.uid, PushStart(s.snapshot), st.broadcast[s.join..s.cursor]).0
  {
    hide *;
    FreshInv(decode, start);
    RunKeeps(decode, start, steps);
    SessionIsOk(decode, Run(decode, start, steps), sid);
    WindowIsRelayed(decode, Run(decode, start, steps), Run(decode, start, steps).sessions[sid]);
  }

  lemma SessionIsOk(decode: Decoder, st: State, sid: nat)
    requires Inv(decode, st) && sid in st.sessions
    ensures SessionOk(decode, st.sessions[sid], st)
  {
    hide Core, SessionOk;
  }

  lemma WindowIsRelayed(decode: Decoder, st: State, s: Session)
    requires SessionOk(decode, s, st)
    ensures s.join <= s.cursor <= |st.broadcast|
    ensures s.sent == RelayAll(s.request.uid, PushStart(s.snapshot), st.broadcast[s.join..s.cursor]).0
  {
    hide Select, RelayAll, StartsAbove, Start, Logs, Newest, AscendingRows;
    var window, push := st.broadcast[s.join..s.cursor], PushStart(s.snapshot);
    SnapshotBelow(decode, st, s);
    forall p | 0 <= p < |window| && window[p].Chat? ensures window[p].mid >= s.at.next {
      assert IsChat(st.broadcast, s.join + p);
    }
    AllStartAbove(s.request.uid, push, window);
    FilterIsTransparent(s.request.uid, push, window);
  }

  lemma {:induction false} AllStartAbove(uid: i64, push: Option<i64>, events: seq<Event>)
    requires push.Some? ==> forall p :: 0 <= p < |events| && events[p].Chat? ==> events[p].mid > push.value
    ensures StartsAbove(uid, push, events)
  {
    if push.Some? && events != [] { AllStartAbove(uid, push, events[1..]); }
  }

  /** All a session hands to its client: the snapshot first. */
  function Received(s: Session): seq<Item> { AsItems(s.snapshot) + s.sent }

  function AsItems(rows: seq<(i64, bytes)>): (r: seq<Item>)
    ensures |r| == |rows| && forall i :: 0 <= i < |r| ==> r[i] == Message(rows[i].0, rows[i].1)
  {
    seq(|rows|, i requires 0 <= i < |rows| => Message(rows[i].0, rows[i].1))
  }

  /** No message twice, within the snapshot, within the live part or across both. */
  lemma NoDuplicates(decode: Decoder, start: State, steps: seq<Step>, sid: nat, i: nat, j: nat)
    requires Fresh(start) && sid in Run(decode, start, steps).sessions
    requires i < j < |Received(Run(decode, start, steps).sessions[sid])|
    ensures var r := Received(Run(decode, start, steps).sessions[sid]);
            r[i].Message? && r[j].Message? ==> r[i].mid != r[j].mid
  {
    FreshInv(decode, start);
    RunKeeps(decode, start, steps);
    var st := Run(decode, start, steps);
    var s := st.sessions[sid];
    ReceivedDistinct(decode, st, s, i, j);
  }

  lemma ReceivedDistinct(decode: Decoder, st: State, s: Session, i: nat, j: nat)
    requires SessionOk(decode, s, st) && Chats(st) && i < j < |Received(s)|
    ensures Received(s)[i].Message? && Received(s)[j].Message? ==> Received(s)[i].mid != Received(s)[j].mid
  {
    hide Chats, Start, Logs, Window, Fence;
    SnapshotBelow(decode, st, s);
    if i >= |s.snapshot| {
      LiveDistinct(st, s, i - |s.snapshot|, j - |s.snapshot|);
    } else if j >= |s.snapshot| {
      LiveAbove(st, s, j - |s.snapshot|);
    }
  }

  lemma SnapshotBelow(decode: Decoder, st: State, s: Session)
    requires SessionOk(decode, s, st)
    ensures AscendingRows(s.snapshot) && forall i :: 0 <= i < |s.snapshot| ==> 1 <= s.snapshot[i].0 < s.at.next
  {
    NewestMembers(decode, s.at.log, s.at.groups, s.request.uid, s.request.after);
    forall i | 0 <= i < |s.snapshot| ensures 1 <= s.snapshot[i].0 < s.at.next {
      assert (s.snapshot[i].0, s.snapshot[i].1) in s.snapshot;
    }
  }

  lemma LiveAbove(st: State, s: Session, k: nat)
    requires Window(s, st.broadcast) && Fence(s, st) && k < |s.sent|
    ensures s.sent[k].Message? ==> s.sent[k].mid >= s.at.next
  {
    var p := SelectOrigin(Wanted(s.request.uid), st.broadcast[s.join..s.cursor], k);
    assert st.broadcast[s.join..s.cursor][p] == st.broadcast[s.join + p];
    if s.sent[k].Message? { assert IsChat(st.broadcast, s.join + p); }
  }

  lemma LiveDistinct(st: State, s: Session, k: nat, l: nat)
    requires Window(s, st.broadcast) && Chats(st) && k < l < |s.sent|
    ensures s.sent[k].Message? && s.sent[l].Message? ==> s.sent[k].mid != s.sent[l].mid
  {
    var p, q := SelectOrigins(Wanted(s.request.uid), st.broadcast[s.join..s.cursor], k, l);
    assert st.broadcast[s.join..s.cursor][p] == st.broadcast[s.join + p];
    assert st.broadcast[s.join..s.cursor][q] == st.broadcast[s.join + q];
    if s.sent[k].Message? && s.sent[l].Message? {
      assert IsChat(st.broadcast, s.join + p) && IsChat(st.broadcast, s.join + q);
    }
  }

  /** A message is shown by the snapshot when the client asked for it, at most 5000 of the
      ones asked for are at least as new, and its group exists. */
  ghost predicate InSnapshot(decode: Decoder, s: Session, m: i64, data: bytes) {
    var mids := After(Inbox(s.at.log, s.request.uid), s.request.after);
    m in mids && |AtLeast(mids, m)| <= MAX_NEWEST_MESSAGES && Shown(decode(data), s.at.groups)
  }

  /** Nothing is lost between snapshot and live stream, in any interleaving: of all messages
      broadcast for the user up to where the session has read, it receives those
      broadcast since it joined and those the snapshot is meant to show; and an earlier one is
      missing from what the snapshot looks at only if it was cleared with its group. */
  lemma Gapless(decode: Decoder, start: State, steps: seq<Step>, sid: nat, p: nat)
    requires Fresh(start) && sid in Run(decode, start, steps).sessions
    requires var st := Run(decode, start, steps);
             p < st.sessions[sid].cursor <= |st.broadcast| && Addressed(st.sessions[sid].request.uid, st.broadcast[p])
    ensures var st := Run(decode, start, steps);
            var s, event := st.sessions[sid], st.broadcast[p];
            && (Message(event.mid, event.data) in Received(s) <==>
                  p >= s.join || InSnapshot(decode, s, event.mid, event.data))
            && (p < s.join ==> event.mid in s.at.cleared || event.mid in Inbox(s.at.log, s.request.uid))
  {
    FreshInv(decode, start);
    RunKeeps(decode, start, steps);
    var st := Run(decode, start, steps);
    var s, event := st.sessions[sid], st.broadcast[p];
    assert IsChat(st.broadcast, p);
    if p >= s.join { ReceivedLive(st, s, p); } else { ReceivedEarlier(decode, st, s, p); }
  }

  lemma ReceivedLive(st: State, s: Session, p: nat)
    requires Window(s, st.broadcast) && s.join <= p < s.cursor && Addressed(s.request.uid, st.broadcast[p])
    ensures Message(st.broadcast[p].mid, st.broadcast[p].data) in Received(s)
  {
    var window := st.broadcast[s.join..s.cursor];
    assert window[p - s.join] == st.broadcast[p] && st.broadcast[p] in window;
    SelectMembers(Wanted(s.request.uid), window, Message(st.broadcast[p].mid, st.broadcast[p].data));
  }

  lemma ReceivedEarlier(decode: Decoder, st: State, s: Session, p: nat)
    requires SessionOk(decode, s, st) && p < s.join && Addressed(s.request.uid, st.broadcast[p])
          && IsChat(st.broadcast, p)
    ensures var event := st.broadcast[p];
            Message(event.mid, event.data) in Received(s) <==> InSnapshot(decode, s, event.mid, event.data)
  {
    var event := st.broadcast[p];
    var item := Message(event.mid, event.data);
    NewestMembers(decode, s.at.log, s.at.groups, s.request.uid, s.request.after);
    if item in s.sent {
      var k :| 0 <= k < |s.sent| && s.sent[k] == item;
      LiveAbove(st, s, k);
    }
    assert item in Received(s) <==> item in AsItems(s.snapshot);
    if (event.mid, event.data) in s.snapshot {
      var k :| 0 <= k < |s.snapshot| && s.snapshot[k] == (event.mid, event.data);
      assert AsItems(s.snapshot)[k] == item;
    }
    if item in AsItems(s.snapshot) {
      var k :| 0 <= k < |s.snapshot| && AsItems(s.snapshot)[k] == item;
      assert s.snapshot[k] == (event.mid, event.data);
    }
  }

  // ---------- the user log in the same stream ----------

  function ItemLog(item: Item): Option<int> { if item.Log? then Some(item.logId) else None }

  function Newer(version: int): int -> Option<int> { (id: int) => if id > version then Some(id) else None }

  lemma SessionLogs(decode: Decoder, st: State, sid: nat)
    requires Inv(decode, st) && sid in st.sessions
    ensures var s := st.sessions[sid]; Window(s, st.broadcast) && Logs(s, st.broadcast, st.logs)
  {
    hide Core, Fence, Start, Window, Logs;
    assert SessionOk(decode, st.sessions[sid], st);
  }

  /** The log rows a session passes on follow those that were there when it joined,
      without a gap, and once it has read the whole channel they are all. */
  lemma LogsAreConsecutive(decode: Decoder, start: State, steps: seq<Step>, sid: nat)
    requires Fresh(start) && sid in Run(decode, start, steps).sessions
    ensures var st := Run(decode, start, steps);
            var s := st.sessions[sid];
            var live := Select(ItemLog, s.sent);
            && s.at.logs + |live| <= |st.logs| && live == st.logs[s.at.logs..s.at.logs + |live|]
            && (s.cursor == |st.broadcast| ==> s.at.logs + |live| == |st.logs|)
  {
    hide *;
    FreshInv(decode, start);
    RunKeeps(decode, start, steps);
    var st := Run(decode, start, steps);
    SessionLogs(decode, st, sid);
    LogsOfWindow(st.sessions[sid], st.broadcast, st.logs);
  }

  lemma LogsOfWindow(s: Session, broadcast: seq<Event>, logs: seq<int>)
    requires Window(s, broadcast) && Logs(s, broadcast, logs)
    ensures var live := Select(ItemLog, s.sent);
            && s.at.logs + |live| <= |logs| && live == logs[s.at.logs..s.at.logs + |live|]
            && (s.cursor == |broadcast| ==> s.at.logs + |live| == |logs|)
  {
    var window := broadcast[s.join..s.cursor];
    SelectCompose(Wanted(s.request.uid), ItemLog, LogOf, window);
    SelectAppend(LogOf, window, broadcast[s.cursor..]);
    assert window + broadcast[s.cursor..] == broadcast[s.join..];
    var live, rest := Select(ItemLog, s.sent), Select(LogOf, broadcast[s.cursor..]);
    assert live + rest == logs[s.at.logs..];
    assert (live + rest)[..|live|] == live;
  }

  /** Fetched rows above the client's version and live rows together are all rows above
      it, exactly when the version is not ahead of the rows sent live. */
  lemma LogsComplete(logs: seq<int>, joined: nat, n: nat, version: int)
    requires joined <= n <= |logs|
    ensures Select(Newer(version), logs[..joined]) + logs[joined..n] == Select(Newer(version), logs[..n])
            <==> forall i :: joined <= i < n ==> logs[i] > version
  {
    assert logs[..n] == logs[..joined] + logs[joined..n];
    SelectAppend(Newer(version), logs[..joined], logs[joined..n]);
    PrependInjective(Select(Newer(version), logs[..joined]), logs[joined..n], Select(Newer(version), logs[joined..n]));
    AllNewer(logs[joined..n], version);
    assert forall i :: joined <= i < n ==> logs[joined..n][i - joined] == logs[i];
  }

  lemma {:induction false} AllNewer(logs: seq<int>, version: int)
    ensures |Select(Newer(version), logs)| <= |logs|
    ensures logs == Select(Newer(version), logs) <==> forall i :: 0 <= i < |logs| ==> logs[i] > version
  {
    if logs != [] {
      AllNewer(logs[1..], version);
      if logs[0] > version {
        PrependInjective([logs[0]], logs[1..], Select(Newer(version), logs[1..]));
        assert logs == [logs[0]] + logs[1..];
      }
    }
  }
}
