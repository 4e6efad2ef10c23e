/** A client that comes back with the highest id it has received: what it can miss for good. */
module Reconnect {
  import opened Bytes
  import opened Results
  import opened Selection
  import opened Ordered
  import opened MessageLog
  import opened Subscription
  import opened Delivery

  // ---------- runs ----------

  lemma {:induction false} RunConcat(decode: Decoder, st: State, a: seq<Step>, b: seq<Step>)
    ensures Run(decode, Run(decode, st, a), b) == Run(decode, st, a + b)
  {
    hide Enabled, Take;
    if b == [] {
      assert a + b == a;
    } else {
      RunConcat(decode, st, a, b[..|b| - 1]);
      assert a + b == (a + b[..|b| - 1]) + [b[|b| - 1]];
      RunSnoc(decode, st, a + b[..|b| - 1], b[|b| - 1]);
    }
  }

  /** A session keeps what it began with, and reads on. */
  ghost predicate Continues(s: Session, t: Session) {
    t.request == s.request && t.join == s.join && t.at == s.at && t.snapshot == s.snapshot && s.cursor <= t.cursor
  }

  /** The channel only grows, and no session disappears. */
  ghost predicate Later(st: State, end: State) {
    && st.broadcast <= end.broadcast
    && forall sid :: sid in st.sessions ==> sid in end.sessions && Continues(st.sessions[sid], end.sessions[sid])
  }

  lemma StepLater(decode: Decoder, start: State, st: State, step: Step)
    requires Later(start, st) && Locked(st) && Enabled(st, step)
    ensures Later(start, Take(decode, st, step))
  {
    hide Take, Enabled, Locked;
    var after := Take(decode, st, step);
    forall sid | sid in start.sessions
      ensures sid in after.sessions && Continues(start.sessions[sid], after.sessions[sid])
    {
      SessionGoesOn(decode, st, step, sid);
    }
    BroadcastGrows(decode, st, step);
  }

  lemma SessionGoesOn(decode: Decoder, st: State, step: Step, sid: nat)
    requires Locked(st) && Enabled(st, step) && sid in st.sessions
    ensures var after := Take(decode, st, step);
            sid in after.sessions && Continues(st.sessions[sid], after.sessions[sid])
  {
    hide Open, Relay;
  }

  lemma BroadcastGrows(decode: Decoder, st: State, step: Step)
    requires Enabled(st, step)
    ensures st.broadcast <= Take(decode, st, step).broadcast
  {
    hide Open, Receive;
  }

  lemma {:induction false} RunLater(decode: Decoder, st: State, more: seq<Step>)
    requires Inv(decode, st)
    ensures Inv(decode, Run(decode, st, more)) && Later(st, Run(decode, st, more))
  {
    hide SessionOk, Numbers, Chats, InFlight, Locked, Take;
    if more != [] {
      RunLater(decode, st, more[..|more| - 1]);
      RunKeeps(decode, st, more);
      var before := Run(decode, st, more[..|more| - 1]);
      if Enabled(before, more[|more| - 1]) { StepLater(decode, st, before, more[|more| - 1]); }
    }
  }

  // ---------- what a client can miss ----------

  /** `last` is the highest id among the items. */
  ghost predicate IsHighest(items: seq<Item>, last: i64) {
    && (exists i :: 0 <= i < |items| && items[i].Message? && items[i].mid == last)
    && forall i :: 0 <= i < |items| && items[i].Message? ==> items[i].mid <= last
  }

  /** A message for the user that the channel holds behind `cursor` and that is still stored, not above `last`. */
  ghost predicate LagsInChannel(st: State, uid: i64, cursor: nat, last: i64, p: nat) {
    && cursor <= p < |st.broadcast| && Addressed(uid, st.broadcast[p])
    && st.broadcast[p].mid <= last && st.broadcast[p].mid in st.log
  }

  /** A message for the user that has its id, not above `last`, and is still being sent. */
  ghost predicate LagsInFlight(st: State, uid: i64, last: i64, t: nat) {
    && t in st.senders && HasMid(st.senders[t]) && uid in st.senders[t].entry.targets
    && st.senders[t].phase.mid <= last
  }

  ghost predicate Lagging(st: State, uid: i64, cursor: nat, last: i64) {
    (exists p :: LagsInChannel(st, uid, cursor, last, p)) || (exists t :: LagsInFlight(st, uid, last, t))
  }

  /** The client of `s` has come back as session `sid`, asking for what is after `last`; a message for
      it was broadcast after it had stopped reading `s` and before it came back, and is in its inbox
      then, but not among what it asks for. */
  ghost predicate Missed(st: State, s: Session, last: i64, end: State, sid: nat, p: nat) {
    && sid in end.sessions && sid !in st.sessions
    && var t := end.sessions[sid];
       && t.request.uid == s.request.uid && t.request.after == Some(last)
       && s.cursor <= p < t.join <= |end.broadcast| && Addressed(t.request.uid, end.broadcast[p])
       && end.broadcast[p].mid in Inbox(t.at.log, t.request.uid)
       && end.broadcast[p].mid !in After(Inbox(t.at.log, t.request.uid), t.request.after)
  }

  ghost predicate MayMiss(decode: Decoder, st: State, s: Session, last: i64) {
    exists more, sid, p :: Missed(st, s, last, Run(decode, st, more), sid, p)
  }

  /** Such a message the client never receives, neither from the session it left nor from the
      new one, however long that lasts. */
  lemma MissedForGood(decode: Decoder, start: State, steps: seq<Step>, first: nat, last: i64, more: seq<Step>, sid: nat,
      p: nat, later: seq<Step>)
    requires Fresh(start) && first in Run(decode, start, steps).sessions
    requires var st := Run(decode, start, steps); Missed(st, st.sessions[first], last, Run(decode, st, more), sid, p)
    ensures var st := Run(decode, start, steps);
            var event, end := Run(decode, st, more).broadcast[p], Run(decode, Run(decode, st, more), later);
            && Message(event.mid, event.data) !in Received(st.sessions[first])
            && sid in end.sessions && Message(event.mid, event.data) !in Received(end.sessions[sid])
  {
    hide Run;
    FreshInv(decode, start);
    RunKeeps(decode, start, steps);
    var st := Run(decode, start, steps);
    RunLater(decode, st, more);
    var back := Run(decode, st, more);
    RunLater(decode, back, later);
    var end := Run(decode, back, later);
    NotFromOld(decode, st, back, first, p);
    assert end.broadcast[p] == back.broadcast[p] && IsChat(end.broadcast, p);
    ReceivedEarlier(decode, end, end.sessions[sid], p);
  }

  /** What a session has sent is not what comes behind its position in the channel. */
  lemma SentEarlier(s: Session, broadcast: seq<Event>, back: State, k: nat, p: nat)
    requires Window(s, broadcast) && broadcast <= back.broadcast && Chats(back)
    requires k < |s.sent| && s.cursor <= p && IsChat(back.broadcast, p)
    ensures s.sent[k].Message? ==> s.sent[k].mid != back.broadcast[p].mid
  {
    var q := SelectOrigin(Wanted(s.request.uid), broadcast[s.join..s.cursor], k);
    assert broadcast[s.join..s.cursor][q] == broadcast[s.join + q] == back.broadcast[s.join + q];
    if s.sent[k].Message? { assert IsChat(back.broadcast, s.join + q); }
  }

  /** Nor is what its snapshot shows. */
  lemma ShownEarlier(decode: Decoder, st: State, s: Session, t: Session, back: State, p: nat)
    requires SessionOk(decode, s, st) && Continues(s, t) && Fence(t, back)
    requires s.cursor <= p && IsChat(back.broadcast, p)
    ensures forall k :: 0 <= k < |s.snapshot| ==> s.snapshot[k].0 != back.broadcast[p].mid
  {
    SnapshotBelow(decode, st, s);
    hide Start, Logs;
  }

  lemma NotFromOld(decode: Decoder, st: State, back: State, sid: nat, p: nat)
    requires Inv(decode, st) && Inv(decode, back) && Later(st, back) && sid in st.sessions
    requires st.sessions[sid].cursor <= p && IsChat(back.broadcast, p)
    ensures Message(back.broadcast[p].mid, back.broadcast[p].data) !in Received(st.sessions[sid])
  {
    var s, t, event := st.sessions[sid], back.sessions[sid], back.broadcast[p];
    assert SessionOk(decode, s, st) && Window(s, st.broadcast);
    assert SessionOk(decode, t, back) && Fence(t, back);
    hide *;
    ShownEarlier(decode, st, s, t, back, p);
    assert Chats(back) && st.broadcast <= back.broadcast;
    forall k | 0 <= k < |s.sent| ensures s.sent[k] != Message(event.mid, event.data) {
      SentEarlier(s, st.broadcast, back, k, p);
    }
    NotReceived(s, event);
  }

  lemma NotReceived(s: Session, event: Event)
    requires event.Chat?
    requires forall k :: 0 <= k < |s.snapshot| ==> s.snapshot[k].0 != event.mid
    requires forall k :: 0 <= k < |s.sent| ==> s.sent[k] != Message(event.mid, event.data)
    ensures Message(event.mid, event.data) !in Received(s)
  {
    assert forall k :: 0 <= k < |AsItems(s.snapshot)| ==> AsItems(s.snapshot)[k] != Message(event.mid, event.data);
  }

  // ---------- nothing lags, nothing is missed ----------

  ghost predicate UpToDate(st: State, uid: i64, cursor: nat, last: i64) {
    && (forall p :: cursor <= p && IsChat(st.broadcast, p) && uid in st.broadcast[p].targets ==>
          st.broadcast[p].mid !in st.log || st.broadcast[p].mid > last)
    && (forall t :: t in st.senders && HasMid(st.senders[t]) && uid in st.senders[t].entry.targets ==>
          st.senders[t].phase.mid > last)
    && last < st.next
  }

  lemma UpToDateIsNotLagging(st: State, uid: i64, cursor: nat, last: i64)
    requires last < st.next
    ensures UpToDate(st, uid, cursor, last) <==> !Lagging(st, uid, cursor, last)
  {
    if p :| cursor <= p && IsChat(st.broadcast, p) && uid in st.broadcast[p].targets
            && st.broadcast[p].mid in st.log && st.broadcast[p].mid <= last {
      assert LagsInChannel(st, uid, cursor, last, p);
    }
    if t :| t in st.senders && HasMid(st.senders[t]) && uid in st.senders[t].entry.targets
            && st.senders[t].phase.mid <= last {
      assert LagsInFlight(st, uid, last, t);
    }
  }

  lemma StepKeepsUpToDate(decode: Decoder, st: State, step: Step, uid: i64, cursor: nat, last: i64)
    requires Core(st) && UpToDate(st, uid, cursor, last) && Enabled(st, step)
    ensures UpToDate(Take(decode, st, step), uid, cursor, last)
  {
    hide Chats, Locked, Numbers, Open, Receive;
  }

  /** What a session that asks after `last` is not shown although it is there. */
  ghost predicate HidesNothing(t: Session, broadcast: seq<Event>, cursor: nat, last: i64) {
    forall p :: cursor <= p < t.join && IsChat(broadcast, p) && t.request.uid in broadcast[p].targets ==>
      broadcast[p].mid !in t.at.log || broadcast[p].mid > last
  }

  ghost predicate NewHideNothing(start: State, st: State, uid: i64, cursor: nat, last: i64) {
    forall sid :: sid in st.sessions && sid !in start.sessions && st.sessions[sid].request.uid == uid ==>
                    HidesNothing(st.sessions[sid], st.broadcast, cursor, last)
  }

  /** Where the sessions come from that are there after a step. */
  lemma SessionOfStep(decode: Decoder, st: State, step: Step, sid: nat)
    requires Enabled(st, step) && sid in Take(decode, st, step).sessions
    ensures var after := Take(decode, st, step);
            if step.TakeSnapshot? && sid == st.lock.request.sid then
              after.broadcast == st.broadcast && after.sessions[sid] == Open(decode, st, st.lock.request, st.lock.join)
            else
              sid in st.sessions && Continues(st.sessions[sid], after.sessions[sid])
  {
    hide Open, Relay;
  }

  lemma HidingStays(t: Session, t': Session, broadcast: seq<Event>, longer: seq<Event>, cursor: nat, last: i64)
    requires HidesNothing(t, broadcast, cursor, last) && t.join <= |broadcast| && broadcast <= longer
    requires t'.join == t.join && t'.at == t.at && t'.request == t.request
    ensures HidesNothing(t', longer, cursor, last)
  {}

  lemma OpenedHides(decode: Decoder, st: State, request: Request, join: nat, cursor: nat, last: i64)
    requires UpToDate(st, request.uid, cursor, last)
    ensures HidesNothing(Open(decode, st, request, join), st.broadcast, cursor, last)
  {
    hide Newest;
  }

  lemma JoinedBefore(decode: Decoder, st: State, sid: nat)
    requires Inv(decode, st) && sid in st.sessions
    ensures st.sessions[sid].join <= |st.broadcast|
  {
    hide Core, Start, Fence, Logs;
    assert SessionOk(decode, st.sessions[sid], st);
  }

  lemma StepKeepsHiding(decode: Decoder, start: State, st: State, step: Step, uid: i64, cursor: nat, last: i64,
      sid: nat)
    requires Inv(decode, st) && UpToDate(st, uid, cursor, last) && Enabled(st, step)
    requires NewHideNothing(start, st, uid, cursor, last)
    requires var after := Take(decode, st, step);
             sid in after.sessions && sid !in start.sessions && after.sessions[sid].request.uid == uid
    ensures var after := Take(decode, st, step); HidesNothing(after.sessions[sid], after.broadcast, cursor, last)
  {
    hide Take, Inv, UpToDate, HidesNothing, Open;
    var after := Take(decode, st, step);
    SessionOfStep(decode, st, step, sid);
    BroadcastGrows(decode, st, step);
    if step.TakeSnapshot? && sid == st.lock.request.sid {
      OpenIsFor(decode, st, st.lock.request, st.lock.join);
      OpenedHides(decode, st, st.lock.request, st.lock.join, cursor, last);
    } else {
      JoinedBefore(decode, st, sid);
      HidingStays(st.sessions[sid], after.sessions[sid], st.broadcast, after.broadcast, cursor, last);
    }
  }

  lemma OpenIsFor(decode: Decoder, st: State, request: Request, join: nat)
    ensures Open(decode, st, request, join).request == request
  {
    hide Newest;
  }

  lemma {:induction false} RunKeepsUpToDate(decode: Decoder, st: State, more: seq<Step>, uid: i64, cursor: nat,
      last: i64)
    requires Inv(decode, st) && UpToDate(st, uid, cursor, last)
    ensures var end := Run(decode, st, more);
            UpToDate(end, uid, cursor, last) && NewHideNothing(st, end, uid, cursor, last)
  {
    hide SessionOk, Core, UpToDate, HidesNothing, Take;
    if more != [] {
      RunKeepsUpToDate(decode, st, more[..|more| - 1], uid, cursor, last);
      RunKeeps(decode, st, more[..|more| - 1]);
      var before, step := Run(decode, st, more[..|more| - 1]), more[|more| - 1];
      if Enabled(before, step) {
        StepKeepsUpToDate(decode, before, step, uid, cursor, last);
        var end := Take(decode, before, step);
        forall sid | sid in end.sessions && sid !in st.sessions && end.sessions[sid].request.uid == uid
          ensures HidesNothing(end.sessions[sid], end.broadcast, cursor, last)
        {
          StepKeepsHiding(decode, st, before, step, uid, cursor, last, sid);
        }
      }
    }
  }

  lemma NothingMissed(decode: Decoder, st: State, s: Session, last: i64)
    requires Inv(decode, st) && UpToDate(st, s.request.uid, s.cursor, last) && last >= 1
    ensures !MayMiss(decode, st, s, last)
  {
    hide Run, SessionOk, Core;
    forall more, sid, p ensures !Missed(st, s, last, Run(decode, st, more), sid, p) {
      RunKeepsUpToDate(decode, st, more, s.request.uid, s.cursor, last);
    }
  }

  // ---------- what lags is missed by some continuation ----------

  /** The sender goes on to its end. */
  lemma FinishSend(decode: Decoder, st: State, uid: i64, cursor: nat, last: i64, t: nat)
      returns (more: seq<Step>, p: nat)
    requires InFlight(st) && LagsInFlight(st, uid, last, t) && cursor <= |st.broadcast|
    ensures var end := Run(decode, st, more);
            && LagsInChannel(end, uid, cursor, last, p) && end.sessions == st.sessions && end.lock == st.lock
  {
    var Sender(entry, phase) := st.senders[t];
    p := |st.broadcast|;
    if phase.Committed? {
      more := [Announce(t)];
      RunOne(decode, st, Announce(t));
    } else {
      more := [Commit(t)] + [Announce(t)];
      RunOne(decode, st, Commit(t));
      RunSnoc(decode, st, [Commit(t)], Announce(t));
    }
  }

  /** The channel and the log have only grown; lock and sessions are as before. */
  ghost predicate Grown(st: State, end: State) {
    && st.broadcast <= end.broadcast && st.log.Keys <= end.log.Keys
    && end.lock == st.lock && end.sessions == st.sessions
  }

  /** One sender finishes; only where no id is left to take it has to give up. */
  lemma FinishOne(decode: Decoder, st: State, t: nat) returns (more: seq<Step>)
    requires Core(st) && t in st.senders
    ensures var end := Run(decode, st, more); Core(end) && Grown(st, end) && end.senders == st.senders - {t}
    decreases if st.senders[t].phase.Waiting? then 2 else if st.senders[t].phase.Numbered? then 1 else 0
  {
    hide Core, Run, Open, Receive;
    if st.senders[t].phase.Committed? {
      more := [Announce(t)];
      RunOne(decode, st, Announce(t));
      StepKeepsCore(decode, st, Announce(t));
    } else if st.senders[t].phase.Numbered? {
      RunOne(decode, st, Commit(t));
      StepKeepsCore(decode, st, Commit(t));
      var next := Take(decode, st, Commit(t));
      var rest := FinishOne(decode, next, t);
      more := [Commit(t)] + rest;
      RunConcat(decode, st, [Commit(t)], rest);
      assert next.senders - {t} == st.senders - {t};
    } else if Enabled(st, TakeNumber(t)) {
      RunOne(decode, st, TakeNumber(t));
      StepKeepsCore(decode, st, TakeNumber(t));
      var next := Take(decode, st, TakeNumber(t));
      var rest := FinishOne(decode, next, t);
      more := [TakeNumber(t)] + rest;
      RunConcat(decode, st, [TakeNumber(t)], rest);
      assert next.senders - {t} == st.senders - {t};
    } else {
      more := [Fail(t)];
      RunOne(decode, st, Fail(t));
      StepKeepsCore(decode, st, Fail(t));
    }
  }

  /** All senders finish. */
  lemma {:induction false} Drain(decode: Decoder, st: State) returns (more: seq<Step>)
    requires Core(st)
    ensures var end := Run(decode, st, more); Core(end) && Grown(st, end) && end.senders == map[]
    decreases |st.senders.Keys|
  {
    hide Core, Run;
    if st.senders == map[] {
      more := [];
      RunNothing(decode, st);
    } else {
      var t :| t in st.senders;
      var first := FinishOne(decode, st, t);
      var next := Run(decode, st, first);
      assert next.senders.Keys == st.senders.Keys - {t};
      var rest := Drain(decode, next);
      more := first + rest;
      RunConcat(decode, st, first, rest);
    }
  }

  lemma RunNothing(decode: Decoder, st: State)
    ensures Run(decode, st, []) == st
  {}

  /** A session that is about to open does open. */
  lemma FinishJoin(decode: Decoder, st: State) returns (more: seq<Step>)
    ensures var end := Run(decode, st, more);
            && end.lock.Free? && end.senders == st.senders && end.log == st.log && end.broadcast == st.broadcast
            && forall sid :: sid in st.sessions ==> sid in end.sessions
  {
    if st.lock.Free? {
      more := [];
    } else if st.lock.Entered? {
      more := [Listen] + [TakeSnapshot];
      RunOne(decode, st, Listen);
      RunSnoc(decode, st, [Listen], TakeSnapshot);
    } else {
      more := [TakeSnapshot];
      RunOne(decode, st, TakeSnapshot);
    }
  }

  lemma {:induction false} UnusedBound(used: set<nat>) returns (bound: nat)
    ensures forall n :: n in used ==> n < bound
  {
    if used == {} {
      bound := 0;
    } else {
      var n :| n in used;
      bound := UnusedBound(used - {n});
      assert forall m :: m in used ==> m == n || m in used - {n};
      bound := if bound <= n then n + 1 else bound;
    }
  }

  ghost function Come(request: Request): seq<Step> { [Enter(request)] + [Listen] + [TakeSnapshot] }

  /** The client comes back while nobody is sending. */
  lemma ComeBack(decode: Decoder, st: State, request: Request)
    requires Quiet(st) && request.sid !in st.sessions
    ensures Run(decode, st, Come(request)) ==
            st.(sessions := st.sessions[request.sid := Open(decode, st, request, |st.broadcast|)])
  {
    hide Run;
    RunOne(decode, st, Enter(request));
    RunSnoc(decode, st, [Enter(request)], Listen);
    RunSnoc(decode, st, [Enter(request)] + [Listen], TakeSnapshot);
  }

  lemma ChannelIsMissed(decode: Decoder, start: State, st: State, s: Session, last: i64, p: nat)
      returns (more: seq<Step>, sid: nat)
    requires Core(st) && LagsInChannel(st, s.request.uid, s.cursor, last, p) && last >= 1
    requires forall sid :: sid in start.sessions ==> sid in st.sessions
    ensures Missed(start, s, last, Run(decode, st, more), sid, p)
  {
    var drain := Drain(decode, st);
    var drained := Run(decode, st, drain);
    var join := FinishJoin(decode, drained);
    var quiet := Run(decode, drained, join);
    sid := UnusedBound(quiet.sessions.Keys);
    var request := Request(sid, s.request.uid, Some(last));
    ComeBack(decode, quiet, request);
    RunConcat(decode, st, drain, join);
    RunConcat(decode, st, drain + join, Come(request));
    more := drain + join + Come(request);
    assert IsChat(st.broadcast, p);
  }

  lemma LaggingIsMissed(decode: Decoder, st: State, s: Session, last: i64)
    requires Core(st) && Lagging(st, s.request.uid, s.cursor, last) && last >= 1 && s.cursor <= |st.broadcast|
    requires forall more :: Core(Run(decode, st, more))
    ensures MayMiss(decode, st, s, last)
  {
    assert InFlight(st);
    hide Run, Core, Missed;
    if p :| LagsInChannel(st, s.request.uid, s.cursor, last, p) {
      var more, sid := ChannelIsMissed(decode, st, st, s, last, p);
    } else {
      var t :| LagsInFlight(st, s.request.uid, last, t);
      var send, p := FinishSend(decode, st, s.request.uid, s.cursor, last, t);
      var more, sid := ChannelIsMissed(decode, st, Run(decode, st, send), s, last, p);
      RunConcat(decode, st, send, more);
    }
  }

  lemma SentBelow(st: State, s: Session, k: nat)
    requires Window(s, st.broadcast) && Chats(st) && Numbers(st) && k < |s.sent|
    ensures s.sent[k].Message? ==> 1 <= s.sent[k].mid < st.next
  {
    var q := SelectOrigin(Wanted(s.request.uid), st.broadcast[s.join..s.cursor], k);
    assert st.broadcast[s.join..s.cursor][q] == st.broadcast[s.join + q];
    if s.sent[k].Message? { assert IsChat(st.broadcast, s.join + q); }
  }

  lemma HighestBelow(decode: Decoder, st: State, s: Session, last: i64)
    requires Core(st) && SessionOk(decode, s, st) && IsHighest(Received(s), last)
    ensures 1 <= last < st.next
  {
    hide Chats, Numbers, InFlight, Locked, Window, Start, Logs;
    SnapshotBelow(decode, st, s);
    var i :| 0 <= i < |Received(s)| && Received(s)[i].Message? && Received(s)[i].mid == last;
    if i >= |s.snapshot| { SentBelow(st, s, i - |s.snapshot|); }
  }

  /** A client that leaves a session and comes back with the highest id it has received can
      miss a message exactly when one for it, with a lower id, is still stored and in the part of the
      channel that it has not read, or is still being sent. */
  lemma ResumeMayLose(decode: Decoder, start: State, steps: seq<Step>, sid: nat, last: i64)
    requires Fresh(start) && sid in Run(decode, start, steps).sessions
    requires IsHighest(Received(Run(decode, start, steps).sessions[sid]), last)
    ensures var st := Run(decode, start, steps);
            var s := st.sessions[sid];
            MayMiss(decode, st, s, last) <==> Lagging(st, s.request.uid, s.cursor, last)
  {
    FreshInv(decode, start);
    RunKeeps(decode, start, steps);
    var st := Run(decode, start, steps);
    var s := st.sessions[sid];
    HighestBelow(decode, st, s, last);
    assert s.cursor <= |st.broadcast|;
    hide Run, SessionOk, Core, MayMiss;
    UpToDateIsNotLagging(st, s.request.uid, s.cursor, last);
    if Lagging(st, s.request.uid, s.cursor, last) {
      forall more ensures Core(Run(decode, st, more)) { RunKeeps(decode, st, more); }
      LaggingIsMissed(decode, st, s, last);
    } else {
      NothingMissed(decode, st, s, last);
    }
  }

  // ---------- a run that loses a message ----------

  /** A server without messages, sessions or senders. */
  const START: State := State(1, map[], {}, {}, [], map[], Free, [], map[])

  function Joined(uid: i64): Session {
    Session(Request(0, uid, None), 0, 0, None, [], [], true, Moment(map[], {}, {}, 1, 0))
  }

  lemma NothingYet(decode: Decoder, uid: i64)
    ensures Run(decode, START, Come(Request(0, uid, None))) == START.(sessions := map[0 := Joined(uid)])
  {
    ComeBack(decode, START, Request(0, uid, None));
    SelectShorter(Show(decode, {}), Candidates(map[], uid, None));
    hide Run;
    assert Open(decode, START, Request(0, uid, None), 0) == Joined(uid);
  }

  /** Two senders take the ids 1 and 2. */
  ghost function Begin(first: Entry, second: Entry): seq<Step> {
    [StartSend(0, first)] + [StartSend(1, second)] + [TakeNumber(0)] + [TakeNumber(1)]
  }

  lemma Begun(decode: Decoder, st: State, first: Entry, second: Entry)
    requires Quiet(st) && st.next == 1
    ensures Run(decode, st, Begin(first, second)) ==
            st.(next := 3, senders := map[0 := Sender(first, Numbered(1)), 1 := Sender(second, Numbered(2))])
  {
    hide Run;
    var a, b := Sender(first, Waiting), Sender(second, Waiting);
    RunOne(decode, st, StartSend(0, first));
    RunSnoc(decode, st, [StartSend(0, first)], StartSend(1, second));
    assert Run(decode, st, [StartSend(0, first)] + [StartSend(1, second)]) == st.(senders := map[0 := a, 1 := b]);
    RunSnoc(decode, st, [StartSend(0, first)] + [StartSend(1, second)], TakeNumber(0));
    RunSnoc(decode, st, [StartSend(0, first)] + [StartSend(1, second)] + [TakeNumber(0)], TakeNumber(1));
  }

  /** The second of them is done first. */
  ghost function Overtake(first: Entry, second: Entry): seq<Step> {
    Begin(first, second) + [Commit(1)] + [Announce(1)]
  }

  lemma Overtaken(decode: Decoder, st: State, first: Entry, second: Entry)
    requires Quiet(st) && st.next == 1
    ensures Run(decode, st, Overtake(first, second)) ==
            st.(next := 3, log := st.log[2 := second], senders := map[0 := Sender(first, Numbered(1))],
                broadcast := st.broadcast + [Chat(second.targets, 2, second.data)])
  {
    hide Run;
    Begun(decode, st, first, second);
    RunSnoc(decode, st, Begin(first, second), Commit(1));
    RunSnoc(decode, st, Begin(first, second) + [Commit(1)], Announce(1));
    var a, b := Sender(first, Numbered(1)), Sender(second, Committed(2));
    assert map[0 := a, 1 := b] - {1} == map[0 := a];
  }

  /** The client joins, and gets the second message. */
  ghost function Leave(uid: i64, first: Entry, second: Entry): seq<Step> {
    Come(Request(0, uid, None)) + Overtake(first, second) + [Deliver(0)]
  }

  lemma Left(decode: Decoder, uid: i64, first: Entry, second: Entry)
    requires uid in second.targets
    ensures var st := Run(decode, START, Leave(uid, first, second));
            && st.senders == map[0 := Sender(first, Numbered(1))] && st.lock.Free? && st.log == map[2 := second]
            && st.broadcast == [Chat(second.targets, 2, second.data)]
            && st.sessions == map[0 := Joined(uid).(cursor := 1, sent := [Message(2, second.data)])]
  {
    hide Run;
    NothingYet(decode, uid);
    var joined := START.(sessions := map[0 := Joined(uid)]);
    Overtaken(decode, joined, first, second);
    RunConcat(decode, START, Come(Request(0, uid, None)), Overtake(first, second));
    RunSnoc(decode, START, Come(Request(0, uid, None)) + Overtake(first, second), Deliver(0));
    assert [] + [Message(2, second.data)] == [Message(2, second.data)];
  }

  /** The first sender is done, and the client comes back with the highest id it has received. */
  ghost function Return(uid: i64): seq<Step> { [Commit(0)] + [Announce(0)] + Come(Request(1, uid, Some(2))) }

  lemma Returned(decode: Decoder, uid: i64, st: State, first: Entry, second: Entry)
    requires st.senders == map[0 := Sender(first, Numbered(1))] && st.lock.Free? && st.log == map[2 := second]
    requires st.broadcast == [Chat(second.targets, 2, second.data)] && st.sessions.Keys == {0}
    ensures var back := Run(decode, st, Return(uid));
            && back.broadcast == [Chat(second.targets, 2, second.data), Chat(first.targets, 1, first.data)]
            && 1 in back.sessions && back.sessions[1].join == 2
            && back.sessions[1].at.log == map[2 := second, 1 := first]
            && back.sessions[1].request == Request(1, uid, Some(2))
  {
    hide Run;
    RunOne(decode, st, Commit(0));
    RunSnoc(decode, st, [Commit(0)], Announce(0));
    var sent := Run(decode, st, [Commit(0)] + [Announce(0)]);
    assert sent.senders == map[];
    ComeBack(decode, sent, Request(1, uid, Some(2)));
    RunConcat(decode, st, [Commit(0)] + [Announce(0)], Come(Request(1, uid, Some(2))));
  }

  /** The client has received the second message and nothing above it; the first one is for it too, stored and
      broadcast before it comes back, and it never receives it. */
  lemma OvertakenIsMissed(decode: Decoder, uid: i64, first: Entry, second: Entry, later: seq<Step>)
    requires uid in first.targets && uid in second.targets
    ensures var st := Run(decode, START, Leave(uid, first, second));
            var back := Run(decode, st, Return(uid));
            && 0 in st.sessions && IsHighest(Received(st.sessions[0]), 2)
            && Missed(st, st.sessions[0], 2, back, 1, 1)
            && back.broadcast[1] == Chat(first.targets, 1, first.data)
            && var end := Run(decode, back, later);
               1 in end.sessions && Message(1, first.data) !in Received(end.sessions[1])
  {
    Left(decode, uid, first, second);
    var st := Run(decode, START, Leave(uid, first, second));
    Returned(decode, uid, st, first, second);
    hide Run;
    assert Received(st.sessions[0]) == [Message(2, second.data)];
    assert IsHighest(Received(st.sessions[0]), 2) by { assert Received(st.sessions[0])[0].mid == 2; }
    MissedForGood(decode, START, Leave(uid, first, second), 0, 2, Return(uid), 1, 1, later);
  }
}
