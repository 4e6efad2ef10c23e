/** A client that keeps syncing, each time with the token of the last answer, while messages
    are stored, in whatever order their ids were taken. */
module SyncChain {
  import opened Bytes
  import opened Results
  import opened Ordered
  import opened Selection
  import Keys
  import opened MessageLog
  import opened MessageDb
  import opened MatrixSync
  import RoomIds

  /** An answer that carried messages, and what it was made from. */
  datatype Response = Response(since: i64, next: i64, log: Log, now: int, w: Surroundings, events: seq<MessageEvent>)

  /** `inFlight`: ids taken by senders whose message is not stored yet. `begun`: the maximum the
      client's request under way has read. `token`: where the client is to go on. `clock`: the moment
      of the last poll; time does not go back. */
  datatype State = State(log: Log, nextId: int, inFlight: set<i64>, maxMid: i64, begun: Option<i64>, token: i64,
      clock: int, responses: seq<Response>)

  datatype Step =
    | TakeId
    | Store(mid: i64, entry: Entry)
    | ClearGroup(gid: i64)
    | OtherSync(cachedMax: i64, since: i64, now: int, w: Surroundings)
    | Begin
    | Poll(now: int, w: Surroundings)
    | GiveUp

  ghost predicate Enabled(st: State, step: Step) {
    match step
    case TakeId => 1 <= st.nextId < I64_MAX
    case Store(mid, _) => mid in st.inFlight
    case OtherSync(cachedMax, since, now, _) => since <= cachedMax <= st.maxMid && st.clock <= now
    case Begin => st.begun.None?
    case Poll(now, _) => st.begun.Some? && st.clock <= now
    case _ => true
  }

  ghost function Answer(c: Decoder, st: State, now: int, w: Surroundings): seq<MessageEvent>
    requires st.begun.Some?
  {
    if HasNewer(st.log, st.begun.value) then Fetched(c, w, now, st.log, st.token) else []
  }

  ghost function Take(c: Decoder, st: State, step: Step): State
    requires Enabled(st, step)
  {
    match step
    case TakeId => st.(nextId := st.nextId + 1, inFlight := st.inFlight + {st.nextId})
    case Store(mid, entry) => st.(log := st.log[mid := entry], inFlight := st.inFlight - {mid})
    case ClearGroup(gid) => st.(log := st.log - History(st.log, InGroup(gid)))
    case OtherSync(cachedMax, since, now, w) => st.(maxMid := MaxAfter(c, st, cachedMax, since, now, w), clock := now)
    case Begin => st.(begun := Some(st.maxMid), token := Keys.Min(st.token, st.maxMid))
    case Poll(now, w) => Polled(c, st, now, w)
    case GiveUp => st.(begun := None)
  }

  /** What another client's request, which began with some earlier maximum, makes of the maximum. */
  ghost function MaxAfter(c: Decoder, st: State, cachedMax: i64, since: i64, now: int, w: Surroundings): (m: i64)
    ensures m >= st.maxMid
  {
    var events := Fetched(c, w, now, st.log, since);
    if HasNewer(st.log, cachedMax) && events != [] then Keys.Max(st.maxMid, events[|events| - 1].mid) else st.maxMid
  }

  /** A poll without messages leaves the request waiting; one with messages ends it. */
  ghost function Polled(c: Decoder, st: State, now: int, w: Surroundings): State
    requires st.begun.Some?
  {
    var events := Answer(c, st, now, w);
    if events == [] then st.(clock := now) else
      var next := events[|events| - 1].mid;
      st.(token := next, maxMid := Keys.Max(st.maxMid, next), begun := None, clock := now,
          responses := st.responses + [Response(st.token, next, st.log, now, w, events)])
  }

  ghost function Run(c: Decoder, start: State, steps: seq<Step>): State {
    if steps == [] then start else
      var st := Run(c, start, steps[..|steps| - 1]);
      var step := steps[|steps| - 1];
      if Enabled(st, step) then Take(c, st, step) else st
  }

  lemma RunSnoc(c: Decoder, start: State, steps: seq<Step>, step: Step)
    ensures Run(c, start, steps + [step]) ==
            var st := Run(c, start, steps); if Enabled(st, step) then Take(c, st, step) else st
  {
    assert (steps + [step])[..|steps|] == steps;
  }

  lemma RunOne(c: Decoder, start: State, step: Step)
    ensures Run(c, start, [step]) == if Enabled(start, step) then Take(c, start, step) else start
  {
    assert [] + [step] == [step];
    RunSnoc(c, start, [], step);
  }

  lemma {:induction false} RunConcat(c: Decoder, start: State, a: seq<Step>, b: seq<Step>)
    ensures Run(c, Run(c, start, a), b) == Run(c, start, a + b)
  {
    hide Enabled, Take;
    if b == [] {
      assert a + b == a;
    } else {
      RunConcat(c, start, a, b[..|b| - 1]);
      assert a + b == (a + b[..|b| - 1]) + [b[|b| - 1]];
      RunSnoc(c, start, a + b[..|b| - 1], b[|b| - 1]);
    }
  }

  // ---------- the steps are what the store and the cache do ----------

  ghost predicate Matches(db: MsgDb, cache: BotCache, st: State)
    reads db, cache
  {
    db.Valid() && db.stored.log == st.log && db.next == st.nextId && cache.maxMid == st.maxMid
  }

  method StoreStep(db: MsgDb, cache: BotCache, gid: i64, to: seq<i64>, msg: bytes, ghost c: Decoder, ghost st: State)
    requires Matches(db, cache, st) && db.next <= ID_LIMIT
    modifies db
    ensures var entry := Entry(InGroup(gid), (set u | u in to), msg);
            Matches(db, cache, Take(c, Take(c, st, TakeId), Store(st.nextId, entry)))
  {
    var id := db.SendToGroup(gid, to, msg);
  }

  method ClearStep(db: MsgDb, cache: BotCache, gid: i64, ghost c: Decoder, ghost st: State)
    requires Matches(db, cache, st)
    modifies db
    ensures Matches(db, cache, Take(c, st, ClearGroup(gid)))
  {
    var removed := db.ClearGroupMessages(gid);
  }

  method BeginStep(db: MsgDb, cache: BotCache, token: string, ghost c: Decoder, ghost st: State)
      returns (cachedMax: i64, since: i64)
    requires Matches(db, cache, st) && st.begun.None? && token == TokenOf(st.token)
    ensures var next := Take(c, st, Begin);
            Matches(db, cache, next) && next.begun == Some(cachedMax) && next.token == since
  {
    cachedMax, since := cache.Begin(Some(token));
    RoomIds.IntRoundTrip(st.token);
  }

  method PollStep(db: MsgDb, cache: BotCache, c: Decoder, w: Surroundings, cachedMax: i64, since: i64, now: int,
      ghost st: State)
      returns (nextBatch: i64, messages: seq<MessageEvent>)
    requires Matches(db, cache, st) && st.begun == Some(cachedMax) && cachedMax >= 0 && st.token == since
    requires st.clock <= now
    modifies cache
    ensures var next := Take(c, st, Poll(now, w));
            && Matches(db, cache, next) && next.token == nextBatch
            && (messages == [] ==> next == st.(clock := now))
            && (messages != [] ==>
                  next.responses == st.responses + [Response(since, nextBatch, st.log, now, w, messages)])
  {
    hide Fetched, HasNewer;
    nextBatch, messages := cache.Poll(db, c, w, cachedMax, since, now);
  }

  /** Another client's request, which began when the maximum was not higher. */
  method OtherStep(db: MsgDb, cache: BotCache, c: Decoder, w: Surroundings, cachedMax: i64, since: i64, now: int,
      ghost st: State)
    requires Matches(db, cache, st) && 0 <= cachedMax <= st.maxMid && since <= cachedMax && st.clock <= now
    modifies cache
    ensures Matches(db, cache, Take(c, st, OtherSync(cachedMax, since, now, w)))
  {
    hide Fetched, HasNewer;
    var nextBatch, messages := cache.Poll(db, c, w, cachedMax, since, now);
  }

  // ---------- what every reachable state satisfies ----------

  ghost predicate ResponseOk(c: Decoder, r: Response) {
    && r.events != [] && r.events == Fetched(c, r.w, r.now, r.log, r.since)
    && r.next == r.events[|r.events| - 1].mid && r.since < r.next
  }

  /** The answers cover the ids one range after the other, without a gap, up to the token. */
  ghost predicate Tiled(responses: seq<Response>, token: i64) {
    && (forall i :: 0 <= i < |responses| - 1 ==> responses[i].next == responses[i + 1].since)
    && (responses != [] ==> responses[|responses| - 1].next == token)
  }

  ghost predicate Inv(c: Decoder, st: State) {
    && (st.begun.Some? ==> st.token <= st.begun.value <= st.maxMid)
    && (st.responses != [] ==> st.token <= st.maxMid)
    && (forall i :: 0 <= i < |st.responses| ==> ResponseOk(c, st.responses[i]))
    && Tiled(st.responses, st.token)
  }

  lemma PollKeeps(c: Decoder, st: State, now: int, w: Surroundings)
    requires Inv(c, st) && st.begun.Some?
    ensures Inv(c, Polled(c, st, now, w))
  {
    hide Fetched, HasNewer;
    FetchedAscends(c, w, now, st.log, st.token);
  }

  lemma StepKeeps(c: Decoder, st: State, step: Step)
    requires Inv(c, st) && Enabled(st, step)
    ensures Inv(c, Take(c, st, step))
  {
    hide Polled, ResponseOk;
    if step.Poll? { PollKeeps(c, st, step.now, step.w); }
  }

  lemma {:induction false} RunKeeps(c: Decoder, start: State, steps: seq<Step>)
    requires Inv(c, start)
    ensures Inv(c, Run(c, start, steps))
  {
    hide Inv, Take;
    if steps != [] {
      RunKeeps(c, start, steps[..|steps| - 1]);
      var st, step := Run(c, start, steps[..|steps| - 1]), steps[|steps| - 1];
      if Enabled(st, step) { StepKeeps(c, st, step); }
    }
  }

  /** Answers are only added, and the first one starts where the client did, or before. */
  ghost predicate Continues(start: State, end: State) {
    && |start.responses| <= |end.responses| && end.responses[..|start.responses|] == start.responses
    && (end.responses == start.responses ==> end.token <= start.token)
    && (start.responses == [] && end.responses != [] ==> end.responses[0].since <= start.token)
  }

  lemma {:induction false} RunContinues(c: Decoder, start: State, steps: seq<Step>)
    requires Inv(c, start)
    ensures Continues(start, Run(c, start, steps))
  {
    hide Answer, ResponseOk, Tiled;
    if steps != [] {
      RunContinues(c, start, steps[..|steps| - 1]);
      RunKeeps(c, start, steps[..|steps| - 1]);
    }
  }

  /** A client that has got no answer yet, whatever its first token is. */
  ghost predicate Fresh(st: State) { st.responses == [] && st.begun.None? }

  lemma {:induction false} RangesAscend(c: Decoder, responses: seq<Response>, token: i64, i: nat, j: nat)
    requires Tiled(responses, token) && i < j < |responses|
    requires forall k :: 0 <= k < |responses| ==> responses[k].since < responses[k].next
    ensures responses[i].next <= responses[j].since
  {
    if i + 1 < j { RangesAscend(c, responses, token, i, j - 1); }
  }

  lemma ResponseFacts(c: Decoder, r: Response)
    requires ResponseOk(c, r)
    ensures AscendingEvents(r.events)
    ensures forall k :: 0 <= k < |r.events| ==> r.since < r.events[k].mid <= r.next && r.events[k].mid in r.log
  {
    hide Fetched;
    FetchedAscends(c, r.w, r.now, r.log, r.since);
  }

  /** No message is delivered twice, and they come in the order of their ids. */
  lemma NoRepeats(c: Decoder, start: State, steps: seq<Step>, i: nat, j: nat, k: nat, l: nat)
    requires Fresh(start)
    requires var rs := Run(c, start, steps).responses;
             i <= j < |rs| && k < |rs[i].events| && l < |rs[j].events| && (i == j ==> k < l)
    ensures var rs := Run(c, start, steps).responses; rs[i].events[k].mid < rs[j].events[l].mid
  {
    hide Run;
    RunKeeps(c, start, steps);
    var st := Run(c, start, steps);
    ResponseFacts(c, st.responses[i]);
    ResponseFacts(c, st.responses[j]);
    hide Fetched;
    if i < j { RangesAscend(c, st.responses, st.token, i, j); }
  }

  /** Which answer had to deliver a message with a given id. */
  lemma AnswerFor(c: Decoder, responses: seq<Response>, token: i64, m: i64) returns (i: nat)
    requires Tiled(responses, token) && responses != [] && responses[0].since < m <= token
    ensures i < |responses| && responses[i].since < m <= responses[i].next
  {
    i := |responses| - 1;
    while responses[i].since >= m
      invariant i < |responses| && m <= responses[i].next
      decreases i
    {
      i := i - 1;
    }
  }

  ghost predicate Delivered(r: Response, m: i64) { exists k :: 0 <= k < |r.events| && r.events[k].mid == m }

  /** Of all ids between the first and the current token, each falls into exactly one answer, which
      delivered the message exactly when it was stored and wanted at that moment. So what a
      chain of syncs misses is what was still being sent when a higher id was delivered. */
  lemma WhatIsMissed(c: Decoder, start: State, steps: seq<Step>, m: i64) returns (i: nat)
    requires Fresh(start) && start.token < m <= Run(c, start, steps).token
    ensures var rs := Run(c, start, steps).responses;
            && i < |rs| && rs[i].since < m <= rs[i].next
            && (Delivered(rs[i], m) <==> Wanted(c, rs[i].w, rs[i].now, rs[i].log, rs[i].since, m))
            && forall j :: 0 <= j < |rs| && j != i ==> !Delivered(rs[j], m)
  {
    hide Run, Fetched;
    RunKeeps(c, start, steps);
    RunContinues(c, start, steps);
    var st := Run(c, start, steps);
    i := AnswerFor(c, st.responses, st.token, m);
    var r := st.responses[i];
    FetchedIsComplete(c, r.w, r.now, r.log, r.since, m);
    forall j | 0 <= j < |st.responses| && j != i ensures !Delivered(st.responses[j], m) {
      ResponseFacts(c, st.responses[j]);
      RangesAscend(c, st.responses, st.token, if i < j then i else j, if i < j then j else i);
    }
  }

  // ---------- ids in flight ----------

  /** Ids are taken in order and stored at most once, and nobody knows of one that is in flight. */
  ghost predicate IdsOk(st: State) {
    && 1 <= st.nextId && 0 <= st.maxMid < st.nextId
    && (forall m :: m in st.inFlight ==> 1 <= m < st.nextId && m !in st.log)
    && (forall m :: m in st.log ==> 1 <= m < st.nextId)
    && (forall j :: 0 <= j < |st.responses| ==>
          st.responses[j].log.Keys !! st.inFlight && forall m :: m in st.responses[j].log ==> m < st.nextId)
  }

  lemma PollKeepsIds(c: Decoder, st: State, now: int, w: Surroundings)
    requires IdsOk(st) && st.begun.Some?
    ensures IdsOk(Polled(c, st, now, w))
  {
    hide Fetched, HasNewer;
    FetchedAscends(c, w, now, st.log, st.token);
    var end := Polled(c, st, now, w);
    forall j | 0 <= j < |end.responses|
      ensures end.responses[j].log.Keys !! st.inFlight && forall m :: m in end.responses[j].log ==> m < st.nextId
    {
      if j < |st.responses| { assert end.responses[j] == st.responses[j]; }
    }
  }

  lemma OtherKeepsIds(c: Decoder, st: State, step: Step)
    requires IdsOk(st) && Enabled(st, step) && step.OtherSync?
    ensures IdsOk(Take(c, st, step))
  {
    hide Fetched, HasNewer;
    FetchedAscends(c, step.w, step.now, st.log, step.since);
  }

  lemma {:induction false} RunKeepsIds(c: Decoder, start: State, steps: seq<Step>)
    requires IdsOk(start)
    ensures IdsOk(Run(c, start, steps))
  {
    hide Polled, MaxAfter;
    if steps != [] {
      RunKeepsIds(c, start, steps[..|steps| - 1]);
      var st, step := Run(c, start, steps[..|steps| - 1]), steps[|steps| - 1];
      if Enabled(st, step) {
        if step.Poll? { PollKeepsIds(c, st, step.now, step.w); }
        if step.OtherSync? { OtherKeepsIds(c, st, step); }
      }
    }
  }

  /** The message is delivered by some answer of the run that goes on from `st`. */
  ghost predicate DeliveredBy(c: Decoder, st: State, more: seq<Step>, m: i64) {
    exists i :: 0 <= i < |Run(c, st, more).responses| && Delivered(Run(c, st, more).responses[i], m)
  }

  /** Whoever asks again is not asking for anything up to `m`. */
  ghost predicate Past(st: State, m: i64) { m <= st.token && m <= st.maxMid }

  lemma {:induction false} PastStays(c: Decoder, st: State, more: seq<Step>, m: i64)
    requires Inv(c, st) && Past(st, m)
    ensures Past(Run(c, st, more), m) && |st.responses| <= |Run(c, st, more).responses|
    ensures forall i :: |st.responses| <= i < |Run(c, st, more).responses| ==> m <= Run(c, st, more).responses[i].since
  {
    hide Answer, ResponseOk, Tiled;
    if more != [] {
      PastStays(c, st, more[..|more| - 1], m);
      RunKeeps(c, st, more[..|more| - 1]);
      RunKeeps(c, st, more);
      var before, step := Run(c, st, more[..|more| - 1]), more[|more| - 1];
      if Enabled(before, step) && step.Poll? { TokenGrows(c, before, step.now, step.w); }
    }
  }

  lemma TokenGrows(c: Decoder, st: State, now: int, w: Surroundings)
    requires st.begun.Some?
    ensures st.token <= Polled(c, st, now, w).token
  {
    hide Fetched, HasNewer;
    FetchedAscends(c, w, now, st.log, st.token);
  }

  /** Behind a token below -1 a scan finds nothing, and the token stays there. */
  lemma {:induction false} NegativeTokenStays(c: Decoder, st: State, more: seq<Step>)
    requires st.token < -1
    ensures Run(c, st, more).token < -1 && Run(c, st, more).responses == st.responses
  {
    if more != [] {
      NegativeTokenStays(c, st, more[..|more| - 1]);
      var before, step := Run(c, st, more[..|more| - 1]), more[|more| - 1];
      if Enabled(before, step) && step.Poll? {
        assert Rows(before.log, before.token) == [];
        assert Answer(c, before, step.now, step.w) == [];
      }
    }
  }

  /** What a message needs so that the bots would get it. */
  ghost predicate Current(c: Decoder, now: int, w: Surroundings, entry: Entry) {
    Passes(w, w.bots, now, INITIAL_AGE_SECONDS, c(entry.data))
  }

  /** In a store with at most 1000 messages everything wanted is fetched. */
  lemma FewAreFetched(c: Decoder, w: Surroundings, now: int, log: Log, since: i64, m: i64)
    requires |log| <= FETCH_LIMIT && -1 <= since < m && Wanted(c, w, now, log, since, m)
    ensures exists i :: 0 <= i < |Fetched(c, w, now, log, since)| && Fetched(c, w, now, log, since)[i].mid == m
  {
    var mids := MessageLog.After(log.Keys, Some(since));
    assert m in Sorted(mids);
    var k :| 0 <= k < |Sorted(mids)| && Sorted(mids)[k] == m;
    SubsetSize(mids, log.Keys);
    assert Rows(log, since)[k].0 == m;
    var i := WantedRowIsFetched(c, w, now, log, since, k);
  }

  /** Once the client and the cache have passed an id that is in flight, its message is delivered by nobody's
      further sync of this client. */
  lemma PassedIsOver(c: Decoder, st: State, more: seq<Step>, m: i64)
    requires Inv(c, st) && Past(st, m)
    requires forall j :: 0 <= j < |st.responses| ==> m !in st.responses[j].log
    ensures !DeliveredBy(c, st, more, m)
  {
    hide Run, Fetched, Tiled;
    RunKeeps(c, st, more);
    RunContinues(c, st, more);
    PastStays(c, st, more, m);
    var end, k := Run(c, st, more), |st.responses|;
    forall i | 0 <= i < |end.responses| ensures !Delivered(end.responses[i], m) {
      ResponseFacts(c, end.responses[i]);
      if i < k { assert end.responses[i] == end.responses[..k][i] == st.responses[i]; }
    }
  }

  // ---------- a run that loses a message ----------

  /** An empty store and a client that has just begun. */
  function Start(clock: int): State { State(map[], 1, {}, 0, None, 0, clock, []) }

  /** Two senders take the ids 1 and 2; the second is stored first and a sync delivers it. */
  ghost function Overtaking(first: Entry, second: Entry, now: int, w: Surroundings): seq<Step> {
    [TakeId] + [TakeId] + [Store(2, second)] + [Begin] + [Poll(now, w)] + [Store(1, first)]
  }

  lemma OnlyMessage(c: Decoder, w: Surroundings, now: int, entry: Entry)
    requires Current(c, now, w, entry)
    ensures var events := Fetched(c, w, now, map[2 := entry], 0); |events| == 1 && events[0].mid == 2
  {
    var log: Log, mids := map[2 := entry], MessageLog.After({2}, Some(0));
    assert log.Keys == {2} && |log| == 1;
    FewAreFetched(c, w, now, log, 0, 2);
    SubsetSize(mids, log.Keys);
    SelectShorter(AsEvent(c, w, now, MaxAge(0)), Rows(log, 0));
  }

  lemma OvertakenState(c: Decoder, first: Entry, second: Entry, now: int, w: Surroundings)
    requires Current(c, now, w, second)
    ensures var st := Run(c, Start(now), Overtaking(first, second, now, w));
            && st.log == map[1 := first, 2 := second] && st.inFlight == {} && st.token == st.maxMid == 2
            && |st.responses| == 1 && st.responses[0].log == map[2 := second] && Delivered(st.responses[0], 2)
  {
    hide Run, Fetched;
    RunOne(c, Start(now), TakeId);
    RunSnoc(c, Start(now), [TakeId], TakeId);
    RunSnoc(c, Start(now), [TakeId] + [TakeId], Store(2, second));
    RunSnoc(c, Start(now), [TakeId] + [TakeId] + [Store(2, second)], Begin);
    RunSnoc(c, Start(now), [TakeId] + [TakeId] + [Store(2, second)] + [Begin], Poll(now, w));
    RunSnoc(c, Start(now), [TakeId] + [TakeId] + [Store(2, second)] + [Begin] + [Poll(now, w)], Store(1, first));
    var asked := State(map[2 := second], 3, {1}, 0, Some(0), 0, now, []);
    assert Run(c, Start(now), [TakeId] + [TakeId] + [Store(2, second)] + [Begin]) == asked;
    OnlyMessage(c, w, now, second);
    assert 2 in asked.log;
    assert Delivered(Polled(c, asked, now, w).responses[0], 2);
  }

  /** The first message is stored and wanted as much as the second, which was delivered, but no
      further sync will ever deliver it. */
  lemma OvertakenIsLost(c: Decoder, first: Entry, second: Entry, now: int, w: Surroundings, more: seq<Step>)
    requires Current(c, now, w, first) && Current(c, now, w, second)
    ensures var st := Run(c, Start(now), Overtaking(first, second, now, w));
            && Wanted(c, w, now, st.log, Start(now).token, 1) && Wanted(c, w, now, st.log, Start(now).token, 2)
            && |st.responses| == 1 && Delivered(st.responses[0], 2) && !DeliveredBy(c, st, more, 1)
  {
    OvertakenState(c, first, second, now, w);
    hide Run, Fetched;
    RunKeeps(c, Start(now), Overtaking(first, second, now, w));
    PassedIsOver(c, Run(c, Start(now), Overtaking(first, second, now, w)), more, 1);
  }
}
