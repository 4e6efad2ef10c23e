/** Which ids in flight a chain of syncs can still reach: messages that no bot can want stay in the way,
    unless they are a group's and cleared with it. */
module SyncReach {
  import opened Bytes
  import opened Results
  import opened Selection
  import opened Ordered
  import Keys
  import opened MessageLog
  import opened MatrixSync
  import opened Payloads
  import Groups
  import opened GroupKinds
  import opened SyncChain

  // ---------- rows in the way ----------

  ghost function Inside(log: Log, lo: i64, hi: i64): set<i64> { set p | p in log && lo < p < hi }

  /** A scan reaches a message exactly when fewer than 1000 are stored before it. */
  lemma RowReached(log: Log, since: i64, p: i64)
    requires -1 <= since < p && p in log
    ensures (exists k :: 0 <= k < |Rows(log, since)| && Rows(log, since)[k].0 == p)
            <==> |Inside(log, since, p)| < FETCH_LIMIT
  {
    var mids := MessageLog.After(log.Keys, Some(since));
    var s := Sorted(mids);
    assert p in s;
    var k :| 0 <= k < |s| && s[k] == p;
    var part := Inside(log, since, p);
    assert part <= mids;
    forall i | 0 <= i < |mids| ensures s[i] in part <==> i < k { assert s[i] in s; }
    SortedPrefix(mids, part, k);
    assert |part| == k;
    if k < FETCH_LIMIT { assert Rows(log, since)[k].0 == p; }
  }

  // ---------- messages that some sync could want ----------

  /** Whether there are bots, groups and a moment from `clock` on for which a sync would return it. */
  predicate Wantable(c: Decoder, clock: int, maxAge: int, data: bytes) {
    var p := c(data);
    && p.Some? && !p.value.detail.Reaction? && (p.value.target.ToUser? ==> p.value.target.uid != p.value.from)
    && clock - p.value.createdAt <= maxAge * 1000
  }

  /** Some continuation delivers the message with this id. */
  ghost predicate CanReach(c: Decoder, st: State, m: i64) { exists more :: DeliveredBy(c, st, more, m) }

  /** Surroundings with one more bot, to which the message is addressed. */
  function WithBot(w: Surroundings, p: Payload): Surroundings {
    match p.target
    case ToUser(uid) => w.(bots := w.bots + [uid])
    case ToGroup(gid) =>
      w.(bots := w.bots + [if p.from == 0 then 1 else 0], groups := w.groups[gid := Groups.Group(Public, "", "", {})])
  }

  /** Both messages can be wanted at once. */
  lemma WantedTogether(c: Decoder, w: Surroundings, now: int, maxAge: int, first: bytes, second: bytes)
    requires Wantable(c, now, maxAge, first) && Passes(w, w.bots, now, maxAge, c(second))
    ensures var w' := WithBot(w, c(first).value);
            Passes(w', w'.bots, now, maxAge, c(first)) && Passes(w', w'.bots, now, maxAge, c(second))
  {
    var p := c(first).value;
    var w', q := WithBot(w, p), c(second).value;
    var bot := w'.bots[|w.bots|];
    assert bot in w'.bots && IsForBot(w'.groups, bot, p);
    var other :| other in w.bots && IsForBot(w.groups, other, q);
    assert other in w'.bots && IsForBot(w'.groups, other, q);
  }

  lemma WantableExactly(c: Decoder, clock: int, maxAge: int, data: bytes)
    ensures Wantable(c, clock, maxAge, data)
            <==> exists w: Surroundings, now: int :: clock <= now && Passes(w, w.bots, now, maxAge, c(data))
  {
    if Wantable(c, clock, maxAge, data) {
      var p := c(data).value;
      var w := WithBot(Surroundings(map[], map[], [], ""), p);
      assert w.bots[0] in w.bots && IsForBot(w.groups, w.bots[0], p);
      assert Passes(w, w.bots, clock, maxAge, c(data));
    }
  }

  // ---------- a way to the id ----------

  /** A place where the token stops, and the groups that have been cleared by then. */
  datatype Stop = Stop(mid: i64, cleared: set<i64>)

  /** A direct message is never removed, a group's only with its group. */
  predicate Kept(e: Entry, cleared: set<i64>) { e.conversation.Direct? || e.conversation.gid !in cleared }

  /** The messages between two ids that are there once the groups have been cleared. */
  ghost function Remaining(log: Log, cleared: set<i64>, lo: i64, hi: i64): set<i64> {
    set p | p in log && lo < p < hi && Kept(log[p], cleared)
  }

  ghost function Directs(log: Log, lo: i64, hi: i64): set<i64> {
    set p | p in log && lo < p < hi && log[p].conversation.Direct?
  }

  /** How old a message may be for a sync from `a`, in seconds: a client with the token 0 counts as new. */
  function Limit(st: State, a: i64): int {
    if a <= 0 && st.token == 0 then INITIAL_AGE_SECONDS else MAX_MESSAGE_AGE_SECONDS
  }

  /** The token can stop where an id is in flight, whose message may turn out to be wanted, and at a message
      that is still there, is still young enough and can be wanted. */
  ghost predicate CanStop(c: Decoder, st: State, maxAge: int, b: Stop) {
    || b.mid in st.inFlight
    || (b.mid in st.log && Kept(st.log[b.mid], b.cleared) && Wantable(c, st.clock, maxAge, st.log[b.mid].data))
  }

  /** One sync can take the token from one stop to the next: fewer than 1000 messages lie between. */
  ghost predicate Leg(c: Decoder, st: State, a: Stop, b: Stop) {
    && a.mid < b.mid && a.cleared <= b.cleared && CanStop(c, st, Limit(st, a.mid), b)
    && |Remaining(st.log, b.cleared, a.mid, b.mid)| < FETCH_LIMIT
  }

  /** Where the client's next request starts. */
  function From(st: State): i64 { Keys.Min(st.token, st.maxMid) }

  ghost predicate Chain(c: Decoder, st: State, stops: seq<Stop>, m: i64) {
    && stops != [] && stops[0] == Stop(From(st), {}) && stops[|stops| - 1].mid < m
    && forall i :: 0 <= i < |stops| - 1 ==> Leg(c, st, stops[i], stops[i + 1])
  }

  /** From the last stop the id is in reach once every group is cleared. */
  ghost predicate Bridges(c: Decoder, st: State, stops: seq<Stop>, m: i64) {
    Chain(c, st, stops, m) && |Directs(st.log, stops[|stops| - 1].mid, m)| < FETCH_LIMIT
  }

  ghost predicate Bridged(c: Decoder, st: State, m: i64) { exists stops :: Bridges(c, st, stops, m) }

  // ---------- without a way the message is never delivered ----------

  ghost function ClearedIn(more: seq<Step>): set<i64> {
    if more == [] then {} else
      var last := more[|more| - 1];
      ClearedIn(more[..|more| - 1]) + if last.ClearGroup? then {last.gid} else {}
  }

  /** What became of the messages and ids of `o`, and that everything else has a new id. */
  ghost predicate Tracks(o: State, s: State, cleared: set<i64>) {
    && o.nextId <= s.nextId && o.clock <= s.clock
    && From(o) <= s.token && o.maxMid <= s.maxMid && (o.token <= o.maxMid ==> s.token <= s.maxMid)
    && (forall p :: p in s.inFlight ==> p in o.inFlight || p >= o.nextId)
    && (forall p :: p in s.log ==>
          p >= o.nextId || p in o.inFlight || (p in o.log && s.log[p] == o.log[p] && Kept(o.log[p], cleared)))
    && (forall p :: p in o.log && Kept(o.log[p], cleared) ==> p in s.log && s.log[p] == o.log[p])
  }

  lemma StepTracks(c: Decoder, o: State, s: State, step: Step, cleared: set<i64>)
    requires IdsOk(o) && Tracks(o, s, cleared) && Enabled(s, step)
    ensures Tracks(o, Take(c, s, step), cleared + if step.ClearGroup? then {step.gid} else {})
  {
    hide Polled, MaxAfter;
    if step.Poll? { PolledKeepsStore(c, s, step.now, step.w); }
  }

  lemma PolledKeepsStore(c: Decoder, s: State, now: int, w: Surroundings)
    requires s.begun.Some?
    ensures var end := Polled(c, s, now, w);
            && end.log == s.log && end.inFlight == s.inFlight && end.nextId == s.nextId && end.clock == now
            && s.token <= end.token && s.maxMid <= end.maxMid && (s.token <= s.maxMid ==> end.token <= end.maxMid)
  {
    hide Fetched, HasNewer;
    FetchedAscends(c, w, now, s.log, s.token);
  }

  lemma {:induction false} RunTracks(c: Decoder, o: State, more: seq<Step>)
    requires IdsOk(o)
    ensures Tracks(o, Run(c, o, more), ClearedIn(more))
  {
    hide Take, Tracks;
    if more == [] {
      TracksItself(o);
    } else {
      RunTracks(c, o, more[..|more| - 1]);
      var s, step := Run(c, o, more[..|more| - 1]), more[|more| - 1];
      var cleared := ClearedIn(more[..|more| - 1]);
      assert cleared + {} == cleared;
      if Enabled(s, step) { StepTracks(c, o, s, step, cleared); }
    }
  }

  lemma TracksItself(o: State)
    ensures Tracks(o, o, {})
  {}

  /** A way has been found up to where the client, or the cache, is now. */
  ghost predicate OnWay(c: Decoder, o: State, stops: seq<Stop>, m: i64, from: i64, cleared: set<i64>) {
    Chain(c, o, stops, m) && stops[|stops| - 1].cleared <= cleared && from <= stops[|stops| - 1].mid
  }

  ghost predicate Underway(c: Decoder, o: State, m: i64, from: i64, cleared: set<i64>) {
    exists stops :: OnWay(c, o, stops, m, from, cleared)
  }

  /** A sync that starts no further on and returns `e` last: the way leads up to there as well, or on to `m`. */
  lemma WayLengthens(c: Decoder, o: State, s: State, m: i64, since: i64, e: i64, stops: seq<Stop>, cleared: set<i64>)
    requires IdsOk(o) && m in o.inFlight && Tracks(o, s, cleared) && OnWay(c, o, stops, m, since, cleared)
    requires since < e && e in s.log && |Inside(s.log, since, e)| < FETCH_LIMIT
    requires Wantable(c, o.clock, Limit(o, stops[|stops| - 1].mid), s.log[e].data)
    ensures Bridged(c, o, m) || Underway(c, o, m, e, cleared)
  {
    var q := stops[|stops| - 1];
    if e <= q.mid {
      assert OnWay(c, o, stops, m, e, cleared);
    } else if e < m {
      var longer := stops + [Stop(e, cleared)];
      SubsetSize(Remaining(o.log, cleared, q.mid, e), Inside(s.log, since, e));
      assert Leg(c, o, q, Stop(e, cleared));
      assert OnWay(c, o, longer, m, e, cleared);
    } else {
      SubsetSize(Directs(o.log, q.mid, m), Inside(s.log, since, e));
      assert Bridges(c, o, stops, m);
    }
  }

  /** What a sync returns last is in reach and can be wanted. */
  lemma LastFetched(c: Decoder, w: Surroundings, now: int, log: Log, since: i64)
    requires Fetched(c, w, now, log, since) != []
    ensures var e := Fetched(c, w, now, log, since)[|Fetched(c, w, now, log, since)| - 1].mid;
            && -1 <= since < e && e in log && Wantable(c, now, MaxAge(since), log[e].data)
            && |Inside(log, since, e)| < FETCH_LIMIT
  {
    var events, rows, f := Fetched(c, w, now, log, since), Rows(log, since), AsEvent(c, w, now, MaxAge(since));
    var e := events[|events| - 1].mid;
    RowFacts(log, since);
    var k := SelectOrigin(f, rows, |events| - 1);
    ForSomeBotIsPasses(w, w.bots, now, MaxAge(since), rows[k].0, c(rows[k].1));
    assert rows[k].0 == e;
    assert since < -1 ==> Rows(log, since) == [];
    RowReached(log, since, e);
  }

  /** What a sync could want, it could have wanted before, unless the client was new and is not any more. */
  lemma LimitAllows(c: Decoder, o: State, s: State, cleared: set<i64>, since: i64, now: int, q: i64, data: bytes)
    requires IdsOk(o) && Tracks(o, s, cleared) && s.clock <= now && since <= q
    requires since == s.token || s.maxMid < s.token
    requires Wantable(c, now, MaxAge(since), data)
    ensures Wantable(c, o.clock, Limit(o, q), data)
  {}

  lemma UnderwayWeaker(c: Decoder, o: State, m: i64, from: i64, cleared: set<i64>, from': i64, cleared': set<i64>)
    requires Underway(c, o, m, from, cleared) && from' <= from && cleared <= cleared'
    ensures Underway(c, o, m, from', cleared')
  {
    hide Chain;
    var stops :| OnWay(c, o, stops, m, from, cleared);
    assert OnWay(c, o, stops, m, from', cleared');
  }

  lemma WayEnd(c: Decoder, o: State, stops: seq<Stop>, m: i64, from: i64, cleared: set<i64>)
    requires OnWay(c, o, stops, m, from, cleared)
    ensures stops != [] && from <= stops[|stops| - 1].mid
  {}

  lemma PollOnWay(c: Decoder, o: State, s: State, now: int, w: Surroundings, m: i64, cleared: set<i64>)
    requires IdsOk(o) && Inv(c, s) && m in o.inFlight && Tracks(o, s, cleared) && Enabled(s, Poll(now, w))
    requires !Bridged(c, o, m) && Underway(c, o, m, From(s), cleared)
    ensures Underway(c, o, m, From(Polled(c, s, now, w)), cleared)
  {
    hide Bridged, Tracks, Fetched, Chain, Wantable, IdsOk, HasNewer;
    var stops: seq<Stop> :| OnWay(c, o, stops, m, From(s), cleared);
    var events := Answer(c, s, now, w);
    if events != [] {
      LastFetched(c, w, now, s.log, s.token);
      var e := events[|events| - 1].mid;
      WayEnd(c, o, stops, m, From(s), cleared);
      LimitAllows(c, o, s, cleared, s.token, now, stops[|stops| - 1].mid, s.log[e].data);
      WayLengthens(c, o, s, m, s.token, e, stops, cleared);
    }
  }

  lemma OtherOnWay(c: Decoder, o: State, s: State, step: Step, m: i64, cleared: set<i64>)
    requires IdsOk(o) && m in o.inFlight && Tracks(o, s, cleared) && step.OtherSync? && Enabled(s, step)
    requires !Bridged(c, o, m) && Underway(c, o, m, From(s), cleared)
    ensures Underway(c, o, m, From(Take(c, s, step)), cleared)
  {
    hide Bridged, Tracks, Fetched, Chain, Wantable, IdsOk, HasNewer;
    var after := Take(c, s, step);
    if From(after) != From(s) {
      var stops: seq<Stop> :| OnWay(c, o, stops, m, From(s), cleared);
      LastFetched(c, step.w, step.now, s.log, step.since);
      assert OnWay(c, o, stops, m, step.since, cleared);
      WayEnd(c, o, stops, m, step.since, cleared);
      LimitAllows(c, o, s, cleared, step.since, step.now, stops[|stops| - 1].mid, s.log[after.maxMid].data);
      WayLengthens(c, o, s, m, step.since, after.maxMid, stops, cleared);
      UnderwayWeaker(c, o, m, after.maxMid, cleared, From(after), cleared);
    }
  }

  lemma OnWayStep(c: Decoder, o: State, s: State, step: Step, m: i64, cleared: set<i64>)
    requires IdsOk(o) && Inv(c, s) && m in o.inFlight && Tracks(o, s, cleared) && Enabled(s, step)
    requires !Bridged(c, o, m) && Underway(c, o, m, From(s), cleared)
    ensures Underway(c, o, m, From(Take(c, s, step)), cleared + if step.ClearGroup? then {step.gid} else {})
  {
    hide Bridged, Tracks, Underway, IdsOk, Inv, Polled, MaxAfter;
    if step.Poll? {
      PollOnWay(c, o, s, step.now, step.w, m, cleared);
    } else if step.OtherSync? {
      OtherOnWay(c, o, s, step, m, cleared);
    }
    var end := From(Take(c, s, step));
    UnderwayWeaker(c, o, m, end, cleared, end, cleared + if step.ClearGroup? then {step.gid} else {});
  }

  lemma {:induction false} RunOnWay(c: Decoder, o: State, more: seq<Step>, m: i64)
    requires IdsOk(o) && Inv(c, o) && m in o.inFlight && From(o) < m && !Bridged(c, o, m)
    ensures Underway(c, o, m, From(Run(c, o, more)), ClearedIn(more))
  {
    hide Bridged, IdsOk, Inv, Take, Enabled, Chain;
    if more == [] {
      assert OnWay(c, o, [Stop(From(o), {})], m, From(o), {}) by { FirstStop(c, o, m); }
    } else {
      var before := more[..|more| - 1];
      hide Underway;
      RunOnWay(c, o, before, m);
      RunTracks(c, o, before);
      RunKeeps(c, o, before);
      var s, step, cleared := Run(c, o, before), more[|more| - 1], ClearedIn(before);
      if Enabled(s, step) {
        OnWayStep(c, o, s, step, m, cleared);
      } else {
        UnderwayWeaker(c, o, m, From(s), cleared, From(s), ClearedIn(more));
      }
    }
  }

  lemma FirstStop(c: Decoder, o: State, m: i64)
    requires From(o) < m
    ensures Chain(c, o, [Stop(From(o), {})], m)
  {}

  /** Without a way to it an id in flight is out of reach for good. */
  lemma NotBridgedIsOver(c: Decoder, o: State, more: seq<Step>, m: i64)
    requires IdsOk(o) && Inv(c, o) && m in o.inFlight && !Bridged(c, o, m)
    ensures !DeliveredBy(c, o, more, m)
  {
    hide Bridged, Run, Fetched, Chain;
    if From(o) >= m {
      PassedIsOver(c, o, more, m);
    } else {
      RunOnWay(c, o, more, m);
      RunKeeps(c, o, more);
      var end := Run(c, o, more);
      var stops :| OnWay(c, o, stops, m, From(end), ClearedIn(more));
      assert From(end) < m by { ChainBelow(c, o, stops, m); }
      hide OnWay, Underway, IdsOk;
      forall i | 0 <= i < |end.responses| ensures !Delivered(end.responses[i], m) {
        ResponseFacts(c, end.responses[i]);
        if i < |end.responses| - 1 { RangesAscend(c, end.responses, end.token, i, |end.responses| - 1); }
      }
    }
  }

  lemma ChainBelow(c: Decoder, o: State, stops: seq<Stop>, m: i64)
    requires Chain(c, o, stops, m)
    ensures stops[|stops| - 1].mid < m
  {}

  // ---------- on a way the message can be delivered ----------

  /** A sync goes on to what is in reach and wanted, or further. */
  lemma FetchReaches(c: Decoder, w: Surroundings, now: int, log: Log, since: i64, b: i64)
    requires -1 <= since < b && b in log && |Inside(log, since, b)| < FETCH_LIMIT
    requires Passes(w, w.bots, now, MaxAge(since), c(log[b].data))
    ensures var events := Fetched(c, w, now, log, since); events != [] && b <= events[|events| - 1].mid
  {
    hide Fetched, Rows, Passes;
    RowReached(log, since, b);
    RowFacts(log, since);
    var k :| 0 <= k < |Rows(log, since)| && Rows(log, since)[k].0 == b;
    var i := WantedRowIsFetched(c, w, now, log, since, k);
    FetchedAscends(c, w, now, log, since);
    var events := Fetched(c, w, now, log, since);
    assert events[i].mid <= events[|events| - 1].mid;
  }

  /** The client asks once more, while `n` is newer than all that the cache has seen: what is in reach and wanted
      is passed, and if the message `m` is, it is delivered. */
  lemma PollReaches(c: Decoder, s: State, w: Surroundings, now: int, b: i64, m: i64, n: i64)
    requires s.begun.None? && s.clock <= now && -1 <= From(s) && s.maxMid < n && n in s.log
    requires From(s) < b <= m && b in s.log && m in s.log && |Inside(s.log, From(s), b)| < FETCH_LIMIT
    requires Passes(w, w.bots, now, MaxAge(From(s)), c(s.log[b].data))
    requires Passes(w, w.bots, now, MaxAge(From(s)), c(s.log[m].data))
    ensures var end := Run(c, s, [Begin] + [Poll(now, w)]);
            && end.log == s.log && end.inFlight == s.inFlight && end.begun.None? && end.clock == now
            && |end.responses| == |s.responses| + 1 && b <= end.token && end.maxMid == Keys.Max(s.maxMid, end.token)
            && (end.token >= m ==> Delivered(end.responses[|s.responses|], m))
  {
    RunOne(c, s, Begin);
    RunSnoc(c, s, [Begin], Poll(now, w));
    hide Run, Fetched, Rows;
    var since := From(s);
    var asked := s.(begun := Some(s.maxMid), token := since);
    assert Run(c, s, [Begin]) == asked && HasNewer(s.log, s.maxMid);
    var events := Fetched(c, w, now, s.log, since);
    FetchReaches(c, w, now, s.log, since, b);
    if events[|events| - 1].mid >= m { FetchedIsComplete(c, w, now, s.log, since, m); }
  }

  /** The log without the groups. */
  ghost function Left(log: Log, groups: set<i64>): Log { map p | p in log && Kept(log[p], groups) :: log[p] }

  lemma {:induction false} ClearAll(c: Decoder, s: State, groups: set<i64>) returns (steps: seq<Step>)
    ensures Run(c, s, steps) == s.(log := Left(s.log, groups))
  {
    if groups == {} {
      steps := [];
      assert Left(s.log, {}) == s.log;
    } else {
      var gid :| gid in groups;
      var first := ClearAll(c, s, groups - {gid});
      steps := first + [ClearGroup(gid)];
      RunSnoc(c, s, first, ClearGroup(gid));
      var log := Left(s.log, groups - {gid});
      assert log - History(log, InGroup(gid)) == Left(s.log, groups);
    }
  }

  /** The client waits; between where it goes on and `m` all is as in `o` but for the groups that have been
      cleared; `m` is stored, and `n` is newer than all that the cache has seen; no time has passed. */
  ghost predicate Ready(o: State, s: State, cleared: set<i64>, m: i64, n: i64, entry: Entry) {
    && entry.conversation.Direct? && s.begun.None? && -1 <= From(s) < m < n && s.maxMid < n && s.clock == o.clock
    && n in s.log && s.log[n] == entry && m in s.log && s.log[m] == entry
    && (forall p :: From(s) < p < m && p in s.log ==> p in o.log && s.log[p] == o.log[p] && Kept(o.log[p], cleared))
    && (forall p :: From(s) < p < m && p in o.log && Kept(o.log[p], cleared) ==> p in s.log)
    && (forall p :: From(s) < p < m && p in o.inFlight ==> p in s.inFlight)
  }

  lemma ClearedReady(o: State, s: State, cleared: set<i64>, m: i64, n: i64, entry: Entry, groups: set<i64>)
    requires Ready(o, s, cleared, m, n, entry) && cleared <= groups
    ensures Ready(o, s.(log := Left(s.log, groups)), groups, m, n, entry)
  {}

  ghost predicate Got(s: State, m: i64) { exists i :: 0 <= i < |s.responses| && Delivered(s.responses[i], m) }

  /** The surroundings for which a stop and the message `m` are both wanted, without time passing. */
  lemma BothWanted(c: Decoder, w: Surroundings, now: int, clock: int, maxAge: int, data: bytes, entry: Entry)
      returns (w': Surroundings)
    requires Wantable(c, clock, maxAge, data) && Current(c, now, w, entry)
    requires clock <= now && INITIAL_AGE_SECONDS <= maxAge
    ensures Passes(w', w'.bots, clock, maxAge, c(data)) && Passes(w', w'.bots, clock, maxAge, c(entry.data))
  {
    CurrentPasses(c, w, now, clock, maxAge, entry);
    w' := WithBot(w, c(data).value);
    WantedTogether(c, w, clock, maxAge, data, entry.data);
  }

  lemma CurrentPasses(c: Decoder, w: Surroundings, now: int, clock: int, maxAge: int, entry: Entry)
    requires Current(c, now, w, entry) && clock <= now && INITIAL_AGE_SECONDS <= maxAge
    ensures Passes(w, w.bots, clock, maxAge, c(entry.data)) && Wantable(c, clock, maxAge, entry.data)
  {}

  /** The stop is there: stored before, or stored now if its id is in flight. */
  ghost function AtStop(o: State, s: State, b: Stop, entry: Entry): State {
    if b.mid in o.inFlight then s.(log := s.log[b.mid := entry], inFlight := s.inFlight - {b.mid}) else s
  }

  lemma StopStored(c: Decoder, o: State, s: State, b: Stop, m: i64, n: i64, entry: Entry, maxAge: int)
      returns (store: seq<Step>)
    requires Ready(o, s, b.cleared, m, n, entry) && Wantable(c, o.clock, maxAge, entry.data)
    requires o.inFlight !! o.log.Keys && CanStop(c, o, maxAge, b) && From(s) < b.mid < m
    ensures Run(c, s, store) == AtStop(o, s, b, entry)
    ensures var log := AtStop(o, s, b, entry).log;
            && b.mid in log && Wantable(c, o.clock, maxAge, log[b.mid].data)
            && Inside(log, From(s), b.mid) == Remaining(o.log, b.cleared, From(s), b.mid)
  {
    store := if b.mid in o.inFlight then [Store(b.mid, entry)] else [];
    RunOne(c, s, Store(b.mid, entry));
    hide Wantable;
  }

  /** Behind the stop all is ready again. */
  lemma ReadyBehind(o: State, s: State, end: State, b: Stop, m: i64, n: i64, entry: Entry)
    requires Ready(o, s, b.cleared, m, n, entry) && From(s) < b.mid <= end.token < m
    requires var there := AtStop(o, s, b, entry);
             end.log == there.log && end.inFlight == there.inFlight && end.begun.None? && end.clock == s.clock
    requires end.maxMid == Keys.Max(s.maxMid, end.token)
    ensures Ready(o, end, b.cleared, m, n, entry) && From(end) == end.token
  {}

  /** From one stop to the next. */
  lemma TakeLeg(c: Decoder, o: State, s: State, b: Stop, m: i64, n: i64, entry: Entry, now: int,
      w: Surroundings) returns (steps: seq<Step>)
    requires Ready(o, s, b.cleared, m, n, entry) && Current(c, now, w, entry) && o.clock <= now
    requires o.inFlight !! o.log.Keys && CanStop(c, o, MaxAge(From(s)), b) && From(s) < b.mid < m
    requires |Remaining(o.log, b.cleared, From(s), b.mid)| < FETCH_LIMIT
    ensures var end := Run(c, s, steps);
            Got(end, m) || (Ready(o, end, b.cleared, m, n, entry) && b.mid <= From(end))
  {
    var maxAge := MaxAge(From(s));
    CurrentPasses(c, w, now, o.clock, maxAge, entry);
    hide Run, Wantable, CanStop, Inside, Remaining, MaxAge;
    var store := StopStored(c, o, s, b, m, n, entry, maxAge);
    var there := AtStop(o, s, b, entry);
    var w' := BothWanted(c, w, now, o.clock, maxAge, there.log[b.mid].data, entry);
    PollReaches(c, there, w', o.clock, b.mid, m, n);
    var poll := [Begin] + [Poll(o.clock, w')];
    RunConcat(c, s, store, poll);
    steps := store + poll;
    var end := Run(c, s, steps);
    if end.token < m {
      ReadyBehind(o, s, end, b, m, n, entry);
    } else {
      hide Ready;
      assert Delivered(end.responses[|there.responses|], m);
    }
  }

  lemma RemainingShrinks(log: Log, cleared: set<i64>, lo: i64, lo': i64, hi: i64)
    requires lo <= lo'
    ensures |Remaining(log, cleared, lo', hi)| <= |Remaining(log, cleared, lo, hi)|
    ensures |Directs(log, lo', hi)| <= |Directs(log, lo, hi)|
  {
    SubsetSize(Remaining(log, cleared, lo', hi), Remaining(log, cleared, lo, hi));
    SubsetSize(Directs(log, lo', hi), Directs(log, lo, hi));
  }

  /** The groups that still have messages. */
  ghost function GroupsOf(log: Log): set<i64> {
    set p | p in log && log[p].conversation.InGroup? :: log[p].conversation.gid
  }

  /** The message itself is in reach. */
  lemma PollDelivers(c: Decoder, o: State, s: State, cleared: set<i64>, m: i64, n: i64, entry: Entry, now: int,
      w: Surroundings)
      returns (steps: seq<Step>)
    requires Ready(o, s, cleared, m, n, entry) && Current(c, now, w, entry) && o.clock <= now
    requires |Inside(s.log, From(s), m)| < FETCH_LIMIT
    ensures Got(Run(c, s, steps), m)
  {
    CurrentPasses(c, w, now, o.clock, MaxAge(From(s)), entry);
    PollReaches(c, s, w, o.clock, m, m, n);
    hide Run;
    steps := [Begin] + [Poll(o.clock, w)];
    assert Delivered(Run(c, s, steps).responses[|s.responses|], m);
  }

  /** From the last stop: every group is cleared, and the message itself is in reach. */
  lemma LastLeg(c: Decoder, o: State, s: State, cleared: set<i64>, m: i64, n: i64, entry: Entry, now: int,
      w: Surroundings)
      returns (steps: seq<Step>)
    requires Ready(o, s, cleared, m, n, entry) && Current(c, now, w, entry) && o.clock <= now
    requires |Directs(o.log, From(s), m)| < FETCH_LIMIT
    ensures Got(Run(c, s, steps), m)
  {
    var groups := cleared + GroupsOf(s.log);
    var clear := ClearAll(c, s, groups);
    ClearedReady(o, s, cleared, m, n, entry, groups);
    var s1 := s.(log := Left(s.log, groups));
    SubsetSize(Inside(s1.log, From(s), m), Directs(o.log, From(s), m));
    hide Run, Ready, Current;
    var poll := PollDelivers(c, o, s1, groups, m, n, entry, now, w);
    RunConcat(c, s, clear, poll);
    steps := clear + poll;
  }

  /** The client is not taken for a new one unless it was one. */
  ghost predicate Fits(o: State, s: State) { From(s) == 0 ==> o.token == 0 }

  lemma StopWithin(c: Decoder, o: State, s: State, a: i64, b: Stop)
    requires CanStop(c, o, Limit(o, a), b) && a <= From(s) && (Fits(o, s) || b.mid in o.inFlight)
    ensures CanStop(c, o, MaxAge(From(s)), b)
  {}

  lemma StopIsPositive(c: Decoder, o: State, maxAge: int, b: Stop)
    requires IdsOk(o) && CanStop(c, o, maxAge, b)
    ensures 1 <= b.mid && o.inFlight !! o.log.Keys
  {}

  lemma {:induction false} FollowChain(c: Decoder, o: State, s: State, stops: seq<Stop>, k: nat, cleared: set<i64>,
      m: i64, n: i64, entry: Entry, now: int, w: Surroundings) returns (steps: seq<Step>)
    requires IdsOk(o) && Bridges(c, o, stops, m) && Current(c, now, w, entry) && o.clock <= now
    requires k < |stops| && Ready(o, s, cleared, m, n, entry) && stops[k].mid <= From(s) && Fits(o, s)
    requires k + 1 < |stops| ==> cleared <= stops[k + 1].cleared
    ensures Got(Run(c, s, steps), m)
    decreases |stops| - k
  {
    hide Run, Ready, Got, Remaining, Directs, CanStop, Current, IdsOk;
    RemainingShrinks(o.log, {}, stops[k].mid, From(s), m);
    if k == |stops| - 1 {
      steps := LastLeg(c, o, s, cleared, m, n, entry, now, w);
    } else {
      var b := stops[k + 1];
      assert Leg(c, o, stops[k], b);
      assert k + 2 < |stops| ==> Leg(c, o, b, stops[k + 2]);
      var clear := ClearAll(c, s, b.cleared);
      ClearedReady(o, s, cleared, m, n, entry, b.cleared);
      var s1 := s.(log := Left(s.log, b.cleared));
      if b.mid <= From(s1) {
        var rest := FollowChain(c, o, s1, stops, k + 1, b.cleared, m, n, entry, now, w);
        RunConcat(c, s, clear, rest);
        steps := clear + rest;
      } else {
        RemainingShrinks(o.log, b.cleared, stops[k].mid, From(s), b.mid);
        StopsAscend(c, o, stops, k + 1, m);
        StopIsPositive(c, o, Limit(o, stops[k].mid), b);
        StopWithin(c, o, s1, stops[k].mid, b);
        var leg := TakeLeg(c, o, s1, b, m, n, entry, now, w);
        RunConcat(c, s, clear, leg);
        steps := clear + leg;
        if !Got(Run(c, s, steps), m) {
          var rest := FollowChain(c, o, Run(c, s1, leg), stops, k + 1, b.cleared, m, n, entry, now, w);
          RunConcat(c, s, steps, rest);
          steps := steps + rest;
        }
      }
    }
  }

  // ---------- a client whose token is ahead of a cache that has seen nothing ----------

  lemma InsideAll(s: State, b: i64)
    requires IdsOk(s) && b > 0
    ensures Inside(s.log, -1, b) == Inside(s.log, 0, b)
  {}

  /** A sync of another client, which starts below every id, reaches the stop and stays in front of `m`. */
  lemma OtherReaches(c: Decoder, s: State, w: Surroundings, b: i64, m: i64, n: i64)
    requires IdsOk(s) && s.maxMid == 0 < s.token && n in s.log && 0 < b < m
    requires b in s.log && |Inside(s.log, 0, b)| < FETCH_LIMIT && |Inside(s.log, 0, m)| >= FETCH_LIMIT
    requires Passes(w, w.bots, s.clock, MAX_MESSAGE_AGE_SECONDS, c(s.log[b].data))
    ensures exists e :: b <= e < m && Run(c, s, [OtherSync(0, -1, s.clock, w)]) == s.(maxMid := e)
  {
    RunOne(c, s, OtherSync(0, -1, s.clock, w));
    hide Run, Fetched, Rows, Passes, IdsOk;
    InsideAll(s, b);
    FetchReaches(c, w, s.clock, s.log, -1, b);
    var events := Fetched(c, w, s.clock, s.log, -1);
    LastFetched(c, w, s.clock, s.log, -1);
    var e := events[|events| - 1].mid;
    if e >= m { SubsetSize(Inside(s.log, 0, m), Inside(s.log, -1, e)); }
    assert HasNewer(s.log, 0);
    assert Run(c, s, [OtherSync(0, -1, s.clock, w)]) == s.(maxMid := e);
  }

  /** Such a client is not taken for a new one once the maximum has moved, and it moves by another client's sync. */
  lemma OtherFirst(c: Decoder, o: State, s: State, b: Stop, m: i64, n: i64, entry: Entry, now: int, w: Surroundings)
      returns (steps: seq<Step>)
    requires IdsOk(s) && s.maxMid == 0 < s.token && s.clock == o.clock
    requires Ready(o, s, b.cleared, m, n, entry) && Current(c, now, w, entry) && o.clock <= now
    requires o.inFlight !! o.log.Keys && CanStop(c, o, MAX_MESSAGE_AGE_SECONDS, b) && b.mid !in o.inFlight
    requires 0 < b.mid < m && |Remaining(o.log, b.cleared, 0, b.mid)| < FETCH_LIMIT
    ensures var end := Run(c, s, steps);
            Got(end, m) || (Ready(o, end, b.cleared, m, n, entry) && 0 < From(end))
  {
    if |Inside(s.log, 0, m)| < FETCH_LIMIT {
      hide Current, Ready, Run;
      steps := PollDelivers(c, o, s, b.cleared, m, n, entry, now, w);
    } else {
      CurrentPasses(c, w, now, o.clock, MAX_MESSAGE_AGE_SECONDS, entry);
      var store := StopStored(c, o, s, b, m, n, entry, MAX_MESSAGE_AGE_SECONDS);
      var w' := BothWanted(c, w, now, o.clock, MAX_MESSAGE_AGE_SECONDS, s.log[b.mid].data, entry);
      hide Run;
      OtherReaches(c, s, w', b.mid, m, n);
      steps := [OtherSync(0, -1, s.clock, w')];
    }
  }

  lemma {:induction false} StopsAscend(c: Decoder, o: State, stops: seq<Stop>, k: nat, m: i64)
    requires Chain(c, o, stops, m) && k < |stops|
    ensures stops[0].mid <= stops[k].mid < m
    decreases |stops| - k
  {
    hide CanStop;
    StopsUp(c, o, stops, 0, k, m);
    StopsUp(c, o, stops, k, |stops| - 1, m);
  }

  lemma {:induction false} StopsUp(c: Decoder, o: State, stops: seq<Stop>, i: nat, j: nat, m: i64)
    requires Chain(c, o, stops, m) && i <= j < |stops|
    ensures stops[i].mid <= stops[j].mid
  {
    hide CanStop;
    if i < j {
      StopsUp(c, o, stops, i, j - 1, m);
      assert Leg(c, o, stops[j - 1], stops[j]);
    }
  }

  /** The message is stored at once, and one more with a new id, so that the polls look at all. */
  ghost function Prepare(o: State, m: i64, entry: Entry): seq<Step>
    requires 1 <= o.nextId < I64_MAX
  {
    [GiveUp] + [TakeId] + [Store(o.nextId, entry)] + [Store(m, entry)]
  }

  lemma Prepared(c: Decoder, o: State, m: i64, entry: Entry)
    requires 1 <= o.nextId < I64_MAX && m in o.inFlight
    ensures Run(c, o, Prepare(o, m, entry)) ==
            o.(begun := None, nextId := o.nextId + 1, inFlight := o.inFlight - {o.nextId} - {m},
               log := o.log[o.nextId := entry][m := entry])
  {
    hide Run, Polled, MaxAfter;
    RunOne(c, o, GiveUp);
    var s1 := o.(begun := None);
    assert Run(c, o, [GiveUp]) == s1;
    RunSnoc(c, o, [GiveUp], TakeId);
    var s2 := s1.(nextId := o.nextId + 1, inFlight := o.inFlight + {o.nextId});
    assert Run(c, o, [GiveUp] + [TakeId]) == s2;
    RunSnoc(c, o, [GiveUp] + [TakeId], Store(o.nextId, entry));
    RunSnoc(c, o, [GiveUp] + [TakeId] + [Store(o.nextId, entry)], Store(m, entry));
  }

  lemma PreparedReady(c: Decoder, o: State, m: i64, entry: Entry)
    requires IdsOk(o) && m in o.inFlight && o.nextId < I64_MAX && -1 <= o.token && From(o) < m
    requires entry.conversation.Direct?
    ensures Ready(o, Run(c, o, Prepare(o, m, entry)), {}, m, o.nextId, entry)
    ensures var s := Run(c, o, Prepare(o, m, entry)); s.token == o.token && s.maxMid == o.maxMid
  {
    Prepared(c, o, m, entry);
  }

  /** The first leg of such a client, after which the others can follow from the start. */
  lemma FirstLeg(c: Decoder, o: State, s: State, b: Stop, m: i64, n: i64, entry: Entry, now: int, w: Surroundings)
      returns (steps: seq<Step>)
    requires IdsOk(o) && IdsOk(s) && s.maxMid == 0 < s.token && From(o) == 0 && Leg(c, o, Stop(0, {}), b) && b.mid < m
    requires Ready(o, s, {}, m, n, entry) && Current(c, now, w, entry) && o.clock <= now
    ensures var end := Run(c, s, steps);
            Got(end, m) || (Ready(o, end, b.cleared, m, n, entry) && 0 < From(end))
  {
    StopIsPositive(c, o, Limit(o, 0), b);
    var clear := ClearAll(c, s, b.cleared);
    ClearedReady(o, s, {}, m, n, entry, b.cleared);
    RunKeepsIds(c, s, clear);
    hide Run, Ready, Got, Remaining, CanStop, Current, IdsOk;
    var s1 := s.(log := Left(s.log, b.cleared));
    var leg;
    if b.mid in o.inFlight {
      StopWithin(c, o, s1, 0, b);
      leg := TakeLeg(c, o, s1, b, m, n, entry, now, w);
    } else {
      StopYoung(c, o, 0, b);
      leg := OtherFirst(c, o, s1, b, m, n, entry, now, w);
    }
    RunConcat(c, s, clear, leg);
    steps := clear + leg;
  }

  lemma StopYoung(c: Decoder, o: State, a: i64, b: Stop)
    requires CanStop(c, o, Limit(o, a), b)
    ensures CanStop(c, o, MAX_MESSAGE_AGE_SECONDS, b)
  {}

  /** A way can be followed from where the message has been stored. */
  lemma FollowWay(c: Decoder, o: State, s: State, stops: seq<Stop>, m: i64, n: i64, entry: Entry, now: int,
      w: Surroundings)
      returns (steps: seq<Step>)
    requires IdsOk(o) && IdsOk(s) && Bridges(c, o, stops, m) && Current(c, now, w, entry) && o.clock <= now
    requires Ready(o, s, {}, m, n, entry) && s.token == o.token && s.maxMid == o.maxMid
    ensures Got(Run(c, s, steps), m)
  {
    hide Run, Got, Current, Ready, Directs, CanStop;
    assert stops[0] == Stop(From(o), {}) && From(s) == From(o);
    assert |stops| > 1 ==> Leg(c, o, stops[0], stops[1]);
    if Fits(o, s) {
      steps := FollowChain(c, o, s, stops, 0, {}, m, n, entry, now, w);
    } else if |stops| == 1 {
      steps := LastLeg(c, o, s, {}, m, n, entry, now, w);
    } else {
      StopsAscend(c, o, stops, 1, m);
      steps := FirstLeg(c, o, s, stops[1], m, n, entry, now, w);
      var s1 := Run(c, s, steps);
      if !Got(s1, m) {
        var rest := FollowChain(c, o, s1, stops, 0, stops[1].cleared, m, n, entry, now, w);
        RunConcat(c, s, steps, rest);
        steps := steps + rest;
      }
    }
  }

  lemma BridgedIsDelivered(c: Decoder, o: State, m: i64, entry: Entry, now: int, w: Surroundings)
    requires IdsOk(o) && m in o.inFlight && o.nextId < I64_MAX && -1 <= o.token && o.clock <= now
    requires entry.conversation.Direct? && Current(c, now, w, entry) && Bridged(c, o, m)
    ensures CanReach(c, o, m)
  {
    var stops :| Bridges(c, o, stops, m);
    StopsAscend(c, o, stops, 0, m);
    PreparedReady(c, o, m, entry);
    RunKeepsIds(c, o, Prepare(o, m, entry));
    hide Run, Bridged, Bridges, Chain, Current, Ready;
    var s := Run(c, o, Prepare(o, m, entry));
    var steps := FollowWay(c, o, s, stops, m, o.nextId, entry, now, w);
    RunConcat(c, o, Prepare(o, m, entry), steps);
    assert DeliveredBy(c, o, Prepare(o, m, entry) + steps, m);
  }

  /** While the id of a message is in flight, and some direct message could still be wanted: this one can be
      delivered in some continuation exactly when a way leads to its id, over ids in flight and messages that can
      be wanted and are young enough now, with fewer than 1000 messages that cannot be removed between one and the
      next. Then no answer has passed the id. */
  lemma InFlightIsLost(c: Decoder, start: State, steps: seq<Step>, m: i64, entry: Entry, now: int, w: Surroundings)
    requires Fresh(start) && IdsOk(start) && entry.conversation.Direct? && Current(c, now, w, entry)
    requires m in Run(c, start, steps).inFlight && Run(c, start, steps).nextId < I64_MAX
    requires Run(c, start, steps).clock <= now
    ensures var st := Run(c, start, steps);
            && (CanReach(c, st, m) <==> -1 <= st.token && Bridged(c, st, m))
            && (Bridged(c, st, m) ==> !Past(st, m))
  {
    hide Run, Fetched, Polled;
    RunKeeps(c, start, steps);
    RunKeepsIds(c, start, steps);
    var st := Run(c, start, steps);
    if stops :| Bridges(c, st, stops, m) { StopsAscend(c, st, stops, 0, m); }
    hide Bridged, IdsOk, Inv, DeliveredBy;
    if st.token < -1 {
      NegativeIsOver(c, st, m);
    } else if Bridged(c, st, m) {
      BridgedIsDelivered(c, st, m, entry, now, w);
    } else {
      forall more ensures !DeliveredBy(c, st, more, m) { NotBridgedIsOver(c, st, more, m); }
    }
  }

  lemma NegativeIsOver(c: Decoder, st: State, m: i64)
    requires Inv(c, st) && IdsOk(st) && m in st.inFlight && st.token < -1
    ensures forall more :: !DeliveredBy(c, st, more, m)
  {
    hide Run, Fetched;
    forall more ensures !DeliveredBy(c, st, more, m) {
      NegativeTokenStays(c, st, more);
      forall i | 0 <= i < |st.responses| ensures !Delivered(st.responses[i], m) { ResponseFacts(c, st.responses[i]); }
    }
  }

  // ---------- walls ----------

  /** Nothing between `a` and `b` can be wanted by a sync from `a`, or is still to be stored. */
  ghost predicate Dead(c: Decoder, st: State, a: i64, b: i64) {
    forall p :: a < p < b ==>
        p !in st.inFlight && (p in st.log ==> !Wantable(c, st.clock, Limit(st, a), st.log[p].data))
  }

  /** Where one sync cannot stop, none from further back can. */
  lemma DeadForAll(c: Decoder, st: State, a: i64, b: i64, q: i64, r: Stop)
    requires Dead(c, st, a, b) && q <= a < r.mid && CanStop(c, st, Limit(st, q), r)
    ensures b <= r.mid
  {}

  /** 1000 direct messages in a row that no sync can want. */
  ghost predicate Wall(c: Decoder, st: State, a: i64, b: i64, m: i64) {
    From(st) <= a < b <= m && Dead(c, st, a, b) && |Directs(st.log, a, b)| >= FETCH_LIMIT
  }

  /** No way leads over a wall. */
  lemma WallBlocks(c: Decoder, st: State, a: i64, b: i64, m: i64)
    requires Wall(c, st, a, b, m)
    ensures !Bridged(c, st, m)
  {
    forall stops: seq<Stop> | Chain(c, st, stops, m) ensures !Bridges(c, st, stops, m) {
      var k := LastBefore(c, st, stops, m, a);
      hide Wantable;
      if k == |stops| - 1 {
        SubsetSize(Directs(st.log, a, b), Directs(st.log, stops[k].mid, m));
      } else {
        assert Leg(c, st, stops[k], stops[k + 1]);
        DeadForAll(c, st, a, b, stops[k].mid, stops[k + 1]);
        SubsetSize(Directs(st.log, a, b), Remaining(st.log, stops[k + 1].cleared, stops[k].mid, stops[k + 1].mid));
      }
    }
  }

  /** The last stop that is not behind `a`. */
  lemma LastBefore(c: Decoder, st: State, stops: seq<Stop>, m: i64, a: i64) returns (k: nat)
    requires Chain(c, st, stops, m) && From(st) <= a
    ensures k < |stops| && stops[k].mid <= a && (k < |stops| - 1 ==> stops[k + 1].mid > a)
  {
    k := 0;
    while k < |stops| - 1 && stops[k + 1].mid <= a
      invariant k < |stops| && stops[k].mid <= a
    {
      k := k + 1;
    }
  }

  /** A stop for a sync from `a` for which no group needs to be kept. */
  ghost predicate FreeStop(c: Decoder, st: State, a: i64, p: i64) {
    || p in st.inFlight
    || (p in st.log && st.log[p].conversation.Direct? && Wantable(c, st.clock, Limit(st, a), st.log[p].data))
  }

  ghost predicate NoFreeStop(c: Decoder, st: State, a: i64, b: i64) {
    forall p :: a < p < b ==> !FreeStop(c, st, a, p)
  }

  lemma {:induction false} NextFreeStop(c: Decoder, st: State, a: i64, p: i64) returns (q: i64)
    requires a < p && FreeStop(c, st, a, p)
    ensures a < q <= p && FreeStop(c, st, a, q) && NoFreeStop(c, st, a, q)
    decreases p - a
  {
    if q' :| a < q' < p && FreeStop(c, st, a, q') {
      q := NextFreeStop(c, st, a, q');
    } else {
      q := p;
    }
  }

  /** Wherever no direct message can be wanted and no id is in flight, fewer than 1000 direct messages lie. */
  ghost predicate Sparse(c: Decoder, st: State, m: i64) {
    forall a, b :: From(st) <= a < b <= m && NoFreeStop(c, st, a, b) ==> |Directs(st.log, a, b)| < FETCH_LIMIT
  }

  /** Then a way leads from any stop to the id, with every group cleared first. */
  lemma {:induction false} SparseBridges(c: Decoder, st: State, stops: seq<Stop>, m: i64)
    requires Chain(c, st, stops, m) && Sparse(c, st, m) && stops[|stops| - 1].cleared <= GroupsOf(st.log)
    ensures Bridged(c, st, m)
    decreases m - stops[|stops| - 1].mid
  {
    var last := stops[|stops| - 1];
    StopsAscend(c, st, stops, |stops| - 1, m);
    if |Directs(st.log, last.mid, m)| < FETCH_LIMIT {
      assert Bridges(c, st, stops, m);
    } else {
      var p :| last.mid < p < m && FreeStop(c, st, last.mid, p);
      var q := NextFreeStop(c, st, last.mid, p);
      var next := Stop(q, GroupsOf(st.log));
      assert Remaining(st.log, GroupsOf(st.log), last.mid, q) == Directs(st.log, last.mid, q);
      assert Leg(c, st, last, next);
      SparseBridges(c, st, stops + [next], m);
    }
  }

  lemma SparseIsBridged(c: Decoder, st: State, m: i64)
    requires From(st) < m && Sparse(c, st, m)
    ensures Bridged(c, st, m)
  {
    FirstStop(c, st, m);
    SparseBridges(c, st, [Stop(From(st), {})], m);
  }

  /** With fewer than 1000 direct messages in between there is always a way. */
  lemma FewAreBridged(c: Decoder, st: State, m: i64)
    requires From(st) < m && |Directs(st.log, From(st), m)| < FETCH_LIMIT
    ensures Bridged(c, st, m)
  {
    FirstStop(c, st, m);
    assert Bridges(c, st, [Stop(From(st), {})], m);
  }

  /** No message of a group between the client and the id can be wanted. */
  ghost predicate QuietGroups(c: Decoder, st: State, m: i64) {
    forall p :: From(st) < p < m && p in st.log && st.log[p].conversation.InGroup? ==>
        !Wantable(c, st.clock, MAX_MESSAGE_AGE_SECONDS, st.log[p].data)
  }

  lemma DeadThen(c: Decoder, st: State, a: i64, b: i64, m: i64)
    requires QuietGroups(c, st, m) && From(st) <= a < b <= m && NoFreeStop(c, st, a, b)
    ensures Dead(c, st, a, b)
  {
    forall p | a < p < b
      ensures p !in st.inFlight && (p in st.log ==> !Wantable(c, st.clock, Limit(st, a), st.log[p].data))
    {
      assert !FreeStop(c, st, a, p);
    }
  }

  /** If no group message in between can be wanted, it is walls alone that decide. */
  lemma WallsDecide(c: Decoder, st: State, m: i64)
    requires From(st) < m && QuietGroups(c, st, m)
    ensures Bridged(c, st, m) <==> forall a, b :: !Wall(c, st, a, b, m)
  {
    if a, b :| Wall(c, st, a, b, m) {
      WallBlocks(c, st, a, b, m);
    } else {
      forall a, b | From(st) <= a < b <= m && NoFreeStop(c, st, a, b) ensures |Directs(st.log, a, b)| < FETCH_LIMIT {
        DeadThen(c, st, a, b, m);
        assert !Wall(c, st, a, b, m);
      }
      SparseIsBridged(c, st, m);
    }
  }

  // ---------- a run into a wall ----------

  /** Direct messages that no sync can want any more, and one more id that is taken. */
  ghost function Chatter(k: nat, entry: Entry): seq<Step>
    requires k < I64_MAX
  {
    if k == 0 then [] else Chatter(k - 1, entry) + [TakeId] + [Store(k, entry)]
  }

  lemma ChatterEnd(k: nat, entry: Entry)
    requires 0 < k < I64_MAX
    ensures Chatter(k, entry) == Chatter(k - 1, entry) + ([TakeId] + [Store(k, entry)])
  {
    var before := Chatter(k - 1, entry);
    assert Chatter(k, entry) == before + [TakeId] + [Store(k, entry)];
    hide *;
  }

  /** The log after that many messages. */
  ghost function ChatterLog(k: nat, entry: Entry): Log
    requires k < I64_MAX
  {
    if k == 0 then map[] else ChatterLog(k - 1, entry)[k := entry]
  }

  lemma {:induction false} ChatterLogFacts(k: nat, entry: Entry)
    requires k < I64_MAX
    ensures |ChatterLog(k, entry)| == k && forall p :: p in ChatterLog(k, entry) <==> 1 <= p <= k
    ensures forall p :: p in ChatterLog(k, entry) ==> ChatterLog(k, entry)[p] == entry
  {
    if k > 0 { ChatterLogFacts(k - 1, entry); }
  }

  ghost function ChatterState(clock: int, k: nat, entry: Entry): State
    requires k < I64_MAX
  {
    State(ChatterLog(k, entry), k + 1, {}, 0, None, 0, clock, [])
  }

  lemma ChatterStep(c: Decoder, clock: int, k: nat, entry: Entry)
    requires 0 < k < I64_MAX - 1
    ensures Run(c, ChatterState(clock, k - 1, entry), [TakeId] + [Store(k, entry)]) == ChatterState(clock, k, entry)
  {
    hide Run, Polled, MaxAfter;
    var st := ChatterState(clock, k - 1, entry);
    RunOne(c, st, TakeId);
    var taken := st.(nextId := k + 1, inFlight := {k});
    assert Run(c, st, [TakeId]) == taken;
    RunSnoc(c, st, [TakeId], Store(k, entry));
    assert taken.inFlight - {k} == {};
  }

  lemma ChatterNone(c: Decoder, clock: int, entry: Entry)
    ensures Run(c, Start(clock), Chatter(0, entry)) == ChatterState(clock, 0, entry)
  {}

  lemma {:induction false} ChatterStored(c: Decoder, clock: int, k: nat, entry: Entry)
    requires k < I64_MAX - 1
    ensures Run(c, Start(clock), Chatter(k, entry)) == ChatterState(clock, k, entry)
  {
    hide *;
    if k == 0 {
      ChatterNone(c, clock, entry);
    } else {
      ChatterStored(c, clock, k - 1, entry);
      ChatterStep(c, clock, k, entry);
      ChatterEnd(k, entry);
      RunConcat(c, Start(clock), Chatter(k - 1, entry), [TakeId] + [Store(k, entry)]);
    }
  }

  lemma ChatterWay(c: Decoder, st: State, k: nat, idle: Entry)
    requires k < I64_MAX - 3 && idle.conversation.Direct? && !Wantable(c, st.clock, INITIAL_AGE_SECONDS, idle.data)
    requires st.log == ChatterLog(k, idle) && st.inFlight == {k + 1} && st.token == st.maxMid == 0
    ensures Bridged(c, st, k + 1) <==> k < 1000
  {
    ChatterLogFacts(k, idle);
    hide Bridged, ChatterLog, Wantable;
    assert Directs(st.log, 0, k + 1) == st.log.Keys;
    if k < 1000 {
      FewAreBridged(c, st, k + 1);
    } else {
      assert Wall(c, st, 0, k + 1, k + 1);
      WallBlocks(c, st, 0, k + 1, k + 1);
    }
  }

  /** After `k` such messages the next one can be delivered exactly when they are fewer than 1000: token and cache
      are still at the very beginning. */
  lemma ChatterBlocks(c: Decoder, clock: int, k: nat, idle: Entry, entry: Entry, now: int, w: Surroundings)
    requires k < I64_MAX - 3 && idle.conversation.Direct? && !Wantable(c, clock, INITIAL_AGE_SECONDS, idle.data)
    requires entry.conversation.Direct? && clock <= now && Current(c, now, w, entry)
    ensures var st := Run(c, Start(clock), Chatter(k, idle) + [TakeId]);
            && k + 1 in st.inFlight && st.token == st.maxMid == 0
            && (CanReach(c, st, k + 1) <==> k < 1000)
  {
    ChatterStored(c, clock, k, idle);
    RunSnoc(c, Start(clock), Chatter(k, idle), TakeId);
    hide Run, CanReach, Bridged, Wantable, ChatterLog, Current;
    var st := Run(c, Start(clock), Chatter(k, idle) + [TakeId]);
    assert st == State(ChatterLog(k, idle), k + 2, {k + 1}, 0, None, 0, clock, []);
    ChatterWay(c, st, k, idle);
    InFlightIsLost(c, Start(clock), Chatter(k, idle) + [TakeId], k + 1, entry, now, w);
  }
}
