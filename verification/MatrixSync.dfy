/** What a bot's sync request fetches, and how the answer is put together. */
module MatrixSync {
  import opened Bytes
  import opened Results
  import opened Selection
  import opened Ordered
  import Keys
  import opened MessageLog
  import opened MessageDb
  import opened Payloads
  import opened Groups
  import opened RoomIds

  const FETCH_LIMIT: nat := 1000
  const MAX_MESSAGE_AGE_SECONDS := 300
  const INITIAL_AGE_SECONDS := 30
  const LINK_WINDOW_MILLIS := 60000

  // ---------- which messages are for bots ----------

  /** What the cache contributes: names, groups and which users are bots. */
  datatype Surroundings = Surroundings(names: map<i64, string>, groups: map<i64, Groups.Group>, bots: seq<i64>,
      domain: string)

  datatype MessageEvent = MessageEvent(mid: i64, from: i64, room: string, sender: string, content: Content,
      timestamp: int)

  predicate IsForBot(groups: map<i64, Groups.Group>, bot: i64, p: Payload) {
    p.from != bot &&
    match p.target
    case ToUser(uid) => uid == bot
    case ToGroup(gid) => gid in groups && ContainsUser(groups[gid], bot)
  }

  function MaxAge(since: i64): int { if since == 0 then INITIAL_AGE_SECONDS else MAX_MESSAGE_AGE_SECONDS }

  function SenderName(w: Surroundings, uid: i64): string {
    "@" + (if uid in w.names then w.names[uid] else "unknown") + ":" + w.domain
  }

  /** `process_message` for one bot. */
  function ProcessMessage(w: Surroundings, bot: i64, now: int, maxAge: int, mid: i64,
      p: Option<Payload>): Option<MessageEvent> {
    if p.None? || !IsForBot(w.groups, bot, p.value) then None
    else if now - p.value.createdAt > maxAge * 1000 then None
    else if p.value.detail.Reaction? then None
    else Some(MessageEvent(mid, p.value.from, RoomId(RoomOf(p.value), w.domain), SenderName(w, p.value.from),
                           p.value.detail.content, p.value.createdAt))
  }

  /** The event of a message for the first bot that it concerns. */
  function ForSomeBot(w: Surroundings, bots: seq<i64>, now: int, maxAge: int, mid: i64,
      p: Option<Payload>): Option<MessageEvent> {
    if bots == [] then None
    else if ProcessMessage(w, bots[0], now, maxAge, mid, p).Some? then ProcessMessage(w, bots[0], now, maxAge, mid, p)
    else ForSomeBot(w, bots[1..], now, maxAge, mid, p)
  }

  /** A message concerns the bots when it is recent, has content and is addressed to one of them by someone else. */
  predicate Passes(w: Surroundings, bots: seq<i64>, now: int, maxAge: int, p: Option<Payload>) {
    && p.Some? && !p.value.detail.Reaction? && now - p.value.createdAt <= maxAge * 1000
    && exists bot | bot in bots :: IsForBot(w.groups, bot, p.value)
  }

  lemma {:induction false} ForSomeBotIsPasses(w: Surroundings, bots: seq<i64>, now: int, maxAge: int, mid: i64,
      p: Option<Payload>)
    ensures ForSomeBot(w, bots, now, maxAge, mid, p).Some? <==> Passes(w, bots, now, maxAge, p)
    ensures ForSomeBot(w, bots, now, maxAge, mid, p).Some? ==> ForSomeBot(w, bots, now, maxAge, mid, p).value.mid == mid
  {
    if bots != [] {
      ForSomeBotIsPasses(w, bots[1..], now, maxAge, mid, p);
      assert bots == [bots[0]] + bots[1..];
    }
  }

  // ---------- fetching ----------

  type Decoder = bytes -> Option<Payload>

  function AsEvent(c: Decoder, w: Surroundings, now: int, maxAge: int): ((i64, bytes)) -> Option<MessageEvent> {
    (row: (i64, bytes)) => ForSomeBot(w, w.bots, now, maxAge, row.0, c(row.1))
  }

  ghost function Rows(log: Log, since: i64): seq<(i64, bytes)> {
    First(Messages(log, MessageLog.After(log.Keys, Some(since))), FETCH_LIMIT)
  }

  ghost function Fetched(c: Decoder, w: Surroundings, now: int, log: Log, since: i64): seq<MessageEvent> {
    Select(AsEvent(c, w, now, MaxAge(since)), Rows(log, since))
  }

  method FetchBotMessages(db: MsgDb, c: Decoder, w: Surroundings, since: i64, now: int)
      returns (messages: seq<MessageEvent>)
    requires db.Valid()
    ensures messages == Fetched(c, w, now, db.stored.log, since)
    ensures Accurate(c, w, now, db.stored.log, since, messages)
  {
    hide *;
    FetchedIsAccurate(c, w, now, db.stored.log, since);
    FetchedSelects(c, w, now, db.stored.log, since);
    var rows := db.FetchMessagesAfter(since, FETCH_LIMIT);
    messages := KeepEvents(c, w, now, MaxAge(since), rows);
  }

  /** The rows are tried against one bot after the other until one matches. */
  method KeepEvents(c: Decoder, w: Surroundings, now: int, maxAge: int, rows: seq<(i64, bytes)>)
      returns (messages: seq<MessageEvent>)
    ensures messages == Select(AsEvent(c, w, now, maxAge), rows)
  {
    messages := [];
    for i := 0 to |rows|
      invariant messages == Select(AsEvent(c, w, now, maxAge), rows[..i])
    {
      SelectOne(AsEvent(c, w, now, maxAge), rows[..i], rows[i]);
      assert rows[..i + 1] == rows[..i] + [rows[i]];
      var event := TryBots(w, now, maxAge, rows[i].0, c(rows[i].1));
      if event.Some? { messages := messages + [event.value]; }
    }
    assert rows[..|rows|] == rows;
  }

  method TryBots(w: Surroundings, now: int, maxAge: int, mid: i64, p: Option<Payload>)
      returns (event: Option<MessageEvent>)
    ensures event == ForSomeBot(w, w.bots, now, maxAge, mid, p)
  {
    for i := 0 to |w.bots|
      invariant ForSomeBot(w, w.bots, now, maxAge, mid, p) == ForSomeBot(w, w.bots[i..], now, maxAge, mid, p)
    {
      assert w.bots[i..][1..] == w.bots[i + 1..];
      event := ProcessMessage(w, w.bots[i], now, maxAge, mid, p);
      if event.Some? { return; }
    }
    event := None;
  }

  /** The list needs neither sorting nor the removal of duplicates. */
  predicate AscendingEvents(events: seq<MessageEvent>) {
    forall i, j :: 0 <= i < j < |events| ==> events[i].mid < events[j].mid
  }

  lemma FetchedAscends(c: Decoder, w: Surroundings, now: int, log: Log, since: i64)
    ensures AscendingEvents(Fetched(c, w, now, log, since))
    ensures forall i :: 0 <= i < |Fetched(c, w, now, log, since)| ==>
              Fetched(c, w, now, log, since)[i].mid in log && Fetched(c, w, now, log, since)[i].mid > since
  {
    var events, rows, f := Fetched(c, w, now, log, since), Rows(log, since), AsEvent(c, w, now, MaxAge(since));
    RowFacts(log, since);
    forall i, j | 0 <= i < j < |events| ensures events[i].mid < events[j].mid {
      var p, q := SelectOrigins(f, rows, i, j);
      ForSomeBotIsPasses(w, w.bots, now, MaxAge(since), rows[p].0, c(rows[p].1));
      ForSomeBotIsPasses(w, w.bots, now, MaxAge(since), rows[q].0, c(rows[q].1));
    }
    forall i | 0 <= i < |events| ensures events[i].mid in log && events[i].mid > since {
      var p := SelectOrigin(f, rows, i);
      ForSomeBotIsPasses(w, w.bots, now, MaxAge(since), rows[p].0, c(rows[p].1));
    }
  }

  lemma RowFacts(log: Log, since: i64)
    ensures forall i :: 0 <= i < |Rows(log, since)| ==>
              var r := Rows(log, since)[i]; r.0 in log && r.0 > since && r.1 == log[r.0].data
    ensures forall i, j :: 0 <= i < j < |Rows(log, since)| ==> Rows(log, since)[i].0 < Rows(log, since)[j].0
  {
    var mids := MessageLog.After(log.Keys, Some(since));
    forall i | 0 <= i < |mids| ensures Sorted(mids)[i] in mids { assert Sorted(mids)[i] in Sorted(mids); }
  }

  /** Whether a stored message is to be returned at all. */
  ghost predicate Wanted(c: Decoder, w: Surroundings, now: int, log: Log, since: i64, m: i64) {
    m in log && Passes(w, w.bots, now, MaxAge(since), c(log[m].data))
  }

  /** Every stored message after `since` and not after some fetched row is a fetched row itself. */
  lemma RowOf(log: Log, since: i64, m: i64, last: nat) returns (k: nat)
    requires m in log && since < m && last < |Rows(log, since)| && m <= Rows(log, since)[last].0
    ensures k < |Rows(log, since)| && Rows(log, since)[k] == (m, log[m].data)
  {
    var mids := MessageLog.After(log.Keys, Some(since));
    assert m in Sorted(mids);
    k :| 0 <= k < |Sorted(mids)| && Sorted(mids)[k] == m;
  }

  /** A wanted row is among what is fetched. */
  lemma WantedRowIsFetched(c: Decoder, w: Surroundings, now: int, log: Log, since: i64, k: nat) returns (i: nat)
    requires k < |Rows(log, since)| && Wanted(c, w, now, log, since, Rows(log, since)[k].0)
    ensures i < |Fetched(c, w, now, log, since)| && Fetched(c, w, now, log, since)[i].mid == Rows(log, since)[k].0
  {
    var events, rows, f := Fetched(c, w, now, log, since), Rows(log, since), AsEvent(c, w, now, MaxAge(since));
    RowFacts(log, since);
    ForSomeBotIsPasses(w, w.bots, now, MaxAge(since), rows[k].0, c(rows[k].1));
    SelectMembers(f, rows, f(rows[k]).value);
    assert rows[k] in rows;
    i :| 0 <= i < |events| && events[i] == f(rows[k]).value;
  }

  /** Everything fetched up to the last event: whatever is stored between `since` and that event,
      and is wanted, is there. */
  lemma FetchedIsComplete(c: Decoder, w: Surroundings, now: int, log: Log, since: i64, m: i64)
    requires Fetched(c, w, now, log, since) != []
    requires since < m <= Fetched(c, w, now, log, since)[|Fetched(c, w, now, log, since)| - 1].mid
    ensures Wanted(c, w, now, log, since, m) <==> exists i ::
          0 <= i < |Fetched(c, w, now, log, since)| && Fetched(c, w, now, log, since)[i].mid == m
  {
    var events, rows, f := Fetched(c, w, now, log, since), Rows(log, since), AsEvent(c, w, now, MaxAge(since));
    RowFacts(log, since);
    if Wanted(c, w, now, log, since, m) {
      var last := SelectOrigin(f, rows, |events| - 1);
      ForSomeBotIsPasses(w, w.bots, now, MaxAge(since), rows[last].0, c(rows[last].1));
      var k := RowOf(log, since, m, last);
      var i := WantedRowIsFetched(c, w, now, log, since, k);
    }
    if i :| 0 <= i < |events| && events[i].mid == m {
      var p := SelectOrigin(f, rows, i);
      ForSomeBotIsPasses(w, w.bots, now, MaxAge(since), rows[p].0, c(rows[p].1));
    }
  }

  /** Nothing is fetched exactly when none of the first 1000 messages after `since` is wanted:
      wanted messages behind them are not reached while these stay. */
  lemma NothingFetched(c: Decoder, w: Surroundings, now: int, log: Log, since: i64)
    ensures Fetched(c, w, now, log, since) == [] <==>
            forall i :: 0 <= i < |Rows(log, since)| ==> !Wanted(c, w, now, log, since, Rows(log, since)[i].0)
  {
    var events, rows, f := Fetched(c, w, now, log, since), Rows(log, since), AsEvent(c, w, now, MaxAge(since));
    RowFacts(log, since);
    forall i | 0 <= i < |rows| ensures f(rows[i]).Some? <==> Wanted(c, w, now, log, since, rows[i].0) {
      ForSomeBotIsPasses(w, w.bots, now, MaxAge(since), rows[i].0, c(rows[i].1));
    }
    if events != [] {
      var p := SelectOrigin(f, rows, 0);
    } else if i :| 0 <= i < |rows| && f(rows[i]).Some? {
      SelectMembers(f, rows, f(rows[i]).value);
      assert rows[i] in rows;
    }
  }

  // ---------- what an event says of its message ----------

  /** The message has content, is young enough, and is addressed to a bot by someone else. */
  ghost predicate Due(w: Surroundings, now: int, since: i64, message: Option<Payload>) {
    && message.Some? && !message.value.detail.Reaction?
    && now - message.value.createdAt <= (if since == 0 then 30000 else 300000)
    && exists bot :: bot in w.bots && Addresses(w, message.value, bot)
  }

  ghost predicate Addresses(w: Surroundings, p: Payload, bot: i64) {
    && bot != p.from
    && match p.target
       case ToUser(uid) => uid == bot
       case ToGroup(gid) => gid in w.groups && (w.groups[gid].kind.Public? || bot in w.groups[gid].members)
  }

  /** The event names author, time and content, and its room leads the addressed bot back to the
      author, or everybody to the group. */
  ghost predicate Describes(w: Surroundings, e: MessageEvent, p: Payload)
    requires !p.detail.Reaction?
  {
    && e.from == p.from && e.timestamp == p.createdAt && e.content == p.detail.content
    && e.sender == "@" + (if p.from in w.names then w.names[p.from] else "unknown") + ":" + w.domain
    && match p.target
       case ToUser(bot) => ParseRoomTarget(e.room, bot, w.domain) == Ok((ToUser(p.from), bot))
       case ToGroup(gid) => forall bot: i64 :: ParseRoomTarget(e.room, bot, w.domain) == Ok((ToGroup(gid), bot))
  }

  ghost predicate StandsFor(c: Decoder, w: Surroundings, now: int, log: Log, since: i64, e: MessageEvent) {
    && e.mid in log && since < e.mid && Due(w, now, since, c(log[e.mid].data))
    && Describes(w, e, c(log[e.mid].data).value)
  }

  ghost predicate Announced(events: seq<MessageEvent>, m: i64) { exists i :: 0 <= i < |events| && events[i].mid == m }

  lemma PassesIsDue(w: Surroundings, now: int, since: i64, p: Option<Payload>)
    ensures Passes(w, w.bots, now, MaxAge(since), p) <==> Due(w, now, since, p)
  {
    if p.Some? {
      forall bot ensures IsForBot(w.groups, bot, p.value) <==> Addresses(w, p.value, bot) {}
    }
  }

  lemma ProcessedDescribes(w: Surroundings, bot: i64, now: int, maxAge: int, mid: i64, p: Payload)
    requires ProcessMessage(w, bot, now, maxAge, mid, Some(p)).Some?
    ensures !p.detail.Reaction? && Describes(w, ProcessMessage(w, bot, now, maxAge, mid, Some(p)).value, p)
  {
    hide RoomId, ParseRoomTarget;
    match p.target {
      case ToUser(uid) => DirectRoundTrip(p.from, uid, uid, w.domain);
      case ToGroup(gid) =>
        var room := RoomId(GroupRoom(gid), w.domain);
        forall uid: i64 ensures ParseRoomTarget(room, uid, w.domain) == Ok((ToGroup(gid), uid)) {
          GroupRoundTrip(gid, uid, w.domain);
        }
    }
  }

  lemma {:induction false} FoundDescribes(w: Surroundings, bots: seq<i64>, now: int, maxAge: int, mid: i64, p: Payload)
    requires ForSomeBot(w, bots, now, maxAge, mid, Some(p)).Some?
    ensures !p.detail.Reaction? && Describes(w, ForSomeBot(w, bots, now, maxAge, mid, Some(p)).value, p)
  {
    hide ProcessMessage, Describes;
    if ProcessMessage(w, bots[0], now, maxAge, mid, Some(p)).Some? {
      ProcessedDescribes(w, bots[0], now, maxAge, mid, p);
    } else {
      FoundDescribes(w, bots[1..], now, maxAge, mid, p);
    }
  }

  /** Every event stands for a stored message behind the token and says of it what is true. */
  lemma EventStandsFor(c: Decoder, w: Surroundings, now: int, log: Log, since: i64, e: MessageEvent)
    requires e in Fetched(c, w, now, log, since)
    ensures StandsFor(c, w, now, log, since, e)
  {
    hide Describes, Due, Rows, ForSomeBot, Passes;
    var rows := Rows(log, since);
    RowFacts(log, since);
    var i :| 0 <= i < |Fetched(c, w, now, log, since)| && Fetched(c, w, now, log, since)[i] == e;
    var k := SelectOrigin(AsEvent(c, w, now, MaxAge(since)), rows, i);
    var p := c(rows[k].1);
    ForSomeBotIsPasses(w, w.bots, now, MaxAge(since), rows[k].0, p);
    PassesIsDue(w, now, since, p);
    assert p.Some? by { DueIsMessage(w, now, since, p); }
    FoundDescribes(w, w.bots, now, MaxAge(since), rows[k].0, p.value);
  }

  lemma DueIsMessage(w: Surroundings, now: int, since: i64, p: Option<Payload>)
    requires Due(w, now, since, p)
    ensures p.Some? && !p.value.detail.Reaction?
  {}

  /** Every event stands for its message, and up to the last event every message that is due has one. */
  ghost predicate Accurate(c: Decoder, w: Surroundings, now: int, log: Log, since: i64, events: seq<MessageEvent>) {
    && (forall e :: e in events ==> StandsFor(c, w, now, log, since, e))
    && (events != [] ==> forall m :: m in log && since < m <= events[|events| - 1].mid ==>
          (Announced(events, m) <==> Due(w, now, since, c(log[m].data))))
  }

  lemma FetchedIsAccurate(c: Decoder, w: Surroundings, now: int, log: Log, since: i64)
    ensures Accurate(c, w, now, log, since, Fetched(c, w, now, log, since))
  {
    hide Fetched, Passes, Due, StandsFor;
    var events := Fetched(c, w, now, log, since);
    forall e | e in events ensures StandsFor(c, w, now, log, since, e) { EventStandsFor(c, w, now, log, since, e); }
    if events != [] {
      forall m | m in log && since < m <= events[|events| - 1].mid
        ensures Announced(events, m) <==> Due(w, now, since, c(log[m].data))
      {
        FetchedIsComplete(c, w, now, log, since, m);
        PassesIsDue(w, now, since, c(log[m].data));
      }
    }
  }

  lemma FetchedSelects(c: Decoder, w: Surroundings, now: int, log: Log, since: i64)
    ensures Fetched(c, w, now, log, since) ==
            Select(AsEvent(c, w, now, MaxAge(since)),
                   First(Messages(log, MessageLog.After(log.Keys, Some(since))), FETCH_LIMIT))
  {}

  // ---------- one poll of a sync request ----------

  /** The token a response hands out. */
  function TokenOf(mid: i64): string { "s" + PrintInt(mid) }

  /** Where a request starts: at its token, but not beyond what the cache has seen; without a
      token that can be read, there. */
  function SinceMid(token: Option<string>, cachedMax: i64): i64 {
    if token.None? || token.value == "" || token.value[0] != 's' then cachedMax
    else match ParseInt(token.value[1..])
      case None => cachedMax
      case Some(mid) => Keys.Min(mid, cachedMax)
  }

  lemma TokenRoundTrip(mid: i64, cachedMax: i64)
    ensures SinceMid(Some(TokenOf(mid)), cachedMax) == Keys.Min(mid, cachedMax)
  {
    IntRoundTrip(mid);
    assert TokenOf(mid)[1..] == PrintInt(mid);
  }

  ghost predicate HasNewer(log: Log, mid: i64) { exists m :: m in log && m > mid }

  /** The part of the bot cache that every sync request reads and moves on. */
  class BotCache {
    var maxMid: i64

    constructor (maxMid: i64)
      ensures this.maxMid == maxMid
    {
      this.maxMid := maxMid;
    }

    /** A request reads the maximum once, when it begins, and keeps to it while it polls. */
    method Begin(token: Option<string>) returns (cachedMax: i64, since: i64)
      ensures cachedMax == maxMid
      ensures forall text, mid :: token == Some("s" + text) && ParseInt(text) == Some(mid) ==>
                since == Keys.Min(mid, maxMid)
      ensures (forall text :: token == Some("s" + text) ==> ParseInt(text).None?) ==> since == maxMid
    {
      cachedMax := maxMid;
      since := maxMid;
      if token.Some? && token.value != "" && token.value[0] == 's' {
        assert token.value == "s" + token.value[1..];
        match ParseInt(token.value[1..]) {
          case Some(mid) => since := Keys.Min(mid, maxMid);
          case None =>
        }
      }
      forall text | token == Some("s" + text) ensures token.value[1..] == text {}
    }

    /** One pass through the polling loop: the token to go on with, and the messages. */
    method Poll(db: MsgDb, c: Decoder, w: Surroundings, cachedMax: i64, since: i64, now: int)
        returns (nextBatch: i64, messages: seq<MessageEvent>)
      requires db.Valid() && cachedMax >= 0
      modifies this
      ensures messages == if HasNewer(db.stored.log, cachedMax) then Fetched(c, w, now, db.stored.log, since) else []
      ensures nextBatch == if messages == [] then since else messages[|messages| - 1].mid
      ensures maxMid == if messages == [] then old(maxMid) else Keys.Max(old(maxMid), nextBatch)
    {
      nextBatch := since;
      messages := [];
      var maxId := db.GetMaxMsgId();
      var newest := if maxId.Some? then maxId.value else 0;
      if newest <= cachedMax { return; }
      messages := FetchBotMessages(db, c, w, since, now);
      if messages == [] { return; }
      nextBatch := messages[|messages| - 1].mid;
      maxMid := Keys.Max(maxMid, nextBatch);
    }
  }
}
