/** How the messages of a sync answer are sorted into rooms, and which texts are tied to
    the picture or file before them. */
module SyncResponse {
  import opened Bytes
  import opened Results
  import opened Payloads
  import opened MatrixSync

  datatype RoomEvent = RoomEvent(mid: i64, timestamp: int, sender: string, content: Content, relatesTo: Option<i64>)

  type Key = (string, string)

  function KeyOf(m: MessageEvent): Key { (m.room, m.sender) }

  /** Only files and archives have a url. */
  predicate IsMedia(m: MessageEvent) { m.content.contentType in {"vachat/file", "vachat/archive"} }

  function Distance(x: int, y: int): nat { if x < y then y - x else x - y }

  // ---------- what the answer is to contain ----------

  /** `j` is the latest media message of that room and sender among the first `n`. */
  ghost predicate LatestMedia(messages: seq<MessageEvent>, n: nat, key: Key, j: int) {
    && 0 <= j < n <= |messages| && IsMedia(messages[j]) && KeyOf(messages[j]) == key
    && forall k :: j < k < n ==> !(IsMedia(messages[k]) && KeyOf(messages[k]) == key)
  }

  /** A text is tied to the latest media message before it by its sender in its room, if less than
      a minute lies between the two, and to nothing else. */
  ghost predicate TiedTo(messages: seq<MessageEvent>, i: nat, j: int)
    requires i < |messages|
  {
    && !IsMedia(messages[i]) && LatestMedia(messages, i, KeyOf(messages[i]), j)
    && Distance(messages[i].timestamp, messages[j].timestamp) < 60000
  }

  ghost predicate EventFor(messages: seq<MessageEvent>, i: nat, e: RoomEvent)
    requires i < |messages|
  {
    var m := messages[i];
    && e.mid == m.mid && e.timestamp == m.timestamp && e.sender == m.sender && e.content == m.content
    && (e.relatesTo.None? <==> forall j :: !TiedTo(messages, i, j))
    && (forall j :: TiedTo(messages, i, j) ==> e.relatesTo == Some(messages[j].mid))
  }

  /** How many of the first `n` messages are in the room. */
  function CountIn(messages: seq<MessageEvent>, n: nat, room: string): nat
    requires n <= |messages|
  {
    if n == 0 then 0 else CountIn(messages, n - 1, room) + if messages[n - 1].room == room then 1 else 0
  }

  /** Message `i` stands in its room behind the earlier messages of the room. */
  ghost predicate Placed(messages: seq<MessageEvent>, i: nat, rooms: map<string, seq<RoomEvent>>)
    requires i < |messages|
  {
    var room, k := messages[i].room, CountIn(messages, i, messages[i].room);
    room in rooms && k < |rooms[room]| && EventFor(messages, i, rooms[room][k])
  }

  ghost predicate Counted(messages: seq<MessageEvent>, n: nat, rooms: map<string, seq<RoomEvent>>)
    requires n <= |messages|
  {
    && (forall room :: room in rooms <==> CountIn(messages, n, room) > 0)
    && (forall room :: room in rooms ==> |rooms[room]| == CountIn(messages, n, room))
  }

  /** The first `n` messages are spread over the rooms, every message once, in order. */
  ghost predicate Spread(messages: seq<MessageEvent>, n: nat, rooms: map<string, seq<RoomEvent>>)
    requires n <= |messages|
  {
    Counted(messages, n, rooms) && forall i :: 0 <= i < n ==> Placed(messages, i, rooms)
  }

  // ---------- building it ----------

  /** `last` remembers, per room and sender, the latest media message so far. */
  ghost predicate Remembers(messages: seq<MessageEvent>, n: nat, last: map<Key, (i64, int)>)
    requires n <= |messages|
  {
    && (forall key :: key in last ==> exists j ::
          LatestMedia(messages, n, key, j) && last[key] == (messages[j].mid, messages[j].timestamp))
    && (forall j :: 0 <= j < n && IsMedia(messages[j]) ==> KeyOf(messages[j]) in last)
  }

  method BuildSyncResponse(messages: seq<MessageEvent>) returns (rooms: map<string, seq<RoomEvent>>)
    ensures Spread(messages, |messages|, rooms)
  {
    rooms := map[];
    var last: map<Key, (i64, int)> := map[];
    for i := 0 to |messages|
      invariant Spread(messages, i, rooms) && Remembers(messages, i, last)
    {
      var msg := messages[i];
      ghost var before := last;
      var isMedia := msg.content.contentType == "vachat/file" || msg.content.contentType == "vachat/archive";
      if isMedia { last := last[(msg.room, msg.sender) := (msg.mid, msg.timestamp)]; }
      var relatesTo := None;
      if !isMedia {
        if (msg.room, msg.sender) in last {
          var (mediaMid, mediaTime) := last[(msg.room, msg.sender)];
          if Distance(msg.timestamp, mediaTime) < LINK_WINDOW_MILLIS { relatesTo := Some(mediaMid); }
        }
      }
      var event := RoomEvent(msg.mid, msg.timestamp, msg.sender, msg.content, relatesTo);
      Tied(messages, i, before);
      RememberOne(messages, i, before, last);
      SpreadOne(messages, i, rooms, event);
      rooms := rooms[msg.room := (if msg.room in rooms then rooms[msg.room] else []) + [event]];
    }
  }

  lemma LatestIsUnique(messages: seq<MessageEvent>, n: nat, key: Key, j: int, k: int)
    requires LatestMedia(messages, n, key, j) && LatestMedia(messages, n, key, k)
    ensures j == k
  {}

  /** The link that the loop computes. */
  function LinkOf(m: MessageEvent, last: map<Key, (i64, int)>): Option<i64> {
    if !IsMedia(m) && KeyOf(m) in last && Distance(m.timestamp, last[KeyOf(m)].1) < LINK_WINDOW_MILLIS
    then Some(last[KeyOf(m)].0) else None
  }

  lemma Tied(messages: seq<MessageEvent>, i: nat, last: map<Key, (i64, int)>)
    requires i < |messages| && Remembers(messages, i, last)
    ensures var m := messages[i];
            EventFor(messages, i, RoomEvent(m.mid, m.timestamp, m.sender, m.content, LinkOf(m, last)))
  {
    var m := messages[i];
    if KeyOf(m) in last {
      var j :| LatestMedia(messages, i, KeyOf(m), j) && last[KeyOf(m)] == (messages[j].mid, messages[j].timestamp);
      forall k | LatestMedia(messages, i, KeyOf(m), k) ensures k == j { LatestIsUnique(messages, i, KeyOf(m), j, k); }
      assert LinkOf(m, last).Some? ==> TiedTo(messages, i, j);
    }
  }

  lemma RememberOne(messages: seq<MessageEvent>, i: nat, last: map<Key, (i64, int)>, after: map<Key, (i64, int)>)
    requires i < |messages| && Remembers(messages, i, last)
    requires var m := messages[i]; after == if IsMedia(m) then last[KeyOf(m) := (m.mid, m.timestamp)] else last
    ensures Remembers(messages, i + 1, after)
  {
    forall key | key in after
      ensures exists j :: LatestMedia(messages, i + 1, key, j) && after[key] == (messages[j].mid, messages[j].timestamp)
    {
      if IsMedia(messages[i]) && key == KeyOf(messages[i]) {
        assert LatestMedia(messages, i + 1, key, i);
      } else {
        var j :| LatestMedia(messages, i, key, j) && last[key] == (messages[j].mid, messages[j].timestamp);
        assert LatestMedia(messages, i + 1, key, j);
      }
    }
  }

  function WithEvent(rooms: map<string, seq<RoomEvent>>, room: string, e: RoomEvent): map<string, seq<RoomEvent>> {
    rooms[room := (if room in rooms then rooms[room] else []) + [e]]
  }

  lemma StillPlaced(messages: seq<MessageEvent>, i: nat, rooms: map<string, seq<RoomEvent>>, room: string, e: RoomEvent)
    requires i < |messages| && Placed(messages, i, rooms)
    ensures Placed(messages, i, WithEvent(rooms, room, e))
  {
    hide EventFor;
  }

  lemma NewlyPlaced(messages: seq<MessageEvent>, i: nat, rooms: map<string, seq<RoomEvent>>, e: RoomEvent)
    requires i < |messages| && Counted(messages, i, rooms) && EventFor(messages, i, e)
    ensures Placed(messages, i, WithEvent(rooms, messages[i].room, e))
  {
    hide EventFor;
    var room := messages[i].room;
    var was := if room in rooms then rooms[room] else [];
    assert |was| == CountIn(messages, i, room) && (was + [e])[|was|] == e;
  }

  lemma SpreadOne(messages: seq<MessageEvent>, i: nat, rooms: map<string, seq<RoomEvent>>, e: RoomEvent)
    requires i < |messages| && Spread(messages, i, rooms) && EventFor(messages, i, e)
    ensures Spread(messages, i + 1, WithEvent(rooms, messages[i].room, e))
  {
    hide Placed, EventFor;
    NewlyPlaced(messages, i, rooms, e);
    forall k | 0 <= k < i ensures Placed(messages, k, WithEvent(rooms, messages[i].room, e)) {
      StillPlaced(messages, k, rooms, messages[i].room, e);
    }
  }
}
