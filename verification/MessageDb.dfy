/** The message database: the byte map, the leased id sequence, and the
    operations on them, each proved against the plain log. */
module MessageDb {
  import opened Bytes
  import opened Results
  import opened Encoding
  import opened Ordered
  import opened Keys
  import opened MessageLog

  const SEQUENCE_BANDWIDTH: i64 := 32

  /** Ids up to here can be leased without leaving 64 bits. */
  const ID_LIMIT: i64 := I64_MAX - SEQUENCE_BANDWIDTH

  datatype Error = InvalidData

  /** The first id a database with this lease hands out. */
  function FirstId(lease: Option<i64>): i64 { if lease.Some? then lease.value else 1 }

  /** The lease lies above every stored message, so no id handed out from it is taken. */
  ghost predicate LeaseCovers(s: Stored) {
    1 <= FirstId(s.lease) && forall m :: m in s.log ==> m < FirstId(s.lease)
  }

  /** What an iterator over the store does with the keys it selects. */
  method KeysInOrder(keys: set<bytes>) returns (r: seq<bytes>)
    ensures r == InOrder(keys)
  {
    ByteOrder();
    r := Iterate(Less, keys);
  }

  class MsgDb {
    var tree: Tree
    var next: i64
    var leased: i64
    ghost var table: Table
    ghost var stored: Stored

    ghost predicate Valid()
      reads this
    {
      && Refines(tree, table, stored)
      && stored.lease == Some(leased)
      && 1 <= next <= leased
      && forall m :: m in stored.log ==> m < next
    }

    constructor (disk: Tree, next: i64, leased: i64, ghost table: Table, ghost stored: Stored)
      ensures this.tree == disk && this.next == next && this.leased == leased
      ensures this.table == table && this.stored == stored
    {
      this.tree, this.next, this.leased, this.table, this.stored := disk, next, leased, table, stored;
    }

    /** Opens what is on disk. A sequence entry that is not eight bytes long is an error. */
    static method Open(disk: Tree, ghost table: Table, ghost s: Stored) returns (r: Result<MsgDb, Error>)
      requires (SequenceKey(MSG_SEQUENCE) in disk && |disk[SequenceKey(MSG_SEQUENCE)]| != 8)
               || (Refines(disk, table, s) && LeaseCovers(s) && FirstId(s.lease) <= ID_LIMIT)
      ensures SequenceKey(MSG_SEQUENCE) in disk && |disk[SequenceKey(MSG_SEQUENCE)]| != 8 <==> r.Err?
      ensures r.Err? ==> r.error == InvalidData
      ensures r.Ok? ==> fresh(r.value) && r.value.Valid()
      ensures r.Ok? ==> r.value.stored == PutLease(s, FirstId(s.lease) + SEQUENCE_BANDWIDTH)
      ensures r.Ok? ==> r.value.next == FirstId(s.lease)
    {
      var first := 1;
      var key := FillSequenceKey(MSG_SEQUENCE);
      if key[..] in disk {
        if |disk[key[..]]| != 8 { return Err(InvalidData); }
        first := FromBigEndian(disk[key[..]]);
      }
      LeaseReadBack(disk, table, s);
      var lease := first + SEQUENCE_BANDWIDTH;
      PutLeaseRefines(disk, table, s, lease);
      var db := new MsgDb(disk[key[..] := BigEndian(lease)], first, lease,
                          table[Sequence(MSG_SEQUENCE) := BigEndian(lease)], PutLease(s, lease));
      r := Ok(db);
    }

    /** `Drop`: gives the unused part of the lease back. */
    method Close()
      requires Valid()
      modifies this
      ensures tree == old(tree)[SequenceKey(MSG_SEQUENCE) := BigEndian(next)]
      ensures next == old(next) && stored == PutLease(old(stored), next)
      ensures Refines(tree, table, stored) && LeaseCovers(stored)
    {
      PutLeaseRefines(tree, table, stored, next);
      var key := FillSequenceKey(MSG_SEQUENCE);
      tree := tree[key[..] := BigEndian(next)];
      table := table[Sequence(MSG_SEQUENCE) := BigEndian(next)];
      stored := PutLease(stored, next);
    }

    /** Reads the persisted lease and writes the next one. */
    method UpdateSequenceLease() returns (first: i64, lease: i64)
      requires Valid() && leased <= ID_LIMIT
      modifies this`tree, this`table, this`stored
      ensures first == old(leased) && lease == first + SEQUENCE_BANDWIDTH
      ensures tree == old(tree)[SequenceKey(MSG_SEQUENCE) := BigEndian(lease)]
      ensures Refines(tree, table, stored) && stored == PutLease(old(stored), lease)
    {
      LeaseReadBack(tree, table, stored);
      var key := FillSequenceKey(MSG_SEQUENCE);
      first := FromBigEndian(tree[key[..]]);
      lease := first + SEQUENCE_BANDWIDTH;
      PutLeaseRefines(tree, table, stored, lease);
      tree := tree[key[..] := BigEndian(lease)];
      table := table[Sequence(MSG_SEQUENCE) := BigEndian(lease)];
      stored := PutLease(stored, lease);
    }

    /** Ids come one after the other, also across a renewal of the lease; the lease
        on disk stays above every id handed out, and no message is touched. */
    method GenerateId() returns (id: i64)
      requires Valid() && next <= ID_LIMIT
      modifies this
      ensures Valid()
      ensures id == old(next) && next == id + 1
      ensures leased == if old(next) == old(leased) then old(leased) + SEQUENCE_BANDWIDTH else old(leased)
      ensures stored == PutLease(old(stored), leased)
      ensures id !in stored.log
      ensures tree == old(tree) || tree == old(tree)[SequenceKey(MSG_SEQUENCE) := BigEndian(leased)]
    {
      if next >= leased {
        var first, lease := UpdateSequenceLease();
        next := first;
        leased := lease;
      }
      id := next;
      next := next + 1;
    }

    /** Sends to a group: one primary entry, one inbox entry per target, one entry
        in the group's history; whatever was stored before is still stored. */
    method SendToGroup(gid: i64, to: seq<i64>, msg: bytes) returns (id: i64)
      requires Valid() && next <= ID_LIMIT
      modifies this
      ensures Valid()
      ensures id == old(next) && id !in old(stored).log && next == id + 1
      ensures leased == if old(next) == old(leased) then old(leased) + SEQUENCE_BANDWIDTH else old(leased)
      ensures stored == Append(PutLease(old(stored), leased), id, Entry(InGroup(gid), (set u | u in to), msg))
      ensures forall k :: k in old(tree) && k != SequenceKey(MSG_SEQUENCE) ==> k in tree && tree[k] == old(tree[k])
    {
      hide Refines, Tabulates, BigEndian, WellFormed, LeaseCovers, GroupKey, RepresentsBatch;
      id := GenerateId();
      var batch, tableBatch := StartBatch(id, to, msg);
      var key := FillGroupKey(gid, id);
      batch, tableBatch := InsertBoth(batch, key[..], msg, tableBatch, Keys.Group(gid, id));
      ApplyEntry(batch, tableBatch, id, Entry(InGroup(gid), (set u | u in to), msg));
    }

    /** Sends a direct message: it is in both inboxes and in the pair's one history,
        whichever of the two sent it. */
    method SendToDm(fromUid: i64, toUid: i64, msg: bytes) returns (id: i64)
      requires Valid() && next <= ID_LIMIT
      modifies this
      ensures Valid()
      ensures id == old(next) && id !in old(stored).log && next == id + 1
      ensures leased == if old(next) == old(leased) then old(leased) + SEQUENCE_BANDWIDTH else old(leased)
      ensures stored == Append(PutLease(old(stored), leased), id,
            Entry(DirectOf(fromUid, toUid), {fromUid, toUid}, msg))
      ensures forall k :: k in old(tree) && k != SequenceKey(MSG_SEQUENCE) ==> k in tree && tree[k] == old(tree[k])
    {
      id := GenerateId();
      var batch, tableBatch := StartBatch(id, [fromUid, toUid], msg);
      var key := FillDmKey(fromUid, toUid, id);
      batch, tableBatch := InsertBoth(batch, key[..], msg, tableBatch,
        Dm(Min(fromUid, toUid), Max(fromUid, toUid), id));
      ApplyEntry(batch, tableBatch, id, Entry(DirectOf(fromUid, toUid), {fromUid, toUid}, msg));
    }

    /** The part of a send that both forms share: the primary entry and the inbox entries. */
    static method StartBatch(id: i64, to: seq<i64>, msg: bytes) returns (batch: TreeBatch, ghost tableBatch: TableBatch)
      ensures RepresentsBatch(batch, tableBatch)
      ensures forall k :: k in tableBatch <==> k == Msg(id) || (k.User? && k.mid == id && k.uid in to)
      ensures forall k :: k in tableBatch ==> tableBatch[k] == Some(msg)
    {
      batch, tableBatch := map[], map[];
      var key := FillMsgKey(id);
      batch, tableBatch := InsertBoth(batch, key[..], msg, tableBatch, Msg(id));
      var i := 0;
      while i < |to|
        invariant 0 <= i <= |to|
        invariant RepresentsBatch(batch, tableBatch)
        invariant forall k :: k in tableBatch <==> k == Msg(id) || (k.User? && k.mid == id && k.uid in to[..i])
        invariant forall k :: k in tableBatch ==> tableBatch[k] == Some(msg)
      {
        key := FillUserKey(to[i], id);
        batch, tableBatch := InsertBoth(batch, key[..], msg, tableBatch, User(to[i], id));
        assert to[..i + 1] == to[..i] + [to[i]];
        i := i + 1;
      }
      assert to[..i] == to;
    }

    /** `batch.insert`, mirrored on the table. */
    static method InsertBoth(batch: TreeBatch, key: bytes, value: bytes, ghost tableBatch: TableBatch, ghost k: Key)
        returns (batch': TreeBatch, ghost tableBatch': TableBatch)
      requires RepresentsBatch(batch, tableBatch) && key == Encode(k)
      ensures batch' == batch[key := Some(value)]
      ensures tableBatch' == tableBatch[k := Some(value)] && RepresentsBatch(batch', tableBatch')
    {
      PutRepresentsBatch(batch, tableBatch, k, Some(value));
      batch', tableBatch' := batch[key := Some(value)], tableBatch[k := Some(value)];
    }

    /** `batch.remove`, mirrored on the table. */
    static method RemoveBoth(batch: TreeBatch, key: bytes, ghost tableBatch: TableBatch, ghost k: Key)
        returns (batch': TreeBatch, ghost tableBatch': TableBatch)
      requires RepresentsBatch(batch, tableBatch) && key == Encode(k)
      ensures batch' == batch[key := None]
      ensures tableBatch' == tableBatch[k := None] && RepresentsBatch(batch', tableBatch')
    {
      PutRepresentsBatch(batch, tableBatch, k, None);
      batch', tableBatch' := batch[key := None], tableBatch[k := None];
    }

    /** `apply_batch` for the batch of a new message. */
    method ApplyEntry(batch: TreeBatch, ghost tableBatch: TableBatch, ghost id: i64, ghost entry: Entry)
      requires Valid() && id !in stored.log && 1 <= id < next
      requires WellFormedEntry(id, entry)
      requires IsEntryBatch(tableBatch, id, entry) && RepresentsBatch(batch, tableBatch)
      modifies this`tree, this`table, this`stored
      ensures Valid()
      ensures tree == Apply(old(tree), batch) && stored == Append(old(stored), id, entry)
      ensures forall k :: k in old(tree) ==> k in tree && tree[k] == old(tree[k])
    {
      AppendRefines(tree, table, stored, batch, tableBatch, id, entry);
      tree := Apply(tree, batch);
      table := Apply(table, tableBatch);
      stored := Append(stored, id, entry);
    }

    /** The bytes of one message. */
    method Get(mid: i64) returns (data: Option<bytes>)
      requires Valid()
      ensures data == if mid in stored.log then Some(stored.log[mid].data) else None
    {
      LookupRepresents(tree, table, Msg(mid));
      var key := FillMsgKey(mid);
      data := if key[..] in tree then Some(tree[key[..]]) else None;
    }

    // The loops of the fetch operations. Each has the code's guards against a key
    // it cannot decode or that belongs elsewhere; both are shown never to fire.

    /** Inbox and group scans, whose keys name one owner. */
    static method CollectOwned(tree: Tree, keys: seq<bytes>, decode: bytes -> Option<(i64, i64)>,
        owner: i64, limit: nat,
        ghost all: seq<(i64, bytes)>) returns (msgs: seq<(i64, bytes)>)
      requires |keys| == |all|
      requires forall i :: 0 <= i < |keys| ==>
                 keys[i] in tree && tree[keys[i]] == all[i].1 && decode(keys[i]) == Some((owner, all[i].0))
      ensures msgs == Last(all, limit)
    {
      msgs := [];
      var i := |keys|;
      while i > 0 && |msgs| < limit
        invariant 0 <= i <= |keys| && |msgs| == |keys| - i <= limit
        invariant forall j :: 0 <= j < |msgs| ==> msgs[j] == all[|keys| - 1 - j]
      {
        i := i - 1;
        match decode(keys[i]) {
          case None => assert false;
          case Some((currentOwner, msgId)) =>
            if currentOwner != owner { assert false; }
            msgs := msgs + [(msgId, tree[keys[i]])];
        }
      }
      CollectedFromEnd(msgs, all, limit);
      msgs := Reverse(msgs);
    }

    static method CollectDirect(tree: Tree, keys: seq<bytes>, decode: bytes -> Option<(i64, i64, i64)>,
        fromUid: i64, toUid: i64, limit: nat,
        ghost all: seq<(i64, bytes)>) returns (msgs: seq<(i64, bytes)>)
      requires |keys| == |all|
      requires forall i :: 0 <= i < |keys| ==>
                 && keys[i] in tree && tree[keys[i]] == all[i].1
                 && decode(keys[i]) == Some((Min(fromUid, toUid), Max(fromUid, toUid), all[i].0))
      ensures msgs == Last(all, limit)
    {
      msgs := [];
      var i := |keys|;
      while i > 0 && |msgs| < limit
        invariant 0 <= i <= |keys| && |msgs| == |keys| - i <= limit
        invariant forall j :: 0 <= j < |msgs| ==> msgs[j] == all[|keys| - 1 - j]
      {
        i := i - 1;
        match decode(keys[i]) {
          case None => assert false;
          case Some((a, b, msgId)) =>
            if !((fromUid == a && toUid == b) || (fromUid == b && toUid == a)) { assert false; }
            msgs := msgs + [(msgId, tree[keys[i]])];
        }
      }
      CollectedFromEnd(msgs, all, limit);
      msgs := Reverse(msgs);
    }

    static method CollectForward(tree: Tree, keys: seq<bytes>, limit: nat, ghost all: seq<(i64, bytes)>)
        returns (msgs: seq<(i64, bytes)>)
      requires |keys| == |all|
      requires forall i :: 0 <= i < |keys| ==>
                 keys[i] in tree && tree[keys[i]] == all[i].1 && DecodeMsg(keys[i]) == Some(all[i].0)
      ensures msgs == First(all, limit)
    {
      hide *;
      msgs := [];
      var i := 0;
      while i < |keys| && i < limit
        invariant 0 <= i <= |keys| && |msgs| == i <= limit
        invariant forall j :: 0 <= j < i ==> msgs[j] == all[j]
      {
        match DecodeMsg(keys[i]) {
          case None => assert false;
          case Some(msgId) => msgs := msgs + [(msgId, tree[keys[i]])];
        }
        i := i + 1;
      }
    }

    static method CollectBackward(tree: Tree, keys: seq<bytes>, limit: nat, ghost all: seq<(i64, bytes)>)
        returns (msgs: seq<(i64, bytes)>)
      requires |keys| == |all|
      requires forall i :: 0 <= i < |keys| ==>
                 keys[i] in tree && tree[keys[i]] == all[i].1 && DecodeMsg(keys[i]) == Some(all[i].0)
      ensures msgs == First(Reverse(all), limit)
    {
      hide *;
      msgs := [];
      var i := |keys|;
      while i > 0 && |msgs| < limit
        invariant 0 <= i <= |keys| && |msgs| == |keys| - i <= limit
        invariant forall j :: 0 <= j < |msgs| ==> msgs[j] == all[|keys| - 1 - j]
      {
        i := i - 1;
        match DecodeMsg(keys[i]) {
          case None => assert false;
          case Some(msgId) => msgs := msgs + [(msgId, tree[keys[i]])];
        }
      }
    }

    /** The newest `limit` messages of one inbox behind `after`, oldest of them first. */
    method FetchUserMessagesAfter(uid: i64, after: Option<i64>, limit: nat) returns (msgs: seq<(i64, bytes)>)
      requires Valid()
      ensures msgs == Last(Messages(stored.log, After(Inbox(stored.log, uid), after)), limit)
    {
      var lo := FillUserKey(uid, AfterStart(after));
      var hi := FillUserKey(uid, I64_MAX);
      ScanInbox(tree, table, stored, uid, after);
      var keys := KeysInOrder(KeysIn(tree, lo[..], hi[..]));
      msgs := CollectOwned(tree, keys, DecodeUser, uid, limit,
                           Messages(stored.log, After(Inbox(stored.log, uid), after)));
    }

    /** The oldest `limit` messages behind `sinceMid`, in ascending order. */
    method FetchMessagesAfter(sinceMid: i64, limit: nat) returns (msgs: seq<(i64, bytes)>)
      requires Valid()
      ensures msgs == First(Messages(stored.log, After(stored.log.Keys, Some(sinceMid))), limit)
    {
      var lo := FillMsgKey(Successor(sinceMid));
      var hi := FillMsgKey(I64_MAX);
      ScanMessagesAfter(tree, table, stored, sinceMid);
      var keys := KeysInOrder(KeysIn(tree, lo[..], hi[..]));
      msgs := CollectForward(tree, keys, limit,
                             Messages(stored.log, After(stored.log.Keys, Some(sinceMid))));
    }

    /** The newest `limit` messages of one direct conversation before `before`, oldest of them first. */
    method FetchDmMessagesBefore(fromUid: i64, toUid: i64, before: Option<i64>, limit: nat)
        returns (msgs: seq<(i64, bytes)>)
      requires Valid()
      ensures msgs == Last(Messages(stored.log, Before(History(stored.log, DirectOf(fromUid, toUid)), before)), limit)
    {
      var beforeId := if before.Some? then before.value else I64_MAX;
      var lo := FillDmKey(fromUid, toUid, 0);
      var hi := FillDmKey(fromUid, toUid, beforeId);
      ScanDm(tree, table, stored, fromUid, toUid, before);
      var keys := KeysInOrder(KeysIn(tree, lo[..], hi[..]));
      msgs := CollectDirect(tree, keys, DecodeDm, fromUid, toUid, limit,
                            Messages(stored.log, Before(History(stored.log, DirectOf(fromUid, toUid)), before)));
    }

    /** The newest `limit` messages of one group before `before`, oldest of them first. */
    method FetchGroupMessagesBefore(gid: i64, before: Option<i64>, limit: nat) returns (msgs: seq<(i64, bytes)>)
      requires Valid()
      ensures msgs == Last(Messages(stored.log, Before(History(stored.log, InGroup(gid)), before)), limit)
    {
      var beforeId := if before.Some? then before.value else I64_MAX;
      var lo := FillGroupKey(gid, 0);
      var hi := FillGroupKey(gid, beforeId);
      ScanGroup(tree, table, stored, gid, before);
      var keys := KeysInOrder(KeysIn(tree, lo[..], hi[..]));
      msgs := CollectOwned(tree, keys, DecodeGroup, gid, limit,
                           Messages(stored.log, Before(History(stored.log, InGroup(gid)), before)));
    }

    /** The newest `limit` messages up to and including `last`, newest first. */
    method FetchMessagesBeforeRev(last: i64, limit: nat) returns (msgs: seq<(i64, bytes)>)
      requires Valid()
      ensures msgs == First(Reverse(Messages(stored.log, UpTo(stored.log.Keys, last))), limit)
    {
      var lo := FillMsgKey(0);
      var hi := FillMsgKey(last);
      ScanMessagesUpTo(tree, table, stored, last);
      var keys := KeysInOrder(KeysUpTo(tree, lo[..], hi[..]));
      msgs := CollectBackward(tree, keys, limit,
                              Messages(stored.log, UpTo(stored.log.Keys, last)));
    }

    method InsertMergedMsg(mid: i64, msg: bytes)
      requires Valid()
      modifies this`tree, this`table, this`stored
      ensures Valid() && stored == PutMerged(old(stored), mid, msg)
    {
      PutMergedRefines(tree, table, stored, mid, msg);
      var key := FillMergedKey(mid);
      tree := tree[key[..] := msg];
      table := table[Merged(mid) := msg];
      stored := PutMerged(stored, mid, msg);
    }

    /** Rewrites an existing merged entry; never creates one. */
    method UpdateMergedMsg(mid: i64, f: bytes -> bytes)
      requires Valid()
      modifies this`tree, this`table, this`stored
      ensures Valid()
      ensures stored == if mid in old(stored).merged then PutMerged(old(stored), mid, f(old(stored).merged[mid]))
            else old(stored)
    {
      LookupRepresents(tree, table, Merged(mid));
      var key := FillMergedKey(mid);
      if key[..] in tree {
        var msg := f(tree[key[..]]);
        PutMergedRefines(tree, table, stored, mid, msg);
        tree := tree[key[..] := msg];
        table := table[Merged(mid) := msg];
        stored := PutMerged(stored, mid, msg);
      }
    }

    method RemoveMergedMsg(mid: i64)
      requires Valid()
      modifies this`tree, this`table, this`stored
      ensures Valid() && stored == old(stored).(merged := old(stored).merged - {mid})
    {
      RemoveMergedRefines(tree, table, stored, mid);
      var key := FillMergedKey(mid);
      tree := tree - {key[..]};
      table := table - {Merged(mid)};
      stored := stored.(merged := stored.merged - {mid});
    }

    method GetMergedMsg(mid: i64) returns (data: Option<bytes>)
      requires Valid()
      ensures data == if mid in stored.merged then Some(stored.merged[mid]) else None
    {
      LookupRepresents(tree, table, Merged(mid));
      var key := FillMergedKey(mid);
      data := if key[..] in tree then Some(tree[key[..]]) else None;
    }

    /** The greatest stored id, found by walking all keys from the last one down. */
    method GetMaxMsgId() returns (mid: Option<i64>)
      requires Valid()
      ensures mid.None? <==> stored.log == map[]
      ensures mid.Some? ==> mid.value in stored.log && forall m :: m in stored.log ==> m <= mid.value
    {
      var keys := KeysInOrder(tree.Keys);
      var i := |keys|;
      while i > 0
        invariant 0 <= i <= |keys|
        invariant forall j :: i <= j < |keys| ==> !IsMessageKey(keys[j])
      {
        i := i - 1;
        if IsMessageKey(keys[i]) {
          mid := Some(FromBigEndian(keys[i][4..12]));
          GreatestKeyIsGreatestId(tree, table, stored, keys, i);
          return;
        }
      }
      mid := None;
      NoMessageKey(tree, table, stored, keys);
    }

    /** Removes all messages of a group and returns their ids in ascending order. */
    method ClearGroupMessages(gid: i64) returns (removed: seq<i64>)
      requires Valid()
      modifies this`tree, this`table, this`stored
      ensures Valid()
      ensures removed == Sorted(History(old(stored).log, InGroup(gid)))
      ensures stored == Clear(old(stored), gid)
    {
      var batch: TreeBatch;
      ghost var tableBatch: TableBatch;
      removed, batch, tableBatch := ClearBatch(tree, table, stored, gid);
      ClearRefines(tree, table, stored, batch, tableBatch, gid);
      tree := Apply(tree, batch);
      table := Apply(table, tableBatch);
      stored := Clear(stored, gid);
    }

    static method ClearBatch(tree: Tree, ghost table: Table, ghost s: Stored, gid: i64)
        returns (removed: seq<i64>, batch: TreeBatch, ghost tableBatch: TableBatch)
      requires Refines(tree, table, s)
      ensures removed == Sorted(History(s.log, InGroup(gid)))
      ensures RepresentsBatch(batch, tableBatch) && IsClearBatch(tableBatch, s, gid)
    {
      ghost var ids := Sorted(History(s.log, InGroup(gid)));
      var lo := FillGroupKey(gid, 0);
      var hi := FillGroupKey(gid, I64_MAX);
      ScanWholeGroup(tree, table, s, gid);
      var groupKeys := KeysInOrder(KeysIn(tree, lo[..], hi[..]));
      removed, batch, tableBatch := RemoveGroupEntries(groupKeys, DecodeGroup, gid, ids);
      var inboxKeys := KeysInOrder(KeysWithPrefix(tree, UMSG));
      batch, tableBatch := RemoveInboxEntries(tree, table, inboxKeys, removed, gid, batch, tableBatch);
      ClearBatchComplete(tree, table, s, gid, removed, inboxKeys, tableBatch);
    }

    static method RemoveGroupEntries(keys: seq<bytes>, decode: bytes -> Option<(i64, i64)>, gid: i64,
        ghost ids: seq<i64>)
        returns (removed: seq<i64>, batch: TreeBatch, ghost tableBatch: TableBatch)
      requires |keys| == |ids|
      requires forall i :: 0 <= i < |keys| ==>
            decode(keys[i]) == Some((gid, ids[i])) && keys[i] == GroupKey(gid, ids[i])
      ensures removed == ids && RepresentsBatch(batch, tableBatch)
      ensures forall k :: k in tableBatch <==> GroupPart(k, gid, ids)
      ensures forall k :: k in tableBatch ==> tableBatch[k] == None
    {
      batch, tableBatch, removed := map[], map[], [];
      var i := 0;
      while i < |keys|
        invariant 0 <= i <= |keys| && removed == ids[..i]
        invariant RepresentsBatch(batch, tableBatch)
        invariant forall k :: k in tableBatch <==> GroupPart(k, gid, ids[..i])
        invariant forall k :: k in tableBatch ==> tableBatch[k] == None
      {
        match decode(keys[i]) {
          case None => assert false;
          case Some((currentGid, mid)) =>
            if currentGid != gid { assert false; }
            removed := removed + [mid];
            batch, tableBatch := RemoveMessage(batch, tableBatch, keys[i], gid, mid);
        }
        assert ids[..i + 1] == ids[..i] + [ids[i]];
        i := i + 1;
      }
      assert ids[..i] == ids;
    }

    /** The three removals for one message of the group. */
    static method RemoveMessage(start: TreeBatch, ghost startTable: TableBatch, groupKey: bytes, ghost gid: i64,
        mid: i64)
        returns (batch: TreeBatch, ghost tableBatch: TableBatch)
      requires RepresentsBatch(start, startTable) && groupKey == GroupKey(gid, mid)
      ensures RepresentsBatch(batch, tableBatch)
      ensures tableBatch == startTable[Msg(mid) := None][Merged(mid) := None][Keys.Group(gid, mid) := None]
    {
      var key := FillMsgKey(mid);
      batch, tableBatch := RemoveBoth(start, key[..], startTable, Msg(mid));
      key := FillMergedKey(mid);
      batch, tableBatch := RemoveBoth(batch, key[..], tableBatch, Merged(mid));
      batch, tableBatch := RemoveBoth(batch, groupKey, tableBatch, Keys.Group(gid, mid));
    }

    static method RemoveInboxEntries(tree: Tree, ghost table: Table, keys: seq<bytes>, removed: seq<i64>,
        ghost gid: i64,
        start: TreeBatch, ghost startTable: TableBatch) returns (batch: TreeBatch, ghost tableBatch: TableBatch)
      requires Represents(tree, table) && Lists(Less, keys, KeysWithPrefix(tree, UMSG))
      requires RepresentsBatch(start, startTable)
      requires forall k :: k in startTable <==> GroupPart(k, gid, removed)
      requires forall k :: k in startTable ==> startTable[k] == None
      ensures RepresentsBatch(batch, tableBatch)
      ensures forall k :: k in tableBatch <==> GroupPart(k, gid, removed) || InboxPart(k, keys, removed)
      ensures forall k :: k in tableBatch ==> tableBatch[k] == None
    {
      var removedSet := set m | m in removed;
      batch, tableBatch := start, startTable;
      var i := 0;
      while i < |keys|
        invariant 0 <= i <= |keys|
        invariant RepresentsBatch(batch, tableBatch)
        invariant forall k :: k in tableBatch <==> GroupPart(k, gid, removed) || InboxPart(k, keys[..i], removed)
        invariant forall k :: k in tableBatch ==> tableBatch[k] == None
      {
        assert keys[i] in keys;
        ghost var k := KeyRepresents(tree, table, keys[i]);
        UserSpaceDecodes(k);
        match DecodeUser(keys[i]) {
          case None =>
          case Some((uid, mid)) =>
            if mid in removedSet {
              var key := FillUserKey(uid, mid);
              batch, tableBatch := RemoveBoth(batch, key[..], tableBatch, User(uid, mid));
            }
        }
        InboxPartGrows(keys, i, removed, k);
        i := i + 1;
      }
      assert keys[..i] == keys;
    }
  }

  // ---------- walking all keys from the end ----------

  /** The test by which the walk recognises a message key. */
  predicate IsMessageKey(key: bytes) { MSG <= key && |key| == 12 }

  lemma MessageKeyDecodes(key: bytes)
    ensures IsMessageKey(key) <==> DecodeMsg(key).Some?
    ensures IsMessageKey(key) ==>
              var mid := FromBigEndian(key[4..12]);
              DecodeMsg(key) == Some(mid) && key == MsgKey(mid)
  {
    if IsMessageKey(key) {
      assert key[4..12] == key[4..];
      MsgKeyDecoded(key);
    }
  }

  lemma GreatestKeyIsGreatestId(tree: Tree, table: Table, s: Stored, keys: seq<bytes>, i: nat)
    requires Refines(tree, table, s) && Lists(Less, keys, tree.Keys)
    requires i < |keys| && IsMessageKey(keys[i])
    requires forall j :: i < j < |keys| ==> !IsMessageKey(keys[j])
    ensures var mid := FromBigEndian(keys[i][4..12]); mid in s.log && forall m :: m in s.log ==> m <= mid
  {
    var mid := FromBigEndian(keys[i][4..12]);
    MessageKeyDecodes(keys[i]);
    assert keys[i] in tree;
    LookupRepresents(tree, table, Msg(mid));
    forall m | m in s.log ensures m <= mid {
      LookupRepresents(tree, table, Msg(m));
      LastMessageKey(keys, tree.Keys, i, mid, m);
    }
  }

  lemma LastMessageKey(keys: seq<bytes>, elems: set<bytes>, i: nat, mid: i64, m: i64)
    requires Lists(Less, keys, elems)
    requires i < |keys| && keys[i] == MsgKey(mid) && MsgKey(m) in elems
    requires forall j :: i < j < |keys| ==> !IsMessageKey(keys[j])
    requires mid >= 0 && m >= 0
    ensures m <= mid
  {
    assert MsgKey(m) in keys;
    var j :| 0 <= j < |keys| && keys[j] == MsgKey(m);
    MsgKeyRoundTrip(m);
    MsgKeyRoundTrip(mid);
    MessageKeyDecodes(MsgKey(m));
    assert j <= i;
    if j < i {
      assert Less(keys[j], keys[i]);
      IdOrder(MSG, m, mid);
    }
  }

  lemma NoMessageKey(tree: Tree, table: Table, s: Stored, keys: seq<bytes>)
    requires Refines(tree, table, s) && Lists(Less, keys, tree.Keys)
    requires forall j :: 0 <= j < |keys| ==> !IsMessageKey(keys[j])
    ensures s.log == map[]
  {
    forall m ensures m !in s.log {
      LookupRepresents(tree, table, Msg(m));
      MsgKeyRoundTrip(m);
      MessageKeyDecodes(MsgKey(m));
    }
  }

  // ---------- the two halves of a clearing batch ----------

  lemma ScanWholeGroup(tree: Tree, table: Table, s: Stored, gid: i64)
    requires Refines(tree, table, s)
    ensures var keys := InOrder(KeysIn(tree, GroupKey(gid, 0), GroupKey(gid, I64_MAX)));
            var ids := Sorted(History(s.log, InGroup(gid)));
            && |keys| == |ids|
            && forall i :: 0 <= i < |keys| ==>
              DecodeGroup(keys[i]) == Some((gid, ids[i])) && keys[i] == GroupKey(gid, ids[i])
  {
    var keys := InOrder(KeysIn(tree, GroupKey(gid, 0), GroupKey(gid, I64_MAX)));
    var ids := Sorted(History(s.log, InGroup(gid)));
    ScanGroup(tree, table, s, gid, None);
    forall i | 0 <= i < |keys|
      ensures DecodeGroup(keys[i]) == Some((gid, ids[i])) && keys[i] == GroupKey(gid, ids[i])
    {
      assert Messages(s.log, History(s.log, InGroup(gid)))[i].0 == ids[i];
      PairDecoded(keys[i], GMSG);
    }
  }

  ghost predicate GroupPart(k: Key, gid: i64, mids: seq<i64>) {
    match k
    case Msg(m) => m in mids
    case Merged(m) => m in mids
    case Group(g, m) => g == gid && m in mids
    case _ => false
  }

  ghost predicate InboxPart(k: Key, keys: seq<bytes>, mids: seq<i64>) {
    k.User? && k.mid in mids && Encode(k) in keys
  }

  lemma UserSpaceDecodes(k: Key)
    requires UMSG <= Encode(k)
    ensures k.User? && DecodeUser(Encode(k)) == Some((k.uid, k.mid))
  {
    FirstByte(Encode(k));
    DecodeEncode(k);
    assert SpaceOf(Encode(k)) == UserSpace;
  }

  lemma InboxPartGrows(keys: seq<bytes>, i: nat, mids: seq<i64>, key: Key)
    requires i < |keys| && keys[i] == Encode(key) && key.User?
    ensures forall k :: InboxPart(k, keys[..i + 1], mids) <==>
          InboxPart(k, keys[..i], mids) || (k == key && key.mid in mids)
  {
    assert keys[..i + 1] == keys[..i] + [keys[i]];
    DecodeEncode(key);
    forall k: Key ensures InboxPart(k, keys[..i + 1], mids) <==>
              InboxPart(k, keys[..i], mids) || (k == key && key.mid in mids)
    {
      DecodeEncode(k);
      assert Encode(k) in keys[..i + 1] <==> Encode(k) in keys[..i] || Encode(k) == keys[i];
    }
  }

  lemma ClearBatchComplete(tree: Tree, table: Table, s: Stored, gid: i64, removed: seq<i64>, keys: seq<bytes>,
      batch: TableBatch)
    requires Refines(tree, table, s) && Lists(Less, keys, KeysWithPrefix(tree, UMSG))
    requires removed == Sorted(History(s.log, InGroup(gid)))
    requires forall k :: k in batch <==> GroupPart(k, gid, removed) || InboxPart(k, keys, removed)
    requires forall k :: k in batch ==> batch[k] == None
    ensures IsClearBatch(batch, s, gid)
  {
    assert (set m | m in removed) == History(s.log, InGroup(gid));
    forall k: Key ensures k in batch <==> ClearedKey(k, s, gid) {
      LookupRepresents(tree, table, k);
      if k.User? { assert UMSG <= Encode(k); }
    }
  }
}
