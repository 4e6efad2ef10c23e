/** The message store as a plain log of messages, the table of index entries
    that stands for it, and what each query of the store means on the log. */
module MessageLog {
  import opened Bytes
  import opened Results
  import opened Encoding
  import opened Ordered
  import opened Keys

  // ---------- the plain log ----------

  datatype Conversation = InGroup(gid: i64) | Direct(low: i64, high: i64)

  /** One message: where it belongs, whose inboxes it is in, and its bytes. */
  datatype Entry = Entry(conversation: Conversation, targets: set<i64>, data: bytes)

  type Log = map<i64, Entry>
  type Merged = map<i64, bytes>
  type Tree = map<bytes, bytes>
  type Table = map<Key, bytes>

  /** Everything the store holds: the log, the merged view, and the leased id. */
  datatype Stored = Stored(log: Log, merged: Merged, lease: Option<i64>)

  function DirectOf(x: i64, y: i64): Conversation { Direct(Min(x, y), Max(x, y)) }

  ghost predicate WellFormedEntry(m: i64, e: Entry) {
    && 1 <= m < I64_MAX
    && (e.conversation.Direct? ==>
          && e.conversation.low <= e.conversation.high
          && e.targets == {e.conversation.low, e.conversation.high})
  }

  ghost predicate WellFormed(log: Log) {
    forall m :: m in log ==> WellFormedEntry(m, log[m])
  }

  ghost function Inbox(log: Log, uid: i64): set<i64> {
    set m | m in log && uid in log[m].targets
  }

  ghost function History(log: Log, c: Conversation): set<i64> {
    set m | m in log && log[m].conversation == c
  }

  /** The messages with the given ids, in the given order. */
  ghost function Records(log: Log, mids: seq<i64>): (r: seq<(i64, bytes)>)
    requires forall i :: 0 <= i < |mids| ==> mids[i] in log
    ensures |r| == |mids|
    ensures forall i :: 0 <= i < |mids| ==> r[i] == (mids[i], log[mids[i]].data)
  {
    seq(|mids|, i requires 0 <= i < |mids| => (mids[i], log[mids[i]].data))
  }

  /** All messages with ids in `mids`, oldest first. */
  ghost function Messages(log: Log, mids: set<i64>): (r: seq<(i64, bytes)>)
    requires mids <= log.Keys
    ensures |r| == |mids|
  {
    assert forall i :: 0 <= i < |mids| ==> Sorted(mids)[i] in mids;
    Records(log, Sorted(mids))
  }

  /** The newest messages are those with the greatest ids, each with its bytes. */
  lemma LastMessage(log: Log, mids: set<i64>, n: nat, i: nat)
    requires mids <= log.Keys && i < |Last(Sorted(mids), n)|
    ensures |Last(Messages(log, mids), n)| == |Last(Sorted(mids), n)|
    ensures var m := Last(Sorted(mids), n)[i]; m in mids && Last(Messages(log, mids), n)[i] == (m, log[m].data)
  {
    hide Last;
    var at := |mids| - |Last(Sorted(mids), n)| + i;
    assert Sorted(mids)[at] in Sorted(mids);
    assert Messages(log, mids)[at] == (Sorted(mids)[at], log[Sorted(mids)[at]].data);
  }

  /** Ids after `after`. A value below -1 makes the scan start behind every id
      that exists, since negative numbers encode above the positive ones. */
  ghost function After(mids: set<i64>, after: Option<i64>): (s: set<i64>)
    ensures s <= mids
  {
    if after.None? then mids
    else if after.value < -1 then {}
    else set m | m in mids && m > after.value
  }

  /** Ids before `before`. A negative value does not limit the scan at all. */
  ghost function Before(mids: set<i64>, before: Option<i64>): (s: set<i64>)
    ensures s <= mids
  {
    if before.None? || before.value < 0 then mids else set m | m in mids && m < before.value
  }

  /** Ids up to and including `last`; a negative value does not limit the scan. */
  ghost function UpTo(mids: set<i64>, last: i64): (s: set<i64>)
    ensures s <= mids
  {
    if last < 0 then mids else set m | m in mids && m <= last
  }

  // ---------- the table of index entries ----------

  function ConversationKey(c: Conversation, mid: i64): Key
    requires c.Direct? ==> c.low <= c.high
  {
    match c
    case InGroup(gid) => Keys.Group(gid, mid)
    case Direct(low, high) => Dm(low, high, mid)
  }

  const MSG_SEQUENCE: byte := 1

  /** The entries the store must have: per message one primary entry, one per
      inbox and one in its conversation; the merged view; the id sequence. */
  ghost predicate Indexed(s: Stored, k: Key) {
    match k
    case Msg(m) => m in s.log
    case Merged(m) => m in s.merged
    case User(uid, m) => m in s.log && uid in s.log[m].targets
    case Group(gid, m) => m in s.log && s.log[m].conversation == InGroup(gid)
    case Dm(low, high, m) => m in s.log && s.log[m].conversation == Direct(low, high)
    case Sequence(ty) => ty == MSG_SEQUENCE && s.lease.Some?
  }

  ghost function IndexedValue(s: Stored, k: Key): bytes
    requires Indexed(s, k)
  {
    match k
    case Merged(m) => s.merged[m]
    case Sequence(_) => BigEndian(s.lease.value)
    case _ => s.log[k.mid].data
  }

  ghost predicate Tabulates(s: Stored, table: Table) {
    && (forall k :: k in table <==> Indexed(s, k))
    && (forall k :: k in table ==> table[k] == IndexedValue(s, k))
  }

  /** The byte map is the encoding of exactly the entries that the log calls for. */
  ghost predicate Refines(tree: Tree, table: Table, s: Stored) {
    WellFormed(s.log) && Tabulates(s, table) && Represents(tree, table)
  }

  // ---------- the byte map as an encoding of the table ----------

  type TableBatch = Batch<Key, bytes>
  type TreeBatch = Batch<bytes, bytes>

  /** `tree` is `table` with its keys encoded. */
  ghost predicate Represents(tree: Tree, table: Table) {
    Encoded<Key, bytes, bytes>(Encode, Decode, tree, table)
  }

  ghost predicate RepresentsBatch(batch: TreeBatch, tableBatch: TableBatch) {
    Encoded<Key, bytes, Option<bytes>>(Encode, Decode, batch, tableBatch)
  }

  lemma ApplyRepresents(tree: Tree, table: Table, batch: TreeBatch, tableBatch: TableBatch)
    requires Represents(tree, table) && RepresentsBatch(batch, tableBatch)
    ensures Represents(Apply(tree, batch), Apply(table, tableBatch))
    ensures table.Keys !! tableBatch.Keys ==> tree.Keys !! batch.Keys
  {
    KeyCodec();
    ApplyEncoded<Key, bytes, bytes>(Encode, Decode, tree, table, batch, tableBatch);
    forall b | b in tree && b in batch ensures Decode(b).Some? && Decode(b).value in table.Keys * tableBatch.Keys {}
  }

  lemma PutRepresents(tree: Tree, table: Table, k: Key, value: bytes)
    requires Represents(tree, table)
    ensures Represents(tree[Encode(k) := value], table[k := value])
  {
    KeyCodec();
    PutEncoded<Key, bytes, bytes>(Encode, Decode, tree, table, k, value);
  }

  lemma RemoveRepresents(tree: Tree, table: Table, k: Key)
    requires Represents(tree, table)
    ensures Represents(tree - {Encode(k)}, table - {k})
  {
    KeyCodec();
    RemoveEncoded<Key, bytes, bytes>(Encode, Decode, tree, table, k);
  }

  lemma PutRepresentsBatch(batch: TreeBatch, tableBatch: TableBatch, k: Key, write: Option<bytes>)
    requires RepresentsBatch(batch, tableBatch)
    ensures RepresentsBatch(batch[Encode(k) := write], tableBatch[k := write])
  {
    KeyCodec();
    PutEncoded<Key, bytes, Option<bytes>>(Encode, Decode, batch, tableBatch, k, write);
  }

  /** Looking a key up in the bytes is looking it up in the table. */
  lemma LookupRepresents(tree: Tree, table: Table, k: Key)
    requires Represents(tree, table)
    ensures Encode(k) in tree <==> k in table
    ensures k in table ==> tree[Encode(k)] == table[k]
  {
    KeyCodec();
    MembershipEncoded<Key, bytes, bytes>(Encode, Decode, tree, table, k);
  }

  /** Every byte key in the map is the encoding of a table key. */
  lemma KeyRepresents(tree: Tree, table: Table, b: bytes) returns (k: Key)
    requires Represents(tree, table) && b in tree
    ensures k in table && Encode(k) == b && tree[b] == table[k]
  {
    KeyCodec();
    k := Decode(b).value;
  }

  const EMPTY: Stored := Stored(map[], map[], None)

  lemma EmptyRefines()
    ensures Refines(map[], map[], EMPTY)
  {}

  /** Index consistency, read off the bytes: whatever key of a secondary index is
      in the map, the primary entry of that message is there with the same bytes. */
  lemma SecondaryHasPrimary(tree: Tree, table: Table, s: Stored, key: bytes)
    requires Refines(tree, table, s) && key in tree
    requires DecodeUser(key).Some? || DecodeGroup(key).Some? || DecodeDm(key).Some?
    ensures var m := if DecodeUser(key).Some? then DecodeUser(key).value.1
                     else if DecodeGroup(key).Some? then DecodeGroup(key).value.1
                     else DecodeDm(key).value.2;
            MsgKey(m) in tree && tree[MsgKey(m)] == tree[key]
  {
    var k := KeyRepresents(tree, table, key);
    DecodersReadTheirSpace(key);
    DecodeEncode(k);
    assert Indexed(s, k) && Indexed(s, Msg(k.mid));
    LookupRepresents(tree, table, Msg(k.mid));
  }

  /** Every stored message is in exactly one conversation: of all group and direct
      keys that could carry its id, one is in the map. */
  lemma OneConversationPerMessage(tree: Tree, table: Table, s: Stored, m: i64, k: Key)
    requires Refines(tree, table, s) && MsgKey(m) in tree
    requires (k.Group? || k.Dm?) && k.mid == m
    ensures m in s.log
    ensures Encode(k) in tree <==> k == ConversationKey(s.log[m].conversation, m)
  {
    LookupRepresents(tree, table, Msg(m));
    LookupRepresents(tree, table, k);
    assert Encode(Msg(m)) == MsgKey(m);
  }

  // ---------- appending a message ----------

  ghost predicate EntryKey(k: Key, mid: i64, e: Entry)
    requires WellFormedEntry(mid, e)
  {
    || k == Msg(mid)
    || k == ConversationKey(e.conversation, mid)
    || (k.User? && k.mid == mid && k.uid in e.targets)
  }

  ghost predicate IsEntryBatch(batch: TableBatch, mid: i64, e: Entry)
    requires WellFormedEntry(mid, e)
  {
    && (forall k :: k in batch <==> EntryKey(k, mid, e))
    && (forall k :: k in batch ==> batch[k] == Some(e.data))
  }

  function Append(s: Stored, mid: i64, e: Entry): Stored { s.(log := s.log[mid := e]) }

  /** The batch of a new message appends it to the log and overwrites no entry. */
  lemma AppendRefines(tree: Tree, table: Table, s: Stored,
      batch: TreeBatch, tableBatch: TableBatch, mid: i64, e: Entry)
    requires Refines(tree, table, s)
    requires mid !in s.log && WellFormedEntry(mid, e)
    requires IsEntryBatch(tableBatch, mid, e) && RepresentsBatch(batch, tableBatch)
    ensures Refines(Apply(tree, batch), Apply(table, tableBatch), Append(s, mid, e))
    ensures batch.Keys !! tree.Keys
  {
    AppendTabulates(table, s, tableBatch, mid, e);
    ApplyRepresents(tree, table, batch, tableBatch);
  }

  lemma AppendedKey(s: Stored, mid: i64, e: Entry, k: Key)
    requires WellFormed(s.log) && mid !in s.log && WellFormedEntry(mid, e)
    ensures Indexed(Append(s, mid, e), k) <==> Indexed(s, k) || EntryKey(k, mid, e)
    ensures EntryKey(k, mid, e) ==> !Indexed(s, k) && IndexedValue(Append(s, mid, e), k) == e.data
    ensures Indexed(s, k) ==> IndexedValue(Append(s, mid, e), k) == IndexedValue(s, k)
  {}

  lemma AppendTabulates(table: Table, s: Stored, tableBatch: TableBatch, mid: i64, e: Entry)
    requires WellFormed(s.log) && Tabulates(s, table)
    requires mid !in s.log && WellFormedEntry(mid, e) && IsEntryBatch(tableBatch, mid, e)
    ensures Tabulates(Append(s, mid, e), Apply(table, tableBatch))
    ensures table.Keys !! tableBatch.Keys
  {
    hide Indexed, IndexedValue, EntryKey, WellFormedEntry;
    var table' := Apply(table, tableBatch);
    forall k: Key
      ensures k in table' <==> Indexed(Append(s, mid, e), k)
      ensures k in table' ==> table'[k] == IndexedValue(Append(s, mid, e), k)
      ensures k in tableBatch ==> k !in table
    {
      AppendedKey(s, mid, e, k);
      assert k in table <==> Indexed(s, k);
      assert k in tableBatch <==> EntryKey(k, mid, e);
    }
  }

  // ---------- the merged view and the id sequence ----------

  function PutMerged(s: Stored, mid: i64, data: bytes): Stored { s.(merged := s.merged[mid := data]) }

  function PutLease(s: Stored, lease: i64): Stored { s.(lease := Some(lease)) }

  lemma PutMergedRefines(tree: Tree, table: Table, s: Stored, mid: i64, data: bytes)
    requires Refines(tree, table, s)
    ensures Refines(tree[MergedKey(mid) := data], table[Merged(mid) := data], PutMerged(s, mid, data))
  {
    PutRepresents(tree, table, Merged(mid), data);
    assert Encode(Merged(mid)) == MergedKey(mid);
  }

  lemma RemoveMergedRefines(tree: Tree, table: Table, s: Stored, mid: i64)
    requires Refines(tree, table, s)
    ensures Refines(tree - {MergedKey(mid)}, table - {Merged(mid)}, s.(merged := s.merged - {mid}))
  {
    RemoveRepresents(tree, table, Merged(mid));
    assert Encode(Merged(mid)) == MergedKey(mid);
  }

  lemma PutLeaseRefines(tree: Tree, table: Table, s: Stored, lease: i64)
    requires Refines(tree, table, s)
    ensures Refines(tree[SequenceKey(MSG_SEQUENCE) := BigEndian(lease)],
                    table[Sequence(MSG_SEQUENCE) := BigEndian(lease)], PutLease(s, lease))
  {
    PutRepresents(tree, table, Sequence(MSG_SEQUENCE), BigEndian(lease));
    assert Encode(Sequence(MSG_SEQUENCE)) == SequenceKey(MSG_SEQUENCE);
  }

  /** What the id sequence reads back from the bytes is the lease that was written. */
  lemma LeaseReadBack(tree: Tree, table: Table, s: Stored)
    requires Refines(tree, table, s)
    ensures SequenceKey(MSG_SEQUENCE) in tree <==> s.lease.Some?
    ensures s.lease.Some? ==>
              var value := tree[SequenceKey(MSG_SEQUENCE)];
              |value| == 8 && value == BigEndian(s.lease.value) && FromBigEndian(value) == s.lease.value
  {
    LookupRepresents(tree, table, Sequence(MSG_SEQUENCE));
    if s.lease.Some? { BigEndianRoundTrip(s.lease.value); }
  }

  // ---------- clearing one group ----------

  /** The log without one group: its messages are gone from every index and from
      the merged view, and nothing else changes. */
  ghost function Clear(s: Stored, gid: i64): Stored {
    var gone := History(s.log, InGroup(gid));
    s.(log := s.log - gone, merged := s.merged - gone)
  }

  ghost predicate ClearedKey(k: Key, s: Stored, gid: i64) {
    var gone := History(s.log, InGroup(gid));
    match k
    case Msg(m) => m in gone
    case Merged(m) => m in gone
    case Group(g, m) => g == gid && m in gone
    case User(uid, m) => m in gone && uid in s.log[m].targets
    case Dm(_, _, _) => false
    case Sequence(_) => false
  }

  ghost predicate IsClearBatch(batch: TableBatch, s: Stored, gid: i64) {
    && (forall k :: k in batch <==> ClearedKey(k, s, gid))
    && (forall k :: k in batch ==> batch[k] == None)
  }

  lemma ClearRefines(tree: Tree, table: Table, s: Stored,
      batch: TreeBatch, tableBatch: TableBatch, gid: i64)
    requires Refines(tree, table, s)
    requires IsClearBatch(tableBatch, s, gid) && RepresentsBatch(batch, tableBatch)
    ensures Refines(Apply(tree, batch), Apply(table, tableBatch), Clear(s, gid))
  {
    ClearTabulates(table, s, tableBatch, gid);
    ApplyRepresents(tree, table, batch, tableBatch);
  }

  lemma ClearTabulates(table: Table, s: Stored, tableBatch: TableBatch, gid: i64)
    requires WellFormed(s.log) && Tabulates(s, table) && IsClearBatch(tableBatch, s, gid)
    ensures Tabulates(Clear(s, gid), Apply(table, tableBatch))
  {
    var table' := Apply(table, tableBatch);
    forall k ensures k in table' <==> Indexed(Clear(s, gid), k) {
      assert k in table <==> Indexed(s, k);
      assert k in tableBatch <==> ClearedKey(k, s, gid);
    }
  }

  /** Clearing a group leaves every other conversation, every inbox entry of it
      and its merged content exactly as it was. */
  lemma ClearKeepsOthers(s: Stored, gid: i64, c: Conversation, m: i64)
    requires c != InGroup(gid) && m in History(s.log, c)
    ensures m in Clear(s, gid).log && Clear(s, gid).log[m] == s.log[m]
    ensures m in Clear(s, gid).merged <==> m in s.merged
    ensures m in s.merged ==> Clear(s, gid).merged[m] == s.merged[m]
    ensures History(Clear(s, gid).log, c) == History(s.log, c)
    ensures History(Clear(s, gid).log, InGroup(gid)) == {}
  {}

  // ---------- ordered scans ----------

  lemma ByteOrder()
    ensures StrictOrder(Less)
  {
    forall x ensures !Less(x, x) { LessIrreflexive(x); }
    forall x, y, z | Less(x, y) && Less(y, z) ensures Less(x, z) { LessTransitive(x, y, z); }
    forall x, y ensures x == y || Less(x, y) || Less(y, x) { LessTotal(x, y); }
  }

  /** The keys of `s` in ascending order, as the store's iterators yield them. */
  ghost function InOrder(s: set<bytes>): (r: seq<bytes>)
    ensures Lists(Less, r, s)
  {
    ByteOrder();
    Sort(Less, s)
  }

  function KeysIn(tree: Tree, lo: bytes, hi: bytes): set<bytes> {
    set k | k in tree && InRange(k, lo, hi)
  }

  function KeysUpTo(tree: Tree, lo: bytes, last: bytes): set<bytes> {
    set k | k in tree && InClosedRange(k, lo, last)
  }

  function KeysWithPrefix(tree: Tree, prefix: bytes): set<bytes> {
    set k | k in tree && prefix <= k
  }

  /** `keys` are the keys under which the messages `ids` are stored, in ascending order. */
  ghost predicate Yields(keys: seq<bytes>, tree: Tree, log: Log, ids: set<i64>) {
    && ids <= log.Keys
    && |keys| == |ids|
    && forall i :: 0 <= i < |keys| ==> keys[i] in tree && tree[keys[i]] == Messages(log, ids)[i].1
  }

  lemma ScanIds(tree: Tree, table: Table, s: Stored, keys: set<bytes>, entryKey: i64 -> Key, ids: set<i64>)
    requires Refines(tree, table, s)
    requires forall m, n :: m in ids && n in ids && m < n ==> Less(Encode(entryKey(m)), Encode(entryKey(n)))
    requires forall m :: m in ids ==> m in s.log && entryKey(m) in table && table[entryKey(m)] == s.log[m].data
    requires forall m :: m in ids ==> Encode(entryKey(m)) in keys
    requires forall k: Key :: k in table && Encode(k) in keys ==> !k.Sequence? && k.mid in ids && k == entryKey(k.mid)
    requires forall b :: b in keys ==> b in tree
    ensures Yields(InOrder(keys), tree, s.log, ids)
    ensures forall i :: 0 <= i < |ids| ==> InOrder(keys)[i] == Encode(entryKey(Messages(s.log, ids)[i].0))
  {
    var listed := InOrder(keys);
    ListedKeys(tree, table, keys, entryKey, ids);
    forall i | 0 <= i < |listed|
      ensures listed[i] in tree && tree[listed[i]] == Messages(s.log, ids)[i].1
    {
      var m := Sorted(ids)[i];
      assert m in ids;
      LookupRepresents(tree, table, entryKey(m));
    }
  }

  lemma ListedKeys(tree: Tree, table: Table, keys: set<bytes>, entryKey: i64 -> Key, ids: set<i64>)
    requires Represents(tree, table)
    requires forall m, n :: m in ids && n in ids && m < n ==> Less(Encode(entryKey(m)), Encode(entryKey(n)))
    requires forall m :: m in ids ==> entryKey(m) in table
    requires forall m :: m in ids ==> Encode(entryKey(m)) in keys
    requires forall k: Key :: k in table && Encode(k) in keys ==> !k.Sequence? && k.mid in ids && k == entryKey(k.mid)
    requires forall b :: b in keys ==> b in tree
    ensures |InOrder(keys)| == |ids|
    ensures forall i :: 0 <= i < |ids| ==> InOrder(keys)[i] == Encode(entryKey(Sorted(ids)[i]))
  {
    ByteOrder();
    forall b | b in keys ensures exists m :: m in ids && Encode(entryKey(m)) == b {
      var k := KeyRepresents(tree, table, b);
      assert Encode(entryKey(k.mid)) == b;
    }
    var enc: i64 -> bytes := m => Encode(entryKey(m));
    SortedImage(Less, enc, ids, keys, InOrder(keys));
  }

  /** `id + 1` as 64-bit arithmetic computes it. */
  function Successor(x: i64): i64 { if x == I64_MAX then -0x8000_0000_0000_0000 else x + 1 }

  function AfterStart(after: Option<i64>): i64 { if after.Some? then Successor(after.value) else 0 }

  lemma IdsOrdered(prefix: bytes, ids: set<i64>)
    requires forall m :: m in ids ==> 0 <= m
    ensures forall m, n :: m in ids && n in ids && m < n ==> Less(prefix + BigEndian(m), prefix + BigEndian(n))
  {
    forall m, n | m in ids && n in ids && m < n ensures Less(prefix + BigEndian(m), prefix + BigEndian(n)) {
      IdOrder(prefix, m, n);
    }
  }

  lemma ScanInboxMembers(tree: Tree, table: Table, s: Stored, uid: i64, after: Option<i64>)
    requires Refines(tree, table, s)
    ensures var ids := After(Inbox(s.log, uid), after);
            forall k: Key :: k in table ==> (Encode(k) in KeysIn(tree, UserKey(uid, AfterStart(after)),
              UserKey(uid, I64_MAX)) <==> k.User? && k.uid == uid && k.mid in ids)
  {
    var ids := After(Inbox(s.log, uid), after);
    forall k: Key | k in table ensures Encode(k) in KeysIn(tree, UserKey(uid, AfterStart(after)),
      UserKey(uid, I64_MAX)) <==> k.User? && k.uid == uid && k.mid in ids {
      UserRange(uid, AfterStart(after), I64_MAX, k);
      LookupRepresents(tree, table, k);
    }
  }

  lemma ScanInbox(tree: Tree, table: Table, s: Stored, uid: i64, after: Option<i64>)
    requires Refines(tree, table, s)
    ensures var ids := After(Inbox(s.log, uid), after);
            var keys := InOrder(KeysIn(tree, UserKey(uid, AfterStart(after)), UserKey(uid, I64_MAX)));
            && Yields(keys, tree, s.log, ids)
            && forall i :: 0 <= i < |ids| ==> DecodeUser(keys[i]) == Some((uid, Messages(s.log, ids)[i].0))
  {
    hide BigEndian, Messages, InOrder, Less, Yields, DecodeUser;
    var ids := After(Inbox(s.log, uid), after);
    var keys := KeysIn(tree, UserKey(uid, AfterStart(after)), UserKey(uid, I64_MAX));
    ScanInboxMembers(tree, table, s, uid, after);
    IdsOrdered(UMSG + BigEndian(uid), ids);
    ScanIds(tree, table, s, keys, m => User(uid, m), ids);
    forall i | 0 <= i < |ids| ensures DecodeUser(InOrder(keys)[i]) == Some((uid, Messages(s.log, ids)[i].0)) {
      UserKeyRoundTrip(uid, Messages(s.log, ids)[i].0);
    }
  }

  lemma ScanGroupMembers(tree: Tree, table: Table, s: Stored, gid: i64, before: Option<i64>)
    requires Refines(tree, table, s)
    ensures var hi := if before.Some? then before.value else I64_MAX;
            var ids := Before(History(s.log, InGroup(gid)), before);
            forall k: Key :: k in table ==> (Encode(k) in KeysIn(tree, GroupKey(gid, 0), GroupKey(gid, hi)) <==>
              k.Group? && k.gid == gid && k.mid in ids)
  {
    var hi := if before.Some? then before.value else I64_MAX;
    var ids := Before(History(s.log, InGroup(gid)), before);
    forall k: Key | k in table ensures Encode(k) in KeysIn(tree, GroupKey(gid, 0), GroupKey(gid, hi)) <==>
      k.Group? && k.gid == gid && k.mid in ids {
      GroupRange(gid, 0, hi, k);
      LookupRepresents(tree, table, k);
    }
  }

  lemma ScanGroup(tree: Tree, table: Table, s: Stored, gid: i64, before: Option<i64>)
    requires Refines(tree, table, s)
    ensures var hi := if before.Some? then before.value else I64_MAX;
            var ids := Before(History(s.log, InGroup(gid)), before);
            var keys := InOrder(KeysIn(tree, GroupKey(gid, 0), GroupKey(gid, hi)));
            && Yields(keys, tree, s.log, ids)
            && forall i :: 0 <= i < |ids| ==> DecodeGroup(keys[i]) == Some((gid, Messages(s.log, ids)[i].0))
  {
    hide BigEndian, Messages, InOrder, Less, Yields, DecodeGroup;
    var hi := if before.Some? then before.value else I64_MAX;
    var ids := Before(History(s.log, InGroup(gid)), before);
    var keys := KeysIn(tree, GroupKey(gid, 0), GroupKey(gid, hi));
    ScanGroupMembers(tree, table, s, gid, before);
    IdsOrdered(GMSG + BigEndian(gid), ids);
    ScanIds(tree, table, s, keys, m => Keys.Group(gid, m), ids);
    forall i | 0 <= i < |ids| ensures DecodeGroup(InOrder(keys)[i]) == Some((gid, Messages(s.log, ids)[i].0)) {
      GroupKeyRoundTrip(gid, Messages(s.log, ids)[i].0);
    }
  }

  lemma ScanDmMembers(tree: Tree, table: Table, s: Stored, x: i64, y: i64, before: Option<i64>)
    requires Refines(tree, table, s)
    ensures var hi := if before.Some? then before.value else I64_MAX;
            var ids := Before(History(s.log, DirectOf(x, y)), before);
            forall k: Key :: k in table ==> (Encode(k) in KeysIn(tree, DmKey(x, y, 0), DmKey(x, y, hi)) <==>
              k.Dm? && k.low == Min(x, y) && k.high == Max(x, y) && k.mid in ids)
  {
    var hi := if before.Some? then before.value else I64_MAX;
    var ids := Before(History(s.log, DirectOf(x, y)), before);
    forall k: Key | k in table ensures Encode(k) in KeysIn(tree, DmKey(x, y, 0), DmKey(x, y, hi)) <==>
      k.Dm? && k.low == Min(x, y) && k.high == Max(x, y) && k.mid in ids {
      DmRange(x, y, 0, hi, k);
      LookupRepresents(tree, table, k);
    }
  }

  lemma ScanDm(tree: Tree, table: Table, s: Stored, x: i64, y: i64, before: Option<i64>)
    requires Refines(tree, table, s)
    ensures var hi := if before.Some? then before.value else I64_MAX;
            var ids := Before(History(s.log, DirectOf(x, y)), before);
            var keys := InOrder(KeysIn(tree, DmKey(x, y, 0), DmKey(x, y, hi)));
            && Yields(keys, tree, s.log, ids)
            && forall i :: 0 <= i < |ids| ==>
              DecodeDm(keys[i]) == Some((Min(x, y), Max(x, y), Messages(s.log, ids)[i].0))
  {
    hide BigEndian, Messages, InOrder, Less, Yields, DecodeDm;
    var hi := if before.Some? then before.value else I64_MAX;
    var ids := Before(History(s.log, DirectOf(x, y)), before);
    var keys := KeysIn(tree, DmKey(x, y, 0), DmKey(x, y, hi));
    ScanDmMembers(tree, table, s, x, y, before);
    IdsOrdered(DM + BigEndian(Min(x, y)) + BigEndian(Max(x, y)), ids);
    ScanIds(tree, table, s, keys, m => Dm(Min(x, y), Max(x, y), m), ids);
    forall i | 0 <= i < |ids| ensures DecodeDm(InOrder(keys)[i]) ==
      Some((Min(x, y), Max(x, y), Messages(s.log, ids)[i].0)) {
      DmKeyRoundTrip(Min(x, y), Max(x, y), Messages(s.log, ids)[i].0);
    }
  }

  lemma ScanMessagesAfterMembers(tree: Tree, table: Table, s: Stored, since: i64)
    requires Refines(tree, table, s)
    ensures var ids := After(s.log.Keys, Some(since));
            forall k: Key :: k in table ==>
              (Encode(k) in KeysIn(tree, MsgKey(Successor(since)), MsgKey(I64_MAX)) <==> k.Msg? && k.mid in ids)
  {
    var ids := After(s.log.Keys, Some(since));
    forall k: Key | k in table ensures Encode(k) in KeysIn(tree, MsgKey(Successor(since)), MsgKey(I64_MAX)) <==>
      k.Msg? && k.mid in ids {
      MsgRange(Successor(since), I64_MAX, k);
      LookupRepresents(tree, table, k);
    }
  }

  lemma ScanMessagesAfter(tree: Tree, table: Table, s: Stored, since: i64)
    requires Refines(tree, table, s)
    ensures var ids := After(s.log.Keys, Some(since));
            var keys := InOrder(KeysIn(tree, MsgKey(Successor(since)), MsgKey(I64_MAX)));
            && Yields(keys, tree, s.log, ids)
            && forall i :: 0 <= i < |ids| ==> DecodeMsg(keys[i]) == Some(Messages(s.log, ids)[i].0)
  {
    var ids := After(s.log.Keys, Some(since));
    var keys := KeysIn(tree, MsgKey(Successor(since)), MsgKey(I64_MAX));
    ScanMessagesAfterMembers(tree, table, s, since);
    IdsOrdered(MSG, ids);
    ScanIds(tree, table, s, keys, m => Msg(m), ids);
    forall i | 0 <= i < |ids| ensures DecodeMsg(InOrder(keys)[i]) == Some(Messages(s.log, ids)[i].0) {
      MsgKeyRoundTrip(Messages(s.log, ids)[i].0);
    }
  }

  lemma ScanMessagesUpToMembers(tree: Tree, table: Table, s: Stored, last: i64)
    requires Refines(tree, table, s)
    ensures var ids := UpTo(s.log.Keys, last);
            forall k: Key :: k in table ==>
              (Encode(k) in KeysUpTo(tree, MsgKey(0), MsgKey(last)) <==> k.Msg? && k.mid in ids)
  {
    var ids := UpTo(s.log.Keys, last);
    forall k: Key | k in table ensures Encode(k) in KeysUpTo(tree, MsgKey(0), MsgKey(last)) <==>
      k.Msg? && k.mid in ids {
      MsgRangeInclusive(last, k);
      LookupRepresents(tree, table, k);
    }
  }

  lemma ScanMessagesUpTo(tree: Tree, table: Table, s: Stored, last: i64)
    requires Refines(tree, table, s)
    ensures var ids := UpTo(s.log.Keys, last);
            var keys := InOrder(KeysUpTo(tree, MsgKey(0), MsgKey(last)));
            && Yields(keys, tree, s.log, ids)
            && forall i :: 0 <= i < |ids| ==> DecodeMsg(keys[i]) == Some(Messages(s.log, ids)[i].0)
  {
    var ids := UpTo(s.log.Keys, last);
    var keys := KeysUpTo(tree, MsgKey(0), MsgKey(last));
    ScanMessagesUpToMembers(tree, table, s, last);
    IdsOrdered(MSG, ids);
    ScanIds(tree, table, s, keys, m => Msg(m), ids);
    forall i | 0 <= i < |ids| ensures DecodeMsg(InOrder(keys)[i]) == Some(Messages(s.log, ids)[i].0) {
      MsgKeyRoundTrip(Messages(s.log, ids)[i].0);
    }
  }
}
