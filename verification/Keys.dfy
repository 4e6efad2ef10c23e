/** The byte keys of the message store: one encoder and one decoder per index. */
module Keys {
  import opened Bytes
  import opened Results
  import opened Encoding

  const MSG: bytes := [77, 83, 71, 47]  // "MSG/"
  const FMSG: bytes := [70, 77, 83, 71, 47]  // "FMSG/"
  const UMSG: bytes := [85, 77, 83, 71, 47]  // "UMSG/"
  const GMSG: bytes := [71, 77, 83, 71, 47]  // "GMSG/"
  const DM: bytes := [68, 77, 47]  // "DM/"
  const SEQUENCE: bytes := [83, 69, 81, 85, 69, 78, 67, 69, 47]  // "SEQUENCE/"

  // ---------- what the encoders produce ----------

  function Min(x: i64, y: i64): i64 { if x <= y then x else y }
  function Max(x: i64, y: i64): i64 { if x <= y then y else x }

  function MsgKey(mid: i64): bytes { MSG + BigEndian(mid) }
  function MergedKey(mid: i64): bytes { FMSG + BigEndian(mid) }
  function UserKey(uid: i64, mid: i64): bytes { UMSG + BigEndian(uid) + BigEndian(mid) }
  function GroupKey(gid: i64, mid: i64): bytes { GMSG + BigEndian(gid) + BigEndian(mid) }
  function DmKey(fromUid: i64, toUid: i64, mid: i64): bytes {
    DM + BigEndian(Min(fromUid, toUid)) + BigEndian(Max(fromUid, toUid)) + BigEndian(mid)
  }
  function SequenceKey(ty: byte): bytes { SEQUENCE + [ty] }

  // ---------- the encoders, filling a fixed-size buffer in place ----------

  method CopyFromSlice(data: array<byte>, at: nat, src: bytes)
    requires at + |src| <= data.Length
    modifies data
    ensures data[..] == old(data[..at]) + src + old(data[at + |src|..])
  {
    var i := 0;
    while i < |src|
      invariant 0 <= i <= |src|
      invariant data[at..at + i] == src[..i]
      invariant data[..at] == old(data[..at])
      invariant data[at + i..] == old(data[at + i..])
    {
      data[at + i] := src[i];
      i := i + 1;
    }
    assert data[..] == data[..at] + data[at..at + |src|] + data[at + |src|..];
  }

  method NewKey(size: nat) returns (data: array<byte>)
    ensures fresh(data) && data.Length == size
  {
    data := new byte[size](_ => 0);
  }

  method FillMsgKey(mid: i64) returns (data: array<byte>)
    ensures fresh(data) && data[..] == MsgKey(mid)
  {
    hide BigEndian;
    data := NewKey(12);
    CopyFromSlice(data, 0, MSG);
    CopyFromSlice(data, 4, BigEndian(mid));
  }

  method FillMergedKey(mid: i64) returns (data: array<byte>)
    ensures fresh(data) && data[..] == MergedKey(mid)
  {
    hide BigEndian;
    data := NewKey(13);
    CopyFromSlice(data, 0, FMSG);
    CopyFromSlice(data, 5, BigEndian(mid));
  }

  method FillUserKey(uid: i64, mid: i64) returns (data: array<byte>)
    ensures fresh(data) && data[..] == UserKey(uid, mid)
  {
    hide BigEndian;
    data := NewKey(21);
    CopyFromSlice(data, 0, UMSG);
    CopyFromSlice(data, 5, BigEndian(uid));
    CopyFromSlice(data, 13, BigEndian(mid));
  }

  method FillGroupKey(gid: i64, mid: i64) returns (data: array<byte>)
    ensures fresh(data) && data[..] == GroupKey(gid, mid)
  {
    hide BigEndian;
    data := NewKey(21);
    CopyFromSlice(data, 0, GMSG);
    CopyFromSlice(data, 5, BigEndian(gid));
    CopyFromSlice(data, 13, BigEndian(mid));
  }

  method FillDmKey(fromUid: i64, toUid: i64, mid: i64) returns (data: array<byte>)
    ensures fresh(data) && data[..] == DmKey(fromUid, toUid, mid)
  {
    hide BigEndian, Min, Max;
    data := NewKey(27);
    var a := Min(fromUid, toUid);
    var b := Max(fromUid, toUid);
    CopyFromSlice(data, 0, DM);
    CopyFromSlice(data, 3, BigEndian(a));
    CopyFromSlice(data, 11, BigEndian(b));
    CopyFromSlice(data, 19, BigEndian(mid));
  }

  method FillSequenceKey(ty: byte) returns (data: array<byte>)
    ensures fresh(data) && data[..] == SequenceKey(ty)
  {
    data := NewKey(10);
    CopyFromSlice(data, 0, SEQUENCE);
    data[9] := ty;
  }

  // ---------- the decoders ----------

  function StripPrefix(data: bytes, prefix: bytes): Option<bytes> {
    if prefix <= data then Some(data[|prefix|..]) else None
  }

  function DecodeMsg(data: bytes): Option<i64> {
    match StripPrefix(data, MSG)
    case None => None
    case Some(rest) => if |rest| != 8 then None else Some(FromBigEndian(rest))
  }

  function DecodePair(data: bytes, prefix: bytes): Option<(i64, i64)> {
    match StripPrefix(data, prefix)
    case None => None
    case Some(rest) =>
      if |rest| != 16 then None else Some((FromBigEndian(rest[..8]), FromBigEndian(rest[8..])))
  }

  function DecodeUser(data: bytes): Option<(i64, i64)> { DecodePair(data, UMSG) }

  function DecodeGroup(data: bytes): Option<(i64, i64)> { DecodePair(data, GMSG) }

  function DecodeDm(data: bytes): Option<(i64, i64, i64)> {
    match StripPrefix(data, DM)
    case None => None
    case Some(rest) =>
      if |rest| != 24 then None
      else Some((FromBigEndian(rest[..8]), FromBigEndian(rest[8..16]), FromBigEndian(rest[16..])))
  }

  /** Reads the id back out of a merged key, so that every kind of key has an inverse. */
  ghost function DecodeMerged(data: bytes): Option<i64> {
    match StripPrefix(data, FMSG)
    case None => None
    case Some(rest) => if |rest| != 8 then None else Some(FromBigEndian(rest))
  }

  // ---------- decoders invert encoders ----------

  lemma MsgKeyRoundTrip(mid: i64)
    ensures DecodeMsg(MsgKey(mid)) == Some(mid)
  {
    assert MsgKey(mid)[4..] == BigEndian(mid);
    BigEndianRoundTrip(mid);
  }

  lemma MergedKeyRoundTrip(mid: i64)
    ensures DecodeMerged(MergedKey(mid)) == Some(mid)
  {
    assert MergedKey(mid)[5..] == BigEndian(mid);
    BigEndianRoundTrip(mid);
  }

  lemma PairRoundTrip(prefix: bytes, x: i64, mid: i64)
    ensures DecodePair(prefix + BigEndian(x) + BigEndian(mid), prefix) == Some((x, mid))
  {
    var key := prefix + BigEndian(x) + BigEndian(mid);
    var rest := key[|prefix|..];
    assert rest == BigEndian(x) + BigEndian(mid);
    assert rest[..8] == BigEndian(x) && rest[8..] == BigEndian(mid);
    BigEndianRoundTrip(x);
    BigEndianRoundTrip(mid);
  }

  lemma UserKeyRoundTrip(uid: i64, mid: i64)
    ensures DecodeUser(UserKey(uid, mid)) == Some((uid, mid))
  {
    PairRoundTrip(UMSG, uid, mid);
  }

  lemma GroupKeyRoundTrip(gid: i64, mid: i64)
    ensures DecodeGroup(GroupKey(gid, mid)) == Some((gid, mid))
  {
    PairRoundTrip(GMSG, gid, mid);
  }

  lemma DmKeyRoundTrip(fromUid: i64, toUid: i64, mid: i64)
    ensures DecodeDm(DmKey(fromUid, toUid, mid)) == Some((Min(fromUid, toUid), Max(fromUid, toUid), mid))
  {
    var rest := DmKey(fromUid, toUid, mid)[3..];
    assert rest == BigEndian(Min(fromUid, toUid)) + BigEndian(Max(fromUid, toUid)) + BigEndian(mid);
    assert rest[..8] == BigEndian(Min(fromUid, toUid));
    assert rest[8..16] == BigEndian(Max(fromUid, toUid));
    assert rest[16..] == BigEndian(mid);
    BigEndianRoundTrip(Min(fromUid, toUid));
    BigEndianRoundTrip(Max(fromUid, toUid));
    BigEndianRoundTrip(mid);
  }

  // ---------- encoders invert decoders ----------

  lemma MsgKeyDecoded(data: bytes)
    requires DecodeMsg(data).Some?
    ensures data == MsgKey(DecodeMsg(data).value)
  {
    FromBigEndianRoundTrip(data[4..]);
    assert data == MSG + data[4..];
  }

  lemma MergedKeyDecoded(data: bytes)
    requires DecodeMerged(data).Some?
    ensures data == MergedKey(DecodeMerged(data).value)
  {
    FromBigEndianRoundTrip(data[5..]);
    assert data == FMSG + data[5..];
  }

  lemma PairDecoded(data: bytes, prefix: bytes)
    requires DecodePair(data, prefix).Some?
    ensures var (x, mid) := DecodePair(data, prefix).value; data == prefix + BigEndian(x) + BigEndian(mid)
  {
    var rest := data[|prefix|..];
    FromBigEndianRoundTrip(rest[..8]);
    FromBigEndianRoundTrip(rest[8..]);
    assert data == prefix + rest && rest == rest[..8] + rest[8..];
  }

  /** A direct-message key is the encoding of what it decodes to exactly when the
      smaller uid stands first, which is how every encoder call writes it. */
  lemma DmKeyDecoded(data: bytes)
    requires DecodeDm(data).Some?
    ensures var (a, b, mid) := DecodeDm(data).value; data == DmKey(a, b, mid) <==> a <= b
  {
    var (a, b, mid) := DecodeDm(data).value;
    var rest := data[3..];
    FromBigEndianRoundTrip(rest[..8]);
    FromBigEndianRoundTrip(rest[8..16]);
    FromBigEndianRoundTrip(rest[16..]);
    assert data == DM + rest && rest == rest[..8] + rest[8..16] + rest[16..];
    DmKeyRoundTrip(a, b, mid);
  }

  // ---------- injectivity and disjointness ----------

  /** Direct-message keys do not depend on who sends, and on nothing else do they coincide. */
  lemma DmKeySymmetricInjective(a: i64, b: i64, m: i64, c: i64, d: i64, n: i64)
    ensures DmKey(a, b, m) == DmKey(c, d, n) <==> m == n && ((a == c && b == d) || (a == d && b == c))
  {
    DmKeyRoundTrip(a, b, m);
    DmKeyRoundTrip(c, d, n);
  }

  /** Which index a key belongs to. */
  datatype Space = MsgSpace | MergedSpace | UserSpace | GroupSpace | DmSpace | SequenceSpace | NoSpace

  function SpaceOf(key: bytes): Space {
    if MSG <= key then MsgSpace
    else if FMSG <= key then MergedSpace
    else if UMSG <= key then UserSpace
    else if GMSG <= key then GroupSpace
    else if DM <= key then DmSpace
    else if SEQUENCE <= key then SequenceSpace
    else NoSpace
  }

  /** The six prefixes already differ in their first letter. */
  lemma FirstByte(key: bytes)
    ensures MSG <= key ==> key[0] == 77
    ensures FMSG <= key ==> key[0] == 70
    ensures UMSG <= key ==> key[0] == 85
    ensures GMSG <= key ==> key[0] == 71
    ensures DM <= key ==> key[0] == 68
    ensures SEQUENCE <= key ==> key[0] == 83
  {}

  /** The six key spaces are disjoint: each encoder writes into its own, and each
      decoder accepts keys of its own only. */
  lemma KeySpacesDisjoint(x: i64, y: i64, mid: i64, ty: byte)
    ensures SpaceOf(MsgKey(mid)) == MsgSpace && SpaceOf(MergedKey(mid)) == MergedSpace
    ensures SpaceOf(UserKey(x, mid)) == UserSpace && SpaceOf(GroupKey(x, mid)) == GroupSpace
    ensures SpaceOf(DmKey(x, y, mid)) == DmSpace && SpaceOf(SequenceKey(ty)) == SequenceSpace
  {
    assert MSG <= MsgKey(mid) && FMSG <= MergedKey(mid) && UMSG <= UserKey(x, mid);
    assert GMSG <= GroupKey(x, mid) && DM <= DmKey(x, y, mid) && SEQUENCE <= SequenceKey(ty);
    FirstByte(MsgKey(mid));
    FirstByte(MergedKey(mid));
    FirstByte(UserKey(x, mid));
    FirstByte(GroupKey(x, mid));
    FirstByte(DmKey(x, y, mid));
    FirstByte(SequenceKey(ty));
  }

  lemma DecodersReadTheirSpace(key: bytes)
    ensures DecodeMsg(key).Some? ==> SpaceOf(key) == MsgSpace
    ensures DecodeMerged(key).Some? ==> SpaceOf(key) == MergedSpace
    ensures DecodeUser(key).Some? ==> SpaceOf(key) == UserSpace
    ensures DecodeGroup(key).Some? ==> SpaceOf(key) == GroupSpace
    ensures DecodeDm(key).Some? ==> SpaceOf(key) == DmSpace
  {
    FirstByte(key);
  }

  // ---------- all keys together ----------

  datatype AnyKey =
    | Msg(mid: i64)
    | Merged(mid: i64)
    | User(uid: i64, mid: i64)
    | Group(gid: i64, mid: i64)
    | Dm(low: i64, high: i64, mid: i64)
    | Sequence(ty: byte)

  type Key = k: AnyKey | k.Dm? ==> k.low <= k.high witness Msg(0)

  function Encode(k: Key): bytes {
    match k
    case Msg(mid) => MsgKey(mid)
    case Merged(mid) => MergedKey(mid)
    case User(uid, mid) => UserKey(uid, mid)
    case Group(gid, mid) => GroupKey(gid, mid)
    case Dm(low, high, mid) => DmKey(low, high, mid)
    case Sequence(ty) => SequenceKey(ty)
  }

  ghost function Decode(data: bytes): Option<Key> {
    match SpaceOf(data)
    case MsgSpace => if DecodeMsg(data).Some? then Some(Msg(DecodeMsg(data).value)) else None
    case MergedSpace => if DecodeMerged(data).Some? then Some(Merged(DecodeMerged(data).value)) else None
    case UserSpace =>
      if DecodeUser(data).Some? then Some(User(DecodeUser(data).value.0, DecodeUser(data).value.1)) else None
    case GroupSpace =>
      if DecodeGroup(data).Some? then Some(Group(DecodeGroup(data).value.0, DecodeGroup(data).value.1)) else None
    case DmSpace =>
      (match DecodeDm(data)
       case None => None
       case Some((a, b, mid)) => if a <= b then Some(Dm(a, b, mid)) else None)
    case SequenceSpace => if |data| == 10 then Some(Sequence(data[9])) else None
    case NoSpace => None
  }

  lemma DecodeEncode(k: Key)
    ensures Decode(Encode(k)) == Some(k)
  {
    hide SpaceOf, DecodeMsg, DecodeMerged, DecodeUser, DecodeGroup, DecodeDm, BigEndian;
    hide MsgKey, MergedKey, UserKey, GroupKey, DmKey;
    match k {
      case Msg(mid) => MsgKeyRoundTrip(mid);
      case Merged(mid) => MergedKeyRoundTrip(mid);
      case User(uid, mid) => UserKeyRoundTrip(uid, mid);
      case Group(gid, mid) => GroupKeyRoundTrip(gid, mid);
      case Dm(a, b, mid) => DmKeyRoundTrip(a, b, mid);
      case Sequence(ty) =>
    }
    DecodersReadTheirSpace(Encode(k));
    if k.Sequence? { KeySpacesDisjoint(0, 0, 0, k.ty); }
  }

  lemma EncodeDecode(data: bytes)
    requires Decode(data).Some?
    ensures Encode(Decode(data).value) == data
  {
    match SpaceOf(data) {
      case MsgSpace => MsgKeyDecoded(data);
      case MergedSpace => MergedKeyDecoded(data);
      case UserSpace => PairDecoded(data, UMSG);
      case GroupSpace => PairDecoded(data, GMSG);
      case DmSpace => DmKeyDecoded(data);
      case SequenceSpace => assert data == SEQUENCE + [data[9]];
    }
  }

  /** Encoding and decoding form a codec: all of the store's keys together are uniquely readable. */
  lemma KeyCodec()
    ensures Codec(Encode, Decode)
  {
    forall k: Key ensures Decode(Encode(k)) == Some(k) { DecodeEncode(k); }
    forall b | Decode(b).Some? ensures Encode(Decode(b).value) == b { EncodeDecode(b); }
  }

  // ---------- scans inside one conversation ----------

  /** Keys that differ in the message id only are ordered like the unsigned ids. */
  lemma IdOrder(prefix: bytes, m: i64, n: i64)
    ensures Less(prefix + BigEndian(m), prefix + BigEndian(n)) <==> Unsigned(m) < Unsigned(n)
  {
    LessAfterPrefix(prefix, BigEndian(m), BigEndian(n));
    BigEndianOrder(m, n);
  }

  predicate InRange(key: bytes, lo: bytes, hi: bytes) { !Less(key, lo) && Less(key, hi) }

  predicate IdBetween(lo: i64, mid: i64, hi: i64) { Unsigned(lo) <= Unsigned(mid) < Unsigned(hi) }

  /** A range that names one inbox yields keys of that inbox only, and all of those with ids in between. */
  lemma UserRange(uid: i64, lo: i64, hi: i64, k: Key)
    ensures InRange(Encode(k), UserKey(uid, lo), UserKey(uid, hi)) <==>
          k.User? && k.uid == uid && IdBetween(lo, k.mid, hi)
  {
    var prefix := UMSG + BigEndian(uid);
    if InRange(Encode(k), prefix + BigEndian(lo), prefix + BigEndian(hi)) {
      RangeKeepsPrefix(prefix, BigEndian(lo), BigEndian(hi), Encode(k));
      DecodeEncode(k);
      assert UMSG <= Encode(k) by { assert Encode(k)[..5] == prefix[..5] == UMSG; }
      FirstByte(Encode(k));
      assert k.User?;
      assert prefix[5..13] == BigEndian(uid) && Encode(k)[5..13] == BigEndian(k.uid);
      BigEndianRoundTrip(uid);
      BigEndianRoundTrip(k.uid);
    }
    if k.User? && k.uid == uid { IdInRange(prefix, lo, k.mid, hi); }
  }

  lemma IdInRange(prefix: bytes, lo: i64, mid: i64, hi: i64)
    ensures InRange(prefix + BigEndian(mid), prefix + BigEndian(lo), prefix + BigEndian(hi)) <==> IdBetween(lo, mid, hi)
  {
    IdOrder(prefix, mid, lo);
    IdOrder(prefix, mid, hi);
  }

  lemma GroupRange(gid: i64, lo: i64, hi: i64, k: Key)
    ensures InRange(Encode(k), GroupKey(gid, lo), GroupKey(gid, hi)) <==>
          k.Group? && k.gid == gid && IdBetween(lo, k.mid, hi)
  {
    var prefix := GMSG + BigEndian(gid);
    if InRange(Encode(k), prefix + BigEndian(lo), prefix + BigEndian(hi)) {
      RangeKeepsPrefix(prefix, BigEndian(lo), BigEndian(hi), Encode(k));
      DecodeEncode(k);
      assert GMSG <= Encode(k) by { assert Encode(k)[..5] == prefix[..5] == GMSG; }
      FirstByte(Encode(k));
      assert k.Group?;
      assert prefix[5..13] == BigEndian(gid) && Encode(k)[5..13] == BigEndian(k.gid);
      BigEndianRoundTrip(gid);
      BigEndianRoundTrip(k.gid);
    }
    if k.Group? && k.gid == gid { IdInRange(prefix, lo, k.mid, hi); }
  }

  lemma DmRange(x: i64, y: i64, lo: i64, hi: i64, k: Key)
    ensures InRange(Encode(k), DmKey(x, y, lo), DmKey(x, y, hi))
            <==> k.Dm? && k.low == Min(x, y) && k.high == Max(x, y) && IdBetween(lo, k.mid, hi)
  {
    var a, b := Min(x, y), Max(x, y);
    var prefix := DM + BigEndian(a) + BigEndian(b);
    if InRange(Encode(k), prefix + BigEndian(lo), prefix + BigEndian(hi)) {
      RangeKeepsPrefix(prefix, BigEndian(lo), BigEndian(hi), Encode(k));
      DecodeEncode(k);
      assert DM <= Encode(k) by { assert Encode(k)[..3] == prefix[..3] == DM; }
      FirstByte(Encode(k));
      assert k.Dm?;
      assert prefix[3..11] == BigEndian(a) && Encode(k)[3..11] == BigEndian(k.low);
      assert prefix[11..19] == BigEndian(b) && Encode(k)[11..19] == BigEndian(k.high);
      BigEndianRoundTrip(a);
      BigEndianRoundTrip(b);
      BigEndianRoundTrip(k.low);
      BigEndianRoundTrip(k.high);
    }
    if k.Dm? && k.low == a && k.high == b { IdInRange(prefix, lo, k.mid, hi); }
  }

  lemma MsgRange(lo: i64, hi: i64, k: Key)
    ensures InRange(Encode(k), MsgKey(lo), MsgKey(hi)) <==> k.Msg? && IdBetween(lo, k.mid, hi)
  {
    if InRange(Encode(k), MsgKey(lo), MsgKey(hi)) {
      RangeKeepsPrefix(MSG, BigEndian(lo), BigEndian(hi), Encode(k));
      DecodeEncode(k);
      assert MSG <= Encode(k) by { assert Encode(k)[..4] == MSG; }
      FirstByte(Encode(k));
      assert k.Msg?;
    }
    if k.Msg? { IdInRange(MSG, lo, k.mid, hi); }
  }

  predicate InClosedRange(key: bytes, lo: bytes, last: bytes) {
    InRange(key, lo, last) || (key == last && !Less(key, lo))
  }

  lemma MsgRangeInclusive(last: i64, k: Key)
    ensures InClosedRange(Encode(k), MsgKey(0), MsgKey(last)) <==>
          k.Msg? && (IdBetween(0, k.mid, last) || k.mid == last)
  {
    MsgRange(0, last, k);
    DecodeEncode(k);
    DecodeEncode(Msg(last));
    IdOrder(MSG, last, 0);
  }
}
