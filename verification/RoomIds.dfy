/** The room ids under which bots see their conversations: printing and parsing them. */
module RoomIds {
  import opened Bytes
  import opened Results
  import opened Payloads

  // ---------- decimal numbers ----------

  predicate IsDigit(c: char) { '0' <= c <= '9' }

  function DigitValue(c: char): nat
    requires IsDigit(c)
  {
    (c - '0') as nat
  }

  function DigitChar(d: nat): (c: char)
    requires d < 10
    ensures IsDigit(c) && DigitValue(c) == d
  {
    '0' + d as char
  }

  predicate AllDigits(s: string) { forall i :: 0 <= i < |s| ==> IsDigit(s[i]) }

  function Decimal(n: nat): (s: string)
    ensures s != "" && AllDigits(s)
  {
    if n < 10 then [DigitChar(n)] else Decimal(n / 10) + [DigitChar(n % 10)]
  }

  function DecimalValue(s: string): nat
    requires AllDigits(s)
  {
    if s == "" then 0 else DecimalValue(s[..|s| - 1]) * 10 + DigitValue(s[|s| - 1])
  }

  function Magnitude(x: int): nat { if x < 0 then -x else x }

  /** How `i64` is displayed. */
  function PrintInt(x: i64): string { (if x < 0 then "-" else "") + Decimal(Magnitude(x)) }

  /** `str::parse::<i64>`: an optional sign, at least one digit, a value that fits. */
  function ParseInt(s: string): Option<i64> {
    var digits := if s != "" && (s[0] == '-' || s[0] == '+') then s[1..] else s;
    if digits == "" || !AllDigits(digits) then None else
      var value: int := if s[0] == '-' then -(DecimalValue(digits) as int) else DecimalValue(digits);
      if -I64_MAX - 1 <= value <= I64_MAX then Some(value) else None
  }

  lemma {:induction false} DecimalRoundTrip(n: nat)
    ensures DecimalValue(Decimal(n)) == n
  {
    if n >= 10 {
      DecimalRoundTrip(n / 10);
      assert Decimal(n)[..|Decimal(n)| - 1] == Decimal(n / 10);
    }
  }

  /** No superfluous zero in front. */
  predicate NoLeadingZero(s: string) { s != "" && AllDigits(s) && (s[0] == '0' ==> s == "0") }

  lemma {:induction false} DecimalHasNoLeadingZero(n: nat)
    ensures NoLeadingZero(Decimal(n)) && (Decimal(n)[0] == '0' <==> n == 0)
  {
    if n >= 10 {
      DecimalHasNoLeadingZero(n / 10);
    } else if n > 0 {
      assert DigitValue(DigitChar(n)) != DigitValue('0');
    }
  }

  lemma {:induction false} DecimalIsUnique(s: string)
    requires NoLeadingZero(s)
    ensures Decimal(DecimalValue(s)) == s && (s[0] != '0' ==> DecimalValue(s) > 0)
  {
    var last := |s| - 1;
    if last > 0 {
      DecimalIsUnique(s[..last]);
      assert s == s[..last] + [s[last]];
      assert DigitChar(DigitValue(s[last])) == s[last];
      assert DecimalValue(s) / 10 == DecimalValue(s[..last]) && DecimalValue(s) % 10 == DigitValue(s[last]);
    } else {
      assert s == [s[0]] && s[..0] == "";
      assert DigitChar(DigitValue(s[0])) == s[0];
    }
  }

  lemma IntRoundTrip(x: i64)
    ensures ParseInt(PrintInt(x)) == Some(x)
  {
    var n := Magnitude(x);
    DecimalRoundTrip(n);
    assert IsDigit(Decimal(n)[0]);
    if x < 0 { assert PrintInt(x)[1..] == Decimal(n); } else { assert PrintInt(x) == Decimal(n); }
  }

  /** The numbers that are written as they are printed: no plus, no superfluous zero, no minus zero. */
  predicate Canonical(s: string) { NoLeadingZero(s) || (s != "" && s[0] == '-' && s != "-0" && NoLeadingZero(s[1..])) }

  lemma ParsePrint(s: string)
    requires ParseInt(s).Some?
    ensures PrintInt(ParseInt(s).value) == s <==> Canonical(s)
  {
    var x := ParseInt(s).value;
    var n := Magnitude(x);
    DecimalHasNoLeadingZero(n);
    if NoLeadingZero(s) {
      assert IsDigit(s[0]);
      DecimalIsUnique(s);
    } else if Canonical(s) {
      DecimalIsUnique(s[1..]);
      assert s == "-" + s[1..];
      assert s[1..] != "0";
    }
    if PrintInt(x) == s && x < 0 { assert s[1..] == Decimal(n); }
  }

  // ---------- room ids ----------

  datatype Room = DirectRoom(sender: i64, bot: i64) | GroupRoom(gid: i64)

  function RoomOf(p: Payload): Room {
    match p.target
    case ToUser(uid) => DirectRoom(p.from, uid)
    case ToGroup(gid) => GroupRoom(gid)
  }

  function RoomId(room: Room, domain: string): string {
    match room
    case DirectRoom(sender, bot) => "!dm_" + (PrintInt(sender) + "_" + PrintInt(bot)) + (":" + domain)
    case GroupRoom(gid) => "!group_" + PrintInt(gid) + (":" + domain)
  }

  datatype RoomError = BadRequest | Forbidden

  function StripSuffix(s: string, suffix: string): Option<string> {
    if |suffix| <= |s| && s[|s| - |suffix|..] == suffix then Some(s[..|s| - |suffix|]) else None
  }

  /** The parts between the separators. */
  function Split(s: string, separator: char): (parts: seq<string>)
    ensures parts != []
  {
    if s == "" then [""]
    else
      var parts := Split(s[1..], separator);
      if s[0] == separator then [""] + parts else [[s[0]] + parts[0]] + parts[1..]
  }

  function ParseRoomTarget(roomId: string, uid: i64, domain: string): Result<(Target, i64), RoomError> {
    if "!dm_" <= roomId then
      match StripSuffix(roomId[4..], ":" + domain)
      case None => Err(BadRequest)
      case Some(part) =>
        var parts := Split(part, '_');
        if |parts| != 2 || ParseInt(parts[0]).None? || ParseInt(parts[1]).None? then Err(BadRequest)
        else if uid != ParseInt(parts[1]).value then Err(Forbidden)
        else Ok((ToUser(ParseInt(parts[0]).value), uid))
    else if "!group_" <= roomId then
      match StripSuffix(roomId[7..], ":" + domain)
      case None => Err(BadRequest)
      case Some(part) => if ParseInt(part).None? then Err(BadRequest) else Ok((ToGroup(ParseInt(part).value), uid))
    else Err(BadRequest)
  }

  // ---------- round trips ----------

  predicate Without(s: string, separator: char) { forall i :: 0 <= i < |s| ==> s[i] != separator }

  lemma PrintedHasNoSeparator(x: i64)
    ensures Without(PrintInt(x), '_')
  {}

  lemma {:induction false} SplitOne(s: string, separator: char)
    requires Without(s, separator)
    ensures Split(s, separator) == [s]
  {
    if s != "" {
      SplitOne(s[1..], separator);
      assert s == [s[0]] + s[1..];
    }
  }

  lemma {:induction false} SplitTwo(a: string, b: string, separator: char)
    requires Without(a, separator) && Without(b, separator)
    ensures Split(a + [separator] + b, separator) == [a, b]
  {
    var s := a + [separator] + b;
    if a == "" {
      assert s[1..] == b;
      SplitOne(b, separator);
    } else {
      assert s[1..] == a[1..] + [separator] + b;
      SplitTwo(a[1..], b, separator);
      assert a == [a[0]] + a[1..];
    }
  }

  lemma SuffixStripped(part: string, suffix: string)
    ensures StripSuffix(part + suffix, suffix) == Some(part)
  {}

  /** A bot's own direct room leads back to the other user; anybody else is refused. */
  lemma DirectRoundTrip(sender: i64, bot: i64, uid: i64, domain: string)
    ensures ParseRoomTarget(RoomId(DirectRoom(sender, bot), domain), uid, domain)
            == if uid == bot then Ok((ToUser(sender), bot)) else Err(Forbidden)
  {
    var part := PrintInt(sender) + "_" + PrintInt(bot);
    PrintedHasNoSeparator(sender);
    PrintedHasNoSeparator(bot);
    SplitTwo(PrintInt(sender), PrintInt(bot), '_');
    IntRoundTrip(sender);
    IntRoundTrip(bot);
    hide PrintInt, ParseInt, Split;
    DirectPart(part, ":" + domain);
  }

  lemma DirectPart(part: string, suffix: string)
    ensures "!dm_" <= "!dm_" + part + suffix && StripSuffix(("!dm_" + part + suffix)[4..], suffix) == Some(part)
  {
    assert ("!dm_" + part + suffix)[4..] == part + suffix;
    SuffixStripped(part, suffix);
  }

  lemma GroupRoundTrip(gid: i64, uid: i64, domain: string)
    ensures ParseRoomTarget(RoomId(GroupRoom(gid), domain), uid, domain) == Ok((ToGroup(gid), uid))
  {
    var id := RoomId(GroupRoom(gid), domain);
    assert id[0] == '!' && id[1] == 'g';
    assert !("!dm_" <= id);
    assert "!group_" <= id && id[7..] == PrintInt(gid) + (":" + domain);
    SuffixStripped(PrintInt(gid), ":" + domain);
    IntRoundTrip(gid);
  }

  /** Different conversations have different room ids. */
  lemma RoomIdsAreUnique(a: Room, b: Room, domain: string)
    ensures RoomId(a, domain) == RoomId(b, domain) <==> a == b
  {
    var uid := if a.DirectRoom? then a.bot else if b.DirectRoom? then b.bot else 0;
    match a {
      case DirectRoom(s, t) => DirectRoundTrip(s, t, uid, domain);
      case GroupRoom(g) => GroupRoundTrip(g, uid, domain);
    }
    match b {
      case DirectRoom(s, t) => DirectRoundTrip(s, t, uid, domain);
      case GroupRoom(g) => GroupRoundTrip(g, uid, domain);
    }
  }

  // ---------- what else is accepted ----------

  lemma {:induction false} SplitJoins(s: string, separator: char)
    requires |Split(s, separator)| == 2
    ensures s == Split(s, separator)[0] + [separator] + Split(s, separator)[1]
  {
    var parts := Split(s[1..], separator);
    assert s == [s[0]] + s[1..];
    if s[0] == separator {
      SplitSingle(s[1..], separator);
    } else {
      SplitJoins(s[1..], separator);
    }
  }

  lemma {:induction false} SplitSingle(s: string, separator: char)
    requires |Split(s, separator)| == 1
    ensures Split(s, separator) == [s]
  {
    if s != "" {
      SplitSingle(s[1..], separator);
      assert s == [s[0]] + s[1..];
    }
  }

  lemma {:induction false} SplitPartsWithout(s: string, separator: char, i: nat)
    requires i < |Split(s, separator)|
    ensures Without(Split(s, separator)[i], separator)
  {
    if s != "" {
      if s[0] == separator {
        if i > 0 { SplitPartsWithout(s[1..], separator, i - 1); }
      } else {
        SplitPartsWithout(s[1..], separator, i);
      }
    }
  }

  lemma SamePieces(a: string, b: string, c: string, d: string)
    requires Without(a, '_') && Without(b, '_') && Without(c, '_') && Without(d, '_')
    ensures a + "_" + b == c + "_" + d <==> a == c && b == d
  {
    SplitTwo(a, b, '_');
    SplitTwo(c, d, '_');
  }

  lemma SamePart(prefix: string, p: string, q: string, suffix: string)
    ensures prefix + p + suffix == prefix + q + suffix <==> p == q
  {
    var a, b := prefix + p + suffix, prefix + q + suffix;
    assert a[|prefix|..|a| - |suffix|] == p && b[|prefix|..|b| - |suffix|] == q;
  }

  /** What an accepted direct room id looks like. */
  lemma AcceptedParts(roomId: string, uid: i64, domain: string) returns (a: string, b: string)
    requires var r := ParseRoomTarget(roomId, uid, domain); r.Ok? && r.value.0.ToUser?
    ensures roomId == "!dm_" + (a + "_" + b) + (":" + domain) && Without(a, '_') && Without(b, '_')
    ensures ParseInt(b) == Some(uid) && ParseInt(a) == Some(ParseRoomTarget(roomId, uid, domain).value.0.uid)
  {
    hide ParseInt, Without, Split;
    var part := StripSuffix(roomId[4..], ":" + domain).value;
    assert roomId == "!dm_" + roomId[4..] && roomId[4..] == part + (":" + domain);
    a, b := TwoParts(part);
  }

  lemma TwoParts(part: string) returns (a: string, b: string)
    requires |Split(part, '_')| == 2
    ensures a == Split(part, '_')[0] && b == Split(part, '_')[1]
    ensures part == a + "_" + b && Without(a, '_') && Without(b, '_')
  {
    hide Without;
    SplitJoins(part, '_');
    SplitPartsWithout(part, '_', 0);
    SplitPartsWithout(part, '_', 1);
    a, b := Split(part, '_')[0], Split(part, '_')[1];
  }

  /** A direct room id that is accepted is printed back as itself exactly when both numbers in it
      are written as they are printed. */
  lemma AcceptedDirectRoom(roomId: string, uid: i64, domain: string) returns (a: string, b: string)
    requires var r := ParseRoomTarget(roomId, uid, domain); r.Ok? && r.value.0.ToUser?
    ensures roomId == "!dm_" + (a + "_" + b) + (":" + domain)
    ensures RoomId(DirectRoom(ParseRoomTarget(roomId, uid, domain).value.0.uid, uid), domain) == roomId
            <==> Canonical(a) && Canonical(b)
  {
    a, b := AcceptedParts(roomId, uid, domain);
    var sender := ParseRoomTarget(roomId, uid, domain).value.0.uid;
    hide ParseRoomTarget, Canonical, ParseInt, PrintInt;
    ParsePrint(a);
    ParsePrint(b);
    PrintedHasNoSeparator(sender);
    PrintedHasNoSeparator(uid);
    SamePieces(PrintInt(sender), PrintInt(uid), a, b);
    SamePart("!dm_", PrintInt(sender) + "_" + PrintInt(uid), a + "_" + b, ":" + domain);
  }

  // ---------- the room ids collected when a bot connects ----------

  /** Here the two users are put in order of their ids. */
  function OrderedRoom(x: i64, y: i64): Room { if x < y then DirectRoom(x, y) else DirectRoom(y, x) }

  /** Such a room id works for the bot exactly when the other user's id is not above the bot's. */
  lemma OrderedRoomWorks(bot: i64, contact: i64, domain: string)
    ensures ParseRoomTarget(RoomId(OrderedRoom(bot, contact), domain), bot, domain) == Ok((ToUser(contact), bot))
            <==> contact <= bot
  {
    DirectRoundTrip(OrderedRoom(bot, contact).sender, OrderedRoom(bot, contact).bot, bot, domain);
  }
}
