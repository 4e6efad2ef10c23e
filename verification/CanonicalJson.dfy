/** Canonical JSON as it is signed: what is printed, and that nothing else prints the same. */
module CanonicalJson {
  import opened Results
  import opened Ordered

  /** JSON values; the entries of an object in the order of their insertion, a number as its digits. */
  datatype Json =
    | Null
    | Bool(b: bool)
    | Number(digits: string)
    | Text(text: string)
    | Array(items: seq<Json>)
    | Object(entries: seq<(string, Json)>)

  // ---------- printing ----------

  function EscapeChar(c: char): string {
    match c
    case '\\' => "\\\\"
    case '"' => "\\\""
    case '\n' => "\\n"
    case '\r' => "\\r"
    case '\t' => "\\t"
    case _ => [c]
  }

  /** Backslash, quote, line feed, carriage return and tab are escaped, and nothing else; RFC 8259, section 7, asks
      for the other control characters as well. */
  lemma EscapedCharacters(c: char)
    ensures |EscapeChar(c)| == 2 <==> c as int in {92, 34, 10, 13, 9}
    ensures EscapeChar(c) == [c] <==> c as int !in {92, 34, 10, 13, 9}
    ensures EscapeChar(c)[0] == '\\' <==> c as int in {92, 34, 10, 13, 9}
    ensures EscapeChar(10 as char)[1] == 'n' && EscapeChar(13 as char)[1] == 'r' && EscapeChar(9 as char)[1] == 't'
    ensures EscapeChar(92 as char)[1] as int == 92 && EscapeChar(34 as char)[1] as int == 34
  {}

  function Escape(s: string): string { if s == "" then "" else EscapeChar(s[0]) + Escape(s[1..]) }

  function Join(texts: seq<string>): string {
    if texts == [] then "" else if |texts| == 1 then texts[0] else texts[0] + "," + Join(texts[1..])
  }

  /** The text of a value, the entries of objects in the order they have. */
  function Render(v: Json): string {
    match v
    case Null => ""
    case Bool(b) => if b then "true" else "false"
    case Number(digits) => digits
    case Text(text) => "\"" + Escape(text) + "\""
    case Array(items) => "[" + Join(seq(|items|, i requires 0 <= i < |items| => Render(items[i]))) + "]"
    case Object(entries) =>
      "{" + Join(seq(|entries|, i requires 0 <= i < |entries| => Field(entries[i].0, Render(entries[i].1)))) + "}"
  }

  function Field(key: string, text: string): string { "\"" + key + "\":" + text }

  // ---------- reading back ----------

  predicate NumberChar(c: char) { '0' <= c <= '9' || c in {'+', '-', '.', 'e', 'E'} }

  /** The longest beginning of `s` made of number characters, and the rest. */
  function SpanNumber(s: string): (r: (string, string))
    ensures s == r.0 + r.1
  {
    if s == "" || !NumberChar(s[0]) then ("", s) else
      var (digits, rest) := SpanNumber(s[1..]);
      ([s[0]] + digits, rest)
  }

  /** A key ends at the next quote. */
  function ParseKey(s: string): (r: Option<(string, string)>)
    ensures r.Some? ==> |r.value.1| < |s|
  {
    if s == "" then None
    else if s[0] == '"' then Some(("", s[1..]))
    else match ParseKey(s[1..])
      case None => None
      case Some(r) => Some(([s[0]] + r.0, r.1))
  }

  function Unescape(c: char): Option<char> {
    match c
    case '\\' => Some('\\')
    case '"' => Some('"')
    case 'n' => Some('\n')
    case 'r' => Some('\r')
    case 't' => Some('\t')
    case _ => None
  }

  function Prefixed(c: char, r: Option<(string, string)>): Option<(string, string)> {
    if r.None? then None else Some(([c] + r.value.0, r.value.1))
  }

  function ParseText(s: string): (r: Option<(string, string)>)
    ensures r.Some? ==> |r.value.1| < |s|
  {
    if s == "" then None
    else if s[0] == '"' then Some(("", s[1..]))
    else if s[0] != '\\' then Prefixed(s[0], ParseText(s[1..]))
    else if |s| < 2 || Unescape(s[1]).None? then None
    else Prefixed(Unescape(s[1]).value, ParseText(s[2..]))
  }

  /** What may follow a value. */
  predicate Ends(c: char) { c in {',', ']', '}'} }

  /** A value; where there is none, a null. */
  function Parse(s: string): (r: Option<(Json, string)>)
    ensures r.Some? ==> |r.value.1| <= |s|
    decreases |s|, 0
  {
    if s == "" || Ends(s[0]) then Some((Null, s))
    else match s[0]
      case '"' => (match ParseText(s[1..]) case None => None case Some(r) => Some((Text(r.0), r.1)))
      case '[' =>
        if |s| > 1 && s[1] == ']' then Some((Array([]), s[2..]))
        else (match ParseItems(s[1..]) case None => None case Some(r) => Some((Array(r.0), r.1)))
      case '{' =>
        if |s| > 1 && s[1] == '}' then Some((Object([]), s[2..]))
        else (match ParseEntries(s[1..]) case None => None case Some(r) => Some((Object(r.0), r.1)))
      case 't' => if "true" <= s then Some((Bool(true), s[4..])) else None
      case 'f' => if "false" <= s then Some((Bool(false), s[5..])) else None
      case _ =>
        var (digits, rest) := SpanNumber(s);
        if digits == "" then None else Some((Number(digits), rest))
  }

  /** Values separated by commas, up to the closing bracket. */
  function ParseItems(s: string): (r: Option<(seq<Json>, string)>)
    ensures r.Some? ==> |r.value.1| < |s|
    decreases |s|, 1
  {
    match Parse(s)
    case None => None
    case Some(first) =>
      if first.1 == "" then None
      else if first.1[0] == ']' then Some(([first.0], first.1[1..]))
      else if first.1[0] != ',' then None
      else match ParseItems(first.1[1..])
        case None => None
        case Some(more) => Some(([first.0] + more.0, more.1))
  }

  function ParseEntries(s: string): (r: Option<(seq<(string, Json)>, string)>)
    ensures r.Some? ==> |r.value.1| < |s|
    decreases |s|, 1
  {
    if s == "" || s[0] != '"' then None else
      match ParseKey(s[1..])
      case None => None
      case Some(key) =>
        if key.1 == "" || key.1[0] != ':' then None else
          match Parse(key.1[1..])
          case None => None
          case Some(first) =>
            if first.1 == "" then None
            else if first.1[0] == '}' then Some(([(key.0, first.0)], first.1[1..]))
            else if first.1[0] != ',' then None
            else match ParseEntries(first.1[1..])
              case None => None
              case Some(more) => Some(([(key.0, first.0)] + more.0, more.1))
  }

  // ---------- what is printed can be read back ----------

  predicate IsNumber(digits: string) { digits != "" && forall i :: 0 <= i < |digits| ==> NumberChar(digits[i]) }

  /** No array of just one null, no quote in a key, numbers written as numbers. */
  predicate Normal(v: Json) {
    match v
    case Null => true
    case Bool(_) => true
    case Number(digits) => IsNumber(digits)
    case Text(_) => true
    case Array(items) => items != [Null] && forall i :: 0 <= i < |items| ==> Normal(items[i])
    case Object(entries) => forall i :: 0 <= i < |entries| ==> '"' !in entries[i].0 && Normal(entries[i].1)
  }

  /** What follows is the end, or what may follow a value. */
  predicate Delimited(rest: string) { rest == "" || Ends(rest[0]) }

  lemma {:induction false} SpanStops(digits: string, rest: string)
    requires (forall i :: 0 <= i < |digits| ==> NumberChar(digits[i])) && Delimited(rest)
    ensures SpanNumber(digits + rest) == (digits, rest)
  {
    if digits == "" {
      assert digits + rest == rest;
      assert rest != "" ==> Ends(rest[0]) && !NumberChar(rest[0]);
    } else {
      assert (digits + rest)[1..] == digits[1..] + rest;
      SpanStops(digits[1..], rest);
      assert digits == [digits[0]] + digits[1..];
    }
  }

  lemma {:induction false} KeyReadBack(key: string, rest: string)
    requires '"' !in key
    ensures ParseKey(key + "\"" + rest) == Some((key, rest))
  {
    if key == "" {
      assert key + "\"" + rest == "\"" + rest;
    } else {
      assert (key + "\"" + rest)[1..] == key[1..] + "\"" + rest;
      KeyReadBack(key[1..], rest);
      assert key == [key[0]] + key[1..];
    }
  }

  lemma CharReadBack(c: char, tail: string)
    ensures ParseText(EscapeChar(c) + tail) == Prefixed(c, ParseText(tail))
  {
    var s := EscapeChar(c) + tail;
    if |EscapeChar(c)| == 1 {
      assert s[0] == c && s[1..] == tail;
    } else {
      assert s[0] == '\\' && Unescape(s[1]) == Some(c) && s[2..] == tail;
    }
  }

  lemma {:induction false} TextReadBack(text: string, rest: string)
    ensures ParseText(Escape(text) + "\"" + rest) == Some((text, rest))
  {
    hide EscapeChar;
    if text == "" {
      assert Escape(text) + "\"" + rest == "\"" + rest;
    } else {
      var tail := Escape(text[1..]) + "\"" + rest;
      TextReadBack(text[1..], rest);
      CharReadBack(text[0], tail);
      assert Escape(text) + "\"" + rest == EscapeChar(text[0]) + tail;
      assert text == [text[0]] + text[1..];
    }
  }

  function Texts(items: seq<Json>): (r: seq<string>)
    ensures |r| == |items| && forall i :: 0 <= i < |items| ==> r[i] == Render(items[i])
  {
    seq(|items|, i requires 0 <= i < |items| => Render(items[i]))
  }

  function Fields(entries: seq<(string, Json)>): (r: seq<string>)
    ensures |r| == |entries| && forall i :: 0 <= i < |entries| ==> r[i] == Field(entries[i].0, Render(entries[i].1))
  {
    seq(|entries|, i requires 0 <= i < |entries| => Field(entries[i].0, Render(entries[i].1)))
  }

  lemma JoinStep(texts: seq<string>, k: nat, close: string, rest: string)
    requires k < |texts|
    ensures Join(texts[k..]) + close + rest
            == texts[k] + if k + 1 == |texts| then close + rest else "," + (Join(texts[k + 1..]) + close + rest)
  {
    assert texts[k..][1..] == texts[k + 1..];
    if k + 1 < |texts| {
      assert Join(texts[k..]) == texts[k] + "," + Join(texts[k + 1..]);
    }
  }

  /** Only nulls have no text, and no value begins with a delimiter. */
  lemma StartsValue(v: Json)
    requires Normal(v)
    ensures Render(v) == "" <==> v.Null?
    ensures Render(v) != "" ==> !Ends(Render(v)[0])
  {
    if v.Number? { assert NumberChar(v.digits[0]); }
  }

  lemma StartsItems(items: seq<Json>, rest: string)
    requires Normal(Array(items)) && items != []
    ensures (Join(Texts(items)) + "]" + rest)[0] != ']'
  {
    StartsValue(items[0]);
    JoinStep(Texts(items), 0, "]", rest);
    assert Texts(items)[0..] == Texts(items);
  }

  lemma ParseArray(inner: string, items: seq<Json>, rest: string)
    requires inner != "" && inner[0] != ']' && ParseItems(inner) == Some((items, rest))
    ensures Parse("[" + inner) == Some((Array(items), rest))
  {
    hide ParseEntries, ParseItems, ParseText, SpanNumber;
    var s := "[" + inner;
    assert s[0] == '[' && s[1] == inner[0] && s[1..] == inner;
  }

  lemma EmptyArray(rest: string)
    ensures Parse("[]" + rest) == Some((Array([]), rest))
  {
    hide ParseEntries, ParseItems, ParseText, SpanNumber;
    var s := "[]" + rest;
    assert s[0] == '[' && s[1] == ']' && s[2..] == rest;
  }

  lemma ArrayReadBack(items: seq<Json>, rest: string)
    requires Normal(Array(items))
    requires items != [] ==> ParseItems(Join(Texts(items)) + "]" + rest) == Some((items, rest))
    ensures Parse("[" + Join(Texts(items)) + "]" + rest) == Some((Array(items), rest))
  {
    var s := "[" + Join(Texts(items)) + "]" + rest;
    if items == [] {
      EmptyArray(rest);
      assert s == "[]" + rest;
    } else {
      StartsItems(items, rest);
      hide Parse, Normal;
      var inner := Join(Texts(items)) + "]" + rest;
      ParseArray(inner, items, rest);
      assert s == "[" + inner;
    }
  }

  lemma ParseObject(inner: string, entries: seq<(string, Json)>, rest: string)
    requires inner != "" && inner[0] != '}' && ParseEntries(inner) == Some((entries, rest))
    ensures Parse("{" + inner) == Some((Object(entries), rest))
  {
    hide ParseEntries, ParseItems, ParseText, SpanNumber;
    var s := "{" + inner;
    assert s[0] == '{' && s[1] == inner[0] && s[1..] == inner;
  }

  lemma EmptyObject(rest: string)
    ensures Parse("{}" + rest) == Some((Object([]), rest))
  {
    hide ParseEntries, ParseItems, ParseText, SpanNumber;
    var s := "{}" + rest;
    assert s[0] == '{' && s[1] == '}' && s[2..] == rest;
  }

  lemma ObjectReadBack(entries: seq<(string, Json)>, rest: string)
    requires entries != [] ==> ParseEntries(Join(Fields(entries)) + "}" + rest) == Some((entries, rest))
    ensures Parse("{" + Join(Fields(entries)) + "}" + rest) == Some((Object(entries), rest))
  {
    var s := "{" + Join(Fields(entries)) + "}" + rest;
    if entries == [] {
      EmptyObject(rest);
      assert s == "{}" + rest;
    } else {
      hide Parse;
      var inner := Join(Fields(entries)) + "}" + rest;
      ParseObject(inner, entries, rest);
      assert s == "{" + inner;
    }
  }

  lemma BoolReadBack(b: bool, rest: string)
    ensures Parse(Render(Bool(b)) + rest) == Some((Bool(b), rest))
  {
    var s := Render(Bool(b)) + rest;
    assert s[0] == if b then 't' else 'f';
    assert s[|Render(Bool(b))|..] == rest;
  }

  lemma NumberReadBack(digits: string, rest: string)
    requires IsNumber(digits) && Delimited(rest)
    ensures Parse(digits + rest) == Some((Number(digits), rest))
  {
    hide SpanNumber, ParseItems, ParseEntries, ParseText;
    SpanStops(digits, rest);
    assert NumberChar((digits + rest)[0]);
  }

  lemma QuotedReadBack(text: string, rest: string)
    ensures Parse(Render(Text(text)) + rest) == Some((Text(text), rest))
  {
    TextReadBack(text, rest);
    var s := Render(Text(text)) + rest;
    assert s[0] == '"' && s[1..] == Escape(text) + "\"" + rest;
  }

  /** A printed value in front of what may follow it is read back as itself. */
  lemma {:induction false} ReadBack(v: Json, rest: string)
    requires Normal(v) && Delimited(rest)
    ensures Parse(Render(v) + rest) == Some((v, rest))
    decreases v, 1, 0
  {
    match v {
      case Null => assert Render(v) + rest == rest;
      case Array(items) =>
        if items != [] {
          ItemsReadBack(v, 0, rest);
          assert Texts(items)[0..] == Texts(items) && items[0..] == items;
        }
        ArrayReadBack(items, rest);
        assert Render(v) + rest == "[" + Join(Texts(items)) + "]" + rest;
      case Object(entries) =>
        if entries != [] {
          EntriesReadBack(v, 0, rest);
          assert Fields(entries)[0..] == Fields(entries) && entries[0..] == entries;
        }
        ObjectReadBack(entries, rest);
        assert Render(v) + rest == "{" + Join(Fields(entries)) + "}" + rest;
      case Bool(b) => BoolReadBack(b, rest);
      case Number(digits) => NumberReadBack(digits, rest);
      case Text(text) => QuotedReadBack(text, rest);
    }
  }

  lemma {:induction false} ItemsReadBack(v: Json, k: nat, rest: string)
    requires v.Array? && Normal(v) && k < |v.items|
    ensures ParseItems(Join(Texts(v.items)[k..]) + "]" + rest) == Some((v.items[k..], rest))
    decreases v, 0, |v.items| - k
  {
    hide Render, Parse, ParseEntries, Join;
    var texts := Texts(v.items);
    var follow := if k + 1 == |texts| then "]" + rest else "," + (Join(texts[k + 1..]) + "]" + rest);
    JoinStep(texts, k, "]", rest);
    assert v.items[k..] == [v.items[k]] + v.items[k + 1..];
    ReadBack(v.items[k], follow);
    var s := Join(texts[k..]) + "]" + rest;
    assert s == Render(v.items[k]) + follow && Parse(s) == Some((v.items[k], follow));
    if k + 1 < |texts| {
      assert follow[0] == ',' && follow[1..] == Join(texts[k + 1..]) + "]" + rest;
      ItemsReadBack(v, k + 1, rest);
    } else {
      assert follow[0] == ']' && follow[1..] == rest;
      assert v.items[k..] == [v.items[k]];
    }
  }

  lemma {:induction false} EntriesReadBack(v: Json, k: nat, rest: string)
    requires v.Object? && Normal(v) && k < |v.entries|
    ensures ParseEntries(Join(Fields(v.entries)[k..]) + "}" + rest) == Some((v.entries[k..], rest))
    decreases v, 0, |v.entries| - k
  {
    var texts := Fields(v.entries);
    var (key, value) := v.entries[k];
    var more := if k + 1 == |texts| then "" else Join(texts[k + 1..]) + "}" + rest;
    var follow := if k + 1 == |texts| then "}" + rest else "," + more;
    JoinStep(texts, k, "}", rest);
    assert v.entries[k..] == [(key, value)] + v.entries[k + 1..];
    assert k + 1 == |texts| ==> v.entries[k..] == [(key, value)];
    ReadBack(value, follow);
    if k + 1 < |texts| { EntriesReadBack(v, k + 1, rest); }
    EntryReadBack(key, value, more, rest, k + 1 == |texts|);
  }

  /** One entry, followed by the end of the object or by more entries. */
  lemma EntryReadBack(key: string, value: Json, more: string, rest: string, last: bool)
    requires '"' !in key
    requires var follow := if last then "}" + rest else "," + more;
             Parse(Render(value) + follow) == Some((value, follow))
    ensures var s := Field(key, Render(value)) + if last then "}" + rest else "," + more;
            ParseEntries(s) == if last then Some(([(key, value)], rest))
                               else match ParseEntries(more)
                                 case None => None
                                 case Some(r) => Some(([(key, value)] + r.0, r.1))
  {
    hide Parse, ParseKey, ParseItems, Render, Field;
    var follow := if last then "}" + rest else "," + more;
    FieldReadBack(key, Render(value), follow);
    assert follow[1..] == if last then rest else more;
  }

  lemma FieldReadBack(key: string, text: string, follow: string)
    requires '"' !in key
    ensures var s := Field(key, text) + follow;
            s[0] == '"' && ParseKey(s[1..]) == Some((key, ":" + (text + follow)))
              && (":" + (text + follow))[1..] == text + follow
  {
    KeyReadBack(key, ":" + (text + follow));
    assert (Field(key, text) + follow)[1..] == key + "\"" + (":" + (text + follow));
  }

  // ---------- values up to the order of keys ----------

  /** A value as JSON means it: an object is a map from keys to values. */
  datatype Doc =
    | DNull
    | DBool(b: bool)
    | DNumber(digits: string)
    | DText(text: string)
    | DArray(items: seq<Doc>)
    | DObject(fields: map<string, Doc>)

  function Keys(entries: seq<(string, Json)>): set<string> { set i | 0 <= i < |entries| :: entries[i].0 }

  /** Where a key first occurs. */
  function Position(entries: seq<(string, Json)>, key: string): (k: nat)
    ensures k <= |entries| && (k < |entries| ==> entries[k].0 == key)
    ensures forall i :: 0 <= i < k ==> entries[i].0 != key
  {
    if entries == [] || entries[0].0 == key then 0 else 1 + Position(entries[1..], key)
  }

  function DocOf(v: Json): Doc {
    match v
    case Null => DNull
    case Bool(b) => DBool(b)
    case Number(digits) => DNumber(digits)
    case Text(text) => DText(text)
    case Array(items) => DArray(seq(|items|, i requires 0 <= i < |items| => DocOf(items[i])))
    case Object(entries) =>
      DObject(map key | key in Keys(entries) :: DocOf(entries[Position(entries, key)].1))
  }

  /** The fields of an object. */
  function FieldsOf(entries: seq<(string, Json)>): (fields: map<string, Doc>)
    ensures DocOf(Object(entries)) == DObject(fields) && fields.Keys == Keys(entries)
    ensures forall key :: key in fields ==>
              Position(entries, key) < |entries| && fields[key] == DocOf(entries[Position(entries, key)].1)
  {
    DocOf(Object(entries)).fields
  }

  predicate KeyLess(a: string, b: string) {
    b != "" && (a == "" || a[0] < b[0] || (a[0] == b[0] && KeyLess(a[1..], b[1..])))
  }

  lemma {:induction false} KeyLessIrreflexive(a: string)
    ensures !KeyLess(a, a)
  {
    if a != "" { KeyLessIrreflexive(a[1..]); }
  }

  lemma {:induction false} KeyLessTransitive(a: string, b: string, c: string)
    requires KeyLess(a, b) && KeyLess(b, c)
    ensures KeyLess(a, c)
  {
    if a != "" && a[0] == b[0] == c[0] { KeyLessTransitive(a[1..], b[1..], c[1..]); }
  }

  lemma {:induction false} KeyLessTotal(a: string, b: string)
    ensures a == b || KeyLess(a, b) || KeyLess(b, a)
  {
    if a != "" && b != "" && a[0] == b[0] {
      KeyLessTotal(a[1..], b[1..]);
      assert a == [a[0]] + a[1..] && b == [b[0]] + b[1..];
    }
  }

  lemma KeyOrder()
    ensures StrictOrder(KeyLess)
  {
    forall x ensures !KeyLess(x, x) { KeyLessIrreflexive(x); }
    forall x, y, z | KeyLess(x, y) && KeyLess(y, z) ensures KeyLess(x, z) { KeyLessTransitive(x, y, z); }
    forall x, y ensures x == y || KeyLess(x, y) || KeyLess(y, x) { KeyLessTotal(x, y); }
  }

  /** The first place where two texts differ. */
  predicate DifferAt(a: string, b: string, n: nat) {
    n < |a| && n < |b| && a[..n] == b[..n] && a[n] != b[n]
  }

  /** One text is a proper beginning of the other, or its character is the smaller one where they first differ. */
  ghost predicate Precedes(a: string, b: string) { a < b || exists n: nat :: DifferAt(a, b, n) && a[n] < b[n] }

  lemma ConsPrefix(a: string, b: string)
    requires a != "" && b != "" && a[0] == b[0]
    ensures a < b <==> a[1..] < b[1..]
    ensures forall n: nat :: DifferAt(a, b, n + 1) <==> DifferAt(a[1..], b[1..], n)
  {
    assert a == [a[0]] + a[1..] && b == [b[0]] + b[1..];
    forall n: nat ensures DifferAt(a, b, n + 1) <==> DifferAt(a[1..], b[1..], n) {
      if n < |a| - 1 && n < |b| - 1 {
        assert a[..n + 1] == [a[0]] + a[1..][..n] && b[..n + 1] == [b[0]] + b[1..][..n];
        assert a[..n + 1][1..] == a[1..][..n] && b[..n + 1][1..] == b[1..][..n];
      }
    }
  }

  lemma SameStart(a: string, b: string, n: nat)
    requires n <= |a| && n <= |b| && a[..n] == b[..n]
    ensures n > 0 ==> a[0] == b[0]
  {
    if n > 0 { assert a[..n][0] == b[..n][0]; }
  }

  /** The order of keys is that of their characters. */
  lemma {:induction false} KeyLessByCharacters(a: string, b: string)
    ensures KeyLess(a, b) <==> Precedes(a, b)
  {
    if a == "" || b == "" {
    } else if a[0] != b[0] {
      assert DifferAt(a, b, 0);
      forall n: nat | DifferAt(a, b, n) ensures n == 0 { SameStart(a, b, n); }
    } else {
      ConsPrefix(a, b);
      KeyLessByCharacters(a[1..], b[1..]);
      assert KeyLess(a, b) <==> KeyLess(a[1..], b[1..]);
      if n: nat :| DifferAt(a[1..], b[1..], n) && a[1..][n] < b[1..][n] {
        assert DifferAt(a, b, n + 1) && a[n + 1] < b[n + 1];
      }
      if n: nat :| DifferAt(a, b, n) && a[n] < b[n] {
        assert n > 0;
        assert DifferAt(a[1..], b[1..], n - 1) && a[1..][n - 1] < b[1..][n - 1];
      }
    }
  }

  /** In every object, at every depth, each key precedes the later ones. */
  ghost predicate KeysInOrder(v: Json) {
    match v
    case Array(items) => forall i :: 0 <= i < |items| ==> KeysInOrder(items[i])
    case Object(entries) =>
      && (forall i, j :: 0 <= i < j < |entries| ==> Precedes(entries[i].0, entries[j].0))
      && (forall i :: 0 <= i < |entries| ==> KeysInOrder(entries[i].1))
    case _ => true
  }

  ghost function SortedKeys(keys: set<string>): (s: seq<string>)
    ensures Lists(KeyLess, s, keys) && |s| == |keys|
  {
    KeyOrder();
    Sort(KeyLess, keys)
  }

  /** The form in which a value is printed: all keys ascending. */
  ghost function CanonOf(d: Doc): Json {
    match d
    case DNull => Null
    case DBool(b) => Bool(b)
    case DNumber(digits) => Number(digits)
    case DText(text) => Text(text)
    case DArray(items) => Array(seq(|items|, i requires 0 <= i < |items| => CanonOf(items[i])))
    case DObject(fields) =>
      var keys := SortedKeys(fields.Keys);
      Object(seq(|keys|, i requires 0 <= i < |keys| && keys[i] in fields => (keys[i], CanonOf(fields[keys[i]]))))
  }

  /** What is printed has its keys in order. */
  lemma {:induction false} CanonInOrder(d: Doc)
    ensures KeysInOrder(CanonOf(d))
  {
    hide KeyLess, Precedes;
    match d {
      case DArray(items) =>
        forall i | 0 <= i < |items| ensures KeysInOrder(CanonOf(items[i])) { CanonInOrder(items[i]); }
      case DObject(fields) =>
        var keys := SortedKeys(fields.Keys);
        forall i | 0 <= i < |keys| ensures keys[i] in fields && KeysInOrder(CanonOf(fields[keys[i]])) {
          SortedKeyAt(fields.Keys, i);
          CanonInOrder(fields[keys[i]]);
        }
        forall i, j | 0 <= i < j < |keys| ensures Precedes(keys[i], keys[j]) { KeyLessByCharacters(keys[i], keys[j]); }
      case _ =>
    }
  }

  lemma SortedKeyAt(keys: set<string>, i: nat)
    requires i < |SortedKeys(keys)|
    ensures SortedKeys(keys)[i] in keys
  {
    assert SortedKeys(keys)[i] in SortedKeys(keys);
  }

  /** Ascending entries find their own keys again. */
  lemma PositionInOrder(entries: seq<(string, Json)>, keys: seq<string>, i: nat)
    requires |entries| == |keys| && Ascending(KeyLess, keys)
    requires forall j :: 0 <= j < |keys| ==> entries[j].0 == keys[j]
    requires i < |keys|
    ensures Position(entries, keys[i]) == i
  {
    var p := Position(entries, keys[i]);
    if p < i {
      KeyLessIrreflexive(keys[i]);
    }
  }

  /** The printed form still has the same meaning. */
  lemma {:induction false} DocOfCanon(d: Doc)
    ensures DocOf(CanonOf(d)) == d
  {
    match d {
      case DArray(items) =>
        forall i | 0 <= i < |items| ensures DocOf(CanonOf(items[i])) == items[i] { DocOfCanon(items[i]); }
      case DObject(fields) =>
        forall key | key in fields ensures DocOf(CanonOf(fields[key])) == fields[key] { DocOfCanon(fields[key]); }
        ObjectDoc(fields);
      case _ =>
    }
  }

  lemma ObjectDoc(fields: map<string, Doc>)
    requires forall key :: key in fields ==> DocOf(CanonOf(fields[key])) == fields[key]
    ensures DocOf(CanonOf(DObject(fields))) == DObject(fields)
  {
    hide Keys, Position, SortedKeys, CanonOf, DocOf;
    var entries := CanonEntries(fields);
    forall key ensures key in Keys(entries) <==> key in fields { CanonKeys(fields, key); }
    forall key | key in fields
      ensures Position(entries, key) < |entries| && DocOf(entries[Position(entries, key)].1) == fields[key]
    {
      CanonPosition(fields, key);
    }
    MeansFields(entries, fields);
  }

  ghost function CanonEntries(fields: map<string, Doc>): (entries: seq<(string, Json)>)
    ensures CanonOf(DObject(fields)) == Object(entries)
  {
    CanonOf(DObject(fields)).entries
  }

  lemma MeansFields(entries: seq<(string, Json)>, fields: map<string, Doc>)
    requires forall key :: key in Keys(entries) <==> key in fields
    requires forall key :: key in fields ==>
               Position(entries, key) < |entries| && DocOf(entries[Position(entries, key)].1) == fields[key]
    ensures DocOf(Object(entries)) == DObject(fields)
  {
    hide DocOf, Keys, Position;
    assert FieldsOf(entries) == fields;
  }

  lemma CanonKeys(fields: map<string, Doc>, key: string)
    ensures key in Keys(CanonEntries(fields)) <==> key in fields
  {
    var keys, entries := SortedKeys(fields.Keys), CanonEntries(fields);
    if key in fields {
      assert key in keys;
      var i :| 0 <= i < |keys| && keys[i] == key;
      assert entries[i].0 == key;
    }
    if i :| 0 <= i < |entries| && entries[i].0 == key { SortedKeyAt(fields.Keys, i); }
  }

  lemma CanonPosition(fields: map<string, Doc>, key: string)
    requires key in fields
    ensures var entries := CanonEntries(fields);
            Position(entries, key) < |entries| && entries[Position(entries, key)].1 == CanonOf(fields[key])
  {
    var keys, entries := SortedKeys(fields.Keys), CanonEntries(fields);
    assert key in keys;
    var i :| 0 <= i < |keys| && keys[i] == key;
    PositionInOrder(entries, keys, i);
  }

  /** No quote in a key, numbers written as numbers; nulls wherever they like. */
  predicate Legible(d: Doc) {
    match d
    case DNumber(digits) => IsNumber(digits)
    case DArray(items) => forall i :: 0 <= i < |items| ==> Legible(items[i])
    case DObject(fields) => forall key :: key in fields ==> '"' !in key && Legible(fields[key])
    case _ => true
  }

  /** The document with every array of one null made empty. */
  function Norm(d: Doc): (n: Doc)
    ensures n.DNull? <==> d.DNull?
  {
    match d
    case DArray(items) =>
      if items == [DNull] then DArray([]) else DArray(seq(|items|, i requires 0 <= i < |items| => Norm(items[i])))
    case DObject(fields) => DObject(map key | key in fields :: Norm(fields[key]))
    case _ => d
  }

  lemma {:induction false} NormalCanon(d: Doc)
    requires Legible(d)
    ensures Normal(CanonOf(Norm(d)))
  {
    match d {
      case DArray(items) =>
        forall i | 0 <= i < |items| ensures Normal(CanonOf(Norm(items[i]))) { NormalCanon(items[i]); }
        if items != [DNull] { NotOneNull(items); }
      case DObject(fields) =>
        var keys := SortedKeys(fields.Keys);
        assert Norm(d).fields.Keys == fields.Keys;
        forall i | 0 <= i < |keys|
          ensures keys[i] in fields && '"' !in keys[i] && Normal(CanonOf(Norm(fields[keys[i]])))
        {
          SortedKeyAt(fields.Keys, i);
          NormalCanon(fields[keys[i]]);
        }
      case _ =>
    }
  }

  lemma NotOneNull(items: seq<Doc>)
    requires items != [DNull]
    ensures CanonOf(Norm(DArray(items))).items != [Null]
  {
    if |items| == 1 {
      assert items[0] != DNull;
      assert CanonOf(Norm(DArray(items))).items[0] == CanonOf(Norm(items[0])) != Null;
    }
  }

  // ---------- the canonical text ----------

  ghost function TextOf(d: Doc): string { Render(CanonOf(d)) }

  ghost function Print(v: Json): string { TextOf(DocOf(v)) }

  /** Arrays and objects have the same text if their parts have. */
  lemma ItemsPrint(items: seq<Doc>, others: seq<Doc>)
    requires |items| == |others| && forall i :: 0 <= i < |items| ==> TextOf(others[i]) == TextOf(items[i])
    ensures TextOf(DArray(others)) == TextOf(DArray(items))
  {
    assert Texts(CanonOf(DArray(others)).items) == Texts(CanonOf(DArray(items)).items);
  }

  lemma FieldsPrint(fields: map<string, Doc>, others: map<string, Doc>)
    requires fields.Keys == others.Keys && forall key :: key in fields ==> TextOf(others[key]) == TextOf(fields[key])
    ensures TextOf(DObject(others)) == TextOf(DObject(fields))
  {
    hide TextOf, Join, Field, KeyLess;
    var a, b := FieldTexts(others), FieldTexts(fields);
    assert a == b;
  }

  /** Normalising does not show in the text. */
  lemma {:induction false} NormPrints(d: Doc)
    ensures TextOf(Norm(d)) == TextOf(d)
  {
    hide TextOf;
    match d {
      case DArray(items) =>
        if items == [DNull] {
          OneNull();
        } else {
          forall i | 0 <= i < |items| ensures TextOf(Norm(items[i])) == TextOf(items[i]) { NormPrints(items[i]); }
          ItemsPrint(items, Norm(d).items);
        }
      case DObject(fields) =>
        forall key | key in fields ensures TextOf(Norm(fields[key])) == TextOf(fields[key]) { NormPrints(fields[key]); }
        FieldsPrint(fields, Norm(d).fields);
      case _ =>
    }
  }

  lemma OneNull()
    ensures TextOf(DArray([DNull])) == TextOf(DArray([])) == "[]"
  {
    assert CanonOf(DArray([DNull])) == Array([Null]) && CanonOf(DArray([])) == Array([]);
    assert Texts([Null]) == [""] && Texts([]) == [];
  }

  /** Reading the canonical text gives the value back, up to the order of keys and arrays of one null. */
  lemma PrintReadBack(d: Doc)
    requires Legible(d)
    ensures Parse(TextOf(d)) == Some((CanonOf(Norm(d)), "")) && DocOf(CanonOf(Norm(d))) == Norm(d)
  {
    NormalCanon(d);
    ReadBack(CanonOf(Norm(d)), "");
    NormPrints(d);
    DocOfCanon(Norm(d));
    assert Render(CanonOf(Norm(d))) + "" == TextOf(d);
  }

  /** A text from which the value can be read back, with the keys in order at every depth. */
  ghost predicate Canonical(text: string, v: Json) {
    exists w :: text == Render(w) && DocOf(w) == DocOf(v) && KeysInOrder(w)
  }

  lemma PrintIsCanonical(v: Json)
    ensures Canonical(Print(v), v)
    ensures Legible(DocOf(v)) ==>
              && Parse(Print(v)).Some? && Parse(Print(v)).value.1 == ""
              && KeysInOrder(Parse(Print(v)).value.0) && DocOf(Parse(Print(v)).value.0) == Norm(DocOf(v))
  {
    var w := CanonOf(DocOf(v));
    CanonInOrder(DocOf(v));
    DocOfCanon(DocOf(v));
    assert Print(v) == Render(w) && DocOf(w) == DocOf(v) && KeysInOrder(w);
    if Legible(DocOf(v)) {
      PrintReadBack(DocOf(v));
      CanonInOrder(Norm(DocOf(v)));
    }
  }

  /** Two values without quotes in keys have the same canonical text exactly when they are equal up to the
      order of keys and to arrays of one null, which have the text of the empty array. */
  lemma SameText(v: Json, w: Json)
    requires Legible(DocOf(v)) && Legible(DocOf(w))
    ensures Print(v) == Print(w) <==> Norm(DocOf(v)) == Norm(DocOf(w))
  {
    PrintReadBack(DocOf(v));
    PrintReadBack(DocOf(w));
    NormPrints(DocOf(v));
    NormPrints(DocOf(w));
  }

  predicate NullFree(d: Doc) {
    match d
    case DNull => false
    case DArray(items) => forall i :: 0 <= i < |items| ==> NullFree(items[i])
    case DObject(fields) => forall key :: key in fields ==> NullFree(fields[key])
    case _ => true
  }

  lemma {:induction false} NormNullFree(d: Doc)
    requires NullFree(d)
    ensures Norm(d) == d
  {
    match d {
      case DArray(items) =>
        forall i | 0 <= i < |items| ensures Norm(items[i]) == items[i] { NormNullFree(items[i]); }
        assert |items| == 1 ==> NullFree(items[0]);
        assert Norm(d).items == items;
      case DObject(fields) =>
        forall key | key in fields ensures Norm(fields[key]) == fields[key] { NormNullFree(fields[key]); }
        assert Norm(d).fields == fields;
      case _ =>
    }
  }

  /** Without nulls, a signature over the text is a signature over the value. */
  lemma Unambiguous(v: Json, w: Json)
    requires Legible(DocOf(v)) && Legible(DocOf(w)) && NullFree(DocOf(v)) && NullFree(DocOf(w))
    ensures Print(v) == Print(w) <==> DocOf(v) == DocOf(w)
  {
    SameText(v, w);
    NormNullFree(DocOf(v));
    NormNullFree(DocOf(w));
  }

  /** Some array is empty or consists of one null. */
  predicate Hollow(d: Doc) {
    match d
    case DArray(items) => items == [] || items == [DNull] || exists i :: 0 <= i < |items| && Hollow(items[i])
    case DObject(fields) => exists key | key in fields :: Hollow(fields[key])
    case _ => false
  }

  /** The document with empty arrays and arrays of one null exchanged. */
  function Swap(d: Doc): (t: Doc)
    ensures t.DNull? <==> d.DNull?
  {
    match d
    case DArray(items) =>
      if items == [] then DArray([DNull])
      else if items == [DNull] then DArray([])
      else DArray(seq(|items|, i requires 0 <= i < |items| => Swap(items[i])))
    case DObject(fields) => DObject(map key | key in fields :: Swap(fields[key]))
    case _ => d
  }

  lemma {:induction false} SwapIsLegible(d: Doc)
    requires Legible(d)
    ensures Legible(Swap(d))
  {
    match d {
      case DArray(items) =>
        forall i | 0 <= i < |items| ensures Legible(Swap(items[i])) { SwapIsLegible(items[i]); }
      case DObject(fields) =>
        forall key | key in fields ensures Legible(Swap(fields[key])) { SwapIsLegible(fields[key]); }
      case _ =>
    }
  }

  lemma {:induction false} NormSwap(d: Doc)
    ensures Norm(Swap(d)) == Norm(d)
  {
    match d {
      case DArray(items) =>
        if items != [] && items != [DNull] {
          forall i | 0 <= i < |items| ensures Norm(Swap(items[i])) == Norm(items[i]) { NormSwap(items[i]); }
          assert |items| == 1 ==> items[0] != DNull;
          assert Swap(d).items != [DNull];
          assert Norm(Swap(d)).items == Norm(d).items;
        }
      case DObject(fields) =>
        forall key | key in fields ensures Norm(Swap(fields[key])) == Norm(fields[key]) { NormSwap(fields[key]); }
        assert Norm(Swap(d)).fields == Norm(d).fields;
      case _ =>
    }
  }

  lemma {:induction false} SwapChanges(d: Doc)
    requires Hollow(d)
    ensures Swap(d) != d
  {
    match d {
      case DArray(items) =>
        if items == [DNull] {
          assert Swap(d).items == [];
        } else if items != [] {
          var i :| 0 <= i < |items| && Hollow(items[i]);
          SwapChanges(items[i]);
          assert Swap(d).items[i] != items[i];
        }
      case DObject(fields) =>
        var key :| key in fields && Hollow(fields[key]);
        SwapChanges(fields[key]);
        assert Swap(d).fields[key] != fields[key];
    }
  }

  /** A document without such arrays is normal, and nothing else normalises to it. */
  lemma {:induction false} NormSolid(d: Doc, e: Doc)
    requires !Hollow(d) && Norm(e) == d
    ensures e == d
  {
    match e {
      case DArray(items) =>
        if items != [DNull] {
          forall i | 0 <= i < |items| ensures items[i] == d.items[i] { NormSolid(d.items[i], items[i]); }
          assert items == d.items;
        }
      case DObject(fields) =>
        forall key | key in fields ensures fields[key] == d.fields[key] { NormSolid(d.fields[key], fields[key]); }
        assert fields == d.fields;
      case _ =>
    }
  }

  lemma {:induction false} NormIsSame(d: Doc)
    requires !Hollow(d)
    ensures Norm(d) == d
  {
    match d {
      case DArray(items) =>
        forall i | 0 <= i < |items| ensures Norm(items[i]) == items[i] { NormIsSame(items[i]); }
        assert Norm(d).items == items;
      case DObject(fields) =>
        forall key | key in fields ensures Norm(fields[key]) == fields[key] { NormIsSame(fields[key]); }
        assert Norm(d).fields == fields;
      case _ =>
    }
  }

  ghost predicate Confused(d: Doc, e: Doc) { Legible(e) && e != d && TextOf(e) == TextOf(d) }

  /** Among documents without quotes in keys, exactly those with an empty array or an array of one null
      share their text with another: nulls elsewhere do no harm. */
  lemma ConfusedExactly(d: Doc)
    requires Legible(d)
    ensures (exists e :: Confused(d, e)) <==> Hollow(d)
  {
    if Hollow(d) {
      SwapIsLegible(d);
      SwapChanges(d);
      NormSwap(d);
      NormPrints(d);
      NormPrints(Swap(d));
      assert Confused(d, Swap(d));
    } else {
      NormIsSame(d);
      forall e | Legible(e) && TextOf(e) == TextOf(d) ensures e == d {
        PrintReadBack(d);
        PrintReadBack(e);
        NormSolid(d, e);
      }
    }
  }

  predicate DistinctKeys(entries: seq<(string, Json)>) {
    forall i, j :: 0 <= i < j < |entries| ==> entries[i].0 != entries[j].0
  }

  /** Rearranging the entries of an object does not change the text. */
  lemma OrderDoesNotMatter(entries: seq<(string, Json)>, rearranged: seq<(string, Json)>)
    requires DistinctKeys(entries) && multiset(entries) == multiset(rearranged)
    ensures Print(Object(entries)) == Print(Object(rearranged))
  {
    forall e ensures e in entries <==> e in rearranged { assert e in multiset(entries) <==> e in multiset(rearranged); }
    forall key ensures key in Keys(entries) <==> key in Keys(rearranged) {
      SameKeys(entries, rearranged, key);
      SameKeys(rearranged, entries, key);
    }
    forall key | key in Keys(entries)
      ensures Position(entries, key) < |entries| && Position(rearranged, key) < |rearranged|
      ensures entries[Position(entries, key)] == rearranged[Position(rearranged, key)]
    {
      SameField(entries, rearranged, key);
    }
    SameDoc(entries, rearranged);
  }

  lemma SameDoc(entries: seq<(string, Json)>, others: seq<(string, Json)>)
    requires forall key :: key in Keys(entries) <==> key in Keys(others)
    requires forall key :: key in Keys(entries) ==>
               && Position(entries, key) < |entries| && Position(others, key) < |others|
               && entries[Position(entries, key)] == others[Position(others, key)]
    ensures DocOf(Object(entries)) == DocOf(Object(others))
  {
    hide DocOf, Keys, Position;
    assert FieldsOf(entries) == FieldsOf(others);
  }

  lemma SameField(entries: seq<(string, Json)>, others: seq<(string, Json)>, key: string)
    requires DistinctKeys(entries) && (forall e :: e in others ==> e in entries)
    requires key in Keys(entries) && key in Keys(others)
    ensures Position(entries, key) < |entries| && Position(others, key) < |others|
    ensures entries[Position(entries, key)] == others[Position(others, key)]
  {
    var i :| 0 <= i < |others| && others[i].0 == key;
    var e := others[Position(others, key)];
    assert e in entries;
    var j :| 0 <= j < |entries| && entries[j] == e;
    assert Position(entries, key) == j;
  }

  lemma SameKeys(entries: seq<(string, Json)>, others: seq<(string, Json)>, key: string)
    requires forall e :: e in entries ==> e in others
    ensures key in Keys(entries) ==> key in Keys(others)
  {
    if i :| 0 <= i < |entries| && entries[i].0 == key {
      assert entries[i] in others;
      var j :| 0 <= j < |others| && others[j] == entries[i];
      assert others[j].0 == key;
    }
  }

  /** What is printed for an object is the text of its entries in the order of their keys. */
  lemma PrintObject(entries: seq<(string, Json)>, sorted: seq<(string, Json)>, texts: seq<string>)
    requires var keys := SortedKeys(Keys(entries));
             && |sorted| == |keys| == |texts|
             && forall i :: 0 <= i < |keys| ==>
                  && Position(entries, keys[i]) < |entries| && sorted[i] == entries[Position(entries, keys[i])]
                  && texts[i] == Field(sorted[i].0, Print(sorted[i].1))
    ensures Print(Object(entries)) == "{" + Join(texts) + "}"
  {
    hide TextOf, Field, Join, KeyLess;
    var fields := DocOf(Object(entries)).fields;
    assert fields.Keys == Keys(entries);
    assert FieldTexts(fields) == texts;
  }

  // ---------- quotes in keys ----------

  lemma Assoc(a: string, b: string, c: string)
    ensures (a + b) + c == a + (b + c)
  {}

  /** A key that swallows an entry and the key of the next one. */
  function Glue(a: string, text: string, b: string): string { a + "\":" + text + ",\"" + b }

  lemma FieldsRunTogether(a: string, x: string, b: string, y: string)
    ensures Field(Glue(a, x, b), y) == Field(a, x) + "," + Field(b, y)
  {
    var head, tail := a + "\":" + x, b + "\":" + y;
    Assoc(head, ",\"", b);
    Assoc("\"", head, ",\"" + b);
    assert "\"" + head == Field(a, x);
    Assoc(Field(a, x), ",\"" + b, "\":");
    Assoc(Field(a, x), ",\"" + b + "\":", y);
    assert ",\"" + b + "\":" + y == "," + Field(b, y);
    Assoc(Field(a, x), ",", Field(b, y));
  }

  lemma {:induction false} JoinLastTwo(texts: seq<string>, x: string, y: string)
    ensures Join(texts + [x, y]) == Join(texts + [x + "," + y])
  {
    if texts == [] {
      assert [x, y][1..] == [y] && [] + [x, y] == [x, y] && [] + [x + "," + y] == [x + "," + y];
    } else {
      JoinLastTwo(texts[1..], x, y);
      assert (texts + [x, y])[1..] == texts[1..] + [x, y];
      assert (texts + [x + "," + y])[1..] == texts[1..] + [x + "," + y];
    }
  }

  lemma {:induction false} PrefixLess(a: string, more: string)
    requires more != ""
    ensures KeyLess(a, a + more)
  {
    if a != "" {
      assert (a + more)[1..] == a[1..] + more;
      PrefixLess(a[1..], more);
    }
  }

  /** The last two fields, in the order of keys, made into one. */
  ghost function RunTogether(fields: map<string, Doc>): map<string, Doc>
    requires |fields| >= 2
  {
    var keys := SortedKeys(fields.Keys);
    var a, b := keys[|keys| - 2], keys[|keys| - 1];
    SortedKeyAt(fields.Keys, |keys| - 2);
    SortedKeyAt(fields.Keys, |keys| - 1);
    (fields - {a, b})[Glue(a, TextOf(fields[a]), b) := fields[b]]
  }

  lemma GluedList(keys: seq<string>, elems: set<string>, glued: string)
    requires Lists(KeyLess, keys, elems) && |keys| >= 2 && KeyLess(keys[|keys| - 2], glued)
    ensures Lists(KeyLess, keys[..|keys| - 2] + [glued], elems - {keys[|keys| - 2], keys[|keys| - 1]} + {glued})
  {
    KeyOrder();
    hide KeyLess;
    var n := |keys| - 2;
    var others := keys[..n] + [glued];
    forall i, j | 0 <= i < j < |others| ensures KeyLess(others[i], others[j]) {
      if j == n { assert KeyLess(keys[i], keys[n]); }
    }
    assert keys == keys[..n] + [keys[n], keys[n + 1]];
    forall i | 0 <= i < n ensures keys[i] != keys[n] && keys[i] != keys[n + 1] {
      assert KeyLess(keys[i], keys[n]) && KeyLess(keys[i], keys[n + 1]);
    }
  }

  lemma LastTwoKeys(fields: map<string, Doc>)
    requires |fields| >= 2
    ensures var keys := SortedKeys(fields.Keys); keys[|keys| - 2] in fields && keys[|keys| - 1] in fields
  {
    SortedKeyAt(fields.Keys, |fields| - 2);
    SortedKeyAt(fields.Keys, |fields| - 1);
  }

  lemma GlueIsLater(a: string, text: string, b: string)
    ensures KeyLess(a, Glue(a, text, b))
  {
    assert Glue(a, text, b) == a + ("\":" + text + ",\"" + b);
    PrefixLess(a, "\":" + text + ",\"" + b);
  }

  lemma GluedKeys(fields: map<string, Doc>)
    requires |fields| >= 2
    ensures var keys := SortedKeys(fields.Keys);
            var a, b := keys[|keys| - 2], keys[|keys| - 1];
            && a in fields && b in fields
            && SortedKeys(RunTogether(fields).Keys) == keys[..|keys| - 2] + [Glue(a, TextOf(fields[a]), b)]
  {
    hide KeyLess, TextOf, Glue, CanonOf, Ascending;
    LastTwoKeys(fields);
    var keys, others := SortedKeys(fields.Keys), RunTogether(fields);
    var a, b := keys[|keys| - 2], keys[|keys| - 1];
    var glued := Glue(a, TextOf(fields[a]), b);
    GlueIsLater(a, TextOf(fields[a]), b);
    GluedList(keys, fields.Keys, glued);
    assert others.Keys == fields.Keys - {a, b} + {glued};
    KeyOrder();
    ListsUnique(KeyLess, keys[..|keys| - 2] + [glued], SortedKeys(others.Keys), others.Keys);
  }

  /** The fields of an object as they are printed, in the order of keys. */
  ghost function FieldTexts(fields: map<string, Doc>): (texts: seq<string>)
    ensures |texts| == |fields| == |SortedKeys(fields.Keys)|
    ensures forall i :: 0 <= i < |texts| ==>
              var key := SortedKeys(fields.Keys)[i]; key in fields && texts[i] == Field(key, TextOf(fields[key]))
    ensures TextOf(DObject(fields)) == "{" + Join(texts) + "}"
  {
    EntriesInOrder(fields);
    PrintEntries(CanonEntries(fields));
    Fields(CanonEntries(fields))
  }

  lemma EntriesInOrder(fields: map<string, Doc>)
    ensures var keys, entries := SortedKeys(fields.Keys), CanonEntries(fields);
            && |entries| == |keys| == |fields|
            && forall i :: 0 <= i < |keys| ==>
                 keys[i] in fields && entries[i] == (keys[i], CanonOf(fields[keys[i]]))
  {
    forall i | 0 <= i < |SortedKeys(fields.Keys)| ensures SortedKeys(fields.Keys)[i] in fields {
      SortedKeyAt(fields.Keys, i);
    }
    assert |fields| == |fields.Keys|;
  }

  lemma PrintEntries(entries: seq<(string, Json)>)
    ensures Render(Object(entries)) == "{" + Join(Fields(entries)) + "}"
  {}

  /** Those of the object run together: the last two have become one. */
  lemma GluedFields(fields: map<string, Doc>)
    requires |fields| >= 2
    ensures var texts, n := FieldTexts(fields), |fields| - 2;
            FieldTexts(RunTogether(fields)) == texts[..n] + [texts[n] + "," + texts[n + 1]]
  {
    hide *;
    var others, n := RunTogether(fields), |fields| - 2;
    var texts, glued := FieldTexts(fields), FieldTexts(others);
    GluedLast(fields);
    forall i | 0 <= i < n ensures glued[i] == texts[i] { GluedField(fields, i); }
  }

  lemma GluedLast(fields: map<string, Doc>)
    requires |fields| >= 2
    ensures var texts, glued, n := FieldTexts(fields), FieldTexts(RunTogether(fields)), |fields| - 2;
            |glued| == n + 1 && glued[n] == texts[n] + "," + texts[n + 1]
  {
    hide KeyLess, TextOf, Field, Glue, FieldTexts, Join;
    GluedKeys(fields);
    var keys, n := SortedKeys(fields.Keys), |fields| - 2;
    FieldsRunTogether(keys[n], TextOf(fields[keys[n]]), keys[n + 1], TextOf(fields[keys[n + 1]]));
  }

  lemma GluedField(fields: map<string, Doc>, i: nat)
    requires |fields| >= 2 && i < |fields| - 2
    ensures i < |FieldTexts(RunTogether(fields))| && FieldTexts(RunTogether(fields))[i] == FieldTexts(fields)[i]
  {
    hide Glue, TextOf, Field, FieldTexts, CanonOf, Join;
    GluedKeys(fields);
    var keys, others, n := SortedKeys(fields.Keys), RunTogether(fields), |fields| - 2;
    assert SortedKeys(others.Keys)[i] == keys[i];
    assert SortedKeys(others.Keys)[i] != SortedKeys(others.Keys)[n] by { KeyOrder(); }
  }

  /** Quotes in keys are not escaped, so every object of at least two entries, whatever their values, has the
      text of an object with one entry less. */
  lemma QuoteInKeyIsAmbiguous(fields: map<string, Doc>)
    requires |fields| >= 2
    ensures TextOf(DObject(RunTogether(fields))) == TextOf(DObject(fields))
    ensures |RunTogether(fields)| == |fields| - 1
  {
    hide FieldTexts, RunTogether, TextOf, Join, KeyLess;
    GluedKeys(fields);
    GluedFields(fields);
    JoinGlued(FieldTexts(fields), |fields| - 2);
  }

  lemma JoinGlued(texts: seq<string>, n: nat)
    requires |texts| == n + 2
    ensures Join(texts[..n] + [texts[n] + "," + texts[n + 1]]) == Join(texts)
  {
    hide *;
    JoinLastTwo(texts[..n], texts[n], texts[n + 1]);
    assert texts == texts[..n] + [texts[n], texts[n + 1]];
  }

  /** Some object has at least two entries. */
  predicate Crowded(d: Doc) {
    match d
    case DArray(items) => exists i :: 0 <= i < |items| && Crowded(items[i])
    case DObject(fields) => |fields| >= 2 || exists key | key in fields :: Crowded(fields[key])
    case _ => false
  }

  /** The document with the last two fields of its outermost such objects made into one. */
  ghost function Squeeze(d: Doc): Doc {
    match d
    case DArray(items) => DArray(seq(|items|, i requires 0 <= i < |items| => Squeeze(items[i])))
    case DObject(fields) =>
      if |fields| >= 2 then DObject(RunTogether(fields)) else DObject(map key | key in fields :: Squeeze(fields[key]))
    case _ => d
  }

  lemma {:induction false} SqueezePrints(d: Doc)
    ensures TextOf(Squeeze(d)) == TextOf(d)
  {
    hide TextOf, RunTogether;
    match d {
      case DArray(items) =>
        forall i | 0 <= i < |items| ensures TextOf(Squeeze(items[i])) == TextOf(items[i]) { SqueezePrints(items[i]); }
        ItemsPrint(items, Squeeze(d).items);
      case DObject(fields) =>
        if |fields| >= 2 {
          QuoteInKeyIsAmbiguous(fields);
        } else {
          forall key | key in fields ensures TextOf(Squeeze(fields[key])) == TextOf(fields[key]) {
            SqueezePrints(fields[key]);
          }
          FieldsPrint(fields, Squeeze(d).fields);
        }
      case _ =>
    }
  }

  lemma {:induction false} SqueezeChanges(d: Doc)
    requires Crowded(d)
    ensures Squeeze(d) != d
  {
    match d {
      case DArray(items) =>
        var i :| 0 <= i < |items| && Crowded(items[i]);
        SqueezeChanges(items[i]);
        assert Squeeze(d).items[i] != items[i];
      case DObject(fields) =>
        if |fields| >= 2 {
          QuoteInKeyIsAmbiguous(fields);
        } else {
          var key :| key in fields && Crowded(fields[key]);
          SqueezeChanges(fields[key]);
          assert Squeeze(d).fields[key] != fields[key];
        }
    }
  }

  ghost predicate SharesText(d: Doc, e: Doc) { e != d && TextOf(e) == TextOf(d) }

  /** If keys may have quotes, a document shares its text with another as soon as anywhere in it an object has two
      entries, or an array is empty or consists of one null. */
  lemma CrowdedOrHollowIsConfused(d: Doc)
    requires Crowded(d) || Hollow(d)
    ensures exists e :: SharesText(d, e)
  {
    if Crowded(d) {
      SqueezePrints(d);
      SqueezeChanges(d);
      assert SharesText(d, Squeeze(d));
    } else {
      SwapChanges(d);
      NormSwap(d);
      NormPrints(d);
      NormPrints(Swap(d));
      assert SharesText(d, Swap(d));
    }
  }

  // ---------- the printer ----------

  /** The keys of a JSON map are unique. */
  predicate IsMap(v: Json) {
    match v
    case Array(items) => forall i :: 0 <= i < |items| ==> IsMap(items[i])
    case Object(entries) => DistinctKeys(entries) && forall i :: 0 <= i < |entries| ==> IsMap(entries[i].1)
    case _ => true
  }

  lemma JoinSnoc(texts: seq<string>, i: nat)
    requires i < |texts|
    ensures Join(texts[..i + 1]) == Join(texts[..i]) + (if i > 0 then "," else "") + texts[i]
  {
    if i > 0 {
      assert texts[..i + 1][1..] == texts[1..][..i] && texts[..i][1..] == texts[1..][..i - 1];
      JoinSnoc(texts[1..], i - 1);
    }
  }

  lemma {:induction false} EscapeSnoc(text: string, i: nat)
    requires i < |text|
    ensures Escape(text[..i + 1]) == Escape(text[..i]) + EscapeChar(text[i])
  {
    hide EscapeChar;
    if i > 0 {
      var rest := text[1..];
      EscapeSnoc(rest, i - 1);
      assert text[..i + 1][1..] == rest[..i] && text[..i][1..] == rest[..i - 1];
      assert Escape(text[..i + 1]) == EscapeChar(text[0]) + Escape(rest[..i]);
      assert Escape(text[..i]) == EscapeChar(text[0]) + Escape(rest[..i - 1]);
      hide *;
    } else {
      assert text[..1][1..] == "" && Escape(text[..1]) == EscapeChar(text[0]) + Escape("");
    }
  }

  /** The text of one character, as the printer's table has it. */
  method PushChar(c: char, buf: string) returns (out: string)
    ensures out == buf + EscapeChar(c)
  {
    match c {
      case '\\' => out := buf + "\\\\";
      case '"' => out := buf + "\\\"";
      case '\n' => out := buf + "\\n";
      case '\r' => out := buf + "\\r";
      case '\t' => out := buf + "\\t";
      case _ => out := buf + [c];
    }
  }

  method PushText(text: string, buf: string) returns (out: string)
    ensures out == buf + ("\"" + Escape(text) + "\"")
  {
    hide Escape, EscapeChar;
    out := buf + "\"";
    EscapeNone(text);
    for i := 0 to |text|
      invariant out == buf + ("\"" + Escape(text[..i]))
    {
      EscapeSnoc(text, i);
      Grow(buf, "\"", Escape(text[..i]), "", EscapeChar(text[i]));
      assert Escape(text[..i]) + "" == Escape(text[..i]);
      out := PushChar(text[i], out);
    }
    assert text[..|text|] == text;
    Close(buf, "\"", Escape(text), "\"");
    out := out + "\"";
  }

  lemma EscapeNone(text: string)
    ensures Escape(text[..0]) == ""
  {}

  method SortByKey(entries: seq<(string, Json)>) returns (sorted: seq<(string, Json)>)
    requires DistinctKeys(entries)
    ensures var keys := SortedKeys(Keys(entries));
            && |sorted| == |keys|
            && forall i :: 0 <= i < |keys| ==>
                 Position(entries, keys[i]) < |entries| && sorted[i] == entries[Position(entries, keys[i])]
  {
    KeyOrder();
    var keys := Iterate<string>(KeyLess, Keys(entries));
    sorted := [];
    for i := 0 to |keys|
      invariant |sorted| == i
      invariant forall j :: 0 <= j < i ==>
            Position(entries, keys[j]) < |entries| && sorted[j] == entries[Position(entries, keys[j])]
    {
      assert keys[i] in Keys(entries);
      sorted := sorted + [entries[Position(entries, keys[i])]];
    }
  }

  method CanonicalJson(v: Json) returns (text: string)
    requires IsMap(v)
    ensures text == Print(v) && Canonical(text, v)
    ensures Legible(DocOf(v)) ==>
              && Parse(text).Some? && Parse(text).value.1 == ""
              && KeysInOrder(Parse(text).value.0) && DocOf(Parse(text).value.0) == Norm(DocOf(v))
  {
    hide *;
    text := Canonicalize(v, "");
    assert "" + Print(v) == Print(v);
    PrintIsCanonical(v);
  }

  method Canonicalize(v: Json, buf: string) returns (out: string)
    requires IsMap(v)
    ensures out == buf + Print(v)
    decreases v, 1
  {
    match v {
      case Object(entries) =>
        out := CanonicalizeObject(v, buf);
      case Array(items) =>
        out := CanonicalizeArray(v, buf);
      case Text(text) => out := PushText(text, buf);
      case Number(digits) => out := buf + digits;
      case Bool(b) => out := buf + if b then "true" else "false";
      case Null => out := buf;
    }
  }

  /** Appending piece by piece is appending the whole. */
  lemma Grow(buf: string, open: string, joined: string, sep: string, text: string)
    ensures buf + (open + joined) + sep + text == buf + (open + (joined + sep + text))
    ensures buf + (open + joined) + "" == buf + (open + joined)
  {}

  method CanonicalizeArray(v: Json, buf: string) returns (out: string)
    requires v.Array? && IsMap(v)
    ensures out == buf + Print(v)
    decreases v, 0
  {
    hide Print, Join;
    ghost var texts := seq(|v.items|, i requires 0 <= i < |v.items| => Print(v.items[i]));
    out := buf + "[";
    JoinNone(texts);
    for i := 0 to |v.items|
      invariant out == buf + ("[" + Join(texts[..i]))
    {
      JoinSnoc(texts, i);
      Grow(buf, "[", Join(texts[..i]), if i > 0 then "," else "", texts[i]);
      if i > 0 { out := out + ","; }
      out := Canonicalize(v.items[i], out);
    }
    assert texts[..|v.items|] == texts;
    PrintArray(v.items, texts);
    Close(buf, "[", Join(texts), "]");
    out := out + "]";
  }

  lemma JoinNone(texts: seq<string>)
    ensures Join(texts[..0]) == ""
  {}

  lemma Close(buf: string, open: string, joined: string, close: string)
    ensures buf + (open + joined) + close == buf + (open + joined + close)
  {}

  lemma PrintArray(items: seq<Json>, texts: seq<string>)
    requires |texts| == |items| && forall i :: 0 <= i < |items| ==> texts[i] == Print(items[i])
    ensures Print(Array(items)) == "[" + Join(texts) + "]"
  {
    assert Texts(CanonOf(DocOf(Array(items))).items) == texts;
  }

  method CanonicalizeObject(v: Json, buf: string) returns (out: string)
    requires v.Object? && IsMap(v)
    ensures out == buf + Print(v)
    decreases v, 0
  {
    hide Print, Join;
    var sorted := SortByKey(v.entries);
    ghost var texts := seq(|sorted|, i requires 0 <= i < |sorted| => Field(sorted[i].0, Print(sorted[i].1)));
    out := buf + "{";
    JoinNone(texts);
    for i := 0 to |sorted|
      invariant out == buf + ("{" + Join(texts[..i]))
    {
      JoinSnoc(texts, i);
      Grow(buf, "{", Join(texts[..i]), if i > 0 then "," else "", texts[i]);
      if i > 0 { out := out + ","; }
      var (key, value) := sorted[i];
      SortedEntry(v.entries, sorted, i);
      PushField(out, key, Print(value));
      out := Canonicalize(value, out + "\"" + key + "\":");
    }
    assert texts[..|sorted|] == texts;
    PrintObject(v.entries, sorted, texts);
    Close(buf, "{", Join(texts), "}");
    out := out + "}";
  }

  lemma PushField(out: string, key: string, text: string)
    ensures out + "\"" + key + "\":" + text == out + Field(key, text)
  {}

  lemma SortedEntry(entries: seq<(string, Json)>, sorted: seq<(string, Json)>, i: nat)
    requires var keys := SortedKeys(Keys(entries));
             && |sorted| == |keys| && i < |keys|
             && Position(entries, keys[i]) < |entries| && sorted[i] == entries[Position(entries, keys[i])]
    ensures sorted[i] in entries
  {}
}
