/** JSON values, the text that `JSON.stringify` gives for them, and a reader of that text.
    String syntax is section 7 of RFC 8259. */
module Json {
  import opened Wrappers
  import opened Texts

  // Members keep their insertion order. Numbers are integers: negative zero is no value.
  datatype Value =
    | Null
    | Bool(truth: bool)
    | Number(number: int)
    | String(text: Text)
    | Array(items: seq<Value>)
    | Object(members: seq<Member>)

  datatype Member = Member(key: Text, value: Value)

  // A value read from the front of a text, and what follows it.
  datatype Reading<T> = Bad | Read(value: T, rest: Text)

  const QUOTE: CodeUnit := 34
  const COMMA: CodeUnit := 44
  const MINUS: CodeUnit := 45
  const COLON: CodeUnit := 58
  const OPEN_ARRAY: CodeUnit := 91
  const BACKSLASH: CodeUnit := 92
  const CLOSE_ARRAY: CodeUnit := 93
  const LETTER_U: CodeUnit := 117
  const OPEN_OBJECT: CodeUnit := 123
  const CLOSE_OBJECT: CodeUnit := 125

  const NULL: Text := [110, 117, 108, 108]
  const TRUE: Text := [116, 114, 117, 101]
  const FALSE: Text := [102, 97, 108, 115, 101]

  // Strings

  predicate IsHigh(c: CodeUnit) { 0xD800 <= c < 0xDC00 }

  predicate IsLow(c: CodeUnit) { 0xDC00 <= c < 0xE000 }

  function Hex(d: int): CodeUnit
    requires 0 <= d < 16
  {
    if d < 10 then 48 + d else 87 + d
  }

  function HexValue(c: CodeUnit): (r: Option<int>)
    ensures r.Some? ==> 0 <= r.value < 16
  {
    if 48 <= c < 58 then Some(c - 48)
    else if 97 <= c < 103 then Some(c - 87)
    else if 65 <= c < 71 then Some(c - 55)
    else None
  }

  // The one-letter escapes.
  function Letter(c: CodeUnit): Option<CodeUnit> {
    if c == QUOTE || c == BACKSLASH then Some(c)
    else if c == 8 then Some(98)
    else if c == 9 then Some(116)
    else if c == 10 then Some(110)
    else if c == 12 then Some(102)
    else if c == 13 then Some(114)
    else None
  }

  function Unletter(c: CodeUnit): Option<CodeUnit> {
    if c == QUOTE || c == BACKSLASH || c == 47 then Some(c)
    else if c == 98 then Some(8)
    else if c == 116 then Some(9)
    else if c == 110 then Some(10)
    else if c == 102 then Some(12)
    else if c == 114 then Some(13)
    else None
  }

  /** One code unit that is no half of a surrogate pair. */
  function EscapeUnit(c: CodeUnit): Text {
    if Letter(c).Some? then [BACKSLASH, Letter(c).value]
    else if c < 32 || IsHigh(c) || IsLow(c) then
      [BACKSLASH, LETTER_U, Hex(c / 16 / 16 / 16), Hex(c / 16 / 16 % 16), Hex(c / 16 % 16), Hex(c % 16)]
    else [c]
  }

  function Escape(s: Text): Text {
    if s == [] then []
    else if |s| > 1 && IsHigh(s[0]) && IsLow(s[1]) then [s[0], s[1]] + Escape(s[2..])
    else EscapeUnit(s[0]) + Escape(s[1..])
  }

  function Quoted(s: Text): Text {
    [QUOTE] + Escape(s) + [QUOTE]
  }

  /** The code unit that the front of `t` stands for, inside a string. */
  function ReadUnit(t: Text): (r: Reading<CodeUnit>)
    requires t != []
    ensures r.Read? ==> |r.rest| < |t|
  {
    if t[0] == QUOTE || t[0] < 32 then Bad
    else if t[0] != BACKSLASH then Read(t[0], t[1..])
    else if |t| < 2 then Bad
    else if t[1] != LETTER_U then
      if Unletter(t[1]).Some? then Read(Unletter(t[1]).value, t[2..]) else Bad
    else if |t| < 6 then Bad
    else
      var c := ReadHex(t[2], t[3], t[4], t[5]);
      if c.None? then Bad else Read(c.value, t[6..])
  }

  function ReadHex(a: CodeUnit, b: CodeUnit, c: CodeUnit, d: CodeUnit): Option<CodeUnit> {
    var p, q, r, s := HexValue(a), HexValue(b), HexValue(c), HexValue(d);
    if p.None? || q.None? || r.None? || s.None? then None
    else Some(((p.value * 16 + q.value) * 16 + r.value) * 16 + s.value)
  }

  // From after the opening quote.
  function ReadChars(t: Text): (r: Reading<Text>)
    ensures r.Read? ==> |r.rest| < |t|
  {
    if t == [] then Bad
    else if t[0] == QUOTE then Read([], t[1..])
    else
      var unit := ReadUnit(t);
      if unit.Bad? then Bad
      else
        var more := ReadChars(unit.rest);
        if more.Bad? then Bad else Read([unit.value] + more.value, more.rest)
  }

  lemma HexRoundTrip(c: CodeUnit)
    ensures ReadHex(Hex(c / 16 / 16 / 16), Hex(c / 16 / 16 % 16), Hex(c / 16 % 16), Hex(c % 16)) == Some(c)
  {
    hide Hex, HexValue;
    var q := c / 16;
    HexInverse(q / 16 / 16);
    HexInverse(q / 16 % 16);
    HexInverse(q % 16);
    HexInverse(c % 16);
  }

  lemma HexInverse(d: int)
    requires 0 <= d < 16
    ensures HexValue(Hex(d)) == Some(d)
  {
  }

  lemma UnitRoundTrip(c: CodeUnit, rest: Text)
    ensures ReadUnit(EscapeUnit(c) + rest) == Read(c, rest)
    ensures EscapeUnit(c)[0] != QUOTE
  {
    hide ReadHex, Hex;
    HexRoundTrip(c);
    assert (EscapeUnit(c) + rest)[|EscapeUnit(c)|..] == rest;
  }

  /** One unit read from the front of a string leaves the rest of it to read. */
  lemma ReadCharsStep(unit: Text, c: CodeUnit, t: Text, s: Text, rest: Text)
    requires unit != [] && unit[0] != QUOTE && ReadUnit(unit + t) == Read(c, t)
    requires ReadChars(t) == Read(s, rest)
    ensures ReadChars(unit + t) == Read([c] + s, rest)
  {
    hide ReadUnit;
  }

  // Both halves of a surrogate pair stand for themselves.
  lemma ReadPair(high: CodeUnit, low: CodeUnit, t: Text, s: Text, rest: Text)
    requires IsHigh(high) && IsLow(low) && ReadChars(t) == Read(s, rest)
    ensures ReadChars([high] + ([low] + t)) == Read([high] + ([low] + s), rest)
  {
    hide ReadUnit, ReadChars;
    PlainUnit(low, t);
    ReadCharsStep([low], low, t, s, rest);
    PlainUnit(high, [low] + t);
    ReadCharsStep([high], high, [low] + t, [low] + s, rest);
  }

  lemma EscapeUnfolds(s: Text)
    ensures s == [] ==> Escape(s) == []
    ensures |s| > 1 && IsHigh(s[0]) && IsLow(s[1]) ==> Escape(s) == [s[0], s[1]] + Escape(s[2..])
    ensures s != [] && !(|s| > 1 && IsHigh(s[0]) && IsLow(s[1])) ==> Escape(s) == EscapeUnit(s[0]) + Escape(s[1..])
  {
  }

  lemma {:induction false} CharsRoundTrip(s: Text, rest: Text)
    ensures ReadChars(Escape(s) + ([QUOTE] + rest)) == Read(s, rest)
  {
    hide Escape, EscapeUnit, ReadUnit, ReadChars;
    var tail := [QUOTE] + rest;
    EscapeUnfolds(s);
    if s == [] {
      ReadCharsEnd(rest);
      assert Escape(s) + tail == tail;
    } else if |s| > 1 && IsHigh(s[0]) && IsLow(s[1]) {
      var t := Escape(s[2..]) + tail;
      CharsRoundTrip(s[2..], rest);
      ReadPair(s[0], s[1], t, s[2..], rest);
      assert Escape(s) + tail == [s[0]] + ([s[1]] + t);
      assert s == [s[0]] + ([s[1]] + s[2..]);
    } else {
      var t := Escape(s[1..]) + tail;
      CharsRoundTrip(s[1..], rest);
      UnitRoundTrip(s[0], t);
      ReadCharsStep(EscapeUnit(s[0]), s[0], t, s[1..], rest);
      assert Escape(s) + tail == EscapeUnit(s[0]) + t;
      assert s == [s[0]] + s[1..];
    }
  }

  lemma ReadCharsEnd(rest: Text)
    ensures ReadChars([QUOTE] + rest) == Read([], rest)
  {
    assert ([QUOTE] + rest)[1..] == rest;
  }

  lemma PlainUnit(c: CodeUnit, t: Text)
    requires c >= 32 && c != QUOTE && c != BACKSLASH
    ensures ReadUnit([c] + t) == Read(c, t)
  {
    assert ([c] + t)[1..] == t;
  }

  // Numbers

  predicate IsDigit(c: CodeUnit) { 48 <= c < 58 }

  function Digits(n: nat): (r: Text)
    ensures r != []
  {
    if n < 10 then [48 + n] else Digits(n / 10) + [48 + n % 10]
  }

  function Decimal(n: int): Text {
    if n < 0 then [MINUS] + Digits(-n) else Digits(n)
  }

  // How many digits `t` begins with.
  function Run(t: Text): (r: nat)
    ensures r <= |t|
  {
    if t == [] || !IsDigit(t[0]) then 0 else 1 + Run(t[1..])
  }

  predicate AllDigits(t: Text) { forall i :: 0 <= i < |t| ==> IsDigit(t[i]) }

  function DecimalValue(t: Text): nat
    requires AllDigits(t)
  {
    if t == [] then 0 else DecimalValue(t[..|t| - 1]) * 10 + (t[|t| - 1] - 48)
  }

  lemma {:induction false} RunIsDigits(t: Text)
    ensures AllDigits(t[..Run(t)])
  {
    if t != [] && IsDigit(t[0]) {
      RunIsDigits(t[1..]);
      assert t[..Run(t)] == [t[0]] + t[1..][..Run(t[1..])];
    }
  }

  // No leading zeros, and no minus sign before zero.
  function ReadNatural(t: Text): (r: Reading<int>)
    ensures r.Read? ==> |r.rest| < |t| && r.value >= 0
  {
    var k := Run(t);
    RunIsDigits(t);
    if k == 0 || (k > 1 && t[0] == 48) then Bad else Read(DecimalValue(t[..k]), t[k..])
  }

  function ReadNumber(t: Text): (r: Reading<int>)
    ensures r.Read? ==> |r.rest| < |t|
  {
    if t != [] && t[0] == MINUS then
      var n := ReadNatural(t[1..]);
      if n.Bad? || n.value == 0 then Bad else Read(-n.value, n.rest)
    else
      var n := ReadNatural(t);
      if n.Bad? then Bad else Read(n.value, n.rest)
  }

  // What may follow a number without being taken for a part of it.
  predicate Ends(t: Text) { t == [] || !IsDigit(t[0]) }

  lemma {:induction false} DigitsValue(n: nat)
    ensures AllDigits(Digits(n)) && DecimalValue(Digits(n)) == n
    ensures Digits(n)[0] == 48 ==> n == 0 && |Digits(n)| == 1
  {
    if n >= 10 {
      DigitsValue(n / 10);
      assert Digits(n)[..|Digits(n)| - 1] == Digits(n / 10);
    }
  }

  lemma {:induction false} RunOf(ds: Text, rest: Text)
    requires AllDigits(ds) && Ends(rest)
    ensures Run(ds + rest) == |ds|
  {
    if ds == [] {
      assert ds + rest == rest;
    } else {
      RunOf(ds[1..], rest);
      assert (ds + rest)[1..] == ds[1..] + rest;
    }
  }

  lemma NaturalRoundTrip(n: nat, rest: Text)
    requires Ends(rest)
    ensures ReadNatural(Digits(n) + rest) == Read(n, rest)
    ensures (Digits(n) + rest)[0] != MINUS
  {
    var ds := Digits(n);
    DigitsValue(n);
    RunOf(ds, rest);
    assert (ds + rest)[..|ds|] == ds && (ds + rest)[|ds|..] == rest;
  }

  lemma NumberRoundTrip(n: int, rest: Text)
    requires Ends(rest)
    ensures ReadNumber(Decimal(n) + rest) == Read(n, rest)
    ensures Decimal(n) != [] && (Decimal(n)[0] == MINUS || IsDigit(Decimal(n)[0]))
  {
    hide Digits, ReadNatural;
    var ds := Digits(if n < 0 then -n else n);
    NaturalRoundTrip(if n < 0 then -n else n, rest);
    DigitsValue(if n < 0 then -n else n);
    assert IsDigit(ds[0]);
    if n < 0 {
      assert (Decimal(n) + rest)[1..] == ds + rest;
    }
  }

  // Values

  /** The text of `JSON.stringify`: members in their own order, no white space. */
  function Print(v: Value): Text
    decreases v
  {
    match v
    case Null => NULL
    case Bool(truth) => if truth then TRUE else FALSE
    case Number(n) => Decimal(n)
    case String(s) => Quoted(s)
    case Array(items) => [OPEN_ARRAY] + PrintItems(items) + [CLOSE_ARRAY]
    case Object(members) => [OPEN_OBJECT] + PrintMembers(members) + [CLOSE_OBJECT]
  }

  function PrintItems(items: seq<Value>): Text
    decreases items
  {
    if items == [] then []
    else if |items| == 1 then Print(items[0])
    else Print(items[0]) + [COMMA] + PrintItems(items[1..])
  }

  function PrintMember(m: Member): Text
    decreases m
  {
    Quoted(m.key) + [COLON] + Print(m.value)
  }

  function PrintMembers(members: seq<Member>): Text
    decreases members
  {
    if members == [] then []
    else if |members| == 1 then PrintMember(members[0])
    else PrintMember(members[0]) + [COMMA] + PrintMembers(members[1..])
  }

  function ReadWord<T>(word: Text, value: T, t: Text): (r: Reading<T>)
    requires word != []
    ensures r.Read? ==> |r.rest| < |t|
  {
    if word <= t then Read(value, t[|word|..]) else Bad
  }

  function ReadString(t: Text): (r: Reading<Text>)
    ensures r.Read? ==> |r.rest| < |t|
  {
    if t == [] || t[0] != QUOTE then Bad else ReadChars(t[1..])
  }

  function ReadValue(t: Text): (r: Reading<Value>)
    ensures r.Read? ==> |r.rest| < |t|
    decreases |t|, 0
  {
    if t == [] then Bad
    else if t[0] == QUOTE then
      var s := ReadString(t);
      if s.Bad? then Bad else Read(String(s.value), s.rest)
    else if t[0] == OPEN_ARRAY then
      if |t| > 1 && t[1] == CLOSE_ARRAY then Read(Array([]), t[2..])
      else
        var items := ReadItems(t[1..]);
        if items.Bad? then Bad else Read(Array(items.value), items.rest)
    else if t[0] == OPEN_OBJECT then
      if |t| > 1 && t[1] == CLOSE_OBJECT then Read(Object([]), t[2..])
      else
        var members := ReadMembers(t[1..]);
        if members.Bad? then Bad else Read(Object(members.value), members.rest)
    else if t[0] == MINUS || IsDigit(t[0]) then
      var n := ReadNumber(t);
      if n.Bad? then Bad else Read(Number(n.value), n.rest)
    else if t[0] == NULL[0] then ReadWord(NULL, Null, t)
    else if t[0] == TRUE[0] then ReadWord(TRUE, Bool(true), t)
    else ReadWord(FALSE, Bool(false), t)
  }

  // At least one item, up to and with the closing bracket.
  function ReadItems(t: Text): (r: Reading<seq<Value>>)
    ensures r.Read? ==> |r.rest| < |t|
    decreases |t|, 1
  {
    var v := ReadValue(t);
    if v.Bad? || v.rest == [] then Bad
    else if v.rest[0] == CLOSE_ARRAY then Read([v.value], v.rest[1..])
    else if v.rest[0] == COMMA then
      var more := ReadItems(v.rest[1..]);
      if more.Bad? then Bad else Read([v.value] + more.value, more.rest)
    else Bad
  }

  function ReadMember(t: Text): (r: Reading<Member>)
    ensures r.Read? ==> |r.rest| < |t|
    decreases |t|, 1
  {
    var key := ReadString(t);
    if key.Bad? || key.rest == [] || key.rest[0] != COLON then Bad
    else
      var v := ReadValue(key.rest[1..]);
      if v.Bad? then Bad else Read(Member(key.value, v.value), v.rest)
  }

  // At least one member, up to and with the closing brace.
  function ReadMembers(t: Text): (r: Reading<seq<Member>>)
    ensures r.Read? ==> |r.rest| < |t|
    decreases |t|, 2
  {
    var m := ReadMember(t);
    if m.Bad? || m.rest == [] then Bad
    else if m.rest[0] == CLOSE_OBJECT then Read([m.value], m.rest[1..])
    else if m.rest[0] == COMMA then
      var more := ReadMembers(m.rest[1..]);
      if more.Bad? then Bad else Read([m.value] + more.value, more.rest)
    else Bad
  }

  /** A text is read whole or not at all. */
  function Parse(t: Text): Option<Value> {
    var r := ReadValue(t);
    if r.Read? && r.rest == [] then Some(r.value) else None
  }

  lemma StringRoundTrip(s: Text, rest: Text)
    ensures ReadString(Quoted(s) + rest) == Read(s, rest)
    ensures Quoted(s)[0] == QUOTE
  {
    hide Escape, ReadChars;
    CharsRoundTrip(s, rest);
    assert (Quoted(s) + rest)[1..] == Escape(s) + ([QUOTE] + rest);
  }

  /** The first code unit of a value: never a closing bracket. */
  lemma PrintHead(v: Value)
    ensures Print(v) != [] && Print(v)[0] != CLOSE_ARRAY
  {
    hide Escape, Digits;
    if v.Number? {
      DigitsValue(if v.number < 0 then -v.number else v.number);
    }
  }

  lemma {:induction false} ValueRoundTrip(v: Value, rest: Text)
    requires Ends(rest)
    ensures ReadValue(Print(v) + rest) == Read(v, rest)
    decreases v
  {
    hide *;
    match v {
      case Array(items) =>
        if items != [] {
          ItemsRoundTrip(items, rest);
        }
        ArrayRoundTrip(items, rest);
      case Object(members) =>
        if members != [] {
          MembersRoundTrip(members, rest);
        }
        ObjectRoundTrip(members, rest);
      case _ =>
        ScalarRoundTrip(v, rest);
    }
  }

  lemma ScalarRoundTrip(v: Value, rest: Text)
    requires Ends(rest) && !v.Array? && !v.Object?
    ensures ReadValue(Print(v) + rest) == Read(v, rest)
  {
    hide Ends, Decimal, Quoted, ReadString, ReadNumber, ReadItems, ReadMembers;
    match v {
      case Number(n) =>
        NumberRoundTrip(n, rest);
      case String(s) =>
        StringRoundTrip(s, rest);
      case Null =>
        assert (NULL + rest)[|NULL|..] == rest;
      case Bool(truth) =>
        assert (TRUE + rest)[|TRUE|..] == rest;
        assert (FALSE + rest)[|FALSE|..] == rest;
      case _ =>
    }
  }

  lemma ArrayRoundTrip(items: seq<Value>, rest: Text)
    requires items != [] ==> ReadItems(PrintItems(items) + ([CLOSE_ARRAY] + rest)) == Read(items, rest)
    ensures ReadValue(Print(Array(items)) + rest) == Read(Array(items), rest)
  {
    hide ReadItems, ReadMembers, ReadNumber, ReadString, ReadWord;
    var t := Print(Array(items)) + rest;
    if items == [] {
      assert t == [OPEN_ARRAY, CLOSE_ARRAY] + rest && t[2..] == rest;
    } else {
      PrintHead(items[0]);
      assert t[1..] == PrintItems(items) + ([CLOSE_ARRAY] + rest);
    }
  }

  lemma MembersHead(members: seq<Member>)
    requires members != []
    ensures PrintMembers(members) != [] && PrintMembers(members)[0] == QUOTE
  {
    hide Escape, Print;
  }

  lemma EmptyObject(rest: Text)
    ensures ReadValue(Print(Object([])) + rest) == Read(Object([]), rest)
  {
    var t := Print(Object([])) + rest;
    assert t == [OPEN_OBJECT, CLOSE_OBJECT] + rest && t[2..] == rest;
  }

  lemma ObjectRoundTrip(members: seq<Member>, rest: Text)
    requires members != [] ==> ReadMembers(PrintMembers(members) + ([CLOSE_OBJECT] + rest)) == Read(members, rest)
    ensures ReadValue(Print(Object(members)) + rest) == Read(Object(members), rest)
  {
    hide ReadItems, ReadMembers, ReadNumber, ReadString, ReadWord, PrintMembers;
    if members == [] {
      EmptyObject(rest);
    } else {
      var t := Print(Object(members)) + rest;
      MembersHead(members);
      assert t[1..] == PrintMembers(members) + ([CLOSE_OBJECT] + rest);
    }
  }

  lemma ItemsEnd(t: Text, v: Value, rest: Text)
    requires ReadValue(t) == Read(v, [CLOSE_ARRAY] + rest)
    ensures ReadItems(t) == Read([v], rest)
  {
    hide ReadValue;
    assert ([CLOSE_ARRAY] + rest)[1..] == rest;
  }

  lemma ItemsStep(t: Text, v: Value, u: Text, vs: seq<Value>, rest: Text)
    requires ReadValue(t) == Read(v, [COMMA] + u) && ReadItems(u) == Read(vs, rest)
    ensures ReadItems(t) == Read([v] + vs, rest)
  {
    hide ReadValue;
    assert ([COMMA] + u)[1..] == u;
  }

  lemma PrintItemsStep(items: seq<Value>, end: Text)
    requires items != []
    ensures |items| == 1 ==> PrintItems(items) == Print(items[0])
    ensures |items| > 1 ==> PrintItems(items) + end == Print(items[0]) + ([COMMA] + (PrintItems(items[1..]) + end))
  {
    hide Print;
  }

  lemma {:induction false} ItemsRoundTrip(items: seq<Value>, rest: Text)
    requires items != []
    ensures ReadItems(PrintItems(items) + ([CLOSE_ARRAY] + rest)) == Read(items, rest)
    decreases items
  {
    hide ReadValue, ReadItems, Print, PrintItems;
    var end := [CLOSE_ARRAY] + rest;
    PrintItemsStep(items, end);
    if |items| == 1 {
      ValueRoundTrip(items[0], end);
      ItemsEnd(PrintItems(items) + end, items[0], rest);
      assert items == [items[0]];
    } else {
      var t := PrintItems(items[1..]) + end;
      ItemsRoundTrip(items[1..], rest);
      ValueRoundTrip(items[0], [COMMA] + t);
      ItemsStep(PrintItems(items) + end, items[0], t, items[1..], rest);
      assert items == [items[0]] + items[1..];
    }
  }

  lemma {:induction false} MemberRoundTrip(m: Member, rest: Text)
    requires Ends(rest)
    ensures ReadMember(PrintMember(m) + rest) == Read(m, rest)
    decreases m
  {
    hide ReadValue, Print, Quoted, ReadString;
    var t := Print(m.value) + rest;
    StringRoundTrip(m.key, [COLON] + t);
    ValueRoundTrip(m.value, rest);
    assert PrintMember(m) + rest == Quoted(m.key) + ([COLON] + t);
    assert ([COLON] + t)[1..] == t;
  }

  lemma MembersEnd(t: Text, m: Member, rest: Text)
    requires ReadMember(t) == Read(m, [CLOSE_OBJECT] + rest)
    ensures ReadMembers(t) == Read([m], rest)
  {
    hide ReadMember;
    assert ([CLOSE_OBJECT] + rest)[1..] == rest;
  }

  lemma MembersStep(t: Text, m: Member, u: Text, ms: seq<Member>, rest: Text)
    requires ReadMember(t) == Read(m, [COMMA] + u) && ReadMembers(u) == Read(ms, rest)
    ensures ReadMembers(t) == Read([m] + ms, rest)
  {
    hide ReadMember;
    assert ([COMMA] + u)[1..] == u;
  }

  lemma PrintMembersStep(members: seq<Member>, end: Text)
    requires members != []
    ensures |members| == 1 ==> PrintMembers(members) == PrintMember(members[0])
    ensures |members| > 1 ==>
              PrintMembers(members) + end == PrintMember(members[0]) + ([COMMA] + (PrintMembers(members[1..]) + end))
  {
    hide PrintMember;
  }

  lemma {:induction false} MembersRoundTrip(members: seq<Member>, rest: Text)
    requires members != []
    ensures ReadMembers(PrintMembers(members) + ([CLOSE_OBJECT] + rest)) == Read(members, rest)
    decreases members
  {
    hide ReadMember, ReadMembers, PrintMember, PrintMembers;
    var end := [CLOSE_OBJECT] + rest;
    PrintMembersStep(members, end);
    if |members| == 1 {
      MemberRoundTrip(members[0], end);
      MembersEnd(PrintMembers(members) + end, members[0], rest);
      assert members == [members[0]];
    } else {
      var t := PrintMembers(members[1..]) + end;
      MembersRoundTrip(members[1..], rest);
      MemberRoundTrip(members[0], [COMMA] + t);
      MembersStep(PrintMembers(members) + end, members[0], t, members[1..], rest);
      assert members == [members[0]] + members[1..];
    }
  }

  /** `JSON.parse` undoes `JSON.stringify`, keeping the order of the members. */
  lemma ParsePrint(v: Value)
    ensures Parse(Print(v)) == Some(v)
  {
    hide ReadValue, Print;
    ValueRoundTrip(v, []);
    assert Print(v) + [] == Print(v);
  }

  lemma PrintIsInjective(v: Value, w: Value)
    requires Print(v) == Print(w)
    ensures v == w
  {
    hide Parse, Print;
    ParsePrint(v);
    ParsePrint(w);
  }
}
