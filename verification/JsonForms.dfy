/** What printed JSON looks like, character by character. Reading it back leaves open how a
    string is escaped; here that is pinned down, in terms of plain text. */
module JsonForms {
  import opened Texts
  import opened Json

  // Strings

  /** The code units with an escape of their own (RFC 8259, section 7). */
  predicate IsShort(c: CodeUnit) {
    c == 8 || c == 9 || c == 10 || c == 12 || c == 13 || c == 34 || c == 92
  }

  /** The other ones that `JSON.stringify` does not print as they are: controls, and halves
      of surrogate pairs that stand alone. */
  predicate IsLong(c: CodeUnit) {
    (c < 32 && !IsShort(c)) || 0xD800 <= c < 0xE000
  }

  predicate IsLowerHexDigit(c: CodeUnit) {
    48 <= c < 58 || 97 <= c < 103
  }

  function DigitValue(c: CodeUnit): int {
    if c < 58 then c - 48 else c - 87
  }

  /** `\\u` and the number of the unit in four lower-case hexadecimal digits. */
  predicate IsLongEscape(t: Text, c: CodeUnit) {
    && |t| == 6 && t[..2] == Ascii("\\u")
    && IsLowerHexDigit(t[2]) && IsLowerHexDigit(t[3]) && IsLowerHexDigit(t[4]) && IsLowerHexDigit(t[5])
    && ((DigitValue(t[2]) * 16 + DigitValue(t[3])) * 16 + DigitValue(t[4])) * 16 + DigitValue(t[5]) == c
  }

  lemma TwoLetters(s: string, a: CodeUnit, b: CodeUnit)
    requires |s| == 2 && s[0] as int == a && s[1] as int == b
    ensures Ascii(s) == [a, b]
  {
    hide Ascii;
    AsciiAt(s, 0);
    AsciiAt(s, 1);
  }

  lemma OneLetter(s: string, a: CodeUnit)
    requires |s| == 1 && s[0] as int == a
    ensures Ascii(s) == [a]
  {
    hide Ascii;
    AsciiAt(s, 0);
  }

  lemma EscapeOne(c: CodeUnit)
    ensures Escape([c]) == EscapeUnit(c)
  {
    hide EscapeUnit;
    EscapeUnfolds([c]);
    EscapeUnfolds([]);
    assert [c][1..] == [];
  }

  lemma ShortEscapes()
    ensures Escape([8]) == Ascii("\\b") && Escape([9]) == Ascii("\\t") && Escape([10]) == Ascii("\\n")
    ensures Escape([12]) == Ascii("\\f") && Escape([13]) == Ascii("\\r")
    ensures Escape([34]) == Ascii("\\\"") && Escape([92]) == Ascii("\\\\")
  {
    hide Ascii, Escape;
    TwoLetters("\\b", 92, 98);
    TwoLetters("\\t", 92, 116);
    TwoLetters("\\n", 92, 110);
    TwoLetters("\\f", 92, 102);
    TwoLetters("\\r", 92, 114);
    TwoLetters("\\\"", 92, 34);
    TwoLetters("\\\\", 92, 92);
    EscapeOne(8);
    EscapeOne(9);
    EscapeOne(10);
    EscapeOne(12);
    EscapeOne(13);
    EscapeOne(34);
    EscapeOne(92);
  }

  lemma HexDigit(d: int)
    requires 0 <= d < 16
    ensures IsLowerHexDigit(Hex(d)) && DigitValue(Hex(d)) == d
  {
  }

  /** Every unit that stands alone, and how it is printed. */
  lemma EscapeAlone(c: CodeUnit)
    ensures !IsShort(c) && !IsLong(c) ==> Escape([c]) == [c]
    ensures IsLong(c) ==> IsLongEscape(Escape([c]), c)
  {
    hide Ascii, Escape, Hex, DigitValue, IsLowerHexDigit;
    EscapeOne(c);
    if IsLong(c) {
      TwoLetters("\\u", 92, 117);
      var q := c / 16;
      HexDigit(q / 16 / 16);
      HexDigit(q / 16 % 16);
      HexDigit(q % 16);
      HexDigit(c % 16);
      assert q == (q / 16 / 16 * 16 + q / 16 % 16) * 16 + q % 16 && c == q * 16 + c % 16;
    }
  }

  lemma EscapePair(high: CodeUnit, low: CodeUnit)
    requires IsHigh(high) && IsLow(low)
    ensures Escape([high, low]) == [high, low]
  {
    EscapeUnfolds([high, low]);
    assert [high, low][2..] == [];
  }

  /** How much of a string is escaped at once: a surrogate pair, or one unit. */
  function Front(s: Text): (n: nat)
    requires s != []
    ensures 1 <= n <= |s|
  {
    if |s| > 1 && IsHigh(s[0]) && IsLow(s[1]) then 2 else 1
  }

  function FrontText(s: Text): Text
    requires s != []
  {
    if Front(s) == 2 then [s[0], s[1]] else EscapeUnit(s[0])
  }

  lemma EscapeFront(s: Text)
    requires s != []
    ensures Front(s) <= |s| && Escape(s) == FrontText(s) + Escape(s[Front(s)..])
  {
    hide EscapeUnit;
  }

  lemma FrontKept(s: Text, t: Text)
    requires s != [] && (t != [] ==> !(IsHigh(s[|s| - 1]) && IsLow(t[0])))
    ensures Front(s + t) == Front(s) <= |s| && FrontText(s + t) == FrontText(s)
    ensures (s + t)[Front(s)..] == s[Front(s)..] + t
    ensures s[Front(s)..] != [] ==> s[Front(s)..][|s[Front(s)..]| - 1] == s[|s| - 1]
  {
    hide EscapeUnit;
  }

  lemma Regroup(a: Text, b: Text, c: Text)
    ensures a + (b + c) == (a + b) + c
  {
  }

  /** Strings are escaped piece by piece, as long as no surrogate pair is cut. */
  lemma {:induction false} EscapeConcat(s: Text, t: Text)
    requires s != [] && t != [] ==> !(IsHigh(s[|s| - 1]) && IsLow(t[0]))
    ensures Escape(s + t) == Escape(s) + Escape(t)
  {
    hide Escape, EscapeUnit, Front, FrontText, IsHigh, IsLow;
    if s == [] {
      EscapeUnfolds(s);
      assert s + t == t;
    } else {
      var n := Front(s);
      EscapeFront(s);
      FrontKept(s, t);
      EscapeFront(s + t);
      EscapeConcat(s[n..], t);
      Regroup(FrontText(s), Escape(s[n..]), Escape(t));
    }
  }

  // Values

  lemma FourLetters(s: string, a: CodeUnit, b: CodeUnit, c: CodeUnit, d: CodeUnit)
    requires |s| == 4 && s[0] as int == a && s[1] as int == b && s[2] as int == c && s[3] as int == d
    ensures Ascii(s) == [a, b, c, d]
  {
    hide Ascii;
    AsciiAt(s, 0);
    AsciiAt(s, 1);
    AsciiAt(s, 2);
    AsciiAt(s, 3);
  }

  lemma Punctuation()
    ensures [QUOTE] == Ascii("\"") && [COMMA] == Ascii(",") && [COLON] == Ascii(":") && [MINUS] == Ascii("-")
    ensures [OPEN_ARRAY] == Ascii("[") && [CLOSE_ARRAY] == Ascii("]")
    ensures [OPEN_OBJECT] == Ascii("{") && [CLOSE_OBJECT] == Ascii("}")
    ensures NULL == Ascii("null") && TRUE == Ascii("true") && FALSE == Ascii("false")
  {
    hide Ascii;
    OneLetter("\"", 34);
    OneLetter(",", 44);
    OneLetter(":", 58);
    OneLetter("-", 45);
    OneLetter("[", 91);
    OneLetter("]", 93);
    OneLetter("{", 123);
    OneLetter("}", 125);
    FourLetters("null", 110, 117, 108, 108);
    FourLetters("true", 116, 114, 117, 101);
    AsciiAt("false", 0);
    AsciiAt("false", 1);
    AsciiAt("false", 2);
    AsciiAt("false", 3);
    AsciiAt("false", 4);
  }

  /** Texts with commas between them. */
  function Commas(ts: seq<Text>): Text {
    if ts == [] then [] else if |ts| == 1 then ts[0] else ts[0] + Ascii(",") + Commas(ts[1..])
  }

  function Printed(items: seq<Value>): (ts: seq<Text>)
    ensures |ts| == |items| && forall i :: 0 <= i < |items| ==> ts[i] == Print(items[i])
  {
    seq(|items|, i requires 0 <= i < |items| => Print(items[i]))
  }

  function PrintedMembers(members: seq<Member>): (ts: seq<Text>)
    ensures |ts| == |members|
    ensures forall i :: 0 <= i < |members| ==>
              ts[i] == Ascii("\"") + Escape(members[i].key) + Ascii("\":") + Print(members[i].value)
  {
    seq(|members|, i requires 0 <= i < |members| =>
      Ascii("\"") + Escape(members[i].key) + Ascii("\":") + Print(members[i].value))
  }

  lemma {:induction false} ItemsForm(items: seq<Value>)
    ensures PrintItems(items) == Commas(Printed(items))
  {
    hide Ascii, Print;
    Punctuation();
    if |items| > 1 {
      ItemsForm(items[1..]);
      assert Printed(items)[1..] == Printed(items[1..]);
    }
  }

  lemma {:induction false} MembersForm(members: seq<Member>)
    ensures PrintMembers(members) == Commas(PrintedMembers(members))
  {
    hide Ascii, Print, Escape, PrintMember;
    Punctuation();
    if members != [] {
      MemberForm(members[0]);
    }
    if |members| > 1 {
      MembersForm(members[1..]);
      assert PrintedMembers(members)[1..] == PrintedMembers(members[1..]);
    }
  }

  lemma MemberForm(m: Member)
    ensures PrintMember(m) == Ascii("\"") + Escape(m.key) + Ascii("\":") + Print(m.value)
  {
    hide Ascii, Print, Escape;
    Punctuation();
    TwoLetters("\":", 34, 58);
    var key, value := Escape(m.key), Print(m.value);
    assert [QUOTE] + key + [QUOTE] + [COLON] + value == [QUOTE] + key + [QUOTE, COLON] + value;
  }

  /** The text of every value, in plain characters: no white space, members in their own
      order. `CharsRoundTrip` and `NumberRoundTrip` say what strings and numbers read as. */
  lemma PrintForms(v: Value)
    ensures v.Null? ==> Print(v) == Ascii("null")
    ensures v.Bool? ==> Print(v) == if v.truth then Ascii("true") else Ascii("false")
    ensures v.Number? && v.number < 0 ==> Print(v) == Ascii("-") + Print(Number(-v.number))
    ensures v.Number? && v.number >= 0 ==> AllDigits(Print(v)) && DecimalValue(Print(v)) == v.number
    ensures v.String? ==> Print(v) == Ascii("\"") + Escape(v.text) + Ascii("\"")
    ensures v.Array? ==> Print(v) == Ascii("[") + Commas(Printed(v.items)) + Ascii("]")
    ensures v.Object? ==> Print(v) == Ascii("{") + Commas(PrintedMembers(v.members)) + Ascii("}")
  {
    hide Ascii, Escape, Digits, AllDigits, DecimalValue, Commas, PrintItems, PrintMembers;
    Punctuation();
    match v
    case Number(n) => DigitsValue(if n < 0 then -n else n);
    case Array(items) => ItemsForm(items);
    case Object(members) => MembersForm(members);
    case _ =>
  }
}
