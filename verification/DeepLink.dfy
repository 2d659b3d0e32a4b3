/** Workspace deep links: the printer, the parser, and why they undo each other. Queries are
    application/x-www-form-urlencoded (sections 5.1 and 5.2 of the WHATWG URL Standard). */
module DeepLink {
  import opened Wrappers
  import opened Texts
  import opened Json

  datatype Link = Link(path: Text, tenantId: Text, sessionId: Text, objectId: Option<Text>, revision: Option<int>)

  datatype Context = Context(tenantId: Text, sessionId: Text)

  datatype Pair = Pair(key: Text, value: Text)

  const HASH: CodeUnit := 35
  const PERCENT: CodeUnit := 37
  const AMPERSAND: CodeUnit := 38
  const PLUS: CodeUnit := 43
  const EQUALS: CodeUnit := 61
  const QUESTION: CodeUnit := 63
  const MAX_LENGTH: nat := 1536
  const MAX_REVISION: nat := 999999999

  // "/workspace/", "tenantId", "sessionId", "objectId" and "revision".
  const WORKSPACE: Text := [47, 119, 111, 114, 107, 115, 112, 97, 99, 101, 47]
  const TENANT_ID: Text := [116, 101, 110, 97, 110, 116, 73, 100]
  const SESSION_ID: Text := [115, 101, 115, 115, 105, 111, 110, 73, 100]
  const OBJECT_ID: Text := [111, 98, 106, 101, 99, 116, 73, 100]
  const REVISION: Text := [114, 101, 118, 105, 115, 105, 111, 110]

  // Shapes

  predicate IsLower(c: CodeUnit) { 97 <= c < 123 }

  predicate IsAlphanumeric(c: CodeUnit) { IsDigit(c) || 65 <= c < 91 || IsLower(c) }

  // Letters, digits, and `.`, `_`, `:` or `-`.
  predicate IsIdUnit(c: CodeUnit) { IsAlphanumeric(c) || c == 46 || c == 95 || c == 58 || c == 45 }

  predicate IsId(s: Text) {
    2 <= |s| <= 96 && IsAlphanumeric(s[0]) && forall i :: 0 <= i < |s| ==> IsIdUnit(s[i])
  }

  predicate IsPathUnit(c: CodeUnit) { IsLower(c) || IsDigit(c) || c == 45 }

  predicate IsPath(s: Text) {
    && WORKSPACE <= s && 12 <= |s| <= 75 && IsLower(s[11])
    && forall i :: 11 <= i < |s| ==> IsPathUnit(s[i])
  }

  predicate IsRevision(s: Text) {
    1 <= |s| <= 9 && s[0] != 48 && AllDigits(s)
  }

  predicate Checked(l: Link) {
    && IsPath(l.path) && IsId(l.tenantId) && IsId(l.sessionId)
    && ((l.objectId.None? && l.revision.None?)
        || (l.objectId.Some? && IsId(l.objectId.value) && l.revision.Some? && 1 <= l.revision.value <= MAX_REVISION))
  }

  // The query printer

  function UpperHex(d: int): CodeUnit
    requires 0 <= d < 16
  {
    if d < 10 then 48 + d else 55 + d
  }

  // Units above 127 do not occur in a checked link.
  function EncodeUnit(c: CodeUnit): Text {
    if IsAlphanumeric(c) || c == 42 || c == 45 || c == 46 || c == 95 then [c]
    else if c == 32 then [PLUS]
    else [PERCENT, UpperHex(c % 256 / 16), UpperHex(c % 16)]
  }

  function Encode(s: Text): Text {
    if s == [] then [] else EncodeUnit(s[0]) + Encode(s[1..])
  }

  function PrintPair(p: Pair): Text {
    Encode(p.key) + [EQUALS] + Encode(p.value)
  }

  function PrintPairs(ps: seq<Pair>): Text {
    if ps == [] then []
    else if |ps| == 1 then PrintPair(ps[0])
    else PrintPair(ps[0]) + [AMPERSAND] + PrintPairs(ps[1..])
  }

  function Params(l: Link): seq<Pair> {
    [Pair(TENANT_ID, l.tenantId), Pair(SESSION_ID, l.sessionId)]
    + if l.objectId.Some? && l.revision.Some?
      then [Pair(OBJECT_ID, l.objectId.value), Pair(REVISION, Decimal(l.revision.value))]
      else []
  }

  function Build(l: Link): Option<Text> {
    if Checked(l) then Some([HASH] + l.path + [QUESTION] + PrintPairs(Params(l))) else None
  }

  // The query parser

  // The first place of `c`, or the length.
  function Index(s: Text, c: CodeUnit): (r: nat)
    ensures r <= |s|
  {
    if s == [] || s[0] == c then 0 else 1 + Index(s[1..], c)
  }

  function After(s: Text, c: CodeUnit): Text {
    if Index(s, c) < |s| then s[Index(s, c) + 1..] else []
  }

  // A byte above 127 is part of some character outside ASCII.
  function Decode(t: Text): Text {
    if t == [] then []
    else if t[0] == PLUS then [32] + Decode(t[1..])
    else if t[0] == PERCENT && |t| >= 3 && HexValue(t[1]).Some? && HexValue(t[2]).Some? then
      var b := HexValue(t[1]).value * 16 + HexValue(t[2]).value;
      [if b < 128 then b else 0xFFFD] + Decode(t[3..])
    else [t[0]] + Decode(t[1..])
  }

  function ReadPair(t: Text): Pair {
    Pair(Decode(t[..Index(t, EQUALS)]), Decode(After(t, EQUALS)))
  }

  function ReadPairs(t: Text): seq<Pair>
    decreases |t|
  {
    var piece := t[..Index(t, AMPERSAND)];
    var first := if piece == [] then [] else [ReadPair(piece)];
    if Index(t, AMPERSAND) == |t| then first else first + ReadPairs(After(t, AMPERSAND))
  }

  predicate KeysAllowed(ps: seq<Pair>) {
    && (forall i :: 0 <= i < |ps| ==> ps[i].key in [TENANT_ID, SESSION_ID, OBJECT_ID, REVISION])
    && (forall i, j :: 0 <= i < j < |ps| ==> ps[i].key != ps[j].key)
  }

  function Get(ps: seq<Pair>, key: Text): Option<Text> {
    if ps == [] then None else if ps[0].key == key then Some(ps[0].value) else Get(ps[1..], key)
  }

  function Or(o: Option<Text>, fallback: Text): Text {
    if o.Some? then o.value else fallback
  }

  function LinkOf(path: Text, ps: seq<Pair>, context: Context): Option<Link> {
    var revision := Get(ps, REVISION);
    if !KeysAllowed(ps) || (revision.Some? && !IsRevision(revision.value)) then None
    else
      var l := Link(path, Or(Get(ps, TENANT_ID), context.tenantId), Or(Get(ps, SESSION_ID), context.sessionId),
                    Get(ps, OBJECT_ID),
                    if revision.Some? then Some(DecimalValue(revision.value)) else None);
      if Checked(l) && l.tenantId == context.tenantId && l.sessionId == context.sessionId then Some(l) else None
  }

  function Parse(hash: Text, context: Context, registered: seq<Text>): Option<Link> {
    if hash == [] || |hash| > MAX_LENGTH || hash[0] != HASH then None
    else
      var path := hash[1..][..Index(hash[1..], QUESTION)];
      var rest := After(hash[1..], QUESTION);
      if !IsPath(path) || HASH in rest || path !in registered then None
      else LinkOf(path, ReadPairs(rest[..Index(rest, QUESTION)]), context)
  }

  // Round trip of the query

  predicate IsAscii(s: Text) { forall i :: 0 <= i < |s| ==> s[i] < 128 }

  // No unit that ends a pair, a key or the query.
  predicate Inert(s: Text) {
    forall i :: 0 <= i < |s| ==> s[i] != AMPERSAND && s[i] != EQUALS && s[i] != HASH && s[i] != QUESTION
  }

  lemma DecodeUnit(c: CodeUnit, t: Text)
    requires c != PERCENT
    ensures Decode([c] + t) == [if c == PLUS then 32 else c] + Decode(t)
  {
    hide HexValue;
    assert ([c] + t)[1..] == t;
  }

  lemma DecodeEscape(a: CodeUnit, b: CodeUnit, t: Text)
    requires HexValue(a).Some? && HexValue(b).Some? && HexValue(a).value * 16 + HexValue(b).value < 128
    ensures Decode([PERCENT, a, b] + t) == [HexValue(a).value * 16 + HexValue(b).value] + Decode(t)
  {
    hide HexValue;
    assert ([PERCENT, a, b] + t)[3..] == t;
  }

  lemma UnitRoundTrip(c: CodeUnit, t: Text)
    requires c < 128
    ensures Decode(EncodeUnit(c) + t) == [c] + Decode(t)
    ensures Inert(EncodeUnit(c)) && 1 <= |EncodeUnit(c)| <= 3
    ensures IsAlphanumeric(c) ==> |EncodeUnit(c)| == 1
  {
    hide HexValue, UpperHex, Decode;
    if |EncodeUnit(c)| == 3 {
      HexInverse(c / 16);
      HexInverse(c % 16);
      assert c / 16 * 16 + c % 16 == c;
      DecodeEscape(UpperHex(c / 16), UpperHex(c % 16), t);
    } else {
      DecodeUnit(EncodeUnit(c)[0], t);
    }
  }

  lemma HexInverse(d: int)
    requires 0 <= d < 16
    ensures HexValue(UpperHex(d)) == Some(d)
    ensures 48 <= UpperHex(d) < 58 || 65 <= UpperHex(d) < 71
  {
  }

  lemma {:induction false} EncodeRoundTrip(s: Text)
    requires IsAscii(s)
    ensures Decode(Encode(s)) == s && Inert(Encode(s)) && |s| <= |Encode(s)| <= 3 * |s|
  {
    hide Decode, EncodeUnit;
    if s == [] {
      DecodeEmpty();
    } else {
      EncodeRoundTrip(s[1..]);
      UnitRoundTrip(s[0], Encode(s[1..]));
      assert s == [s[0]] + s[1..];
    }
  }

  lemma DecodeEmpty()
    ensures Decode([]) == []
  {
  }

  lemma {:induction false} IndexOf(a: Text, c: CodeUnit, b: Text)
    requires c !in a
    ensures Index(a + [c] + b, c) == |a| && After(a + [c] + b, c) == b && (a + [c] + b)[..|a|] == a
    ensures Index(a, c) == |a|
  {
    if a != [] {
      IndexOf(a[1..], c, b);
      assert (a + [c] + b)[1..] == a[1..] + [c] + b;
    }
  }

  lemma PairRoundTrip(p: Pair)
    requires IsAscii(p.key) && IsAscii(p.value)
    ensures ReadPair(PrintPair(p)) == p && PrintPair(p) != []
    ensures AMPERSAND !in PrintPair(p) && HASH !in PrintPair(p) && QUESTION !in PrintPair(p)
  {
    hide Decode, Encode, Index;
    EncodeRoundTrip(p.key);
    EncodeRoundTrip(p.value);
    IndexOf(Encode(p.key), EQUALS, Encode(p.value));
  }

  predicate AsciiPairs(ps: seq<Pair>) {
    forall i :: 0 <= i < |ps| ==> IsAscii(ps[i].key) && IsAscii(ps[i].value)
  }

  lemma {:induction false} PairsRoundTrip(ps: seq<Pair>)
    requires ps != [] && AsciiPairs(ps)
    ensures ReadPairs(PrintPairs(ps)) == ps
    ensures HASH !in PrintPairs(ps) && QUESTION !in PrintPairs(ps)
  {
    hide ReadPair, PrintPair, Index, After;
    PairRoundTrip(ps[0]);
    var piece := PrintPair(ps[0]);
    if |ps| == 1 {
      IndexOf(piece, AMPERSAND, []);
      assert piece[..|piece|] == piece && ps == [ps[0]];
    } else {
      PairsRoundTrip(ps[1..]);
      IndexOf(piece, AMPERSAND, PrintPairs(ps[1..]));
      assert ps == [ps[0]] + ps[1..];
    }
  }

  // Lengths

  predicate Plain(s: Text) { forall i :: 0 <= i < |s| ==> IsAlphanumeric(s[i]) }

  lemma {:induction false} EncodePlain(s: Text)
    requires Plain(s)
    ensures Encode(s) == s
  {
    if s != [] {
      EncodePlain(s[1..]);
      assert s == [s[0]] + s[1..];
    }
  }

  lemma EncodeId(s: Text)
    requires IsId(s)
    ensures |Encode(s)| <= 286 && IsAscii(s)
  {
    EncodeRoundTrip(s[1..]);
    UnitRoundTrip(s[0], []);
  }

  lemma {:induction false} DigitsAreShort(n: nat, k: nat)
    requires k >= 1 && n < Power10(k)
    ensures |Digits(n)| <= k
  {
    if n >= 10 {
      DigitsAreShort(n / 10, k - 1);
    }
  }

  function Power10(k: nat): nat {
    if k == 0 then 1 else 10 * Power10(k - 1)
  }

  lemma NinePlaces()
    ensures Power10(9) == MAX_REVISION + 1
  {
    assert Power10(3) == 1000;
    assert Power10(6) == 1000000;
  }

  lemma RevisionRoundTrip(n: int)
    requires 1 <= n <= MAX_REVISION
    ensures IsRevision(Decimal(n)) && DecimalValue(Decimal(n)) == n && Plain(Decimal(n))
  {
    hide Digits, DecimalValue;
    DigitsValue(n);
    NinePlaces();
    DigitsAreShort(n, 9);
  }

  lemma KeysArePlain()
    ensures Plain(TENANT_ID) && Plain(SESSION_ID) && Plain(OBJECT_ID) && Plain(REVISION)
  {
  }

  lemma PrintPairLength(key: Text, value: Text)
    requires Plain(key)
    ensures |PrintPair(Pair(key, value))| == |key| + 1 + |Encode(value)|
  {
    EncodePlain(key);
  }

  lemma ParamsLength(l: Link)
    requires Checked(l)
    ensures |PrintPairs(Params(l))| <= 907 && AsciiPairs(Params(l))
  {
    hide Encode, Digits, PrintPair, DecimalValue;
    KeysArePlain();
    EncodeId(l.tenantId);
    EncodeId(l.sessionId);
    PrintPairLength(TENANT_ID, l.tenantId);
    PrintPairLength(SESSION_ID, l.sessionId);
    TwoPairs(Params(l));
    if l.objectId.Some? {
      EncodeId(l.objectId.value);
      RevisionRoundTrip(l.revision.value);
      EncodePlain(Decimal(l.revision.value));
      PrintPairLength(OBJECT_ID, l.objectId.value);
      PrintPairLength(REVISION, Decimal(l.revision.value));
      TwoPairs(Params(l)[1..]);
      TwoPairs(Params(l)[2..]);
    }
  }

  lemma TwoPairs(ps: seq<Pair>)
    requires |ps| >= 2
    ensures |PrintPairs(ps)| == |PrintPair(ps[0])| + 1 + |PrintPairs(ps[1..])|
    ensures |ps| == 2 ==> PrintPairs(ps[1..]) == PrintPair(ps[1])
  {
  }

  /** Every link that can be built stays below the limit that the parser sets. */
  lemma BuiltLinksAreShort(l: Link)
    requires Checked(l)
    ensures Build(l).Some? && |Build(l).value| <= 984 < MAX_LENGTH
  {
    hide PrintPairs, Params;
    ParamsLength(l);
  }

  // Round trips of links

  lemma ParamsGiveLink(l: Link, context: Context)
    requires Checked(l) && l.tenantId == context.tenantId && l.sessionId == context.sessionId
    ensures LinkOf(l.path, Params(l), context) == Some(l)
  {
    hide IsId, IsPath, IsRevision, Digits, DecimalValue;
    if l.revision.Some? {
      RevisionRoundTrip(l.revision.value);
    }
    KeysDiffer();
    assert Get(Params(l), TENANT_ID) == Some(l.tenantId);
    assert Get(Params(l), SESSION_ID) == Some(l.sessionId) by {
      assert Params(l)[1..][0] == Pair(SESSION_ID, l.sessionId);
    }
    ObjectParams(l);
  }

  lemma KeysDiffer()
    ensures TENANT_ID != SESSION_ID && TENANT_ID != OBJECT_ID && TENANT_ID != REVISION
    ensures SESSION_ID != OBJECT_ID && SESSION_ID != REVISION && OBJECT_ID != REVISION
  {
    assert TENANT_ID[0] == 116 && SESSION_ID[0] == 115 && OBJECT_ID[0] == 111 && REVISION[0] == 114;
  }

  lemma ObjectParams(l: Link)
    requires Checked(l)
    ensures Get(Params(l), OBJECT_ID) == l.objectId
    ensures Get(Params(l), REVISION) == if l.revision.Some? then Some(Decimal(l.revision.value)) else None
  {
    hide IsId, IsPath, Decimal;
    KeysDiffer();
    var ps := Params(l);
    assert Get(ps, OBJECT_ID) == Get(ps[1..], OBJECT_ID) == Get(ps[1..][1..], OBJECT_ID);
    assert Get(ps, REVISION) == Get(ps[1..], REVISION) == Get(ps[1..][1..], REVISION);
    assert ps[1..][1..] == ps[2..];
    if l.objectId.Some? {
      assert ps[2..][0] == Pair(OBJECT_ID, l.objectId.value) && ps[2..][1..][0] == ps[3];
      assert Get(ps[2..], REVISION) == Get(ps[2..][1..], REVISION) == Some(ps[3].value);
    }
  }

  /** A checked link for this context and a registered path is read back as it was. */
  lemma BuildThenParse(l: Link, context: Context, registered: seq<Text>)
    requires Checked(l) && l.tenantId == context.tenantId && l.sessionId == context.sessionId
    requires l.path in registered
    ensures Build(l).Some? && Parse(Build(l).value, context, registered) == Some(l)
  {
    hide PrintPairs, ReadPairs, Params, LinkOf, IsId, Index, After, IsRevision;
    var query := PrintPairs(Params(l));
    var hash := Build(l).value;
    BuiltLinksAreShort(l);
    ParamsLength(l);
    ParamsPresent(l);
    PairsRoundTrip(Params(l));
    ParamsGiveLink(l, context);
    PathIsInert(l.path);
    assert hash[1..] == l.path + [QUESTION] + query;
    IndexOf(l.path, QUESTION, query);
    IndexOf(query, QUESTION, []);
    assert query[..|query|] == query;
  }

  lemma ParamsPresent(l: Link)
    ensures Params(l) != []
  {
  }

  lemma PathIsInert(path: Text)
    requires IsPath(path)
    ensures QUESTION !in path
  {
    forall i | 0 <= i < |path| ensures path[i] != QUESTION {
      if i < 11 {
        assert path[i] == WORKSPACE[i];
      }
    }
  }

  /** Whatever text a link was read from, building it again gives a text that reads the
      same: the printed form is canonical. */
  lemma ParseThenBuild(hash: Text, context: Context, registered: seq<Text>)
    requires Parse(hash, context, registered).Some?
    ensures var l := Parse(hash, context, registered).value;
            Build(l).Some? && Parse(Build(l).value, context, registered) == Some(l)
  {
    hide ReadPairs, Index, After, IsPath, IsId;
    BuildThenParse(Parse(hash, context, registered).value, context, registered);
  }

  // What the parser accepts

  /** `hash` is `#`, the path and, possibly, one query. */
  predicate HashIs(hash: Text, path: Text, query: Text) {
    && HASH !in query
    && (hash == [HASH] + path + [QUESTION] + query || (query == [] && hash == [HASH] + path))
  }

  /** The decoded pairs of a query, up to a second `?`. */
  function QueryPairs(query: Text): seq<Pair> {
    ReadPairs(query[..Index(query, QUESTION)])
  }

  predicate Has(ps: seq<Pair>, key: Text) {
    exists p :: p in ps && p.key == key
  }

  /** No unknown and no repeated key; tenant and session, where given, and the object are
      those of the link, and the revision is well formed and says the link's. */
  predicate Carries(ps: seq<Pair>, l: Link) {
    && (forall p :: p in ps ==> p.key == TENANT_ID || p.key == SESSION_ID || p.key == OBJECT_ID || p.key == REVISION)
    && (forall i, j :: 0 <= i < j < |ps| ==> ps[i].key != ps[j].key)
    && (forall p :: p in ps && p.key == TENANT_ID ==> p.value == l.tenantId)
    && (forall p :: p in ps && p.key == SESSION_ID ==> p.value == l.sessionId)
    && (forall p :: p in ps && p.key == OBJECT_ID ==> l.objectId == Some(p.value))
    && (l.objectId.Some? ==> Has(ps, OBJECT_ID))
    && (forall p :: p in ps && p.key == REVISION ==>
          IsRevision(p.value) && l.revision == Some(DecimalValue(p.value)))
    && (l.revision.Some? ==> Has(ps, REVISION))
  }

  lemma {:induction false} GetIff(ps: seq<Pair>, key: Text)
    requires forall i, j :: 0 <= i < j < |ps| ==> ps[i].key != ps[j].key
    ensures Get(ps, key).Some? <==> Has(ps, key)
    ensures forall p :: p in ps && p.key == key ==> Get(ps, key) == Some(p.value)
  {
    if ps != [] {
      var rest := ps[1..];
      assert ps == [ps[0]] + rest;
      assert forall i :: 0 <= i < |rest| ==> rest[i] == ps[i + 1];
      GetIff(rest, key);
      if ps[0].key == key {
        assert ps[0] in ps;
      } else if Has(rest, key) {
        var p :| p in rest && p.key == key;
        assert p in ps;
      }
    }
  }

  lemma AllowedIff(ps: seq<Pair>)
    ensures KeysAllowed(ps) <==>
            && (forall p :: p in ps ==>
                  p.key == TENANT_ID || p.key == SESSION_ID || p.key == OBJECT_ID || p.key == REVISION)
            && (forall i, j :: 0 <= i < j < |ps| ==> ps[i].key != ps[j].key)
  {
    assert forall i :: 0 <= i < |ps| ==> ps[i] in ps;
  }

  lemma GetAll(ps: seq<Pair>)
    requires forall i, j :: 0 <= i < j < |ps| ==> ps[i].key != ps[j].key
    ensures forall p :: p in ps ==> Get(ps, p.key) == Some(p.value)
    ensures forall key :: Get(ps, key).Some? <==> Has(ps, key)
    ensures forall key :: Get(ps, key).Some? ==> Pair(key, Get(ps, key).value) in ps
  {
    hide Get;
    forall p | p in ps ensures Get(ps, p.key) == Some(p.value) {
      GetIff(ps, p.key);
    }
    forall key ensures Get(ps, key).Some? <==> Has(ps, key) {
      GetIff(ps, key);
    }
    forall key | Get(ps, key).Some? ensures Pair(key, Get(ps, key).value) in ps {
      GetIff(ps, key);
      var p :| p in ps && p.key == key;
      assert p == Pair(key, Get(ps, key).value);
    }
  }

  /** What a query has to say for a link to come out. */
  lemma LinkOfIff(path: Text, ps: seq<Pair>, context: Context, l: Link)
    ensures LinkOf(path, ps, context) == Some(l) <==>
            && l.path == path && Checked(l) && Carries(ps, l)
            && l.tenantId == context.tenantId && l.sessionId == context.sessionId
  {
    hide Get, Checked, IsRevision, KeysAllowed, Has;
    AllowedIff(ps);
    if KeysAllowed(ps) {
      GetAll(ps);
      assert Get(ps, TENANT_ID).Some? ==> Pair(TENANT_ID, Get(ps, TENANT_ID).value) in ps;
      assert Get(ps, SESSION_ID).Some? ==> Pair(SESSION_ID, Get(ps, SESSION_ID).value) in ps;
      assert Get(ps, OBJECT_ID).Some? ==> Pair(OBJECT_ID, Get(ps, OBJECT_ID).value) in ps;
      assert Get(ps, REVISION).Some? ==> Pair(REVISION, Get(ps, REVISION).value) in ps;
      RevisionValue(ps);
    }
  }

  lemma RevisionValue(ps: seq<Pair>)
    ensures Get(ps, REVISION).Some? && IsRevision(Get(ps, REVISION).value) ==> AllDigits(Get(ps, REVISION).value)
    ensures forall p :: p in ps && IsRevision(p.value) ==> AllDigits(p.value)
  {
    hide Get;
  }

  lemma {:induction false} IndexMeans(s: Text, c: CodeUnit)
    ensures c !in s[..Index(s, c)] && (Index(s, c) < |s| ==> s[Index(s, c)] == c)
  {
    if s != [] && s[0] != c {
      IndexMeans(s[1..], c);
      var n := Index(s[1..], c);
      assert s[..n + 1] == [s[0]] + s[1..][..n];
    }
  }

  lemma SplitAtIndex(s: Text, c: CodeUnit)
    ensures Index(s, c) < |s| ==> s == s[..Index(s, c)] + [c] + After(s, c)
    ensures Index(s, c) == |s| ==> s[..Index(s, c)] == s && After(s, c) == []
  {
    hide Index;
    IndexMeans(s, c);
  }

  lemma SplitHash(hash: Text, path: Text, query: Text)
    requires QUESTION !in path && HASH !in query
    ensures HashIs(hash, path, query) <==>
            && hash != [] && hash[0] == HASH && path == hash[1..][..Index(hash[1..], QUESTION)]
            && query == After(hash[1..], QUESTION)
  {
    hide Index, After;
    if hash != [] {
      var rest := hash[1..];
      IndexMeans(rest, QUESTION);
      SplitAtIndex(rest, QUESTION);
      assert hash == [hash[0]] + rest;
    }
    IndexOf(path, QUESTION, query);
    if hash == [HASH] + path + [QUESTION] + query {
      assert hash[1..] == path + [QUESTION] + query;
    }
    if hash == [HASH] + path {
      assert hash[1..] == path;
      IndexMeans(path, QUESTION);
      SplitAtIndex(path, QUESTION);
    }
  }

  /** Exactly which texts are read, and as what. In particular no link of another tenant or
      session, or of an unregistered path, is ever accepted. */
  lemma ParseIff(hash: Text, context: Context, registered: seq<Text>, l: Link)
    ensures Parse(hash, context, registered) == Some(l) <==>
            && |hash| <= MAX_LENGTH && l.path in registered && Checked(l)
            && l.tenantId == context.tenantId && l.sessionId == context.sessionId
            && exists query :: HashIs(hash, l.path, query) && Carries(QueryPairs(query), l)
  {
    hide LinkOf, Checked, Carries, HashIs, Index, After, ReadPairs, IsPath;
    CheckedPath(l);
    if Checked(l) {
      PathIsInert(l.path);
      forall query | HashIs(hash, l.path, query) && Carries(QueryPairs(query), l)
        && l.tenantId == context.tenantId && l.sessionId == context.sessionId
        ensures LinkOf(l.path, QueryPairs(query), context) == Some(l) && HASH !in query
      {
        HashHasQuery(hash, l.path, query);
        SplitHash(hash, l.path, query);
        LinkOfIff(l.path, QueryPairs(query), context, l);
      }
    }
    if Parse(hash, context, registered) == Some(l) {
      var path, query := hash[1..][..Index(hash[1..], QUESTION)], After(hash[1..], QUESTION);
      LinkOfIff(path, QueryPairs(query), context, l);
      PathIsInert(path);
      SplitHash(hash, path, query);
      assert HashIs(hash, l.path, query) && Carries(QueryPairs(query), l);
    } else if query :| HashIs(hash, l.path, query) && Carries(QueryPairs(query), l) {
      if Checked(l) {
        HashHasQuery(hash, l.path, query);
        SplitHash(hash, l.path, query);
      }
    }
  }

  lemma CheckedPath(l: Link)
    ensures Checked(l) ==> IsPath(l.path)
  {
  }

  lemma HashHasQuery(hash: Text, path: Text, query: Text)
    requires HashIs(hash, path, query)
    ensures HASH !in query
  {
  }

  // What the texts look like

  lemma EncodeStep(s: Text)
    requires s != []
    ensures Encode(s) == EncodeUnit(s[0]) + Encode(s[1..])
  {
    hide EncodeUnit;
  }

  lemma Regroup(a: Text, b: Text, c: Text)
    ensures (a + b) + c == a + (b + c)
  {
  }

  lemma {:induction false} EncodeConcat(s: Text, t: Text)
    ensures Encode(s + t) == Encode(s) + Encode(t)
  {
    if s == [] {
      assert s + t == t;
    } else {
      hide Encode, EncodeUnit;
      EncodeConcat(s[1..], t);
      EncodeStep(s);
      EncodeStep(s + t);
      assert (s + t)[1..] == s[1..] + t;
      Regroup(EncodeUnit(s[0]), Encode(s[1..]), Encode(t));
    }
  }

  /** Of what may occur in a link, only `:` is escaped. */
  lemma EncodeOne(c: CodeUnit)
    ensures IsIdUnit(c) && c != 58 ==> Encode([c]) == [c]
    ensures Encode([58]) == Ascii("%3A")
  {
    hide Ascii;
    assert [c][1..] == [] && [58][1..] == [] && Encode([]) == [];
    AsciiAt("%3A", 0);
    AsciiAt("%3A", 1);
    AsciiAt("%3A", 2);
    assert Encode([58]) == [37, 51, 65];
  }

  lemma Names()
    ensures WORKSPACE == Ascii("/workspace/") && TENANT_ID == Ascii("tenantId") && SESSION_ID == Ascii("sessionId")
    ensures OBJECT_ID == Ascii("objectId") && REVISION == Ascii("revision")
    ensures [HASH] == Ascii("#") && [QUESTION] == Ascii("?") && [AMPERSAND] == Ascii("&") && [EQUALS] == Ascii("=")
  {
    hide Ascii;
    AsciiAt("#", 0);
    AsciiAt("?", 0);
    AsciiAt("&", 0);
    AsciiAt("=", 0);
    forall i | 0 <= i < 11 ensures WORKSPACE[i] == Ascii("/workspace/")[i] {
      AsciiAt("/workspace/", i);
    }
    forall i | 0 <= i < 8 ensures TENANT_ID[i] == Ascii("tenantId")[i] {
      AsciiAt("tenantId", i);
    }
    forall i | 0 <= i < 9 ensures SESSION_ID[i] == Ascii("sessionId")[i] {
      AsciiAt("sessionId", i);
    }
    forall i | 0 <= i < 8 ensures OBJECT_ID[i] == Ascii("objectId")[i] {
      AsciiAt("objectId", i);
    }
    forall i | 0 <= i < 8 ensures REVISION[i] == Ascii("revision")[i] {
      AsciiAt("revision", i);
    }
  }

  function Assigned(name: string, value: Text): Text {
    Ascii(name) + [EQUALS] + Encode(value)
  }

  /** The text of a link: its parameters by name, in this order. */
  lemma BuildForm(l: Link)
    requires Checked(l)
    ensures var query := Assigned("tenantId", l.tenantId) + [AMPERSAND] + Assigned("sessionId", l.sessionId);
      Build(l) == Some([HASH] + l.path + [QUESTION] +
        if l.objectId.None? then query
        else query + ([AMPERSAND] + Assigned("objectId", l.objectId.value)
                      + [AMPERSAND] + Assigned("revision", Decimal(l.revision.value))))
  {
    hide Ascii, Encode, IsId, IsPath, Decimal;
    Names();
    KeysArePlain();
    EncodePlain(TENANT_ID);
    EncodePlain(SESSION_ID);
    EncodePlain(OBJECT_ID);
    EncodePlain(REVISION);
    var ps := Params(l);
    TwoPairs(ps);
    if l.objectId.Some? {
      TwoPairs(ps[1..]);
      TwoPairs(ps[2..]);
      assert ps[1..][1..] == ps[2..];
      PrintsFour(ps);
    }
  }

  lemma PrintsFour(ps: seq<Pair>)
    requires |ps| == 4
    ensures PrintPairs(ps) ==
            PrintPair(ps[0]) + [AMPERSAND] + PrintPair(ps[1])
            + ([AMPERSAND] + PrintPair(ps[2]) + [AMPERSAND] + PrintPair(ps[3]))
  {
    hide PrintPair;
    assert ps[1..][1..] == ps[2..] && ps[2..][1..] == ps[3..];
    assert PrintPairs(ps[3..]) == PrintPair(ps[3]);
    assert PrintPairs(ps[2..]) == PrintPair(ps[2]) + [AMPERSAND] + PrintPair(ps[3]);
    assert PrintPairs(ps[1..]) == PrintPair(ps[1]) + [AMPERSAND] + PrintPairs(ps[2..]);
  }

  /** How any query is read: piece by piece, empty pieces dropped, a missing `=` read as an
      empty value. */
  lemma QueryForm(piece: Text, rest: Text, key: Text, value: Text)
    requires AMPERSAND !in piece && EQUALS !in key
    ensures ReadPairs(piece + [AMPERSAND] + rest) == (if piece == [] then [] else [ReadPair(piece)]) + ReadPairs(rest)
    ensures ReadPairs(piece) == if piece == [] then [] else [ReadPair(piece)]
    ensures ReadPair(key + [EQUALS] + value) == Pair(Decode(key), Decode(value))
    ensures ReadPair(key) == Pair(Decode(key), [])
  {
    hide Index, After, Decode;
    IndexOf(piece, AMPERSAND, rest);
    IndexOf(key, EQUALS, value);
    SplitAtIndex(piece, AMPERSAND);
    SplitAtIndex(key, EQUALS);
    DecodeEmpty();
    assert piece[..|piece|] == piece && key[..|key|] == key;
  }
}
