/**
 The broker's responses are JSON: whatever a value holds, the duplicate-aware
 parser reads the response back as exactly its members, in their order
 (scripts/r4b-evidence/windows-native-boundary.cs:327-345 and 1094-1110 against RFC 8259).
 */
module JournalJson {
  import opened Basics
  import opened JsonGrammar
  import opened JsonParser
  import opened JsonLexis
  import opened JsonTheorems
  import R = JournalResponse

  // ---------------------------------------------------------------- characters as code units

  /** The UTF-16 code units of a text. */
  function Units(s: string): Text {
    if s == "" then [] else FromCodePoint(s[0] as int) + Units(s[1..])
  }

  lemma {:induction false} UnitsConcat(a: string, b: string)
    ensures Units(a + b) == Units(a) + Units(b)
  {
    if a == "" {
      assert a + b == b;
    } else {
      assert (a + b)[1..] == a[1..] + b;
      UnitsConcat(a[1..], b);
    }
  }

  lemma OneUnit(c: char)
    requires c as int < 0x10000
    ensures Units([c]) == [c as int]
  {
    assert [c][1..] == "" && Units("") == [];
  }

  lemma {:induction false} UnitsAreWellFormed(s: string)
    ensures WellFormed(Units(s))
  {
    if s != "" {
      UnitsAreWellFormed(s[1..]);
      CodePointIsWellFormed(s[0] as int);
      hide WellFormed;
      WellFormedConcat(FromCodePoint(s[0] as int), Units(s[1..]));
    }
  }

  lemma CodePointIsWellFormed(c: nat)
    requires c < 0x110000 && !(0xD800 <= c <= 0xDFFF)
    ensures WellFormed(FromCodePoint(c))
  {
    var t := FromCodePoint(c);
    if c < 0x10000 { assert t[1..] == []; } else { assert t[2..] == []; }
  }

  /** A text is known by its code units. */
  lemma {:induction false} UnitsAreInjective(a: string, b: string)
    requires Units(a) == Units(b)
    ensures a == b
  {
    if a != "" && b != "" {
      var (c, d) := (a[0] as int, b[0] as int);
      HeadIs(a);
      HeadIs(b);
      assert FromCodePoint(c) == FromCodePoint(d) && c == d by { SameHead(c, d, Units(a[1..]), Units(b[1..])); }
      assert Units(a)[|FromCodePoint(c)|..] == Units(a[1..]) && Units(b)[|FromCodePoint(d)|..] == Units(b[1..]);
      UnitsAreInjective(a[1..], b[1..]);
      assert a == [a[0]] + a[1..] && b == [b[0]] + b[1..];
    }
  }

  lemma HeadIs(a: string)
    requires a != ""
    ensures Units(a) == FromCodePoint(a[0] as int) + Units(a[1..])
  {
  }

  lemma SameHead(c: nat, d: nat, s: Text, t: Text)
    requires c < 0x110000 && !(0xD800 <= c <= 0xDFFF) && d < 0x110000 && !(0xD800 <= d <= 0xDFFF)
    requires FromCodePoint(c) + s == FromCodePoint(d) + t
    ensures c == d
  {
    var (a, b) := (FromCodePoint(c) + s, FromCodePoint(d) + t);
    assert a[0] == FromCodePoint(c)[0] && b[0] == FromCodePoint(d)[0];
    if c >= 0x10000 && d >= 0x10000 {
      assert a[1] == FromCodePoint(c)[1] && b[1] == FromCodePoint(d)[1];
      PairDetermines(c - 0x10000, d - 0x10000);
    }
  }

  lemma PairDetermines(m: nat, n: nat)
    requires m / 0x400 == n / 0x400 && m % 0x400 == n % 0x400
    ensures m == n
  {
    assert m == (m / 0x400) * 0x400 + m % 0x400 && n == (n / 0x400) * 0x400 + n % 0x400;
  }

  // ---------------------------------------------------------------- escaped strings

  /** How the grammar reads an escaped character. */
  ghost function CharsFor(c: char): seq<Char> {
    if c == '\\' || c == '"' then [Short(c as int)]
    else if c == '\n' then [Short(0x6E)]
    else if c == '\r' then [Short(0x72)]
    else if c == '\t' then [Short(0x74)]
    else if c as int < 0x20 then [Hex(ZERO, ZERO, R.HexDigitOf(c as int / 16) as int, R.HexDigitOf(c as int % 16) as int)]
    else if c as int < 0x10000 then [Plain(c as int)]
    else [Plain(FromCodePoint(c as int)[0]), Plain(FromCodePoint(c as int)[1])]
  }

  ghost function CharsOf(s: string): seq<Char> {
    if s == "" then [] else CharsFor(s[0]) + CharsOf(s[1..])
  }

  lemma ControlIsHex(c: char)
    requires c as int < 0x20
    ensures var (a, b) := (R.HexDigitOf(c as int / 16) as int, R.HexDigitOf(c as int % 16) as int);
      IsHexUnit(a) && IsHexUnit(b) && FourHex(ZERO, ZERO, a, b) == c as int
  {
  }

  lemma OneChar(x: Char)
    requires ValidChar(x)
    ensures ValidChars([x]) && CharsValue([x]) == [CharValue(x)] && CharsText([x]) == CharText(x)
  {
    CharsCons(x, []);
    assert [x] + [] == [x];
  }

  lemma TwoChars(x: Char, y: Char)
    requires ValidChar(x) && ValidChar(y)
    ensures ValidChars([x, y]) && CharsValue([x, y]) == [CharValue(x), CharValue(y)] && CharsText([x, y]) == CharText(x) + CharText(y)
  {
    OneChar(y);
    CharsCons(x, [y]);
    assert [x] + [y] == [x, y];
  }

  /** The escape of one character, read by the grammar, stands for its code units. */
  lemma EscapedChar(c: char)
    ensures ValidChars(CharsFor(c)) && CharsValue(CharsFor(c)) == FromCodePoint(c as int)
    ensures CharsText(CharsFor(c)) == Units(R.EscapeChar(c))
  {
    var cs := CharsFor(c);
    if c as int < 0x20 { ControlIsHex(c); }
    EscapedText(c);
    if |cs| == 1 {
      assert cs == [cs[0]];
      OneChar(cs[0]);
    } else {
      assert cs == [cs[0], cs[1]];
      TwoChars(cs[0], cs[1]);
    }
  }

  lemma EscapedText(c: char)
    ensures CharText(CharsFor(c)[0]) + (if |CharsFor(c)| == 1 then [] else CharText(CharsFor(c)[1])) == Units(R.EscapeChar(c))
  {
    if c as int >= 0x20 && c != '"' && c != '\\' {
      assert R.EscapeChar(c) == [c] && [c][1..] == "" && Units("") == [];
    } else {
      ShortUnits(R.EscapeChar(c));
      if c as int < 0x20 { ControlIsHex(c); }
    }
  }

  /** Text below 0x10000 has one unit a character. */
  lemma {:induction false} ShortUnits(s: string)
    requires forall i | 0 <= i < |s| :: s[i] as int < 0x10000
    ensures |Units(s)| == |s| && forall i | 0 <= i < |s| :: Units(s)[i] == s[i] as int
  {
    if s != "" { ShortUnits(s[1..]); }
  }

  /** An escaped string is a string of the grammar that stands for what was escaped. */
  lemma {:induction false} EscapedString(s: string)
    ensures ValidString(CharsOf(s)) && CharsValue(CharsOf(s)) == Units(s) && CharsText(CharsOf(s)) == Units(R.Escape(s))
  {
    if s != "" {
      hide WellFormed;
      EscapedString(s[1..]);
      EscapedChar(s[0]);
      CodePointIsWellFormed(s[0] as int);
      CharsConcat(CharsFor(s[0]), CharsOf(s[1..]));
      UnitsConcat(R.EscapeChar(s[0]), R.Escape(s[1..]));
    }
  }

  lemma QuotedText(s: string)
    ensures StringText(CharsOf(s)) == Units(R.Quote(s))
  {
    EscapedString(s);
    assert R.Quote(s) == ['"'] + (R.Escape(s) + ['"']);
    UnitsConcat(['"'], R.Escape(s) + ['"']);
    UnitsConcat(R.Escape(s), ['"']);
    OneUnit('"');
    hide R.Quote, R.Escape, Units;
  }

  // ---------------------------------------------------------------- objects

  /** What a member of a response denotes: its text, or the number 1 of the version. */
  function MemberValue(item: R.Item): Value {
    if item.Quoted? then String(Units(item.value)) else Number(Units(item.text))
  }

  function Pairs(items: seq<R.Item>): seq<(Text, Value)> {
    if items == [] then [] else [(Units(items[0].key), MemberValue(items[0]))] + Pairs(items[1..])
  }

  ghost predicate IsMember(item: R.Item) { item.Raw? ==> item.text == "1" }

  ghost predicate AreMembers(items: seq<R.Item>) {
    && (forall i | 0 <= i < |items| :: IsMember(items[i]))
    && forall i, j | 0 <= i < j < |items| :: items[i].key != items[j].key
  }

  ghost function MemberTree(item: R.Item): Tree {
    if item.Quoted? then StringTree(CharsOf(item.value)) else NumberTree(Num(false, Units(item.text), None, None))
  }

  ghost function MembersOf(items: seq<R.Item>): Members
    requires items != []
  {
    if |items| == 1 then LastMember(CharsOf(items[0].key), [], [], MemberTree(items[0]), [])
    else Member(CharsOf(items[0].key), [], [], MemberTree(items[0]), [], [], MembersOf(items[1..]))
  }

  lemma MemberTreeIs(item: R.Item)
    requires IsMember(item)
    ensures ValidTree(MemberTree(item)) && ValueOf(MemberTree(item)) == MemberValue(item)
    ensures TreeText(MemberTree(item)) == Units(item.ValueText())
  {
    if item.Quoted? {
      EscapedString(item.value);
      QuotedText(item.value);
    } else {
      OneUnit('1');
      assert "1" == ['1'];
      var n := Num(false, Units(item.text), None, None);
      assert n.whole == [0x31] && NumText(n) == n.whole;
    }
  }

  /** One member, as it is written. */
  function Written(item: R.Item): string { R.Quote(item.key) + ":" + item.ValueText() }

  lemma WrittenText(item: R.Item)
    requires IsMember(item)
    ensures MemberText(CharsOf(item.key), [], [], TreeText(MemberTree(item)), []) == Units(Written(item))
  {
    hide R.Quote, Units, TreeText, MemberTree, CharsOf, StringText, R.Escape, IsMember;
    QuotedText(item.key);
    MemberTreeIs(item);
    UnitsConcat(R.Quote(item.key) + ":", item.ValueText());
    UnitsConcat(R.Quote(item.key), ":");
    assert ":" == [':'];
    OneUnit(':');
    NothingBetween(StringText(CharsOf(item.key)), TreeText(MemberTree(item)));
  }

  lemma NothingBetween(key: Text, value: Text)
    ensures key + ([] + ([COLON] + ([] + (value + [])))) == (key + [COLON]) + value
  {
  }

  lemma CommaBetween(head: Text, tail: Text)
    ensures head + ([COMMA] + (tail + [RBRACE])) == (head + ([COMMA] + ([] + tail))) + [RBRACE]
  {
  }

  /** Behind its first comma, the tail is the members and the closing brace. */
  lemma {:induction false} TailText(items: seq<R.Item>)
    requires items != [] && forall i | 0 <= i < |items| :: IsMember(items[i])
    ensures Units(R.Tail(items)[1..]) == MembersText(MembersOf(items)) + [RBRACE]
  {
    hide Units, MembersText, MemberText, Written, R.Tail, MembersOf, IsMember, TreeText, MemberTree, CharsOf;
    var rest := items[1..];
    WrittenText(items[0]);
    TailIs(items);
    UnitsConcat(Written(items[0]), R.Tail(rest));
    if rest == [] {
      EmptyTail();
      LastText(items);
    } else {
      TailText(rest);
      TailIs(rest);
      UnitsConcat([','], R.Tail(rest)[1..]);
      assert R.Tail(rest) == [','] + R.Tail(rest)[1..];
      OneUnit(',');
      MoreText(items);
      CommaBetween(Units(Written(items[0])), MembersText(MembersOf(rest)));
    }
  }

  lemma EmptyTail()
    ensures Units(R.Tail([])) == [RBRACE]
  {
    assert R.Tail([]) == ['}'];
    OneUnit('}');
  }

  lemma LastText(items: seq<R.Item>)
    requires |items| == 1
    ensures MembersText(MembersOf(items)) == MemberText(CharsOf(items[0].key), [], [], TreeText(MemberTree(items[0])), [])
  {
    hide MemberText, TreeText, MemberTree, CharsOf;
  }

  lemma MoreText(items: seq<R.Item>)
    requires |items| > 1
    ensures MembersText(MembersOf(items))
      == MemberText(CharsOf(items[0].key), [], [], TreeText(MemberTree(items[0])), []) + ([COMMA] + ([] + MembersText(MembersOf(items[1..]))))
  {
    hide MemberText, TreeText, MemberTree, CharsOf;
  }

  lemma TailIs(items: seq<R.Item>)
    requires items != []
    ensures R.Tail(items) == [','] + (Written(items[0]) + R.Tail(items[1..])) && R.Tail(items)[1..] == Written(items[0]) + R.Tail(items[1..])
  {
    hide R.Quote;
    var (key, value, rest) := (R.Quote(items[0].key), items[0].ValueText(), R.Tail(items[1..]));
    assert "," + key + ":" + value + rest == [','] + ((key + ":" + value) + rest);
  }

  /** With keys that differ from each other and from those before. */
  ghost predicate AreNew(items: seq<R.Item>, seen: set<Text>) {
    forall i | 0 <= i < |items| :: Units(items[i].key) !in seen
  }

  lemma {:induction false} MembersAreValid(items: seq<R.Item>, seen: set<Text>)
    requires items != [] && AreMembers(items) && AreNew(items, seen)
    ensures ValidMembers(MembersOf(items), seen) && PairsOf(MembersOf(items), seen) == Pairs(items)
  {
    var rest := items[1..];
    EscapedString(items[0].key);
    MemberTreeIs(items[0]);
    hide Units, CharsOf, MemberTree, ValidString, TreeText, CharsValue, CharsText;
    if rest == [] {
      assert Pairs(rest) == [];
    } else {
      var more := seen + {Units(items[0].key)};
      forall i | 0 <= i < |rest| ensures Units(rest[i].key) !in more {
        assert rest[i] == items[i + 1];
        if Units(rest[i].key) == Units(items[0].key) { UnitsAreInjective(rest[i].key, items[0].key); }
      }
      MembersAreValid(rest, more);
    }
  }

  /**
   An object of named values, however hostile, is a JSON text: the parser returns
   exactly its members, in order.
   */
  lemma RenderedIsJson(items: seq<R.Item>)
    requires items != [] && AreMembers(items)
    ensures Parse(Units(R.Render(items))) == Ok(Object(Pairs(items)))
  {
    hide Units, R.Tail, R.Render, MembersOf, MembersText, ValidMembers, PairsOf, Pairs, WellFormed, Parse, AreMembers, IsMember;
    var t, tree := Units(R.Render(items)), ObjectTree([], MembersOf(items));
    MembersAreValid(items, {});
    assert forall i | 0 <= i < |items| :: IsMember(items[i]) by { EachIsMember(items); }
    TailText(items);
    RenderIs(items);
    UnitsConcat(['{'], R.Tail(items)[1..]);
    OneUnit('{');
    UnitsAreWellFormed(R.Render(items));
    assert [] + (TreeText(tree) + []) == t;
    assert Denotes([], tree, [], t) && ValueOf(tree) == Object(Pairs(items));
    ParsesExactlyJson(t, Object(Pairs(items)));
  }

  lemma EachIsMember(items: seq<R.Item>)
    requires AreMembers(items)
    ensures forall i | 0 <= i < |items| :: IsMember(items[i])
  {
  }

  lemma RenderIs(items: seq<R.Item>)
    requires items != []
    ensures |R.Tail(items)| >= 1 && R.Render(items) == ['{'] + R.Tail(items)[1..]
  {
    R.TailStart(items);
  }

  // ---------------------------------------------------------------- responses

  function IdentityPairs(nonce: string, sequence: string, operation: string, request: string, status: string): seq<(string, Value)> {
    [("magic", String(Units("FLUYONS1"))), ("version", Number([0x31])), ("sessionNonce", String(Units(nonce))),
     ("sequence", String(Units(sequence))), ("operation", String(Units(operation))), ("requestSha256", String(Units(request))),
     ("status", String(Units(status)))]
  }

  function ReasonPairs(reason: string): seq<(string, Value)> {
    if reason == "" then [] else [("errorCode", String(Units(reason)))]
  }

  function ValuePairs(values: seq<(string, string)>): seq<(string, Value)> {
    seq(|values|, i requires 0 <= i < |values| => (values[i].0, String(Units(values[i].1))))
  }

  /** The members of a response, in the order in which the broker writes them. */
  function ResponsePairs(nonce: string, sequence: string, operation: string, request: string, status: string, reason: string,
                         values: seq<(string, string)>): seq<(string, Value)> {
    IdentityPairs(nonce, sequence, operation, request, status) + (ReasonPairs(reason) + ValuePairs(values))
  }

  function InUnits(pairs: seq<(string, Value)>): seq<(Text, Value)> {
    seq(|pairs|, i requires 0 <= i < |pairs| => (Units(pairs[i].0), pairs[i].1))
  }

  /** Keys that differ from each other. */
  ghost predicate DifferentKeys(pairs: seq<(string, Value)>) {
    forall i, j | 0 <= i < j < |pairs| :: pairs[i].0 != pairs[j].0
  }

  lemma {:induction false} PairsOfConcat(a: seq<R.Item>, b: seq<R.Item>)
    ensures Pairs(a + b) == Pairs(a) + Pairs(b)
  {
    if a == [] {
      assert a + b == b;
    } else {
      assert (a + b)[1..] == a[1..] + b;
      PairsOfConcat(a[1..], b);
    }
  }

  /** Each item is one pair. */
  lemma {:induction false} PairsAt(items: seq<R.Item>)
    ensures |Pairs(items)| == |items| && forall i | 0 <= i < |items| :: Pairs(items)[i] == (Units(items[i].key), MemberValue(items[i]))
  {
    if items != [] { PairsAt(items[1..]); }
  }

  lemma {:induction false} ValueItemsAt(values: seq<(string, string)>)
    ensures |R.ValueItems(values)| == |values|
    ensures forall i | 0 <= i < |values| :: R.ValueItems(values)[i] == R.Quoted(values[i].0, values[i].1)
  {
    if values != [] { ValueItemsAt(values[1..]); }
  }

  /** An item writes the pair. */
  ghost predicate Writes(item: R.Item, pair: (string, Value)) {
    item.key == pair.0 && MemberValue(item) == pair.1 && IsMember(item)
  }

  /** Items and pairs, side by side. */
  ghost predicate WriteAll(items: seq<R.Item>, pairs: seq<(string, Value)>) {
    |items| == |pairs| && forall i | 0 <= i < |items| :: Writes(items[i], pairs[i])
  }

  lemma WriteBoth(i1: seq<R.Item>, p1: seq<(string, Value)>, i2: seq<R.Item>, p2: seq<(string, Value)>)
    requires WriteAll(i1, p1) && WriteAll(i2, p2)
    ensures WriteAll(i1 + i2, p1 + p2)
  {
    hide Writes;
  }

  lemma IdentityWrites(nonce: string, sequence: string, operation: string, request: string, status: string)
    ensures WriteAll(R.IdentityItems(nonce, sequence, operation, request, status), IdentityPairs(nonce, sequence, operation, request, status))
  {
    hide Units, Writes;
    RawWrites();
    QuotedWrites("magic", "FLUYONS1");
    QuotedWrites("sessionNonce", nonce);
    QuotedWrites("sequence", sequence);
    QuotedWrites("operation", operation);
    QuotedWrites("requestSha256", request);
    QuotedWrites("status", status);
  }

  lemma QuotedWrites(key: string, value: string)
    ensures Writes(R.Quoted(key, value), (key, String(Units(value))))
  {
    hide Units;
  }

  lemma RawWrites()
    ensures Writes(R.Raw("version", "1"), ("version", Number([0x31])))
  {
    hide Units;
    OneUnit('1');
    assert "1" == ['1'];
  }

  lemma ValuesWrite(reason: string, values: seq<(string, string)>)
    ensures WriteAll(R.MoreItems(reason, values), ReasonPairs(reason) + ValuePairs(values))
  {
    hide Units;
    ValueItemsAt(values);
    var first := if reason == "" then [] else [R.Quoted(R.ERROR_KEY, reason)];
    assert WriteAll(first, ReasonPairs(reason));
    assert WriteAll(R.ValueItems(values), ValuePairs(values));
    hide WriteAll, ReasonPairs, ValuePairs, R.ValueItems;
    WriteBoth(first, ReasonPairs(reason), R.ValueItems(values), ValuePairs(values));
  }

  /** The items of a response write its pairs. */
  lemma ResponseWrites(nonce: string, sequence: string, operation: string, request: string, status: string, reason: string,
                       values: seq<(string, string)>)
    ensures WriteAll(R.AllItems(nonce, sequence, operation, request, status, reason, values),
                     ResponsePairs(nonce, sequence, operation, request, status, reason, values))
  {
    hide WriteAll, R.IdentityItems, R.MoreItems, IdentityPairs, ReasonPairs, ValuePairs;
    IdentityWrites(nonce, sequence, operation, request, status);
    ValuesWrite(reason, values);
    WriteBoth(R.IdentityItems(nonce, sequence, operation, request, status), IdentityPairs(nonce, sequence, operation, request, status),
              R.MoreItems(reason, values), ReasonPairs(reason) + ValuePairs(values));
  }

  /**
   A response whose value keys differ from each other and from the fixed ones is read
   back by the parser as its members: what it answers, its status, its reason if it
   failed, and its values, each as it was given.
   */
  lemma ResponseIsJson(nonce: string, sequence: string, operation: string, request: string, status: string, reason: string,
                       values: seq<(string, string)>)
    requires DifferentKeys(ResponsePairs(nonce, sequence, operation, request, status, reason, values))
    ensures Parse(Units(R.Response(nonce, sequence, operation, request, status, reason, values)))
      == Ok(Object(InUnits(ResponsePairs(nonce, sequence, operation, request, status, reason, values))))
  {
    hide Units, R.AllItems, ResponsePairs, R.Render, Parse, MemberValue, IsMember;
    var (items, pairs) := (R.AllItems(nonce, sequence, operation, request, status, reason, values),
                           ResponsePairs(nonce, sequence, operation, request, status, reason, values));
    ResponseWrites(nonce, sequence, operation, request, status, reason, values);
    assert |pairs| > 0 by { SomePairs(nonce, sequence, operation, request, status, reason, values); }
    assert AreMembers(items);
    RenderedIsJson(items);
    PairsAt(items);
    assert Pairs(items) == InUnits(pairs);
  }

  lemma SomePairs(nonce: string, sequence: string, operation: string, request: string, status: string, reason: string,
                  values: seq<(string, string)>)
    ensures |ResponsePairs(nonce, sequence, operation, request, status, reason, values)| > 0
  {
    hide Units;
  }
}
