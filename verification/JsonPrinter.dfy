/**
 A printer for JSON values, the parser's inverse on the values it returns, and
 the byte-level decoder (packages/shared/src/learning-contract-json.ts:241-273).
 */
module JsonPrinter {
  import opened Basics
  import opened JsonGrammar
  import opened JsonParser
  import opened JsonLexis
  import opened JsonTheorems
  import opened JsonDecoder
  import Utf8

  // ---------------------------------------------------------------- printing

  function HexDigit(n: nat): Unit
    requires n < 16
  {
    if n < 10 then 0x30 + n else 0x57 + n
  }

  /** Quotation marks, backslashes and control characters are escaped, everything else stands for itself. */
  function PrintedChar(u: Unit): Char {
    if u == QUOTE || u == BACKSLASH then Short(u)
    else if u < 0x20 then Hex(ZERO, ZERO, HexDigit(u / 16), HexDigit(u % 16))
    else Plain(u)
  }

  function PrintChars(t: Text): Text {
    if t == [] then [] else CharText(PrintedChar(t[0])) + PrintChars(t[1..])
  }

  function PrintString(t: Text): Text { [QUOTE] + (PrintChars(t) + [QUOTE]) }

  function Print(v: Value): Text
    decreases v, 1
  {
    match v
    case Null => NULL_TEXT
    case Boolean(b) => if b then TRUE_TEXT else FALSE_TEXT
    case Number(lexeme) => lexeme
    case String(text) => PrintString(text)
    case Array(items) => [LBRACKET] + (PrintItems(items) + [RBRACKET])
    case Object(members) => [LBRACE] + (PrintMembers(members) + [RBRACE])
  }

  function PrintItems(items: seq<Value>): Text
    decreases items, 0
  {
    if items == [] then []
    else if |items| == 1 then Print(items[0])
    else Print(items[0]) + ([COMMA] + PrintItems(items[1..]))
  }

  function PrintMembers(members: seq<(Text, Value)>): Text
    decreases members, 0
  {
    if members == [] then []
    else if |members| == 1 then PrintMember(members[0])
    else PrintMember(members[0]) + ([COMMA] + PrintMembers(members[1..]))
  }

  function PrintMember(member: (Text, Value)): Text
    decreases member, 2
  {
    PrintString(member.0) + ([COLON] + Print(member.1))
  }

  /** A value that a JSON text can denote: clean, with numbers that are JSON numbers. */
  ghost predicate Printable(v: Value)
    decreases v, 1
  {
    match v
    case Number(lexeme) => exists n :: ValidNum(n) && NumText(n) == lexeme
    case String(text) => WellFormed(text)
    case Array(items) => PrintableItems(items)
    case Object(members) => PrintableMembers(members, {})
    case _ => true
  }

  ghost predicate PrintableItems(items: seq<Value>)
    decreases items, 0
  {
    items == [] || (Printable(items[0]) && PrintableItems(items[1..]))
  }

  ghost predicate PrintableMembers(members: seq<(Text, Value)>, seen: set<Text>)
    decreases members, 0
  {
    members == [] ||
    (PrintableMember(members[0]) && members[0].0 !in seen && PrintableMembers(members[1..], seen + {members[0].0}))
  }

  ghost predicate PrintableMember(member: (Text, Value))
    decreases member, 2
  {
    WellFormed(member.0) && Printable(member.1)
  }

  // ---------------------------------------------------------------- printed strings

  lemma PrintedCharIs(u: Unit)
    ensures ValidChar(PrintedChar(u)) && CharValue(PrintedChar(u)) == u
  {
  }

  ghost function PrintedString(t: Text): (cs: seq<Char>)
    ensures |cs| == |t|
  {
    if t == [] then [] else [PrintedChar(t[0])] + PrintedString(t[1..])
  }

  lemma {:induction false} PrintedStringIs(t: Text)
    ensures ValidChars(PrintedString(t)) && CharsValue(PrintedString(t)) == t && CharsText(PrintedString(t)) == PrintChars(t)
  {
    if t != [] {
      PrintedStringIs(t[1..]);
      PrintedCharIs(t[0]);
      CharsCons(PrintedChar(t[0]), PrintedString(t[1..]));
      assert [t[0]] + t[1..] == t;
    }
  }

  lemma {:induction false} PlainIsWellFormed(t: Text)
    requires forall i | 0 <= i < |t| :: !IsHigh(t[i]) && !IsLow(t[i])
    ensures WellFormed(t)
  {
    if t != [] { PlainIsWellFormed(t[1..]); }
  }

  lemma {:induction false} PrintedIsWellFormed(t: Text)
    requires WellFormed(t)
    ensures WellFormed(PrintChars(t))
    decreases |t|
  {
    if t != [] {
      if IsHigh(t[0]) {
        PrintedPair(t);
        PrintedIsWellFormed(t[2..]);
        PairIsWellFormed(t[0], t[1]);
        hide WellFormed, PrintChars;
        WellFormedConcat([t[0], t[1]], PrintChars(t[2..]));
      } else {
        PrintedIsWellFormed(t[1..]);
        var c := PrintedChar(t[0]);
        PrintedCharIs(t[0]);
        NoSurrogates(c);
        PlainIsWellFormed(CharText(c));
        hide WellFormed;
        WellFormedConcat(CharText(c), PrintChars(t[1..]));
      }
    }
  }

  lemma PairIsWellFormed(high: Unit, low: Unit)
    requires IsHigh(high) && IsLow(low)
    ensures WellFormed([high, low])
  {
    assert [high, low][2..] == [];
  }

  lemma PrintedPair(t: Text)
    requires |t| >= 2 && IsHigh(t[0]) && IsLow(t[1])
    ensures PrintChars(t) == [t[0], t[1]] + PrintChars(t[2..])
  {
    assert t[1..][0] == t[1] && t[1..][1..] == t[2..];
    assert PrintChars(t[1..]) == [t[1]] + PrintChars(t[2..]);
  }

  lemma StringIsWellFormed(t: Text)
    requires WellFormed(t)
    ensures WellFormed(PrintString(t))
  {
    PrintedIsWellFormed(t);
    PlainIsWellFormed([QUOTE]);
    hide PrintChars, WellFormed;
    WellFormedConcat(PrintChars(t), [QUOTE]);
    WellFormedConcat([QUOTE], PrintChars(t) + [QUOTE]);
  }

  lemma NumberIsWellFormed(n: Num)
    requires ValidNum(n)
    ensures WellFormed(NumText(n))
  {
    PlainIsWellFormed(n.whole);
    PlainIsWellFormed(FracText(n.frac));
    PlainIsWellFormed(ExpText(n.exp));
    PlainIsWellFormed(if n.minus then [MINUS] else []);
    hide WellFormed, FracText, ExpText;
    WellFormedConcat(FracText(n.frac), ExpText(n.exp));
    WellFormedConcat(n.whole, FracText(n.frac) + ExpText(n.exp));
    WellFormedConcat(if n.minus then [MINUS] else [], n.whole + (FracText(n.frac) + ExpText(n.exp)));
  }

  lemma Bracketed(open: Unit, t: Text, close: Unit)
    requires WellFormed(t) && !IsHigh(open) && !IsLow(open) && !IsHigh(close) && !IsLow(close)
    ensures WellFormed([open] + (t + [close]))
  {
    PlainIsWellFormed([open]);
    PlainIsWellFormed([close]);
    hide WellFormed;
    WellFormedConcat(t, [close]);
    WellFormedConcat([open], t + [close]);
  }

  lemma Separated(a: Text, u: Unit, b: Text)
    requires WellFormed(a) && WellFormed(b) && !IsHigh(u) && !IsLow(u)
    ensures WellFormed(a + ([u] + b))
  {
    PlainIsWellFormed([u]);
    hide WellFormed;
    WellFormedConcat([u], b);
    WellFormedConcat(a, [u] + b);
  }

  // ---------------------------------------------------------------- printed values

  /** The tree of a printed value, without any white space. */
  lemma {:induction false} PrintedTree(v: Value) returns (tree: Tree)
    requires Printable(v)
    ensures ValidTree(tree) && ValueOf(tree) == v && TreeText(tree) == Print(v) && WellFormed(Print(v))
    decreases v, 1
  {
    match v
    case Null =>
      tree := NullTree;
      PlainIsWellFormed(NULL_TEXT);
    case Boolean(b) =>
      tree := if b then TrueTree else FalseTree;
      PlainIsWellFormed(TRUE_TEXT);
      PlainIsWellFormed(FALSE_TEXT);
    case Number(lexeme) =>
      var n :| ValidNum(n) && NumText(n) == lexeme;
      NumberIsWellFormed(n);
      tree := NumberTree(n);
    case String(text) =>
      tree := StringTree(PrintedString(text));
      PrintedStringIs(text);
      StringIsWellFormed(text);
    case Array(items) => tree := PrintedArray(items);
    case Object(members) => tree := PrintedObject(members);
  }

  lemma {:induction false} PrintedArray(items: seq<Value>) returns (tree: Tree)
    requires PrintableItems(items)
    ensures ValidTree(tree) && ValueOf(tree) == Array(items) && TreeText(tree) == Print(Array(items)) && WellFormed(Print(Array(items)))
    decreases items, 1
  {
    if items == [] {
      tree := EmptyArray([]);
      PlainIsWellFormed([]);
      Bracketed(LBRACKET, [], RBRACKET);
    } else {
      var es := PrintedElements(items);
      hide WellFormed, ElementsText, PrintItems, ItemsOf, ValidElements;
      tree := ArrayTree([], es);
      assert [] + (ElementsText(es) + [RBRACKET]) == ElementsText(es) + [RBRACKET];
      Bracketed(LBRACKET, PrintItems(items), RBRACKET);
    }
  }

  lemma {:induction false} PrintedElements(items: seq<Value>) returns (es: Elements)
    requires items != [] && PrintableItems(items)
    ensures ValidElements(es) && ItemsOf(es) == items && ElementsText(es) == PrintItems(items) && WellFormed(PrintItems(items))
    decreases items, 0
  {
    var value := PrintedTree(items[0]);
    hide ValidTree, ValueOf, TreeText, Print, WellFormed, Printable;
    assert items == [items[0]] + items[1..];
    if |items| == 1 {
      es := LastElement(value, []);
      assert TreeText(value) + [] == TreeText(value);
    } else {
      var rest := PrintedElements(items[1..]);
      es := Element(value, [], [], rest);
      var tail := ElementsText(rest);
      assert [] + tail == tail && [] + ([COMMA] + tail) == [COMMA] + tail;
      Separated(Print(items[0]), COMMA, PrintItems(items[1..]));
    }
  }

  lemma {:induction false} PrintedObject(members: seq<(Text, Value)>) returns (tree: Tree)
    requires PrintableMembers(members, {})
    ensures ValidTree(tree) && ValueOf(tree) == Object(members) && TreeText(tree) == Print(Object(members))
    ensures WellFormed(Print(Object(members)))
    decreases members, 1
  {
    if members == [] {
      tree := EmptyObject([]);
      PlainIsWellFormed([]);
      Bracketed(LBRACE, [], RBRACE);
    } else {
      hide WellFormed, MembersText, PrintMembers, PairsOf, ValidMembers, PrintableMembers;
      var ms := PrintedMembers(members, {});
      tree := ObjectTree([], ms);
      assert AllSpace([]);
      assert [] + (MembersText(ms) + [RBRACE]) == MembersText(ms) + [RBRACE];
      Bracketed(LBRACE, PrintMembers(members), RBRACE);
    }
  }

  lemma {:induction false} PrintedMembers(members: seq<(Text, Value)>, seen: set<Text>) returns (ms: Members)
    requires members != [] && PrintableMembers(members, seen)
    ensures ValidMembers(ms, seen) && PairsOf(ms, seen) == members && MembersText(ms) == PrintMembers(members)
    ensures WellFormed(PrintMembers(members))
    decreases members, 0
  {
    var name := members[0].0;
    var key, value := PrintedMember(members[0]);
    hide ValidTree, ValueOf, TreeText, Print, WellFormed, PrintableMember, CharsValue, MemberText, PrintMember, ValidString;
    assert members == [members[0]] + members[1..];
    if |members| == 1 {
      ms := LastMember(key, [], [], value, []);
      assert PairsOf(ms, seen) == [members[0]];
    } else {
      var rest := PrintedMembers(members[1..], seen + {name});
      ms := Member(key, [], [], value, [], [], rest);
      assert [] + MembersText(rest) == MembersText(rest);
      Separated(PrintMember(members[0]), COMMA, PrintMembers(members[1..]));
      assert PairsOf(ms, seen) == [members[0]] + PairsOf(rest, seen + {name});
    }
  }

  /** The key and the value of a printed member. */
  lemma {:induction false} PrintedMember(member: (Text, Value)) returns (key: seq<Char>, value: Tree)
    requires PrintableMember(member)
    ensures ValidString(key) && CharsValue(key) == member.0 && ValidTree(value) && ValueOf(value) == member.1
    ensures MemberText(key, [], [], TreeText(value), []) == PrintMember(member) && WellFormed(PrintMember(member))
    decreases member, 2
  {
    value := PrintedTree(member.1);
    key := PrintedString(member.0);
    PrintedStringIs(member.0);
    StringIsWellFormed(member.0);
    hide ValidTree, ValueOf, TreeText, Print, WellFormed, Printable, CharsValue, CharsText, PrintChars, PrintedString;
    Separated(PrintString(member.0), COLON, Print(member.1));
    assert TreeText(value) + [] == TreeText(value) && [] + TreeText(value) == TreeText(value);
    assert [] + ([COLON] + TreeText(value)) == [COLON] + TreeText(value);
  }

  /** Parsing a printed value gives the value back. */
  lemma ParseOfPrint(v: Value)
    requires Printable(v)
    ensures Parse(Print(v)) == Ok(v)
  {
    var tree := PrintedTree(v);
    assert [] + (TreeText(tree) + []) == Print(v);
    JsonIsParsed([], tree, [], Print(v));
  }

  // ---------------------------------------------------------------- the values the parser returns can be printed

  lemma {:induction false} TreesArePrintable(tree: Tree)
    requires ValidTree(tree)
    ensures Printable(ValueOf(tree))
    decreases tree
  {
    match tree
    case NumberTree(n) => assert ValidNum(n);
    case ArrayTree(_, elements) => ElementsArePrintable(elements);
    case ObjectTree(_, members) => MembersArePrintable(members, {});
    case _ =>
  }

  lemma {:induction false} ElementsArePrintable(es: Elements)
    requires ValidElements(es)
    ensures PrintableItems(ItemsOf(es))
    decreases es
  {
    TreesArePrintable(es.value);
    hide Printable, ValidTree, ValueOf;
    if es.Element? {
      ElementsArePrintable(es.rest);
      assert ItemsOf(es)[1..] == ItemsOf(es.rest);
    } else {
      assert ItemsOf(es)[1..] == [];
    }
  }

  lemma {:induction false} MembersArePrintable(ms: Members, seen: set<Text>)
    requires ValidMembers(ms, seen)
    ensures PrintableMembers(PairsOf(ms, seen), seen)
    decreases ms
  {
    TreesArePrintable(ms.value);
    hide Printable, ValidTree, ValueOf;
    if ms.Member? {
      MembersArePrintable(ms.rest, seen + {CharsValue(ms.key)});
      assert PairsOf(ms, seen)[1..] == PairsOf(ms.rest, seen + {CharsValue(ms.key)});
    } else {
      assert PairsOf(ms, seen)[1..] == [];
    }
  }

  /** What the parser returns can be printed, and reads back as the same value. */
  lemma ParsePrintParse(t: Text)
    ensures Parse(t).Ok? ==> Printable(Parse(t).value) && Parse(Print(Parse(t).value)) == Parse(t)
  {
    if Parse(t).Ok? {
      var before, tree, after := ParsedIsJson(t);
      TreesArePrintable(tree);
      ParseOfPrint(Parse(t).value);
    }
  }

  // ---------------------------------------------------------------- from bytes

  const MAX_BYTES: nat := 1024

  datatype DecodeFailure = Missing | Oversize | InvalidUtf8 | InvalidJson | RepeatedKey

  /** A string as UTF-16 code units. */
  function Utf16(s: string): Text {
    if s == "" then [] else FromCodePoint(s[0] as int) + Utf16(s[1..])
  }

  lemma {:induction false} Utf16IsWellFormed(s: string)
    ensures WellFormed(Utf16(s))
  {
    if s != "" {
      Utf16IsWellFormed(s[1..]);
      var units := FromCodePoint(s[0] as int);
      assert WellFormed(units) by {
        if |units| == 2 { assert units[2..] == []; } else { assert units[1..] == []; }
      }
      WellFormedConcat(units, Utf16(s[1..]));
    }
  }

  method DecodeLearningContractJson(bytes: seq<Utf8.byte>) returns (r: Result<Value, DecodeFailure>)
    ensures r == Decode(bytes)
  {
    if |bytes| == 0 { return Err(Missing); }
    if |bytes| > MAX_BYTES { return Err(Oversize); }
    var text := Utf8.Decode(bytes);
    if text.None? { return Err(InvalidUtf8); }
    var source := Utf16(text.value);
    if source != [] && source[0] == 0xFEFF { return Err(InvalidJson); }
    var parser := new DuplicateAwareJsonParser(source);
    var parsed := parser.Parse();
    return match parsed
      case Ok(value) => Ok(value)
      case Err(DuplicateKey) => Err(RepeatedKey)
      case Err(Syntax) => Err(InvalidJson);
  }

  function Decode(bytes: seq<Utf8.byte>): Result<Value, DecodeFailure> {
    if |bytes| == 0 then Err(Missing)
    else if |bytes| > MAX_BYTES then Err(Oversize)
    else
      var text := Utf8.Decode(bytes);
      if text.None? then Err(InvalidUtf8)
      else
        var source := Utf16(text.value);
        if source != [] && source[0] == 0xFEFF then Err(InvalidJson)
        else
          match Parse(source)
          case Ok(value) => Ok(value)
          case Err(DuplicateKey) => Err(RepeatedKey)
          case Err(Syntax) => Err(InvalidJson)
  }

  /** A byte order mark never starts a JSON text, so refusing it costs nothing. */
  lemma ByteOrderMarkIsNoJson(t: Text)
    requires t != [] && t[0] == 0xFEFF
    ensures Parse(t) == Err(Syntax)
  {
  }

  /**
   Bytes decode to a value exactly when there are 1 to 1024 of them, they are
   UTF-8, and the text is a JSON text that denotes the value, with every surrogate
   paired and no key repeated.
   */
  lemma DecodesExactlyJson(bytes: seq<Utf8.byte>, v: Value)
    ensures Decode(bytes) == Ok(v) <==>
      && 1 <= |bytes| <= MAX_BYTES && Utf8.Decode(bytes).Some?
      && exists before, tree, after ::
           Denotes(before, tree, after, Utf16(Utf8.Decode(bytes).value)) && ValueOf(tree) == v
  {
    if Utf8.Decode(bytes).Some? {
      var source := Utf16(Utf8.Decode(bytes).value);
      Utf16IsWellFormed(Utf8.Decode(bytes).value);
      ParsesExactlyJson(source, v);
      if source != [] && source[0] == 0xFEFF { ByteOrderMarkIsNoJson(source); }
      DecodesAsParsed(bytes, source, v);
      hide *;
    } else {
      hide Denotes, ValueOf, Utf16, Utf8.Decode;
    }
  }

  lemma DecodesAsParsed(bytes: seq<Utf8.byte>, source: Text, v: Value)
    requires Utf8.Decode(bytes).Some? && source == Utf16(Utf8.Decode(bytes).value)
    requires source != [] && source[0] == 0xFEFF ==> Parse(source).Err?
    ensures Decode(bytes) == Ok(v) <==> 1 <= |bytes| <= MAX_BYTES && Parse(source) == Ok(v)
  {
    hide Parse, Utf16, Utf8.Decode;
  }
}
