/**
 The parser returns a value exactly for the RFC 8259 texts without unpaired
 surrogates and without repeated keys, and it is the value the text denotes.
 */
module JsonTheorems {
  import opened Basics
  import opened JsonGrammar
  import opened JsonParser
  import opened JsonLexis
  import opened JsonSurrogates

  // ---------------------------------------------------------------- cutting well-formed text

  /** Well-formed text can be cut behind any unit that is no high surrogate. */
  lemma {:induction false} Cut(a: Text, b: Text)
    requires WellFormed(a + b) && (a == [] || !IsHigh(a[|a| - 1]))
    ensures WellFormed(b)
    decreases |a|
  {
    if a == [] { assert a + b == b; }
    else if !IsHigh(a[0]) {
      assert (a + b)[1..] == a[1..] + b;
      Cut(a[1..], b);
    } else {
      assert (a + b)[2..] == a[2..] + b;
      Cut(a[2..], b);
    }
  }

  predicate EndsLow(t: Text) { t != [] && !IsHigh(t[|t| - 1]) }

  lemma EndsLowConcat(a: Text, b: Text)
    requires EndsLow(b)
    ensures EndsLow(a + b)
  {
  }

  lemma NumberShape(n: Num)
    requires ValidNum(n)
    ensures EndsLow(NumText(n)) && (NumText(n)[0] == MINUS || IsDigit(NumText(n)[0]))
  {
    var tail := FracText(n.frac) + ExpText(n.exp);
    if n.exp.Some? {
      EndsLowConcat([n.exp.value.e] + (if n.exp.value.sign.Some? then [n.exp.value.sign.value] else []), n.exp.value.digits);
      EndsLowConcat(FracText(n.frac), ExpText(n.exp));
      EndsLowConcat(n.whole, tail);
    } else if n.frac.Some? {
      EndsLowConcat([DOT], n.frac.value);
      assert tail == FracText(n.frac);
      EndsLowConcat(n.whole, tail);
    } else {
      assert tail == [] && n.whole + tail == n.whole;
    }
    EndsLowConcat(if n.minus then [MINUS] else [], n.whole + tail);
  }

  /** How the text of a value begins and ends. */
  lemma TreeShape(tree: Tree)
    requires ValidTree(tree)
    ensures var text := TreeText(tree); EndsLow(text) && !IsSpace(text[0]) && text[0] != RBRACKET && text[0] != RBRACE
  {
    match tree
    case NumberTree(n) => NumberShape(n);
    case StringTree(cs) =>
    case EmptyArray(inner) =>
    case ArrayTree(inner, elements) =>
    case EmptyObject(inner) =>
    case ObjectTree(inner, members) =>
    case _ =>
  }

  lemma CutTree(tree: Tree, b: Text)
    requires ValidTree(tree) && WellFormed(TreeText(tree) + b)
    ensures WellFormed(b)
  {
    TreeShape(tree);
    Cut(TreeText(tree), b);
  }

  lemma CutSpace(space: Text, b: Text)
    requires AllSpace(space) && WellFormed(space + b)
    ensures WellFormed(b)
  {
    Cut(space, b);
  }

  lemma CutOne(u: Unit, b: Text)
    requires !IsHigh(u) && WellFormed([u] + b)
    ensures WellFormed(b)
  {
    Cut([u], b);
  }

  // ---------------------------------------------------------------- every denoted value is read

  lemma LiteralReads(literal: Text, value: Value, t: Text)
    ensures ReadLiteral(literal + t, literal, value) == Ok((value, t))
  {
    assert (literal + t)[..|literal|] == literal && (literal + t)[|literal|..] == t;
  }

  lemma NumberLeafReads(n: Num, t: Text)
    requires ValidNum(n) && Ends(t)
    ensures ReadValue(NumText(n) + t) == Ok((Number(NumText(n)), t))
  {
    NumberShape(n);
    NumberReads(n, t);
    var text := NumText(n) + t;
    assert text[..|NumText(n)|] == NumText(n) && text[0] == NumText(n)[0];
    hide NumText, AfterNumber, ValidNum;
  }

  lemma StringLeafReads(cs: seq<Char>, t: Text)
    requires ValidString(cs) && WellFormed(StringText(cs) + t)
    ensures ReadValue(StringText(cs) + t) == Ok((String(CharsValue(cs)), t))
  {
    var text, rest := StringText(cs) + t, CharsText(cs) + ([QUOTE] + t);
    assert text == [QUOTE] + rest && text[1..] == rest;
    CutOne(QUOTE, rest);
    CharsRead(cs, t);
    hide CharsText, ReadChars, WellFormed;
  }

  /** Literals, numbers and strings. */
  lemma LeafReads(tree: Tree, t: Text)
    requires ValidTree(tree) && WellFormed(TreeText(tree) + t) && Ends(t)
    requires tree.NullTree? || tree.TrueTree? || tree.FalseTree? || tree.NumberTree? || tree.StringTree?
    ensures ReadValue(TreeText(tree) + t) == Ok((ValueOf(tree), t))
  {
    match tree
    case NumberTree(n) => NumberLeafReads(n, t);
    case StringTree(cs) => StringLeafReads(cs, t);
    case NullTree =>
      LiteralReads(NULL_TEXT, Null, t);
      assert (NULL_TEXT + t)[0] == NULL_TEXT[0];
      hide ReadLiteral;
    case TrueTree =>
      LiteralReads(TRUE_TEXT, Boolean(true), t);
      assert (TRUE_TEXT + t)[0] == TRUE_TEXT[0];
      hide ReadLiteral;
    case FalseTree =>
      LiteralReads(FALSE_TEXT, Boolean(false), t);
      assert (FALSE_TEXT + t)[0] == FALSE_TEXT[0];
      hide ReadLiteral;
  }

  lemma EndsAfterSpace(space: Text, t: Text)
    requires AllSpace(space) && Ends(t)
    ensures Ends(space + t)
  {
    if space == [] { assert space + t == t; }
  }

  lemma {:induction false} TreeReads(tree: Tree, t: Text)
    requires ValidTree(tree) && WellFormed(TreeText(tree) + t) && Ends(t)
    ensures ReadValue(TreeText(tree) + t) == Ok((ValueOf(tree), t))
    decreases tree, 0
  {
    var text := TreeText(tree) + t;
    match tree
    case EmptyArray(inner) =>
      assert text == [LBRACKET] + (inner + ([RBRACKET] + t));
      assert text[1..] == inner + ([RBRACKET] + t);
      SpaceSkips(inner, [RBRACKET] + t);
      assert ([RBRACKET] + t)[1..] == t;
    case EmptyObject(inner) =>
      assert text == [LBRACE] + (inner + ([RBRACE] + t));
      assert text[1..] == inner + ([RBRACE] + t);
      SpaceSkips(inner, [RBRACE] + t);
      assert ([RBRACE] + t)[1..] == t;
    case ArrayTree(inner, elements) => ArrayReads(inner, elements, t);
    case ObjectTree(inner, members) => ObjectReads(inner, members, t);
    case _ => LeafReads(tree, t);
  }

  lemma {:induction false} ArrayReads(inner: Text, elements: Elements, t: Text)
    requires AllSpace(inner) && ValidElements(elements) && WellFormed(TreeText(ArrayTree(inner, elements)) + t)
    ensures ReadValue(TreeText(ArrayTree(inner, elements)) + t) == Ok((Array(ItemsOf(elements)), t))
    decreases elements, 3
  {
    var text := TreeText(ArrayTree(inner, elements)) + t;
    var rest := ElementsText(elements) + ([RBRACKET] + t);
    assert text == [LBRACKET] + (inner + rest) && text[1..] == inner + rest;
    CutOne(LBRACKET, inner + rest);
    CutSpace(inner, rest);
    ElementsShape(elements);
    assert rest[0] == ElementsText(elements)[0];
    SpaceSkips(inner, rest);
    ElementsRead(elements, t);
    hide ReadItems, ElementsText, ItemsOf;
  }

  lemma ElementsShape(elements: Elements)
    requires ValidElements(elements)
    ensures ElementsText(elements) != [] && !IsSpace(ElementsText(elements)[0]) && ElementsText(elements)[0] != RBRACKET
  {
    TreeShape(elements.value);
  }

  lemma {:induction false} ElementsRead(es: Elements, t: Text)
    requires ValidElements(es) && WellFormed(ElementsText(es) + ([RBRACKET] + t))
    ensures ReadItems(ElementsText(es) + ([RBRACKET] + t)) == Ok((ItemsOf(es), t))
    decreases es, 2
  {
    var end := [RBRACKET] + t;
    assert end[1..] == t;
    match es
    case LastElement(value, after) =>
      var behind := after + end;
      assert ElementsText(es) + end == TreeText(value) + behind;
      EndsAfterSpace(after, end);
      TreeReads(value, behind);
      SpaceSkips(after, end);
    case Element(value, after, before, rest) => ElementRead(value, after, before, rest, t);
  }

  lemma ElementText(value: Tree, after: Text, before: Text, rest: Elements, end: Text)
    ensures ElementsText(Element(value, after, before, rest)) + end
         == TreeText(value) + (after + ([COMMA] + (before + (ElementsText(rest) + end))))
  {
    hide TreeText;
    var tail := ElementsText(rest);
    assert (after + ([COMMA] + (before + tail))) + end == after + ([COMMA] + (before + (tail + end)));
  }

  lemma {:induction false} ElementRead(value: Tree, after: Text, before: Text, rest: Elements, t: Text)
    requires ValidTree(value) && AllSpace(after) && AllSpace(before) && ValidElements(rest)
    requires WellFormed(ElementsText(Element(value, after, before, rest)) + ([RBRACKET] + t))
    ensures ReadItems(ElementsText(Element(value, after, before, rest)) + ([RBRACKET] + t)) == Ok(([ValueOf(value)] + ItemsOf(rest), t))
    decreases Element(value, after, before, rest), 1
  {
    var end := [RBRACKET] + t;
    var more := ElementsText(rest) + end;
    var comma := [COMMA] + (before + more);
    var behind := after + comma;
    ElementText(value, after, before, rest, end);
    ElementsShape(rest);
    assert more[0] == ElementsText(rest)[0] && comma[1..] == before + more;
    hide ReadValue, ElementsText, TreeText, ValidElements, ValidTree, WellFormed, ItemsOf, ValueOf;
    EndsAfterSpace(after, comma);
    TreeReads(value, behind);
    CutTree(value, behind);
    CutSpace(after, comma);
    CutOne(COMMA, before + more);
    CutSpace(before, more);
    SpaceSkips(after, comma);
    SpaceSkips(before, more);
    ElementsRead(rest, t);
  }

  lemma {:induction false} ObjectReads(inner: Text, members: Members, t: Text)
    requires AllSpace(inner) && ValidMembers(members, {}) && WellFormed(TreeText(ObjectTree(inner, members)) + t)
    ensures ReadValue(TreeText(ObjectTree(inner, members)) + t) == Ok((Object(PairsOf(members, {})), t))
    decreases members, 2
  {
    var text := TreeText(ObjectTree(inner, members)) + t;
    var rest := MembersText(members) + ([RBRACE] + t);
    assert text == [LBRACE] + (inner + rest) && text[1..] == inner + rest;
    CutOne(LBRACE, inner + rest);
    CutSpace(inner, rest);
    MembersShape(members);
    assert rest[0] == MembersText(members)[0];
    SpaceSkips(inner, rest);
    MembersRead(members, {}, t);
    hide ReadMembers, MembersText, PairsOf;
  }

  lemma MembersShape(members: Members)
    ensures MembersText(members) != [] && MembersText(members)[0] == QUOTE
  {
  }

  /** One member, up to the white space behind its value. */
  lemma {:induction false} MemberReads(key: seq<Char>, keyAfter: Text, valueBefore: Text, value: Tree, after: Text, seen: set<Text>, t: Text)
    requires ValidString(key) && AllSpace(keyAfter) && AllSpace(valueBefore) && ValidTree(value) && AllSpace(after)
    requires Ends(t) && WellFormed(MemberText(key, keyAfter, valueBefore, TreeText(value), after) + t)
    requires t == [] || !IsSpace(t[0])
    ensures var text := MemberText(key, keyAfter, valueBefore, TreeText(value), after) + t;
      && Starts(text, QUOTE) && ReadChars(text[1..]).Ok? && ReadChars(text[1..]).value.0 == CharsValue(key)
      && var t1 := SkipSpace(ReadChars(text[1..]).value.1);
         && Starts(t1, COLON)
         && ReadValue(SkipSpace(t1[1..])) == Ok((ValueOf(value), after + t)) && SkipSpace(after + t) == t
    ensures WellFormed(t)
    decreases value, 1
  {
    var behind := after + t;
    var valueText := TreeText(value) + behind;
    var colon := [COLON] + (valueBefore + valueText);
    var text := MemberText(key, keyAfter, valueBefore, TreeText(value), after) + t;
    MemberParts(key, keyAfter, valueBefore, TreeText(value), after, t);
    assert text[1..] == CharsText(key) + ([QUOTE] + (keyAfter + colon));
    CutOne(QUOTE, text[1..]);
    CharsRead(key, keyAfter + colon);
    CutString(key, keyAfter + colon);
    CutSpace(keyAfter, colon);
    CutOne(COLON, valueBefore + valueText);
    CutSpace(valueBefore, valueText);
    SpaceSkips(keyAfter, colon);
    assert colon[1..] == valueBefore + valueText;
    TreeShape(value);
    assert valueText[0] == TreeText(value)[0];
    SpaceSkips(valueBefore, valueText);
    EndsAfterSpace(after, t);
    TreeReads(value, behind);
    CutTree(value, behind);
    CutSpace(after, t);
    SpaceSkips(after, t);
    hide ReadValue, ReadChars, CharsText, MemberText, TreeText;
  }

  lemma MemberParts(key: seq<Char>, keyAfter: Text, valueBefore: Text, value: Text, after: Text, t: Text)
    ensures MemberText(key, keyAfter, valueBefore, value, after) + t
         == [QUOTE] + (CharsText(key) + ([QUOTE] + (keyAfter + ([COLON] + (valueBefore + (value + (after + t)))))))
  {
    hide CharsText;
    var colon := [COLON] + (valueBefore + (value + after));
    assert colon + t == [COLON] + (valueBefore + (value + (after + t)));
    assert StringText(key) + (keyAfter + colon) + t == [QUOTE] + (CharsText(key) + ([QUOTE] + (keyAfter + (colon + t))));
  }

  lemma CutString(key: seq<Char>, b: Text)
    requires ValidString(key) && WellFormed(CharsText(key) + ([QUOTE] + b))
    ensures WellFormed(b)
  {
    assert (CharsText(key) + [QUOTE]) + b == CharsText(key) + ([QUOTE] + b);
    Cut(CharsText(key) + [QUOTE], b);
  }

  lemma {:induction false} MembersRead(ms: Members, seen: set<Text>, t: Text)
    requires ValidMembers(ms, seen) && WellFormed(MembersText(ms) + ([RBRACE] + t))
    ensures ReadMembers(MembersText(ms) + ([RBRACE] + t), seen) == Ok((PairsOf(ms, seen), t))
    decreases ms, 1
  {
    var end := [RBRACE] + t;
    assert end[1..] == t;
    match ms
    case LastMember(key, keyAfter, valueBefore, value, after) =>
      MemberReads(key, keyAfter, valueBefore, value, after, seen, end);
      hide ReadValue, ReadChars, MemberText;
    case Member(key, keyAfter, valueBefore, value, after, before, rest) =>
      MoreMembersRead(key, keyAfter, valueBefore, value, after, before, rest, seen, t);
  }

  lemma MemberStepText(key: seq<Char>, keyAfter: Text, valueBefore: Text, value: Tree, after: Text, before: Text, rest: Members, end: Text)
    ensures MembersText(Member(key, keyAfter, valueBefore, value, after, before, rest)) + end
         == MemberText(key, keyAfter, valueBefore, TreeText(value), after) + ([COMMA] + (before + (MembersText(rest) + end)))
  {
    hide MemberText, TreeText;
    var front, tail := MemberText(key, keyAfter, valueBefore, TreeText(value), after), MembersText(rest);
    assert (front + ([COMMA] + (before + tail))) + end == front + ([COMMA] + (before + (tail + end)));
  }

  lemma {:induction false} MoreMembersRead(key: seq<Char>, keyAfter: Text, valueBefore: Text, value: Tree, after: Text, before: Text,
                                           rest: Members, seen: set<Text>, t: Text)
    requires ValidMembers(Member(key, keyAfter, valueBefore, value, after, before, rest), seen)
    requires WellFormed(MembersText(Member(key, keyAfter, valueBefore, value, after, before, rest)) + ([RBRACE] + t))
    ensures ReadMembers(MembersText(Member(key, keyAfter, valueBefore, value, after, before, rest)) + ([RBRACE] + t), seen)
         == Ok(([(CharsValue(key), ValueOf(value))] + PairsOf(rest, seen + {CharsValue(key)}), t))
    decreases Member(key, keyAfter, valueBefore, value, after, before, rest), 0
  {
    var end := [RBRACE] + t;
    var more := MembersText(rest) + end;
    var comma := [COMMA] + (before + more);
    MemberStepText(key, keyAfter, valueBefore, value, after, before, rest, end);
    MembersShape(rest);
    hide ReadValue, ReadChars, MemberText, TreeText, ValidTree, WellFormed, CharsValue, ValueOf, MembersText;
    assert more[0] == MembersText(rest)[0] && comma[1..] == before + more;
    MemberReads(key, keyAfter, valueBefore, value, after, seen, comma);
    CutOne(COMMA, before + more);
    CutSpace(before, more);
    SpaceSkips(before, more);
    hide PairsOf;
    MembersRead(rest, seen + {CharsValue(key)}, t);
  }

  // ---------------------------------------------------------------- every value that is read is denoted

  lemma LiteralSound(t: Text, literal: Text, value: Value)
    requires ReadLiteral(t, literal, value).Ok?
    ensures t == literal + ReadLiteral(t, literal, value).value.1
  {
  }

  lemma LeafSound(t: Text) returns (tree: Tree)
    requires ReadValue(t).Ok? && t[0] != LBRACE && t[0] != LBRACKET
    ensures ValidTree(tree) && ValueOf(tree) == ReadValue(t).value.0 && t == TreeText(tree) + ReadValue(t).value.1
  {
    hide ReadChars, AfterNumber, ReadLiteral, ReadItems, ReadMembers;
    if t[0] == QUOTE {
      var cs := CharsSound(t[1..]);
      tree := StringTree(cs);
      assert t == [QUOTE] + t[1..];
    } else if t[0] == TRUE_TEXT[0] {
      tree := TrueTree;
      LiteralIs(t, TRUE_TEXT, Boolean(true));
      LiteralSound(t, TRUE_TEXT, Boolean(true));
    } else if t[0] == FALSE_TEXT[0] {
      tree := FalseTree;
      LiteralIs(t, FALSE_TEXT, Boolean(false));
      LiteralSound(t, FALSE_TEXT, Boolean(false));
    } else if t[0] == NULL_TEXT[0] {
      tree := NullTree;
      LiteralIs(t, NULL_TEXT, Null);
      LiteralSound(t, NULL_TEXT, Null);
    } else {
      var n := NumberSound(t);
      tree := NumberTree(n);
      var rest := AfterNumber(t).value;
      assert t[..|t| - |rest|] == NumText(n);
    }
  }

  lemma LiteralIs(t: Text, literal: Text, value: Value)
    requires ReadLiteral(t, literal, value).Ok?
    ensures ReadLiteral(t, literal, value).value.0 == value
  {
  }

  lemma {:induction false} TreeSound(t: Text) returns (tree: Tree)
    requires ReadValue(t).Ok?
    ensures ValidTree(tree) && ValueOf(tree) == ReadValue(t).value.0 && t == TreeText(tree) + ReadValue(t).value.1
    decreases |t|, 1
  {
    if t[0] == LBRACE { tree := ObjectSound(t); }
    else if t[0] == LBRACKET { tree := ArraySound(t); }
    else { tree := LeafSound(t); }
  }

  lemma FirstUnit(t: Text, u: Unit)
    requires Starts(t, u)
    ensures t == [u] + t[1..]
  {
  }

  lemma {:induction false} ArraySound(t: Text) returns (tree: Tree)
    requires ReadValue(t).Ok? && t[0] == LBRACKET
    ensures ValidTree(tree) && ValueOf(tree) == ReadValue(t).value.0 && t == TreeText(tree) + ReadValue(t).value.1
    decreases |t|, 0
  {
    hide ReadItems, ReadMembers, ReadChars, AfterNumber, ReadLiteral, ItemsOf, ElementsText, ValidElements;
    var inner := SkippedIsSpace(t[1..]);
    var t1 := SkipSpace(t[1..]);
    var rest := ReadValue(t).value.1;
    FirstUnit(t, LBRACKET);
    if Starts(t1, RBRACKET) {
      tree := EmptyArray(inner);
      FirstUnit(t1, RBRACKET);
      assert [LBRACKET] + (inner + ([RBRACKET] + rest)) == ([LBRACKET] + (inner + [RBRACKET])) + rest;
    } else {
      var elements := ElementsSound(t1);
      tree := ArrayTree(inner, elements);
      var body := ElementsText(elements);
      assert [LBRACKET] + (inner + (body + ([RBRACKET] + rest))) == ([LBRACKET] + (inner + (body + [RBRACKET]))) + rest;
    }
  }

  lemma {:induction false} ElementsSound(t: Text) returns (es: Elements)
    requires ReadItems(t).Ok?
    ensures ValidElements(es) && ItemsOf(es) == ReadItems(t).value.0
    ensures t == ElementsText(es) + ([RBRACKET] + ReadItems(t).value.1)
    decreases |t|, 2
  {
    hide ReadValue, TreeText, ValidTree, ValueOf;
    var value := TreeSound(t);
    var behind := ReadValue(t).value.1;
    var after := SkippedIsSpace(behind);
    var t1 := SkipSpace(behind);
    if Starts(t1, RBRACKET) {
      es := LastElement(value, after);
      FirstUnit(t1, RBRACKET);
      assert TreeText(value) + (after + t1) == (TreeText(value) + after) + t1;
    } else {
      FirstUnit(t1, COMMA);
      var before := SkippedIsSpace(t1[1..]);
      var rest := ElementsSound(SkipSpace(t1[1..]));
      es := Element(value, after, before, rest);
      ElementText(value, after, before, rest, [RBRACKET] + ReadItems(t).value.1);
    }
  }

  lemma {:induction false} ObjectSound(t: Text) returns (tree: Tree)
    requires ReadValue(t).Ok? && t[0] == LBRACE
    ensures ValidTree(tree) && ValueOf(tree) == ReadValue(t).value.0 && t == TreeText(tree) + ReadValue(t).value.1
    decreases |t|, 0
  {
    hide ReadItems, ReadMembers, ReadChars, AfterNumber, ReadLiteral, PairsOf, MembersText, ValidMembers;
    var inner := SkippedIsSpace(t[1..]);
    var t1 := SkipSpace(t[1..]);
    var rest := ReadValue(t).value.1;
    FirstUnit(t, LBRACE);
    if Starts(t1, RBRACE) {
      tree := EmptyObject(inner);
      FirstUnit(t1, RBRACE);
      assert [LBRACE] + (inner + ([RBRACE] + rest)) == ([LBRACE] + (inner + [RBRACE])) + rest;
    } else {
      var members := MembersSound(t1, {});
      tree := ObjectTree(inner, members);
      var body := MembersText(members);
      assert [LBRACE] + (inner + (body + ([RBRACE] + rest))) == ([LBRACE] + (inner + (body + [RBRACE]))) + rest;
    }
  }

  /** A key, its colon and its value. */
  lemma {:induction false} MemberSound(t: Text) returns (key: seq<Char>, keyAfter: Text, valueBefore: Text, value: Tree, behind: Text)
    requires Starts(t, QUOTE) && ReadChars(t[1..]).Ok? && Starts(SkipSpace(ReadChars(t[1..]).value.1), COLON)
    requires ReadValue(SkipSpace(SkipSpace(ReadChars(t[1..]).value.1)[1..])).Ok?
    ensures ValidString(key) && CharsValue(key) == ReadChars(t[1..]).value.0 && AllSpace(keyAfter) && AllSpace(valueBefore)
    ensures ValidTree(value) && (ValueOf(value), behind) == ReadValue(SkipSpace(SkipSpace(ReadChars(t[1..]).value.1)[1..])).value
    ensures t == MemberText(key, keyAfter, valueBefore, TreeText(value), []) + behind
    decreases |t|, 0
  {
    hide ReadValue, ReadChars, TreeText, ValidTree, ValueOf, CharsText, CharsValue, ValidString;
    FirstUnit(t, QUOTE);
    key := CharsSound(t[1..]);
    var t0 := ReadChars(t[1..]).value.1;
    keyAfter := SkippedIsSpace(t0);
    var t1 := SkipSpace(t0);
    FirstUnit(t1, COLON);
    valueBefore := SkippedIsSpace(t1[1..]);
    var t2 := SkipSpace(t1[1..]);
    value := TreeSound(t2);
    behind := ReadValue(t2).value.1;
    MemberParts(key, keyAfter, valueBefore, TreeText(value), [], behind);
    assert [] + behind == behind;
  }

  lemma MemberWithSpace(key: seq<Char>, keyAfter: Text, valueBefore: Text, value: Text, after: Text, t: Text)
    ensures MemberText(key, keyAfter, valueBefore, value, []) + (after + t) == MemberText(key, keyAfter, valueBefore, value, after) + t
  {
    MemberParts(key, keyAfter, valueBefore, value, [], after + t);
    MemberParts(key, keyAfter, valueBefore, value, after, t);
    assert [] + (after + t) == after + t;
  }

  lemma {:induction false} MembersSound(t: Text, seen: set<Text>) returns (ms: Members)
    requires ReadMembers(t, seen).Ok?
    ensures ValidMembers(ms, seen) && PairsOf(ms, seen) == ReadMembers(t, seen).value.0
    ensures t == MembersText(ms) + ([RBRACE] + ReadMembers(t, seen).value.1)
    decreases |t|, 1
  {
    hide ReadValue, ReadChars, TreeText, ValidTree, ValueOf, CharsText, CharsValue, MemberText;
    var key, keyAfter, valueBefore, value, behind := MemberSound(t);
    var after := SkippedIsSpace(behind);
    var t1 := SkipSpace(behind);
    MemberWithSpace(key, keyAfter, valueBefore, TreeText(value), after, t1);
    if Starts(t1, RBRACE) {
      FirstUnit(t1, RBRACE);
      ms := LastMember(key, keyAfter, valueBefore, value, after);
    } else {
      FirstUnit(t1, COMMA);
      var before := SkippedIsSpace(t1[1..]);
      var rest := MembersSound(SkipSpace(t1[1..]), seen + {CharsValue(key)});
      ms := Member(key, keyAfter, valueBefore, value, after, before, rest);
      MemberStepText(key, keyAfter, valueBefore, value, after, before, rest, [RBRACE] + ReadMembers(t, seen).value.1);
    }
  }

  // ---------------------------------------------------------------- the parser

  /**
   The parser returns a value exactly when the text is well-formed UTF-16 and a
   JSON text of RFC 8259 whose strings have no unpaired surrogate and whose
   objects repeat no key, and the value is the one the text denotes.
   */
  lemma ParsesExactlyJson(t: Text, v: Value)
    ensures Parse(t) == Ok(v) <==>
      WellFormed(t) && exists before, tree, after :: Denotes(before, tree, after, t) && ValueOf(tree) == v
  {
    hide ReadValue, TreeText, ValidTree, ValueOf, WellFormed;
    ParsedIsWellFormed(t);
    if Parse(t) == Ok(v) {
      var before, tree, after := ParsedIsJson(t);
    }
    forall before, tree, after | WellFormed(t) && Denotes(before, tree, after, t) && ValueOf(tree) == v
      ensures Parse(t) == Ok(v)
    {
      JsonIsParsed(before, tree, after, t);
    }
  }

  lemma ParsedIsJson(t: Text) returns (before: Text, tree: Tree, after: Text)
    requires Parse(t).Ok?
    ensures Denotes(before, tree, after, t) && ValueOf(tree) == Parse(t).value
  {
    hide ReadValue, TreeText, ValidTree, ValueOf;
    before := SkippedIsSpace(t);
    tree := TreeSound(SkipSpace(t));
    var rest := ReadValue(SkipSpace(t)).value.1;
    after := SkippedIsSpace(rest);
    assert after + [] == after;
  }

  lemma JsonIsParsed(before: Text, tree: Tree, after: Text, t: Text)
    requires WellFormed(t) && Denotes(before, tree, after, t)
    ensures Parse(t) == Ok(ValueOf(tree))
  {
    TreeShape(tree);
    assert (TreeText(tree) + after)[0] == TreeText(tree)[0];
    hide ReadValue, TreeText, ValidTree, ValueOf, WellFormed;
    CutSpace(before, TreeText(tree) + after);
    SpaceSkips(before, TreeText(tree) + after);
    assert Ends(after) by { if after != [] { assert IsSpace(after[0]); } }
    TreeReads(tree, after);
    SpaceSkips(after, []);
    assert after + [] == after;
  }

  // ---------------------------------------------------------------- what returned values are like

  /** Every string in the value is well-formed UTF-16, and no object repeats a key. */
  ghost predicate Clean(v: Value) {
    match v
    case String(text) => WellFormed(text)
    case Array(items) => forall i | 0 <= i < |items| :: Clean(items[i])
    case Object(members) =>
      && (forall i | 0 <= i < |members| :: WellFormed(members[i].0) && Clean(members[i].1))
      && (forall i, j | 0 <= i < j < |members| :: members[i].0 != members[j].0)
    case _ => true
  }

  ghost predicate CleanPairs(pairs: seq<(Text, Value)>, seen: set<Text>) {
    && (forall i | 0 <= i < |pairs| :: WellFormed(pairs[i].0) && Clean(pairs[i].1) && pairs[i].0 !in seen)
    && (forall i, j | 0 <= i < j < |pairs| :: pairs[i].0 != pairs[j].0)
  }

  lemma {:induction false} TreesAreClean(tree: Tree)
    requires ValidTree(tree)
    ensures Clean(ValueOf(tree))
    decreases tree
  {
    match tree
    case ArrayTree(_, elements) => ItemsAreClean(elements);
    case ObjectTree(_, members) =>
      PairsAreClean(members, {});
      PairsMakeClean(PairsOf(members, {}));
    case _ =>
  }

  lemma PairsMakeClean(pairs: seq<(Text, Value)>)
    requires CleanPairs(pairs, {})
    ensures Clean(Object(pairs))
  {
  }

  lemma {:induction false} ItemsAreClean(es: Elements)
    requires ValidElements(es)
    ensures forall i | 0 <= i < |ItemsOf(es)| :: Clean(ItemsOf(es)[i])
    decreases es
  {
    TreesAreClean(es.value);
    if es.Element? { ItemsAreClean(es.rest); }
  }

  lemma {:induction false} PairsAreClean(ms: Members, seen: set<Text>)
    requires ValidMembers(ms, seen)
    ensures CleanPairs(PairsOf(ms, seen), seen)
    decreases ms
  {
    TreesAreClean(ms.value);
    if ms.Member? {
      PairsAreClean(ms.rest, seen + {CharsValue(ms.key)});
      var pairs, rest := PairsOf(ms, seen), PairsOf(ms.rest, seen + {CharsValue(ms.key)});
      assert pairs == [(CharsValue(ms.key), ValueOf(ms.value))] + rest && CharsValue(ms.key) !in seen;
      assert WellFormed(CharsValue(ms.key));
      PairsCons((CharsValue(ms.key), ValueOf(ms.value)), rest, seen);
    } else {
      assert PairsOf(ms, seen) == [(CharsValue(ms.key), ValueOf(ms.value))] + [];
      PairsCons((CharsValue(ms.key), ValueOf(ms.value)), [], seen);
    }
  }

  lemma PairsCons(first: (Text, Value), rest: seq<(Text, Value)>, seen: set<Text>)
    requires WellFormed(first.0) && Clean(first.1) && first.0 !in seen
    requires CleanPairs(rest, seen + {first.0})
    ensures CleanPairs([first] + rest, seen)
  {
    hide Clean, WellFormed;
  }

  /** Whatever the parser returns is clean. */
  lemma ParsedIsClean(t: Text)
    ensures Parse(t).Ok? ==> Clean(Parse(t).value)
  {
    if Parse(t).Ok? {
      var before, tree, after := ParsedIsJson(t);
      TreesAreClean(tree);
    }
  }
}
