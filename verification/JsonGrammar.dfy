/**
 JSON texts as RFC 8259 defines them (sections 2 to 7): concrete syntax trees,
 the text each stands for and the value it denotes. Text is UTF-16 code units,
 as in the parser of packages/shared/src/learning-contract-json.ts, and numbers
 stay lexemes.
 */
module JsonGrammar {
  import opened Basics

  type Unit = x: int | 0 <= x < 0x10000
  type Text = seq<Unit>

  const QUOTE: Unit := 0x22
  const PLUS: Unit := 0x2B
  const COMMA: Unit := 0x2C
  const MINUS: Unit := 0x2D
  const DOT: Unit := 0x2E
  const SLASH: Unit := 0x2F
  const ZERO: Unit := 0x30
  const NINE: Unit := 0x39
  const COLON: Unit := 0x3A
  const LBRACKET: Unit := 0x5B
  const BACKSLASH: Unit := 0x5C
  const RBRACKET: Unit := 0x5D
  const LBRACE: Unit := 0x7B
  const RBRACE: Unit := 0x7D
  const SMALL_U: Unit := 0x75
  const TRUE_TEXT: Text := [0x74, 0x72, 0x75, 0x65]
  const FALSE_TEXT: Text := [0x66, 0x61, 0x6C, 0x73, 0x65]
  const NULL_TEXT: Text := [0x6E, 0x75, 0x6C, 0x6C]

  predicate IsSpace(u: Unit) { u == 0x20 || u == 0x09 || u == 0x0A || u == 0x0D }

  predicate IsDigit(u: Unit) { ZERO <= u <= NINE }

  predicate IsHigh(u: Unit) { 0xD800 <= u <= 0xDBFF }

  predicate IsLow(u: Unit) { 0xDC00 <= u <= 0xDFFF }

  /** Every surrogate stands in a pair. */
  predicate WellFormed(t: Text) {
    t == []
    || (!IsHigh(t[0]) && !IsLow(t[0]) && WellFormed(t[1..]))
    || (|t| >= 2 && IsHigh(t[0]) && IsLow(t[1]) && WellFormed(t[2..]))
  }

  ghost predicate AllSpace(t: Text) { forall i | 0 <= i < |t| :: IsSpace(t[i]) }

  ghost predicate AllDigits(t: Text) { forall i | 0 <= i < |t| :: IsDigit(t[i]) }

  // ---------------------------------------------------------------- values

  datatype Value =
    | Null
    | Boolean(b: bool)
    | Number(lexeme: Text)
    | String(text: Text)
    | Array(items: seq<Value>)
    | Object(members: seq<(Text, Value)>)

  // ---------------------------------------------------------------- strings

  /** char = unescaped / escape ( one letter / %x75 4HEXDIG ) */
  datatype Char = Plain(u: Unit) | Short(letter: Unit) | Hex(d0: Unit, d1: Unit, d2: Unit, d3: Unit)

  predicate IsHexUnit(u: Unit) { IsDigit(u) || 0x41 <= u <= 0x46 || 0x61 <= u <= 0x66 }

  function HexValue(u: Unit): (v: Unit)
    requires IsHexUnit(u)
    ensures v < 16
  {
    if IsDigit(u) then u - 0x30 else if u <= 0x46 then u - 0x37 else u - 0x57
  }

  /** The code unit that a one-letter escape stands for. */
  function ShortValue(letter: Unit): Option<Unit> {
    if letter == QUOTE || letter == BACKSLASH || letter == SLASH then Some(letter)
    else if letter == 0x62 then Some(0x08)
    else if letter == 0x66 then Some(0x0C)
    else if letter == 0x6E then Some(0x0A)
    else if letter == 0x72 then Some(0x0D)
    else if letter == 0x74 then Some(0x09)
    else None
  }

  predicate ValidChar(c: Char) {
    match c
    case Plain(u) => u >= 0x20 && u != QUOTE && u != BACKSLASH
    case Short(letter) => ShortValue(letter).Some?
    case Hex(d0, d1, d2, d3) => IsHexUnit(d0) && IsHexUnit(d1) && IsHexUnit(d2) && IsHexUnit(d3)
  }

  function CharText(c: Char): Text {
    match c
    case Plain(u) => [u]
    case Short(letter) => [BACKSLASH, letter]
    case Hex(d0, d1, d2, d3) => [BACKSLASH, SMALL_U, d0, d1, d2, d3]
  }

  function FourHex(d0: Unit, d1: Unit, d2: Unit, d3: Unit): Unit
    requires IsHexUnit(d0) && IsHexUnit(d1) && IsHexUnit(d2) && IsHexUnit(d3)
  {
    ((HexValue(d0) * 16 + HexValue(d1)) * 16 + HexValue(d2)) * 16 + HexValue(d3)
  }

  function CharValue(c: Char): Unit
    requires ValidChar(c)
  {
    match c
    case Plain(u) => u
    case Short(letter) => ShortValue(letter).value
    case Hex(d0, d1, d2, d3) => FourHex(d0, d1, d2, d3)
  }

  predicate ValidChars(cs: seq<Char>) {
    cs == [] || (ValidChar(cs[0]) && ValidChars(cs[1..]))
  }

  function CharsText(cs: seq<Char>): Text {
    if cs == [] then [] else CharText(cs[0]) + CharsText(cs[1..])
  }

  function CharsValue(cs: seq<Char>): Text
    requires ValidChars(cs)
  {
    if cs == [] then [] else [CharValue(cs[0])] + CharsValue(cs[1..])
  }

  // ---------------------------------------------------------------- numbers

  datatype Exponent = Exponent(e: Unit, sign: Option<Unit>, digits: Text)

  /** number = [ minus ] int [ frac ] [ exp ] */
  datatype Num = Num(minus: bool, whole: Text, frac: Option<Text>, exp: Option<Exponent>)

  ghost predicate ValidNum(n: Num) {
    && (n.whole == [ZERO] || (n.whole != [] && AllDigits(n.whole) && n.whole[0] != ZERO))
    && (n.frac.Some? ==> n.frac.value != [] && AllDigits(n.frac.value))
    && (n.exp.Some? ==>
          && (n.exp.value.e == 0x65 || n.exp.value.e == 0x45)
          && (n.exp.value.sign.Some? ==> n.exp.value.sign.value == PLUS || n.exp.value.sign.value == MINUS)
          && n.exp.value.digits != [] && AllDigits(n.exp.value.digits))
  }

  function FracText(frac: Option<Text>): Text { if frac.Some? then [DOT] + frac.value else [] }

  function ExpText(exp: Option<Exponent>): Text {
    if exp.None? then []
    else [exp.value.e] + (if exp.value.sign.Some? then [exp.value.sign.value] else []) + exp.value.digits
  }

  function NumText(n: Num): Text {
    (if n.minus then [MINUS] else []) + (n.whole + (FracText(n.frac) + ExpText(n.exp)))
  }

  // ---------------------------------------------------------------- trees

  datatype Tree =
    | NullTree | TrueTree | FalseTree
    | NumberTree(n: Num)
    | StringTree(chars: seq<Char>)
    | EmptyArray(inner: Text)
    | ArrayTree(inner: Text, elements: Elements)
    | EmptyObject(inner: Text)
    | ObjectTree(inner: Text, members: Members)

  /** value *( value-separator value ), with the white space around the separators */
  datatype Elements =
    | LastElement(value: Tree, after: Text)
    | Element(value: Tree, after: Text, before: Text, rest: Elements)

  /** member *( value-separator member ), where member = string name-separator value */
  datatype Members =
    | LastMember(key: seq<Char>, keyAfter: Text, valueBefore: Text, value: Tree, after: Text)
    | Member(key: seq<Char>, keyAfter: Text, valueBefore: Text, value: Tree, after: Text, before: Text, rest: Members)

  function StringText(cs: seq<Char>): Text { [QUOTE] + (CharsText(cs) + [QUOTE]) }

  function TreeText(tree: Tree): Text {
    match tree
    case NullTree => NULL_TEXT
    case TrueTree => TRUE_TEXT
    case FalseTree => FALSE_TEXT
    case NumberTree(n) => NumText(n)
    case StringTree(cs) => StringText(cs)
    case EmptyArray(inner) => [LBRACKET] + (inner + [RBRACKET])
    case ArrayTree(inner, elements) => [LBRACKET] + (inner + (ElementsText(elements) + [RBRACKET]))
    case EmptyObject(inner) => [LBRACE] + (inner + [RBRACE])
    case ObjectTree(inner, members) => [LBRACE] + (inner + (MembersText(members) + [RBRACE]))
  }

  function ElementsText(es: Elements): Text {
    match es
    case LastElement(value, after) => TreeText(value) + after
    case Element(value, after, before, rest) => TreeText(value) + (after + ([COMMA] + (before + ElementsText(rest))))
  }

  function MemberText(key: seq<Char>, keyAfter: Text, valueBefore: Text, value: Text, after: Text): Text {
    StringText(key) + (keyAfter + ([COLON] + (valueBefore + (value + after))))
  }

  function MembersText(ms: Members): Text {
    match ms
    case LastMember(key, keyAfter, valueBefore, value, after) => MemberText(key, keyAfter, valueBefore, TreeText(value), after)
    case Member(key, keyAfter, valueBefore, value, after, before, rest) =>
      MemberText(key, keyAfter, valueBefore, TreeText(value), after) + ([COMMA] + (before + MembersText(rest)))
  }

  // ---------------------------------------------------------------- which trees are meant

  ghost predicate ValidString(cs: seq<Char>) { ValidChars(cs) && WellFormed(CharsValue(cs)) }

  /** In the grammar, with every surrogate paired and no object whose decoded keys repeat. */
  ghost predicate ValidTree(tree: Tree) {
    match tree
    case NumberTree(n) => ValidNum(n)
    case StringTree(cs) => ValidString(cs)
    case EmptyArray(inner) => AllSpace(inner)
    case ArrayTree(inner, elements) => AllSpace(inner) && ValidElements(elements)
    case EmptyObject(inner) => AllSpace(inner)
    case ObjectTree(inner, members) => AllSpace(inner) && ValidMembers(members, {})
    case _ => true
  }

  ghost predicate ValidElements(es: Elements) {
    match es
    case LastElement(value, after) => ValidTree(value) && AllSpace(after)
    case Element(value, after, before, rest) =>
      ValidTree(value) && AllSpace(after) && AllSpace(before) && ValidElements(rest)
  }

  /** The members' keys differ from each other and from those already seen. */
  ghost predicate ValidMembers(ms: Members, seen: set<Text>) {
    match ms
    case LastMember(key, keyAfter, valueBefore, value, after) =>
      && ValidString(key) && CharsValue(key) !in seen
      && AllSpace(keyAfter) && AllSpace(valueBefore) && ValidTree(value) && AllSpace(after)
    case Member(key, keyAfter, valueBefore, value, after, before, rest) =>
      && ValidString(key) && CharsValue(key) !in seen
      && AllSpace(keyAfter) && AllSpace(valueBefore) && ValidTree(value) && AllSpace(after)
      && AllSpace(before) && ValidMembers(rest, seen + {CharsValue(key)})
  }

  ghost function ValueOf(tree: Tree): Value
    requires ValidTree(tree)
  {
    match tree
    case NullTree => Null
    case TrueTree => Boolean(true)
    case FalseTree => Boolean(false)
    case NumberTree(n) => Number(NumText(n))
    case StringTree(cs) => String(CharsValue(cs))
    case EmptyArray(_) => Array([])
    case ArrayTree(_, elements) => Array(ItemsOf(elements))
    case EmptyObject(_) => Object([])
    case ObjectTree(_, members) => Object(PairsOf(members, {}))
  }

  ghost function ItemsOf(es: Elements): seq<Value>
    requires ValidElements(es)
  {
    match es
    case LastElement(value, _) => [ValueOf(value)]
    case Element(value, _, _, rest) => [ValueOf(value)] + ItemsOf(rest)
  }

  ghost function PairsOf(ms: Members, seen: set<Text>): seq<(Text, Value)>
    requires ValidMembers(ms, seen)
  {
    match ms
    case LastMember(key, _, _, value, _) => [(CharsValue(key), ValueOf(value))]
    case Member(key, _, _, value, _, _, rest) =>
      [(CharsValue(key), ValueOf(value))] + PairsOf(rest, seen + {CharsValue(key)})
  }

  /** JSON-text = ws value ws */
  ghost predicate Denotes(before: Text, tree: Tree, after: Text, t: Text) {
    AllSpace(before) && ValidTree(tree) && AllSpace(after) && t == before + (TreeText(tree) + after)
  }
}
