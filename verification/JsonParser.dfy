/**
 The duplicate-aware JSON parser
 (packages/shared/src/learning-contract-json.ts). The functions work on the text
 still to be read and are the specification of the class, which advances an
 offset into a fixed source.
 */
module JsonParser {
  import opened Basics
  import opened JsonGrammar

  datatype Failure = Syntax | DuplicateKey

  /** What was read, and the text after it. */
  type Parsed<T> = Result<(T, Text), Failure>

  function SkipSpace(t: Text): (rest: Text)
    ensures |rest| <= |t|
  {
    if t != [] && IsSpace(t[0]) then SkipSpace(t[1..]) else t
  }

  predicate Starts(t: Text, u: Unit) { t != [] && t[0] == u }

  // ---------------------------------------------------------------- strings

  /** The UTF-16 code units of a code point. */
  function FromCodePoint(c: nat): Text
    requires c < 0x110000
  {
    if c < 0x10000 then [c] else [0xD800 + (c - 0x10000) / 0x400, 0xDC00 + (c - 0x10000) % 0x400]
  }

  function ReadHex(t: Text): Parsed<Unit> {
    if |t| >= 4 && IsHexUnit(t[0]) && IsHexUnit(t[1]) && IsHexUnit(t[2]) && IsHexUnit(t[3])
    then Ok((FourHex(t[0], t[1], t[2], t[3]), t[4..]))
    else Err(Syntax)
  }

  function ReadUnicodeEscape(t: Text): Parsed<Text> {
    var first := ReadHex(t);
    if first.Err? then Err(Syntax)
    else if IsLow(first.value.0) then Err(Syntax)
    else if !IsHigh(first.value.0) then Ok(([first.value.0], first.value.1))
    else
      var t1 := first.value.1;
      if !(|t1| >= 2 && t1[0] == BACKSLASH && t1[1] == SMALL_U) then Err(Syntax)
      else
        var second := ReadHex(t1[2..]);
        if second.Err? || !IsLow(second.value.0) then Err(Syntax)
        else Ok((FromCodePoint(0x10000 + (first.value.0 - 0xD800) * 0x400 + (second.value.0 - 0xDC00)), second.value.1))
  }

  function ReadEscape(t: Text): (r: Parsed<Text>)
    ensures r.Ok? ==> |r.value.1| < |t|
  {
    if t == [] then Err(Syntax)
    else if t[0] == SMALL_U then ReadUnicodeEscape(t[1..])
    else if ShortValue(t[0]).Some? then Ok(([ShortValue(t[0]).value], t[1..]))
    else Err(Syntax)
  }

  function Prepend(front: Text, r: Parsed<Text>): Parsed<Text> {
    if r.Err? then r else Ok((front + r.value.0, r.value.1))
  }

  /** A string from behind its opening quotation mark. */
  function ReadChars(t: Text): (r: Parsed<Text>)
    ensures r.Ok? ==> |r.value.1| < |t|
    decreases |t|
  {
    if t == [] then Err(Syntax)
    else if t[0] == QUOTE then Ok(([], t[1..]))
    else if t[0] == BACKSLASH then
      var escape := ReadEscape(t[1..]);
      if escape.Err? then escape else Prepend(escape.value.0, ReadChars(escape.value.1))
    else if t[0] <= 0x1F || IsLow(t[0]) then Err(Syntax)
    else if IsHigh(t[0]) then
      if |t| < 2 || !IsLow(t[1]) then Err(Syntax) else Prepend(t[..2], ReadChars(t[2..]))
    else Prepend(t[..1], ReadChars(t[1..]))
  }

  // ---------------------------------------------------------------- numbers

  function SkipDigits(t: Text): (rest: Text)
    ensures |rest| <= |t|
  {
    if t != [] && IsDigit(t[0]) then SkipDigits(t[1..]) else t
  }

  predicate StartsDigit(t: Text) { t != [] && IsDigit(t[0]) }

  /** The text after the integer part. */
  function AfterWhole(t: Text): (r: Result<Text, Failure>)
    ensures r.Ok? ==> |r.value| < |t|
  {
    if Starts(t, ZERO) then (if StartsDigit(t[1..]) then Err(Syntax) else Ok(t[1..]))
    else if StartsDigit(t) then Ok(SkipDigits(t[1..]))
    else Err(Syntax)
  }

  function AfterFrac(t: Text): (r: Result<Text, Failure>)
    ensures r.Ok? ==> |r.value| <= |t|
  {
    if !Starts(t, DOT) then Ok(t) else if StartsDigit(t[1..]) then Ok(SkipDigits(t[1..])) else Err(Syntax)
  }

  function AfterExp(t: Text): (r: Result<Text, Failure>)
    ensures r.Ok? ==> |r.value| <= |t|
  {
    if !(Starts(t, 0x65) || Starts(t, 0x45)) then Ok(t)
    else
      var t1 := t[1..];
      var t2 := if Starts(t1, PLUS) || Starts(t1, MINUS) then t1[1..] else t1;
      if StartsDigit(t2) then Ok(SkipDigits(t2)) else Err(Syntax)
  }

  /** The text after a number. */
  function AfterNumber(t: Text): (r: Result<Text, Failure>)
    ensures r.Ok? ==> |r.value| < |t|
  {
    var t1 := if Starts(t, MINUS) then t[1..] else t;
    var t2 := AfterWhole(t1);
    if t2.Err? then t2
    else
      var t3 := AfterFrac(t2.value);
      if t3.Err? then t3 else AfterExp(t3.value)
  }

  // ---------------------------------------------------------------- values

  function ReadLiteral(t: Text, literal: Text, value: Value): Parsed<Value> {
    if |t| >= |literal| && t[..|literal|] == literal then Ok((value, t[|literal|..])) else Err(Syntax)
  }

  function ReadValue(t: Text): (r: Parsed<Value>)
    ensures r.Ok? ==> |r.value.1| < |t|
    decreases |t|, 0
  {
    if t == [] then Err(Syntax)
    else if t[0] == LBRACE then
      var t1 := SkipSpace(t[1..]);
      if Starts(t1, RBRACE) then Ok((Object([]), t1[1..]))
      else
        var members := ReadMembers(t1, {});
        if members.Err? then Err(members.error) else Ok((Object(members.value.0), members.value.1))
    else if t[0] == LBRACKET then
      var t1 := SkipSpace(t[1..]);
      if Starts(t1, RBRACKET) then Ok((Array([]), t1[1..]))
      else
        var items := ReadItems(t1);
        if items.Err? then Err(items.error) else Ok((Array(items.value.0), items.value.1))
    else if t[0] == QUOTE then
      var text := ReadChars(t[1..]);
      if text.Err? then Err(text.error) else Ok((String(text.value.0), text.value.1))
    else if t[0] == TRUE_TEXT[0] then ReadLiteral(t, TRUE_TEXT, Boolean(true))
    else if t[0] == FALSE_TEXT[0] then ReadLiteral(t, FALSE_TEXT, Boolean(false))
    else if t[0] == NULL_TEXT[0] then ReadLiteral(t, NULL_TEXT, Null)
    else if t[0] == MINUS || IsDigit(t[0]) then
      var rest := AfterNumber(t);
      if rest.Err? then Err(rest.error) else Ok((Number(t[..|t| - |rest.value|]), rest.value))
    else Err(Syntax)
  }

  /** The elements of an array up to its closing bracket. */
  function ReadItems(t: Text): (r: Parsed<seq<Value>>)
    ensures r.Ok? ==> |r.value.1| < |t|
    decreases |t|, 1
  {
    var item := ReadValue(t);
    if item.Err? then Err(item.error)
    else
      var t1 := SkipSpace(item.value.1);
      if Starts(t1, RBRACKET) then Ok(([item.value.0], t1[1..]))
      else if !Starts(t1, COMMA) then Err(Syntax)
      else
        var rest := ReadItems(SkipSpace(t1[1..]));
        if rest.Err? then rest else Ok(([item.value.0] + rest.value.0, rest.value.1))
  }

  /** The members of an object up to its closing brace; a key that was seen is refused at once. */
  function ReadMembers(t: Text, seen: set<Text>): (r: Parsed<seq<(Text, Value)>>)
    ensures r.Ok? ==> |r.value.1| < |t|
    decreases |t|, 1
  {
    if !Starts(t, QUOTE) then Err(Syntax)
    else
      var key := ReadChars(t[1..]);
      if key.Err? then Err(key.error)
      else if key.value.0 in seen then Err(DuplicateKey)
      else
        var t1 := SkipSpace(key.value.1);
        if !Starts(t1, COLON) then Err(Syntax)
        else
          var value := ReadValue(SkipSpace(t1[1..]));
          if value.Err? then Err(value.error)
          else
            var t2 := SkipSpace(value.value.1);
            if Starts(t2, RBRACE) then Ok(([(key.value.0, value.value.0)], t2[1..]))
            else if !Starts(t2, COMMA) then Err(Syntax)
            else
              var rest := ReadMembers(SkipSpace(t2[1..]), seen + {key.value.0});
              if rest.Err? then rest else Ok(([(key.value.0, value.value.0)] + rest.value.0, rest.value.1))
  }

  function Parse(t: Text): Result<Value, Failure> {
    var value := ReadValue(SkipSpace(t));
    if value.Err? then Err(value.error)
    else if SkipSpace(value.value.1) != [] then Err(Syntax)
    else Ok(value.value.0)
  }
}
