/**
 The parser class and the decoder around it
 (packages/shared/src/learning-contract-json.ts), proved against the functions of
 JsonParser.
 */
module JsonDecoder {
  import opened Basics
  import opened JsonGrammar
  import opened JsonParser
  import opened JsonLexis
  import opened JsonTheorems
  import Utf8

  // ---------------------------------------------------------------- the parser

  class DuplicateAwareJsonParser {
    const source: Text
    var offset: nat

    constructor (text: Text)
      ensures source == text && offset == 0
    {
      source := text;
      offset := 0;
    }

    /** The text still to be read. */
    function Rest(): Text
      reads this
      requires offset <= |source|
    {
      source[offset..]
    }

    method Parse() returns (r: Result<Value, Failure>)
      requires offset == 0
      modifies this
      ensures r == JsonParser.Parse(source)
    {
      assert Rest() == source;
      SkipWhitespace();
      var value := ParseValue();
      if value.Err? { return Err(value.error); }
      SkipWhitespace();
      if offset != |source| { return Err(Syntax); }
      return Ok(value.value);
    }

    method ParseValue() returns (r: Result<Value, Failure>)
      requires offset <= |source|
      modifies this
      ensures r.Ok? ==> old(offset) < offset <= |source| && ReadValue(old(Rest())) == Ok((r.value, Rest()))
      ensures r.Err? ==> ReadValue(old(Rest())) == Err(r.error)
      decreases |source| - offset, 4
    {
      hide ReadChars, AfterNumber, ReadItems, ReadMembers, SkipSpace;
      if offset >= |source| { return Err(Syntax); }
      var current := source[offset];
      if current == LBRACE {
        var members := ParseObject();
        return if members.Err? then Err(members.error) else Ok(Object(members.value));
      }
      if current == LBRACKET {
        var items := ParseArray();
        return if items.Err? then Err(items.error) else Ok(Array(items.value));
      }
      if current == QUOTE {
        var text := ParseString();
        return if text.Err? then Err(text.error) else Ok(String(text.value));
      }
      if current == TRUE_TEXT[0] { r := ParseLiteral(TRUE_TEXT, Boolean(true)); return; }
      if current == FALSE_TEXT[0] { r := ParseLiteral(FALSE_TEXT, Boolean(false)); return; }
      if current == NULL_TEXT[0] { r := ParseLiteral(NULL_TEXT, Null); return; }
      if current == MINUS || IsDigit(current) {
        var lexeme := ParseNumber();
        return if lexeme.Err? then Err(lexeme.error) else Ok(Number(lexeme.value));
      }
      return Err(Syntax);
    }

    /** The members of the object that opens here. */
    method ParseObject() returns (r: Result<seq<(Text, Value)>, Failure>)
      requires offset < |source| && source[offset] == LBRACE
      modifies this
      ensures r.Ok? ==> old(offset) < offset <= |source| && ReadValue(old(Rest())) == Ok((Object(r.value), Rest()))
      ensures r.Err? ==> ReadValue(old(Rest())) == Err(r.error)
      decreases |source| - offset, 3
    {
      hide ReadChars, AfterNumber, ReadItems, SkipSpace, ReadLiteral;
      Advance(1);
      SkipWhitespace();
      var value: seq<(Text, Value)> := [];
      var keys: set<Text> := {};
      var closed := Consume(RBRACE);
      if closed { return Ok(value); }
      ghost var whole := ReadMembers(Rest(), {});
      JoinNothing(whole);
      while true
        invariant old(offset) < offset <= |source|
        invariant whole == JoinMembers(value, ReadMembers(Rest(), keys))
        decreases |source| - offset
      {
        ghost var here := Rest();
        var member := ParseMember(keys);
        if member.Err? { return Err(member.error); }
        keys := keys + {member.value.0};
        value := value + [member.value];
        JoinMember(value[..|value| - 1], member.value);
        assert value[..|value| - 1] + [member.value] == value;
        SkipWhitespace();
        closed := Consume(RBRACE);
        if closed { return Ok(value); }
        var more := Consume(COMMA);
        if !more { return Err(Syntax); }
        SkipWhitespace();
      }
    }

    /** One key, its colon and its value. */
    method ParseMember(keys: set<Text>) returns (r: Result<(Text, Value), Failure>)
      requires offset <= |source|
      modifies this
      ensures r.Ok? ==>
        && old(offset) < offset <= |source| && r.value.0 !in keys
        && Starts(old(Rest()), QUOTE) && ReadChars(old(Rest())[1..]).Ok? && ReadChars(old(Rest())[1..]).value.0 == r.value.0
        && var t1 := SkipSpace(ReadChars(old(Rest())[1..]).value.1);
           Starts(t1, COLON) && ReadValue(SkipSpace(t1[1..])) == Ok((r.value.1, Rest()))
      ensures r.Err? ==> ReadMembers(old(Rest()), keys) == Err(r.error)
      decreases |source| - offset, 1
    {
      hide ReadChars, ReadValue, SkipSpace;
      if offset >= |source| || source[offset] != QUOTE { return Err(Syntax); }
      var key := ParseString();
      if key.Err? { return Err(key.error); }
      if key.value in keys { return Err(DuplicateKey); }
      SkipWhitespace();
      var colon := Consume(COLON);
      if !colon { return Err(Syntax); }
      SkipWhitespace();
      var value := ParseValue();
      if value.Err? { return Err(value.error); }
      return Ok((key.value, value.value));
    }

    method ParseArray() returns (r: Result<seq<Value>, Failure>)
      requires offset < |source| && source[offset] == LBRACKET
      modifies this
      ensures r.Ok? ==> old(offset) < offset <= |source| && ReadValue(old(Rest())) == Ok((Array(r.value), Rest()))
      ensures r.Err? ==> ReadValue(old(Rest())) == Err(r.error)
      decreases |source| - offset, 2
    {
      hide ReadChars, AfterNumber, ReadMembers, SkipSpace, ReadLiteral;
      Advance(1);
      SkipWhitespace();
      var value: seq<Value> := [];
      var closed := Consume(RBRACKET);
      if closed { return Ok(value); }
      ghost var whole := ReadItems(Rest());
      JoinNoItems(whole);
      while true
        invariant old(offset) < offset <= |source|
        invariant whole == JoinItems(value, ReadItems(Rest()))
        decreases |source| - offset
      {
        var item := ParseValue();
        if item.Err? { return Err(item.error); }
        JoinItem(value, item.value);
        value := value + [item.value];
        SkipWhitespace();
        closed := Consume(RBRACKET);
        if closed { return Ok(value); }
        var more := Consume(COMMA);
        if !more { return Err(Syntax); }
        SkipWhitespace();
      }
    }

    /** The decoded string that opens here. */
    method ParseString() returns (r: Result<Text, Failure>)
      requires offset < |source| && source[offset] == QUOTE
      modifies this
      ensures r.Ok? ==> old(offset) < offset <= |source| && ReadChars(old(Rest())[1..]) == Ok((r.value, Rest()))
      ensures r.Err? ==> ReadChars(old(Rest())[1..]) == Err(r.error)
    {
      Advance(1);
      var value: Text := [];
      ghost var whole := ReadChars(Rest());
      assert whole == Prepend(value, ReadChars(Rest())) by { if whole.Ok? { assert [] + whole.value.0 == whole.value.0; } }
      hide ReadEscape;
      while offset < |source|
        invariant old(offset) < offset <= |source| + 1
        invariant offset <= |source| ==> whole == Prepend(value, ReadChars(Rest()))
        invariant offset > |source| ==> whole == Err(Syntax)
        decreases |source| + 1 - offset
      {
        var current := source[offset];
        if current == QUOTE {
          Advance(1);
          assert value + [] == value;
          return Ok(value);
        }
        if current == BACKSLASH {
          Advance(1);
          var escaped := ParseEscape();
          if escaped.Err? { return Err(escaped.error); }
          PrependTwice(value, escaped.value, ReadChars(Rest()));
          value := value + escaped.value;
          continue;
        }
        if current <= 0x1F || IsLow(current) { return Err(Syntax); }
        if IsHigh(current) {
          if offset + 1 < |source| && !IsLow(source[offset + 1]) { return Err(Syntax); }
          if offset + 1 < |source| {
            assert Rest()[..2] == source[offset..offset + 2] && Rest()[2..] == source[offset + 2..];
            PrependTwice(value, source[offset..offset + 2], ReadChars(source[offset + 2..]));
            value := value + source[offset..offset + 2];
          }
          offset := offset + 2;
        } else {
          assert Rest()[..1] == [current] && Rest()[1..] == source[offset + 1..];
          PrependTwice(value, [current], ReadChars(source[offset + 1..]));
          value := value + [current];
          offset := offset + 1;
        }
      }
      return Err(Syntax);
    }

    method ParseEscape() returns (r: Result<Text, Failure>)
      requires offset <= |source|
      modifies this
      ensures r.Ok? ==> old(offset) < offset <= |source| && ReadEscape(old(Rest())) == Ok((r.value, Rest()))
      ensures r.Err? ==> ReadEscape(old(Rest())) == Err(r.error)
    {
      if offset >= |source| { return Err(Syntax); }
      var escaped := source[offset];
      Advance(1);
      if escaped == SMALL_U {
        r := ParseUnicodeEscape();
        return;
      }
      var short := ShortValue(escaped);
      return if short.Some? then Ok([short.value]) else Err(Syntax);
    }

    method ParseUnicodeEscape() returns (r: Result<Text, Failure>)
      requires offset <= |source|
      modifies this
      ensures r.Ok? ==> old(offset) < offset <= |source| && ReadUnicodeEscape(old(Rest())) == Ok((r.value, Rest()))
      ensures r.Err? ==> ReadUnicodeEscape(old(Rest())) == Err(r.error)
    {
      hide FourHex, FromCodePoint;
      var first := ReadHexCodeUnit();
      if first.Err? { return Err(Syntax); }
      if IsLow(first.value) { return Err(Syntax); }
      if !IsHigh(first.value) { return Ok([first.value]); }
      if !(offset + 2 <= |source| && source[offset] == BACKSLASH && source[offset + 1] == SMALL_U) { return Err(Syntax); }
      ghost var t1 := Rest();
      Advance(2);
      assert Rest() == t1[2..];
      var second := ReadHexCodeUnit();
      if second.Err? || !IsLow(second.value) { return Err(Syntax); }
      var high, low := first.value as int - 0xD800, second.value as int - 0xDC00;
      return Ok(FromCodePoint(0x10000 + high * 0x400 + low));
    }

    method ReadHexCodeUnit() returns (r: Result<Unit, Failure>)
      requires offset <= |source|
      modifies this
      ensures r.Ok? ==> old(offset) < offset <= |source| && ReadHex(old(Rest())) == Ok((r.value, Rest()))
      ensures r.Err? ==> ReadHex(old(Rest())) == Err(r.error) && r.error == Syntax
    {
      ghost var t := Rest();
      if !(offset + 4 <= |source| && IsHexUnit(source[offset]) && IsHexUnit(source[offset + 1])
           && IsHexUnit(source[offset + 2]) && IsHexUnit(source[offset + 3]))
      {
        return Err(Syntax);
      }
      var u := FourHex(source[offset], source[offset + 1], source[offset + 2], source[offset + 3]);
      Advance(4);
      assert t[0] == source[old(offset)] && t[1] == source[old(offset) + 1] && t[2] == source[old(offset) + 2] && t[3] == source[old(offset) + 3];
      return Ok(u);
    }

    /** The lexeme of the number that starts here. */
    method ParseNumber() returns (r: Result<Text, Failure>)
      requires offset < |source|
      modifies this
      ensures r.Ok? ==> old(offset) < offset <= |source| && AfterNumber(old(Rest())) == Ok(Rest())
                        && r.value == old(Rest())[..|old(Rest())| - |Rest()|]
      ensures r.Err? ==> AfterNumber(old(Rest())) == Err(r.error)
    {
      hide AfterWhole, AfterFrac, AfterExp;
      var start := offset;
      ghost var t := Rest();
      var minus := Consume(MINUS);
      var whole := PassWhole();
      if !whole { return Err(Syntax); }
      var frac := PassFrac();
      if !frac { return Err(Syntax); }
      var exp := PassExp();
      if !exp { return Err(Syntax); }
      assert source[start..offset] == t[..|t| - |Rest()|];
      return Ok(source[start..offset]);
    }

    method PassWhole() returns (ok: bool)
      requires offset <= |source|
      modifies this
      ensures ok ==> old(offset) < offset <= |source| && AfterWhole(old(Rest())) == Ok(Rest())
      ensures !ok ==> AfterWhole(old(Rest())) == Err(Syntax)
    {
      hide SkipDigits;
      var zero := Consume(ZERO);
      if zero { return !AtDigit(); }
      if !AtDigit() { return false; }
      Advance(1);
      PassDigits();
      return true;
    }

    method PassFrac() returns (ok: bool)
      requires offset <= |source|
      modifies this
      ensures ok ==> old(offset) <= offset <= |source| && AfterFrac(old(Rest())) == Ok(Rest())
      ensures !ok ==> AfterFrac(old(Rest())) == Err(Syntax)
    {
      hide SkipDigits;
      var dot := Consume(DOT);
      if !dot { return true; }
      if !AtDigit() { return false; }
      PassDigits();
      return true;
    }

    method PassExp() returns (ok: bool)
      requires offset <= |source|
      modifies this
      ensures ok ==> old(offset) <= offset <= |source| && AfterExp(old(Rest())) == Ok(Rest())
      ensures !ok ==> AfterExp(old(Rest())) == Err(Syntax)
    {
      hide SkipDigits;
      if !(offset < |source| && (source[offset] == 0x65 || source[offset] == 0x45)) { return true; }
      Advance(1);
      if offset < |source| && (source[offset] == PLUS || source[offset] == MINUS) {
        Advance(1);
      }
      if !AtDigit() { return false; }
      PassDigits();
      return true;
    }

    method PassDigits()
      requires offset <= |source|
      modifies this
      ensures old(offset) <= offset <= |source| && Rest() == SkipDigits(old(Rest()))
    {
      while offset < |source| && IsDigit(source[offset])
        invariant old(offset) <= offset <= |source| && SkipDigits(Rest()) == SkipDigits(old(Rest()))
        decreases |source| - offset
      {
        Advance(1);
      }
    }

    predicate AtDigit()
      reads this
      requires offset <= |source|
    {
      offset < |source| && IsDigit(source[offset])
    }

    method ParseLiteral(literal: Text, value: Value) returns (r: Result<Value, Failure>)
      requires offset <= |source| && literal != []
      modifies this
      ensures r.Ok? ==> old(offset) < offset <= |source| && ReadLiteral(old(Rest()), literal, value) == Ok((r.value, Rest()))
      ensures r.Err? ==> ReadLiteral(old(Rest()), literal, value) == Err(r.error)
    {
      if !(offset + |literal| <= |source| && source[offset..offset + |literal|] == literal) {
        assert |Rest()| >= |literal| ==> Rest()[..|literal|] == source[offset..offset + |literal|];
        return Err(Syntax);
      }
      assert Rest()[..|literal|] == literal;
      Advance(|literal|);
      return Ok(value);
    }

    method SkipWhitespace()
      requires offset <= |source|
      modifies this
      ensures old(offset) <= offset <= |source| && Rest() == SkipSpace(old(Rest()))
    {
      while offset < |source| && IsSpace(source[offset])
        invariant old(offset) <= offset <= |source| && SkipSpace(Rest()) == SkipSpace(old(Rest()))
        decreases |source| - offset
      {
        Advance(1);
      }
    }

    method Consume(expected: Unit) returns (found: bool)
      requires offset <= |source|
      modifies this
      ensures old(offset) <= offset <= |source| && (found <==> Starts(old(Rest()), expected))
      ensures found ==> offset == old(offset) + 1 && Rest() == old(Rest())[1..]
      ensures !found ==> offset == old(offset)
    {
      if offset >= |source| || source[offset] != expected { return false; }
      Advance(1);
      return true;
    }

    method Advance(n: nat)
      requires offset + n <= |source|
      modifies this
      ensures offset == old(offset) + n && Rest() == old(Rest())[n..]
    {
      offset := offset + n;
    }
  }

  // ---------------------------------------------------------------- facts the loops use

  ghost function JoinItems(front: seq<Value>, r: Parsed<seq<Value>>): Parsed<seq<Value>> {
    if r.Err? then r else Ok((front + r.value.0, r.value.1))
  }

  ghost function JoinMembers(front: seq<(Text, Value)>, r: Parsed<seq<(Text, Value)>>): Parsed<seq<(Text, Value)>> {
    if r.Err? then r else Ok((front + r.value.0, r.value.1))
  }

  lemma JoinNoItems(r: Parsed<seq<Value>>)
    ensures JoinItems([], r) == r
  {
    if r.Ok? { assert [] + r.value.0 == r.value.0; }
  }

  lemma JoinNothing(r: Parsed<seq<(Text, Value)>>)
    ensures JoinMembers([], r) == r
  {
    if r.Ok? { assert [] + r.value.0 == r.value.0; }
  }

  lemma JoinItem(front: seq<Value>, item: Value)
    ensures forall r :: JoinItems(front, JoinItems([item], r)) == JoinItems(front + [item], r)
  {
    forall r ensures JoinItems(front, JoinItems([item], r)) == JoinItems(front + [item], r) {
      if r.Ok? { assert front + ([item] + r.value.0) == (front + [item]) + r.value.0; }
    }
  }

  lemma JoinMember(front: seq<(Text, Value)>, member: (Text, Value))
    ensures forall r :: JoinMembers(front, JoinMembers([member], r)) == JoinMembers(front + [member], r)
  {
    forall r ensures JoinMembers(front, JoinMembers([member], r)) == JoinMembers(front + [member], r) {
      if r.Ok? { assert front + ([member] + r.value.0) == (front + [member]) + r.value.0; }
    }
  }

  lemma PrependTwice(a: Text, b: Text, r: Parsed<Text>)
    ensures Prepend(a, Prepend(b, r)) == Prepend(a + b, r)
  {
    if r.Ok? { assert a + (b + r.value.0) == (a + b) + r.value.0; }
  }
}
