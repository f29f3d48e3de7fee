/**
 What the parser reads has no unpaired surrogate, raw ones included: when the text
 behind what was read is well-formed, so is the text from there on.
 */
module JsonSurrogates {
  import opened Basics
  import opened JsonGrammar
  import opened JsonParser
  import opened JsonLexis

  predicate IsPlain(u: Unit) { !IsHigh(u) && !IsLow(u) }

  lemma {:induction false} PlainBefore(a: Text, b: Text)
    requires WellFormed(b) && forall i | 0 <= i < |a| :: IsPlain(a[i])
    ensures WellFormed(a + b)
    decreases |a|
  {
    if a == [] { assert a + b == b; }
    else {
      assert (a + b)[1..] == a[1..] + b;
      PlainBefore(a[1..], b);
    }
  }

  lemma UnitBefore(t: Text)
    requires t != [] && IsPlain(t[0]) && WellFormed(t[1..])
    ensures WellFormed(t)
  {
  }

  lemma SpaceBefore(t: Text)
    requires WellFormed(SkipSpace(t))
    ensures WellFormed(t)
  {
    hide WellFormed;
    var space := SkippedIsSpace(t);
    PlainBefore(space, SkipSpace(t));
  }

  lemma SpaceAndUnitBefore(t: Text)
    requires SkipSpace(t) != [] && IsPlain(SkipSpace(t)[0]) && WellFormed(SkipSpace(t)[1..])
    ensures WellFormed(t)
  {
    UnitBefore(SkipSpace(t));
    SpaceBefore(t);
  }

  lemma HexBefore(t: Text)
    requires ReadHex(t).Ok? && WellFormed(ReadHex(t).value.1)
    ensures WellFormed(t)
  {
    hide WellFormed;
    HexRead(t);
    PlainBefore([t[0], t[1], t[2], t[3]], ReadHex(t).value.1);
  }

  lemma EscapeBefore(t: Text)
    requires ReadEscape(t).Ok? && WellFormed(ReadEscape(t).value.1)
    ensures WellFormed(t)
  {
    if t[0] == SMALL_U {
      UnicodeEscapeBefore(t[1..]);
    }
  }

  lemma UnicodeEscapeBefore(t: Text)
    requires ReadUnicodeEscape(t).Ok? && WellFormed(ReadUnicodeEscape(t).value.1)
    ensures WellFormed(t)
  {
    hide WellFormed, ReadHex;
    var t1 := ReadHex(t).value.1;
    if IsHigh(ReadHex(t).value.0) {
      HexBefore(t1[2..]);
      PlainBefore([t1[0], t1[1]], t1[2..]);
      assert t1 == [t1[0], t1[1]] + t1[2..];
    }
    HexBefore(t);
  }

  lemma {:induction false} CharsBefore(t: Text)
    requires ReadChars(t).Ok? && WellFormed(ReadChars(t).value.1)
    ensures WellFormed(t)
    decreases |t|
  {
    if t[0] == QUOTE {
      UnitBefore(t);
    } else if t[0] == BACKSLASH {
      var escape := ReadEscape(t[1..]);
      CharsBefore(escape.value.1);
      EscapeBefore(t[1..]);
    } else if IsHigh(t[0]) {
      CharsBefore(t[2..]);
    } else {
      CharsBefore(t[1..]);
    }
  }

  lemma NumberIsPlain(n: Num)
    requires ValidNum(n)
    ensures forall i | 0 <= i < |NumText(n)| :: IsPlain(NumText(n)[i])
  {
  }

  lemma NumberBefore(t: Text)
    requires AfterNumber(t).Ok? && WellFormed(AfterNumber(t).value)
    ensures WellFormed(t)
  {
    hide WellFormed, AfterNumber, NumText;
    var n := NumberSound(t);
    NumberIsPlain(n);
    PlainBefore(NumText(n), AfterNumber(t).value);
  }

  lemma LiteralBefore(t: Text, literal: Text, value: Value)
    requires ReadLiteral(t, literal, value).Ok? && WellFormed(ReadLiteral(t, literal, value).value.1)
    requires forall i | 0 <= i < |literal| :: IsPlain(literal[i])
    ensures WellFormed(t)
  {
    assert t == literal + t[|literal|..];
    PlainBefore(literal, t[|literal|..]);
  }

  lemma {:induction false} ValueBefore(t: Text)
    requires ReadValue(t).Ok? && WellFormed(ReadValue(t).value.1)
    ensures WellFormed(t)
    decreases |t|, 0
  {
    hide WellFormed, ReadItems, ReadMembers, ReadChars, AfterNumber, ReadLiteral, IsPlain;
    if t[0] == LBRACE || t[0] == LBRACKET {
      BracketedBefore(t);
    } else if t[0] == QUOTE {
      CharsBefore(t[1..]);
      QuoteBefore(t);
    } else if t[0] == TRUE_TEXT[0] || t[0] == FALSE_TEXT[0] || t[0] == NULL_TEXT[0] {
      NameBefore(t);
    } else {
      NumberBefore(t);
    }
  }

  lemma QuoteBefore(t: Text)
    requires Starts(t, QUOTE) && WellFormed(t[1..])
    ensures WellFormed(t)
  {
  }

  lemma NameBefore(t: Text)
    requires t != [] && (t[0] == TRUE_TEXT[0] || t[0] == FALSE_TEXT[0] || t[0] == NULL_TEXT[0])
    requires ReadValue(t).Ok? && WellFormed(ReadValue(t).value.1)
    ensures WellFormed(t)
  {
    hide WellFormed;
    if t[0] == TRUE_TEXT[0] { LiteralBefore(t, TRUE_TEXT, Boolean(true)); }
    else if t[0] == FALSE_TEXT[0] { LiteralBefore(t, FALSE_TEXT, Boolean(false)); }
    else { LiteralBefore(t, NULL_TEXT, Null); }
  }

  /** Arrays and objects, from their bracket on. */
  lemma {:induction false} BracketedBefore(t: Text)
    requires ReadValue(t).Ok? && (t[0] == LBRACE || t[0] == LBRACKET) && WellFormed(ReadValue(t).value.1)
    ensures WellFormed(t)
    decreases |t|, 0, 0
  {
    hide WellFormed, ReadItems, ReadMembers;
    var t1 := SkipSpace(t[1..]);
    if Starts(t1, if t[0] == LBRACE then RBRACE else RBRACKET) {
      UnitBefore(t1);
    } else if t[0] == LBRACE {
      MembersBefore(t1, {});
    } else {
      ItemsBefore(t1);
    }
    SpaceBefore(t[1..]);
    UnitBefore(t);
  }

  lemma {:induction false} ItemsBefore(t: Text)
    requires ReadItems(t).Ok? && WellFormed(ReadItems(t).value.1)
    ensures WellFormed(t)
    decreases |t|, 1
  {
    hide WellFormed, ReadValue, SkipSpace;
    var behind := ReadValue(t).value.1;
    var t1 := SkipSpace(behind);
    if Starts(t1, COMMA) {
      ItemsBefore(SkipSpace(t1[1..]));
      SpaceBefore(t1[1..]);
    }
    SpaceAndUnitBefore(behind);
    ValueBefore(t);
  }

  lemma {:induction false} MembersBefore(t: Text, seen: set<Text>)
    requires ReadMembers(t, seen).Ok? && WellFormed(ReadMembers(t, seen).value.1)
    ensures WellFormed(t)
    decreases |t|, 1
  {
    hide WellFormed, ReadValue, SkipSpace, ReadChars;
    var (text, t0) := ReadChars(t[1..]).value;
    var t1 := SkipSpace(t0);
    var behind := ReadValue(SkipSpace(t1[1..])).value.1;
    var t2 := SkipSpace(behind);
    if Starts(t2, COMMA) {
      MembersBefore(SkipSpace(t2[1..]), seen + {text});
      SpaceBefore(t2[1..]);
    }
    SpaceAndUnitBefore(behind);
    ValueBefore(SkipSpace(t1[1..]));
    SpaceBefore(t1[1..]);
    SpaceAndUnitBefore(t0);
    CharsBefore(t[1..]);
    QuoteBefore(t);
  }

  /** A text with an unpaired surrogate, raw or escaped, inside a string or not, is refused. */
  lemma ParsedIsWellFormed(t: Text)
    ensures Parse(t).Ok? ==> WellFormed(t)
  {
    hide ReadValue;
    if Parse(t).Ok? {
      SpaceBefore(ReadValue(SkipSpace(t)).value.1);
      ValueBefore(SkipSpace(t));
      SpaceBefore(t);
    }
  }
}
