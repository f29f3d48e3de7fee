/**
 White space, strings and numbers: what the grammar allows is read whole, and
 what is read was allowed by the grammar.
 */
module JsonLexis {
  import opened Basics
  import opened JsonGrammar
  import opened JsonParser

  // ---------------------------------------------------------------- white space and digits

  lemma {:induction false} SpaceSkips(space: Text, t: Text)
    requires AllSpace(space) && (t == [] || !IsSpace(t[0]))
    ensures SkipSpace(space + t) == t
  {
    if space == [] { assert space + t == t; }
    else {
      SpaceSkips(space[1..], t);
      assert (space + t)[1..] == space[1..] + t;
    }
  }

  lemma {:induction false} SkippedIsSpace(t: Text) returns (space: Text)
    ensures AllSpace(space) && t == space + SkipSpace(t)
    ensures SkipSpace(t) == [] || !IsSpace(SkipSpace(t)[0])
  {
    if t != [] && IsSpace(t[0]) {
      var rest := SkippedIsSpace(t[1..]);
      space := [t[0]] + rest;
      assert t == [t[0]] + t[1..];
    } else {
      space := [];
    }
  }

  lemma {:induction false} DigitsSkip(digits: Text, t: Text)
    requires AllDigits(digits) && !StartsDigit(t)
    ensures SkipDigits(digits + t) == t
  {
    if digits == [] { assert digits + t == t; }
    else {
      DigitsSkip(digits[1..], t);
      assert (digits + t)[1..] == digits[1..] + t;
    }
  }

  lemma {:induction false} SkippedAreDigits(t: Text) returns (digits: Text)
    ensures AllDigits(digits) && t == digits + SkipDigits(t) && !StartsDigit(SkipDigits(t))
    ensures StartsDigit(t) ==> digits != [] && digits[0] == t[0]
  {
    if StartsDigit(t) {
      var rest := SkippedAreDigits(t[1..]);
      digits := [t[0]] + rest;
      assert t == [t[0]] + t[1..];
    } else {
      digits := [];
    }
  }

  // ---------------------------------------------------------------- surrogates

  /** The code point of a surrogate pair is encoded as that pair. */
  lemma PairArithmetic(high: Unit, low: Unit)
    requires IsHigh(high) && IsLow(low)
    ensures FromCodePoint(0x10000 + (high - 0xD800) * 0x400 + (low - 0xDC00)) == [high, low]
  {
    var c := (high - 0xD800) * 0x400 + (low - 0xDC00);
    assert c / 0x400 == high - 0xD800 && c % 0x400 == low - 0xDC00;
  }

  lemma {:induction false} WellFormedConcat(a: Text, b: Text)
    requires WellFormed(a) && WellFormed(b)
    ensures WellFormed(a + b)
    decreases |a|
  {
    if a == [] { assert a + b == b; }
    else if !IsHigh(a[0]) && !IsLow(a[0]) {
      WellFormedConcat(a[1..], b);
      assert (a + b)[1..] == a[1..] + b;
    } else {
      WellFormedConcat(a[2..], b);
      assert (a + b)[2..] == a[2..] + b;
    }
  }

  /** A piece without surrogates can be taken off the front. */
  lemma {:induction false} PlainFront(a: Text, b: Text)
    requires WellFormed(a + b) && forall i | 0 <= i < |a| :: !IsHigh(a[i]) && !IsLow(a[i])
    ensures WellFormed(b)
    decreases |a|
  {
    if a == [] { assert a + b == b; }
    else {
      assert (a + b)[1..] == a[1..] + b;
      PlainFront(a[1..], b);
    }
  }

  // ---------------------------------------------------------------- strings: every valid string is read

  lemma FourHexIs(d0: Unit, d1: Unit, d2: Unit, d3: Unit, t: Text)
    requires IsHexUnit(d0) && IsHexUnit(d1) && IsHexUnit(d2) && IsHexUnit(d3)
    ensures ReadHex([d0, d1, d2, d3] + t) == Ok((FourHex(d0, d1, d2, d3), t))
  {
    assert ([d0, d1, d2, d3] + t)[4..] == t;
  }

  /** One escape of a unit that is no surrogate. */
  lemma EscapeReads(c: Char, t: Text)
    requires ValidChar(c) && !c.Plain? && !IsHigh(CharValue(c)) && !IsLow(CharValue(c))
    ensures ReadEscape(CharText(c)[1..] + t) == Ok(([CharValue(c)], t))
  {
    match c
    case Short(letter) =>
      assert CharText(c)[1..] + t == [letter] + t && ([letter] + t)[1..] == t;
    case Hex(d0, d1, d2, d3) =>
      var body := CharText(c)[1..] + t;
      assert body[1..] == [d0, d1, d2, d3] + t;
      FourHexIs(d0, d1, d2, d3, t);
    case _ =>
  }

  /** Two escapes that make a surrogate pair read as the pair. */
  lemma EscapedPairReads(h: Char, l: Char, t: Text)
    requires h.Hex? && l.Hex? && ValidChar(h) && ValidChar(l) && IsHigh(CharValue(h)) && IsLow(CharValue(l))
    ensures ReadEscape(CharText(h)[1..] + (CharText(l) + t)) == Ok(([CharValue(h), CharValue(l)], t))
  {
    var body := CharText(h)[1..] + (CharText(l) + t);
    assert body[1..] == [h.d0, h.d1, h.d2, h.d3] + (CharText(l) + t);
    FourHexIs(h.d0, h.d1, h.d2, h.d3, CharText(l) + t);
    var t1 := CharText(l) + t;
    assert t1[2..] == [l.d0, l.d1, l.d2, l.d3] + t;
    FourHexIs(l.d0, l.d1, l.d2, l.d3, t);
    PairArithmetic(CharValue(h), CharValue(l));
  }

  /** An escaped surrogate pair reads as the raw pair does. */
  lemma EscapedPairIsRawPair(h: Char, l: Char, t: Text)
    requires h.Hex? && l.Hex? && ValidChar(h) && ValidChar(l) && IsHigh(CharValue(h)) && IsLow(CharValue(l))
    ensures ReadChars(CharText(h) + (CharText(l) + t)) == ReadChars([CharValue(h), CharValue(l)] + t)
  {
    var escaped, raw := CharText(h) + (CharText(l) + t), [CharValue(h), CharValue(l)] + t;
    EscapedPairReads(h, l, t);
    assert escaped[1..] == CharText(h)[1..] + (CharText(l) + t);
    assert raw[..2] == [CharValue(h), CharValue(l)] && raw[2..] == t;
  }

  lemma EscapedReads(c: Char, t: Text)
    requires ValidChar(c) && !c.Plain? && !IsHigh(CharValue(c)) && !IsLow(CharValue(c))
    ensures ReadChars(CharText(c) + t) == Prepend([CharValue(c)], ReadChars(t))
  {
    EscapeReads(c, t);
    assert (CharText(c) + t)[1..] == CharText(c)[1..] + t;
  }

  lemma EscapedPairReadsOn(h: Char, l: Char, t: Text)
    requires h.Hex? && l.Hex? && ValidChar(h) && ValidChar(l) && IsHigh(CharValue(h)) && IsLow(CharValue(l))
    ensures ReadChars(CharText(h) + (CharText(l) + t)) == Prepend([CharValue(h), CharValue(l)], ReadChars(t))
  {
    hide FourHex, ReadEscape;
    EscapedPairReads(h, l, t);
    assert (CharText(h) + (CharText(l) + t))[1..] == CharText(h)[1..] + (CharText(l) + t);
  }

  lemma PlainReads(u: Unit, t: Text)
    requires ValidChar(Plain(u)) && !IsHigh(u) && !IsLow(u)
    ensures ReadChars([u] + t) == Prepend([u], ReadChars(t))
  {
    assert ([u] + t)[..1] == [u] && ([u] + t)[1..] == t;
  }

  lemma RawPairReads(h: Unit, l: Unit, t: Text)
    requires IsHigh(h) && IsLow(l)
    ensures ReadChars([h, l] + t) == Prepend([h, l], ReadChars(t))
  {
    assert ([h, l] + t)[..2] == [h, l] && ([h, l] + t)[2..] == t;
  }

  lemma NoSurrogates(c: Char)
    requires ValidChar(c) && !(c.Plain? && (IsHigh(c.u) || IsLow(c.u)))
    ensures forall i | 0 <= i < |CharText(c)| :: !IsHigh(CharText(c)[i]) && !IsLow(CharText(c)[i])
  {
  }

  lemma ShortIsNoSurrogate(c: Char)
    requires c.Short? && ValidChar(c)
    ensures !IsHigh(CharValue(c)) && !IsLow(CharValue(c))
  {
  }

  lemma CharsStep(cs: seq<Char>, t: Text)
    requires cs != []
    ensures CharsText(cs) + t == CharText(cs[0]) + (CharsText(cs[1..]) + t)
  {
  }

  /** A string of the grammar with paired surrogates is read whole, up to its quotation mark. */
  lemma {:induction false} CharsRead(cs: seq<Char>, t: Text)
    requires ValidString(cs) && WellFormed(CharsText(cs) + ([QUOTE] + t))
    ensures ReadChars(CharsText(cs) + ([QUOTE] + t)) == Ok((CharsValue(cs), t))
    decreases |cs|
  {
    var end := [QUOTE] + t;
    if cs == [] {
      assert CharsText(cs) + end == end && end[1..] == t;
    } else {
      var c, tail := cs[0], CharsText(cs[1..]) + end;
      CharsStep(cs, end);
      if !IsHigh(CharValue(c)) && !IsLow(CharValue(c)) {
        NoSurrogates(c);
        PlainFront(CharText(c), tail);
        CharsRead(cs[1..], t);
        if c.Plain? { PlainReads(c.u, tail); } else { EscapedReads(c, tail); }
      } else {
        PairRead(cs, t);
      }
    }
  }

  /** The case of a surrogate: its partner follows, both raw or both escaped. */
  lemma {:induction false} PairRead(cs: seq<Char>, t: Text)
    requires cs != [] && ValidString(cs) && WellFormed(CharsText(cs) + ([QUOTE] + t))
    requires IsHigh(CharValue(cs[0])) || IsLow(CharValue(cs[0]))
    ensures ReadChars(CharsText(cs) + ([QUOTE] + t)) == Ok((CharsValue(cs), t))
    decreases |cs|, 0
  {
    var end := [QUOTE] + t;
    var c := cs[0];
    HighNeedsLow(CharValue(c), CharsValue(cs[1..]));
    var d, rest := cs[1], cs[2..];
    assert cs[1..][0] == d && cs[1..][1..] == rest && ValidChars(cs[1..]) && ValidChar(d) && ValidChars(rest);
    assert CharsValue(cs[1..]) == [CharValue(d)] + CharsValue(rest);
    var tail := CharsText(rest) + end;
    CharsStep(cs, end);
    CharsStep(cs[1..], end);
    assert [CharValue(c)] + ([CharValue(d)] + CharsValue(rest)) == [CharValue(c), CharValue(d)] + CharsValue(rest);
    SameKindOfPair(c, d, tail);
    hide CharText, CharsText, ReadChars, ReadEscape, FourHex, ShortValue, WellFormed;
    TextBehindPair(c, d, tail);
    CharsRead(rest, t);
    PairOfChars(c, d, tail);
  }

  lemma HighNeedsLow(v: Unit, tail: Text)
    requires WellFormed([v] + tail) && (IsHigh(v) || IsLow(v))
    ensures IsHigh(v) && tail != [] && IsLow(tail[0]) && WellFormed(tail[1..])
  {
    assert ([v] + tail)[2..] == tail[1..] || tail == [];
  }

  lemma TextBehindPair(c: Char, d: Char, tail: Text)
    requires ValidChar(c) && ValidChar(d) && IsHigh(CharValue(c)) && IsLow(CharValue(d))
    requires (c.Plain? && d.Plain?) || (c.Hex? && d.Hex?)
    requires WellFormed(CharText(c) + (CharText(d) + tail))
    ensures WellFormed(tail)
  {
    if c.Plain? {
      assert CharText(c) + (CharText(d) + tail) == [c.u, d.u] + tail;
      assert ([c.u, d.u] + tail)[2..] == tail;
    } else {
      NoSurrogates(c);
      NoSurrogates(d);
      PlainFront(CharText(c), CharText(d) + tail);
      PlainFront(CharText(d), tail);
    }
  }

  lemma PairOfChars(c: Char, d: Char, tail: Text)
    requires ValidChar(c) && ValidChar(d) && IsHigh(CharValue(c)) && IsLow(CharValue(d))
    requires (c.Plain? && d.Plain?) || (c.Hex? && d.Hex?)
    ensures ReadChars(CharText(c) + (CharText(d) + tail)) == Prepend([CharValue(c), CharValue(d)], ReadChars(tail))
  {
    if c.Plain? {
      assert CharText(c) + (CharText(d) + tail) == [c.u, d.u] + tail;
      RawPairReads(c.u, d.u, tail);
    } else {
      EscapedPairReadsOn(c, d, tail);
    }
  }

  /** In well-formed text the halves of a pair are both raw or both escaped. */
  lemma SameKindOfPair(c: Char, d: Char, tail: Text)
    requires ValidChar(c) && ValidChar(d) && IsHigh(CharValue(c)) && IsLow(CharValue(d))
    requires WellFormed(CharText(c) + (CharText(d) + tail))
    ensures (c.Plain? && d.Plain?) || (c.Hex? && d.Hex?)
  {
    var text := CharText(c) + (CharText(d) + tail);
    if c.Short? { ShortIsNoSurrogate(c); }
    if d.Short? { ShortIsNoSurrogate(d); }
    if c.Plain? {
      assert text[0] == c.u && text[1] == CharText(d)[0];
    } else {
      NoSurrogates(c);
      PlainFront(CharText(c), CharText(d) + tail);
      assert (CharText(d) + tail)[0] == CharText(d)[0] && !IsLow((CharText(d) + tail)[0]);
    }
  }

  // ---------------------------------------------------------------- strings: what is read was a valid string

  lemma HexRead(t: Text)
    requires ReadHex(t).Ok?
    ensures var (u, rest) := ReadHex(t).value;
      var c := Hex(t[0], t[1], t[2], t[3]);
      ValidChar(c) && CharValue(c) == u && t == [t[0], t[1], t[2], t[3]] + rest
  {
  }

  /** An escape that is read is one escape, or two that make a pair. */
  lemma EscapeSound(t: Text) returns (cs: seq<Char>)
    requires ReadEscape(t).Ok?
    ensures ValidString(cs) && CharsValue(cs) == ReadEscape(t).value.0
    ensures [BACKSLASH] + t == CharsText(cs) + ReadEscape(t).value.1
  {
    if t[0] == SMALL_U {
      if IsHigh(ReadHex(t[1..]).value.0) { cs := EscapedPairSound(t); } else { cs := HexSound(t); }
    } else {
      cs := [Short(t[0])];
      OneChar(cs[0]);
      ShortIsNoSurrogate(cs[0]);
      assert [BACKSLASH] + t == [BACKSLASH, t[0]] + t[1..];
    }
  }

  lemma HexSound(t: Text) returns (cs: seq<Char>)
    requires ReadEscape(t).Ok? && t[0] == SMALL_U && !IsHigh(ReadHex(t[1..]).value.0)
    ensures ValidString(cs) && CharsValue(cs) == ReadEscape(t).value.0
    ensures [BACKSLASH] + t == CharsText(cs) + ReadEscape(t).value.1
  {
    HexRead(t[1..]);
    var c := Hex(t[1], t[2], t[3], t[4]);
    cs := [c];
    OneChar(c);
    hide FourHex, ReadHex, CharsText, CharsValue;
    assert [BACKSLASH] + t == [BACKSLASH, SMALL_U] + t[1..];
    assert [BACKSLASH, SMALL_U] + ([t[1], t[2], t[3], t[4]] + ReadHex(t[1..]).value.1) == CharText(c) + ReadHex(t[1..]).value.1;
  }

  lemma EscapedPairSound(t: Text) returns (cs: seq<Char>)
    requires ReadEscape(t).Ok? && t[0] == SMALL_U && IsHigh(ReadHex(t[1..]).value.0)
    ensures ValidString(cs) && CharsValue(cs) == ReadEscape(t).value.0
    ensures [BACKSLASH] + t == CharsText(cs) + ReadEscape(t).value.1
  {
    var (first, t1) := ReadHex(t[1..]).value;
    assert |t1| >= 2 && t1[0] == BACKSLASH && t1[1] == SMALL_U;
    var (second, t2) := ReadHex(t1[2..]).value;
    assert IsLow(second) && ReadEscape(t).value == (FromCodePoint(0x10000 + (first - 0xD800) * 0x400 + (second - 0xDC00)), t2);
    PairArithmetic(first, second);
    hide ReadEscape, FromCodePoint, FourHex;
    HexRead(t[1..]);
    HexRead(t1[2..]);
    hide ReadHex;
    var c, d := Hex(t[1], t[2], t[3], t[4]), Hex(t1[2], t1[3], t1[4], t1[5]);
    cs := [c, d];
    TwoChars(c, d);
    EscapedPairText(t, t1, t2, c, d);
  }

  lemma EscapedPairText(t: Text, t1: Text, t2: Text, c: Char, d: Char)
    requires c.Hex? && d.Hex? && t != [] && t[0] == SMALL_U && t[1..] == [c.d0, c.d1, c.d2, c.d3] + t1
    requires |t1| >= 2 && t1[0] == BACKSLASH && t1[1] == SMALL_U && t1[2..] == [d.d0, d.d1, d.d2, d.d3] + t2
    ensures [BACKSLASH] + t == (CharText(c) + CharText(d)) + t2
  {
    EscapeText(c, t1);
    EscapeText(d, t2);
    assert [BACKSLASH] + t == [BACKSLASH, SMALL_U] + t[1..] && t1 == [BACKSLASH, SMALL_U] + t1[2..];
    hide CharText;
  }

  lemma EscapeText(c: Char, t: Text)
    requires c.Hex?
    ensures [BACKSLASH, SMALL_U] + ([c.d0, c.d1, c.d2, c.d3] + t) == CharText(c) + t
  {
  }

  lemma OneChar(c: Char)
    requires ValidChar(c)
    ensures ValidChars([c]) && CharsText([c]) == CharText(c) && CharsValue([c]) == [CharValue(c)]
    ensures !IsHigh(CharValue(c)) && !IsLow(CharValue(c)) ==> WellFormed([CharValue(c)])
  {
    assert [c][1..] == [];
    assert CharsText([]) == [] && CharText(c) + [] == CharText(c);
    assert [CharValue(c)][1..] == [];
  }

  lemma TwoChars(c: Char, d: Char)
    requires ValidChar(c) && ValidChar(d)
    ensures ValidChars([c, d]) && CharsText([c, d]) == CharText(c) + CharText(d) && CharsValue([c, d]) == [CharValue(c), CharValue(d)]
    ensures IsHigh(CharValue(c)) && IsLow(CharValue(d)) ==> WellFormed([CharValue(c), CharValue(d)])
  {
    OneChar(d);
    assert [c, d][1..] == [d];
    assert [CharValue(c), CharValue(d)][2..] == [];
  }

  lemma {:induction false} CharsConcat(a: seq<Char>, b: seq<Char>)
    requires ValidString(a) && ValidString(b)
    ensures ValidString(a + b) && CharsText(a + b) == CharsText(a) + CharsText(b) && CharsValue(a + b) == CharsValue(a) + CharsValue(b)
  {
    CharsJoin(a, b);
    WellFormedConcat(CharsValue(a), CharsValue(b));
  }

  lemma {:induction false} CharsJoin(a: seq<Char>, b: seq<Char>)
    requires ValidChars(a) && ValidChars(b)
    ensures ValidChars(a + b) && CharsText(a + b) == CharsText(a) + CharsText(b) && CharsValue(a + b) == CharsValue(a) + CharsValue(b)
  {
    hide CharsText, CharsValue, ValidChar;
    if a == [] {
      assert a + b == b;
      NoChars();
      assert [] + CharsText(b) == CharsText(b) && [] + CharsValue(b) == CharsValue(b);
    } else {
      assert ValidChar(a[0]) && ValidChars(a[1..]);
      CharsJoin(a[1..], b);
      CharsCons(a[0], a[1..]);
      CharsCons(a[0], a[1..] + b);
      assert a == [a[0]] + a[1..] && a + b == [a[0]] + (a[1..] + b);
      hide ValidChars;
    }
  }

  lemma NoChars()
    ensures CharsText([]) == [] && CharsValue([]) == []
  {
  }

  lemma CharsCons(c: Char, cs: seq<Char>)
    requires ValidChar(c) && ValidChars(cs)
    ensures ValidChars([c] + cs) && CharsText([c] + cs) == CharText(c) + CharsText(cs)
    ensures CharsValue([c] + cs) == [CharValue(c)] + CharsValue(cs)
  {
    assert ([c] + cs)[1..] == cs;
  }

  /** The first character, escape or pair that is read. */
  lemma FrontSound(t: Text) returns (front: seq<Char>, rest: Text)
    requires ReadChars(t).Ok? && t[0] != QUOTE
    ensures ValidString(front) && t == CharsText(front) + rest && |rest| < |t|
    ensures ReadChars(t) == Prepend(CharsValue(front), ReadChars(rest))
  {
    hide CharsText, CharsValue, ReadEscape;
    if t[0] == BACKSLASH {
      front := EscapeSound(t[1..]);
      rest := ReadEscape(t[1..]).value.1;
      assert t == [BACKSLASH] + t[1..];
    } else if IsHigh(t[0]) {
      front := [Plain(t[0]), Plain(t[1])];
      TwoChars(front[0], front[1]);
      rest := t[2..];
      assert t[..2] == [t[0], t[1]] && t == t[..2] + t[2..];
    } else {
      front := [Plain(t[0])];
      OneChar(front[0]);
      rest := t[1..];
      assert t[..1] == [t[0]] && t == t[..1] + t[1..];
    }
  }

  /** What is read as a string is a string of the grammar, and its text is well-formed. */
  lemma {:induction false} CharsSound(t: Text) returns (cs: seq<Char>)
    requires ReadChars(t).Ok?
    ensures ValidString(cs) && CharsValue(cs) == ReadChars(t).value.0
    ensures t == CharsText(cs) + ([QUOTE] + ReadChars(t).value.1)
    decreases |t|
  {
    if t[0] == QUOTE {
      cs := [];
      assert t == [] + ([QUOTE] + t[1..]);
    } else {
      hide ReadChars, CharsText, CharsValue, ValidString;
      var front, rest := FrontSound(t);
      var back := CharsSound(rest);
      cs := front + back;
      JoinedString(front, back, t, rest, [QUOTE] + ReadChars(rest).value.1);
    }
  }

  lemma JoinedString(front: seq<Char>, back: seq<Char>, t: Text, rest: Text, end: Text)
    requires ValidString(front) && ValidString(back) && t == CharsText(front) + rest && rest == CharsText(back) + end
    ensures ValidString(front + back) && t == CharsText(front + back) + end
    ensures CharsValue(front + back) == CharsValue(front) + CharsValue(back)
  {
    hide CharsText, CharsValue, ValidChars, WellFormed;
    CharsConcat(front, back);
    assert CharsText(front) + (CharsText(back) + end) == (CharsText(front) + CharsText(back)) + end;
  }

  // ---------------------------------------------------------------- numbers

  /** What may stand behind a value. */
  predicate Ends(t: Text) { t == [] || IsSpace(t[0]) || t[0] == COMMA || t[0] == RBRACKET || t[0] == RBRACE }

  lemma FracReads(frac: Option<Text>, t: Text)
    requires (frac.Some? ==> frac.value != [] && AllDigits(frac.value)) && !StartsDigit(t) && !Starts(t, DOT)
    ensures AfterFrac(FracText(frac) + t) == Ok(t)
  {
    if frac.Some? {
      var digits := frac.value;
      assert (FracText(frac) + t)[1..] == digits + t;
      assert (digits + t)[1..] == digits[1..] + t;
      assert forall i | 0 <= i < |digits[1..]| :: digits[1..][i] == digits[i + 1];
      DigitsSkip(digits[1..], t);
    } else {
      assert FracText(frac) + t == t;
    }
  }

  lemma ExpReads(exp: Option<Exponent>, t: Text)
    requires ValidNum(Num(false, [ZERO], None, exp)) && Ends(t)
    ensures AfterExp(ExpText(exp) + t) == Ok(t)
  {
    if exp.Some? {
      var sign := if exp.value.sign.Some? then [exp.value.sign.value] else [];
      var digits := exp.value.digits;
      assert ExpText(exp) + t == [exp.value.e] + (sign + (digits + t));
      assert ([exp.value.e] + (sign + (digits + t)))[1..] == sign + (digits + t);
      if exp.value.sign.Some? { assert (sign + (digits + t))[1..] == digits + t; } else { assert sign + (digits + t) == digits + t; }
      DigitsSkip(digits, t);
    } else {
      assert ExpText(exp) + t == t;
    }
  }

  lemma WholeReads(whole: Text, t: Text)
    requires ValidNum(Num(false, whole, None, None)) && !StartsDigit(t)
    ensures AfterWhole(whole + t) == Ok(t)
  {
    assert (whole + t)[1..] == whole[1..] + t;
    assert forall i | 0 <= i < |whole[1..]| :: whole[1..][i] == whole[i + 1];
    if whole == [ZERO] { assert whole[1..] + t == t; } else { DigitsSkip(whole[1..], t); }
  }

  /** A number of the grammar is read whole. */
  lemma NumberReads(n: Num, t: Text)
    requires ValidNum(n) && Ends(t)
    ensures AfterNumber(NumText(n) + t) == Ok(t)
  {
    var e := ExpText(n.exp) + t;
    var f := FracText(n.frac) + e;
    NumberParts(n, t);
    if n.minus { assert ([MINUS] + (n.whole + f))[1..] == n.whole + f; } else { assert [] + (n.whole + f) == n.whole + f; }
    EndsBehind(n, t);
    WholeReads(n.whole, f);
    FracReads(n.frac, e);
    ExpReads(n.exp, t);
    hide NumText, FracText, ExpText, AfterWhole, AfterFrac, AfterExp, AllDigits;
  }

  lemma NumberParts(n: Num, t: Text)
    ensures NumText(n) + t == (if n.minus then [MINUS] else []) + (n.whole + (FracText(n.frac) + (ExpText(n.exp) + t)))
  {
    hide FracText, ExpText;
    var sign := if n.minus then [MINUS] else [];
    Associate(sign, n.whole, FracText(n.frac), ExpText(n.exp), t);
  }

  lemma Associate(a: Text, b: Text, c: Text, d: Text, t: Text)
    ensures (a + (b + (c + d))) + t == a + (b + (c + (d + t)))
  {
  }

  lemma EndsBehind(n: Num, t: Text)
    requires ValidNum(n) && Ends(t)
    ensures var e := ExpText(n.exp) + t;
      !StartsDigit(e) && !Starts(e, DOT) && !StartsDigit(FracText(n.frac) + e)
    ensures !(n.minus) ==> !Starts(n.whole + (FracText(n.frac) + (ExpText(n.exp) + t)), MINUS)
  {
    if n.exp.None? { assert ExpText(n.exp) + t == t; }
    if n.frac.None? { assert FracText(n.frac) + (ExpText(n.exp) + t) == ExpText(n.exp) + t; }
  }

  lemma WholeSound(t: Text) returns (whole: Text)
    requires AfterWhole(t).Ok?
    ensures ValidNum(Num(false, whole, None, None)) && t == whole + AfterWhole(t).value
  {
    hide SkipDigits;
    if Starts(t, ZERO) {
      whole := [ZERO];
      assert t == [t[0]] + t[1..];
    } else {
      var digits := SkippedAreDigits(t[1..]);
      whole := [t[0]] + digits;
      assert t == [t[0]] + t[1..];
    }
  }

  lemma FracSound(t: Text) returns (frac: Option<Text>)
    requires AfterFrac(t).Ok?
    ensures (frac.Some? ==> frac.value != [] && AllDigits(frac.value)) && t == FracText(frac) + AfterFrac(t).value
  {
    if Starts(t, DOT) {
      var digits := SkippedAreDigits(t[1..]);
      frac := Some(digits);
      assert t == [t[0]] + t[1..];
    } else {
      frac := None;
    }
  }

  lemma ExpSound(t: Text) returns (exp: Option<Exponent>)
    requires AfterExp(t).Ok?
    ensures ValidNum(Num(false, [ZERO], None, exp)) && t == ExpText(exp) + AfterExp(t).value
  {
    hide SkipDigits;
    if Starts(t, 0x65) || Starts(t, 0x45) {
      var t1 := t[1..];
      assert t == [t[0]] + t1;
      if Starts(t1, PLUS) || Starts(t1, MINUS) {
        assert t1 == [t1[0]] + t1[1..];
        var digits := SkippedAreDigits(t1[1..]);
        exp := Some(Exponent(t[0], Some(t1[0]), digits));
      } else {
        var digits := SkippedAreDigits(t1);
        exp := Some(Exponent(t[0], None, digits));
      }
    } else {
      exp := None;
    }
  }

  lemma NumberSound(t: Text) returns (n: Num)
    requires AfterNumber(t).Ok?
    ensures ValidNum(n) && t == NumText(n) + AfterNumber(t).value
  {
    hide FracText, ExpText, AfterWhole, AfterFrac, AfterExp;
    var minus := Starts(t, MINUS);
    var t1 := if minus then t[1..] else t;
    var whole := WholeSound(t1);
    var t2 := AfterWhole(t1).value;
    var frac := FracSound(t2);
    var t3 := AfterFrac(t2).value;
    var exp := ExpSound(t3);
    n := Num(minus, whole, frac, exp);
    var rest := AfterNumber(t).value;
    NumberParts(n, rest);
    assert t == (if minus then [MINUS] else []) + t1;
    hide NumText;
  }
}
