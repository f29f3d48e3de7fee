/**
 The plain text handling under the broker journal: splitting and joining,
 unsigned decimals and hexadecimal digits, as the .NET calls in
 scripts/r4b-evidence/windows-native-boundary.cs behave.
 */
module JournalText {
  import opened Basics

  // ---------------------------------------------------------------- split and join

  function Split(s: string, c: char): (parts: seq<string>)
    ensures |parts| >= 1
  {
    if s == "" then [""]
    else
      var rest := Split(s[1..], c);
      if s[0] == c then [""] + rest else Grow(s[0], rest)
  }

  function Grow(c: char, parts: seq<string>): (grown: seq<string>)
    requires |parts| >= 1
    ensures |grown| == |parts|
  {
    [[c] + parts[0]] + parts[1..]
  }

  lemma GrowConcat(c: char, a: seq<string>, b: seq<string>)
    requires |a| >= 1
    ensures Grow(c, a + b) == Grow(c, a) + b
  {
    assert (a + b)[1..] == a[1..] + b;
  }

  function Join(parts: seq<string>, c: char): string
    requires |parts| >= 1
  {
    if |parts| == 1 then parts[0] else parts[0] + [c] + Join(parts[1..], c)
  }

  ghost predicate Free(parts: seq<string>, c: char) {
    forall i | 0 <= i < |parts| :: c !in parts[i]
  }

  lemma {:induction false} SplitPlain(s: string, c: char)
    requires c !in s
    ensures Split(s, c) == [s]
  {
    if s != "" {
      SplitPlain(s[1..], c);
      assert [s[0]] + s[1..] == s;
    }
  }

  lemma {:induction false} SplitConcat(a: string, b: string, c: char)
    ensures Split(a + [c] + b, c) == Split(a, c) + Split(b, c)
  {
    hide Grow;
    var s := a + [c] + b;
    if a == "" {
      assert s[1..] == b;
    } else {
      SplitConcat(a[1..], b, c);
      assert s[1..] == a[1..] + [c] + b && s[0] == a[0];
      var rest := Split(a[1..], c);
      GrowConcat(a[0], rest, Split(b, c));
      assert [""] + (rest + Split(b, c)) == ([""] + rest) + Split(b, c);
    }
  }

  /** Splitting takes a join apart. */
  lemma {:induction false} SplitOfJoin(parts: seq<string>, c: char)
    requires |parts| >= 1 && Free(parts, c)
    ensures Split(Join(parts, c), c) == parts
  {
    if |parts| == 1 {
      SplitPlain(parts[0], c);
    } else {
      SplitOfJoin(parts[1..], c);
      SplitPlain(parts[0], c);
      SplitConcat(parts[0], Join(parts[1..], c), c);
      assert [parts[0]] + parts[1..] == parts;
    }
  }

  lemma JoinTail(head: string, first: string, rest: seq<string>, c: char)
    ensures Join([head + first] + rest, c) == head + Join([first] + rest, c)
  {
    assert ([head + first] + rest)[1..] == rest == ([first] + rest)[1..];
  }

  /** Joining puts a split together. */
  lemma {:induction false} JoinOfSplit(s: string, c: char)
    ensures Join(Split(s, c), c) == s && Free(Split(s, c), c)
  {
    if s != "" {
      JoinOfSplit(s[1..], c);
      var rest := Split(s[1..], c);
      if s[0] == c {
        assert ([""] + rest)[1..] == rest;
        assert Join([""] + rest, c) == "" + [c] + Join(rest, c);
      } else {
        JoinTail([s[0]], rest[0], rest[1..], c);
        assert [rest[0]] + rest[1..] == rest;
      }
    }
  }

  /** Two joins of parts without the separator are equal only if the parts are. */
  lemma JoinIsInjective(a: seq<string>, b: seq<string>, c: char)
    requires |a| >= 1 && |b| >= 1 && Free(a, c) && Free(b, c) && Join(a, c) == Join(b, c)
    ensures a == b
  {
    SplitOfJoin(a, c);
    SplitOfJoin(b, c);
  }

  lemma {:induction false} JoinHasNo(parts: seq<string>, c: char, d: char)
    requires |parts| >= 1 && c != d && Free(parts, d)
    ensures d !in Join(parts, c)
  {
    if |parts| > 1 { JoinHasNo(parts[1..], c, d); }
  }

  // ---------------------------------------------------------------- lines

  function NonEmpty(parts: seq<string>): seq<string> {
    if parts == [] then [] else (if parts[0] == "" then [] else [parts[0]]) + NonEmpty(parts[1..])
  }

  lemma NonEmptyCons(first: string, rest: seq<string>)
    ensures NonEmpty([first] + rest) == (if first == "" then [] else [first]) + NonEmpty(rest)
  {
    assert ([first] + rest)[1..] == rest;
  }

  lemma {:induction false} NonEmptyConcat(a: seq<string>, b: seq<string>)
    ensures NonEmpty(a + b) == NonEmpty(a) + NonEmpty(b)
  {
    if a == [] { assert a + b == b; }
    else {
      hide NonEmpty;
      NonEmptyConcat(a[1..], b);
      NonEmptyCons(a[0], a[1..]);
      NonEmptyCons(a[0], a[1..] + b);
      assert a == [a[0]] + a[1..] && a + b == [a[0]] + (a[1..] + b);
    }
  }

  lemma {:induction false} NonEmptyMembers(parts: seq<string>)
    ensures forall p | p in NonEmpty(parts) :: p in parts && p != ""
  {
    if parts != [] { NonEmptyMembers(parts[1..]); }
  }

  /** The lines of a text; empty ones are dropped. */
  function Lines(text: string): seq<string> {
    NonEmpty(Split(text, '\n'))
  }

  lemma LinesHaveNoBreak(text: string)
    ensures forall line | line in Lines(text) :: '\n' !in line && line != ""
  {
    JoinOfSplit(text, '\n');
    NonEmptyMembers(Split(text, '\n'));
    forall line | line in Lines(text) ensures '\n' !in line {
      var i :| 0 <= i < |Split(text, '\n')| && Split(text, '\n')[i] == line;
    }
  }

  lemma LinesAppend(text: string, line: string)
    requires text == "" || text[|text| - 1] == '\n'
    requires '\n' !in line && line != ""
    ensures Lines(text + line + "\n") == Lines(text) + [line]
  {
    hide Split, NonEmpty;
    LineAlone(line);
    if text == "" {
      assert text + line + "\n" == line + "\n";
      EmptyText();
      assert [] + [line] == [line];
    } else {
      var before := text[..|text| - 1];
      SplitConcat(before, "", '\n');
      SplitConcat(before, line + "\n", '\n');
      assert text == before + ['\n'] + "" && text + line + "\n" == before + ['\n'] + (line + "\n");
      NonEmptyConcat(Split(before, '\n'), Split("", '\n'));
      NonEmptyConcat(Split(before, '\n'), Split(line + "\n", '\n'));
      EmptyText();
      LineAlone(line);
      assert Lines(text) == NonEmpty(Split(before, '\n')) + [];
    }
  }

  lemma EmptyText()
    ensures Lines("") == []
  {
    assert [""][1..] == [];
  }

  lemma LineAlone(line: string)
    requires '\n' !in line && line != ""
    ensures Lines(line + "\n") == [line]
  {
    SplitPlain(line, '\n');
    SplitConcat(line, "", '\n');
    assert line + "\n" == line + ['\n'] + "";
    assert Split(line + "\n", '\n') == [line, ""];
    NonEmptyCons(line, [""]);
    EmptyText();
    assert [line] + [""] == [line, ""];
  }

  // ---------------------------------------------------------------- numbers and digits

  const LIMIT64: nat := 0x1_0000_0000_0000_0000

  function Digit(d: nat): char
    requires d < 10
  {
    '0' + d as char
  }

  function Decimal(n: nat): (s: string)
    ensures |s| >= 1
  {
    if n < 10 then [Digit(n)] else Decimal(n / 10) + [Digit(n % 10)]
  }

  predicate IsDigit(c: char) { '0' <= c <= '9' }

  /** Digits only, leading zeros included, as NumberStyles.None reads them. */
  function ParseDecimal(s: string): Option<nat> {
    if s == "" then None
    else if !IsDigit(s[|s| - 1]) then None
    else
      var low := (s[|s| - 1] - '0') as nat;
      if |s| == 1 then Some(low)
      else
        var high := ParseDecimal(s[..|s| - 1]);
        if high.None? then None else Some(10 * high.value + low)
  }

  lemma {:induction false} ParseOfDecimal(n: nat)
    ensures ParseDecimal(Decimal(n)) == Some(n) && forall c | c in Decimal(n) :: IsDigit(c)
  {
    if n >= 10 {
      ParseOfDecimal(n / 10);
      assert Decimal(n)[..|Decimal(n)| - 1] == Decimal(n / 10);
    }
  }

  predicate CanonicalDecimal(s: string) {
    var n := ParseDecimal(s);
    n.Some? && n.value < LIMIT64 && Decimal(n.value) == s
  }

  /** A canonical decimal is the rendering of exactly one 64-bit number. */
  lemma CanonicalMeans(s: string)
    ensures CanonicalDecimal(s) <==> exists n: nat :: n < LIMIT64 && s == Decimal(n)
  {
    if n: nat :| n < LIMIT64 && s == Decimal(n) { ParseOfDecimal(n); }
  }

  predicate IsHexDigit(c: char) { '0' <= c <= '9' || 'a' <= c <= 'f' || 'A' <= c <= 'F' }

  predicate IsHex(s: string, n: nat) {
    |s| == n && forall i | 0 <= i < n :: IsHexDigit(s[i])
  }

  function LowerHexDigit(c: char): char { if 'A' <= c <= 'F' then c - 'A' + 'a' else c }

  /** Parsing hexadecimal bytes and printing them again gives lower-case digits. */
  function LowerHex(s: string): (r: string)
    ensures |r| == |s|
  {
    seq(|s|, i requires 0 <= i < |s| => LowerHexDigit(s[i]))
  }

  function Zeros(n: nat): (s: string)
    ensures |s| == n && forall i | 0 <= i < n :: s[i] == '0'
  {
    seq(n, i => '0')
  }

  /** Fit for a journal field: neither the field nor the line separator. */
  predicate Plain(s: string) {
    '|' !in s && '\n' !in s
  }
}
