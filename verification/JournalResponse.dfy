/**
 The broker's JSON responses and the check the loader makes of a stored one
 (scripts/r4b-evidence/windows-native-boundary.cs, Response and
 ValidateStoredResponseIdentity). The check counts marker texts such as
 `"status":` in the whole response, values included; it is shown here that no
 value, however hostile, can forge one, because it is escaped.
 */
module JournalResponse {
  import opened Basics

  // ---------------------------------------------------------------- escaping

  function HexDigitOf(n: nat): char
    requires n < 16
  {
    if n < 10 then '0' + n as char else 'a' + (n - 10) as char
  }

  function EscapeChar(c: char): (s: string)
    ensures |s| >= 1
  {
    if c == '\\' then "\\\\"
    else if c == '"' then "\\\""
    else if c == '\n' then "\\n"
    else if c == '\r' then "\\r"
    else if c == '\t' then "\\t"
    else if (c as int) < 0x20 then "\\u00" + [HexDigitOf(c as int / 16), HexDigitOf(c as int % 16)]
    else [c]
  }

  function Escape(s: string): string {
    if s == "" then "" else EscapeChar(s[0]) + Escape(s[1..])
  }

  function Quote(s: string): string { "\"" + Escape(s) + "\"" }

  /** In escaped text a quotation mark always follows a backslash. */
  ghost predicate QuotesEscaped(s: string) {
    forall i | 0 <= i < |s| && s[i] == '"' :: i > 0 && s[i - 1] == '\\'
  }

  lemma {:induction false} EscapeEscapesQuotes(s: string)
    ensures QuotesEscaped(Escape(s))
  {
    if s != "" {
      EscapeEscapesQuotes(s[1..]);
      var head, rest := EscapeChar(s[0]), Escape(s[1..]);
      forall i | 0 <= i < |head + rest| && (head + rest)[i] == '"' ensures i > 0 && (head + rest)[i - 1] == '\\' {
        if i >= |head| { assert (head + rest)[i] == rest[i - |head|]; }
      }
    }
  }

  predicate IsWordChar(c: char) { 'a' <= c <= 'z' || 'A' <= c <= 'Z' || '0' <= c <= '9' || c == '_' }

  predicate IsWord(s: string) { forall i | 0 <= i < |s| :: IsWordChar(s[i]) }

  lemma {:induction false} WordsEscapeToThemselves(s: string)
    requires IsWord(s)
    ensures Escape(s) == s
  {
    if s != "" {
      WordsEscapeToThemselves(s[1..]);
      assert [s[0]] + s[1..] == s;
    }
  }

  // ---------------------------------------------------------------- objects of named values

  /** A member of the response: its key and its value as it stands in the text. */
  datatype Item = Quoted(key: string, value: string) | Raw(key: string, text: string)
  {
    function ValueText(): string {
      if Quoted? then Quote(value) else text
    }

    predicate Valid() { IsWord(key) && (Raw? ==> IsWord(text)) }
  }

  function ItemText(item: Item): string { "," + Quote(item.key) + ":" + item.ValueText() }

  function Tail(items: seq<Item>): string {
    if items == [] then "}" else ItemText(items[0]) + Tail(items[1..])
  }

  /** The object: the first comma gives way to the opening brace. */
  function Render(items: seq<Item>): string { "{" + Tail(items)[1..] }

  predicate OccursAt(text: string, marker: string, i: int) {
    0 <= i && i + |marker| <= |text| && text[i..i + |marker|] == marker
  }

  function Marker(name: string): string { "\"" + name + "\":" }

  lemma {:induction false} TailStart(items: seq<Item>)
    ensures |Tail(items)| >= 1 && (Tail(items)[0] == ',' || Tail(items)[0] == '}')
  {
  }

  /** What a marker occurrence says about single characters. */
  lemma MarkerAt(text: string, name: string, i: int)
    requires IsWord(name) && name != "" && OccursAt(text, Marker(name), i)
    ensures 0 <= i && i + |name| + 3 <= |text|
    ensures text[i] == '"' && text[i + 1 + |name|] == '"' && text[i + 2 + |name|] == ':'
    ensures text[i + 1..i + 1 + |name|] == name
    ensures forall k | i < k <= i + |name| :: IsWordChar(text[k])
  {
    var m := Marker(name);
    var slice := text[i..i + |m|];
    assert |m| == |name| + 3 && m[0] == '"' && m[1 + |name|] == '"' && m[2 + |name|] == ':' && m[1..1 + |name|] == name;
    assert slice[0] == text[i] && slice[1 + |name|] == text[i + 1 + |name|] && slice[2 + |name|] == text[i + 2 + |name|];
    SliceOfSlice(text, i, i + |m|, 1, 1 + |name|);
    forall k | i < k <= i + |name| ensures IsWordChar(text[k]) {
      assert text[k] == text[i + 1..i + 1 + |name|][k - i - 1];
    }
  }

  /** No marker starts inside a value: an inner quotation mark is escaped, the outer one is not followed by a colon. */
  lemma NotInQuotedValue(text: string, name: string, i: int, open: int, close: int)
    requires IsWord(name) && name != "" && OccursAt(text, Marker(name), i)
    requires 0 <= open < close < |text| - 1 && QuotesEscaped(text[open + 1..close])
    requires text[close] == '"' && text[close + 1] != ':' && !IsWordChar(text[close + 1])
    ensures !(open <= i <= close)
  {
    MarkerAt(text, name, i);
    var value := text[open + 1..close];
    forall k | open < k < close && text[k] == '"' ensures text[k - 1] == '\\' {
      assert value[k - open - 1] == text[k] && value[k - open - 2] == text[k - 1];
    }
    var p := i + 1 + |name|;
    assert IsWordChar(text[i + 1]) && IsWordChar(text[p - 1]) && text[p] == '"';
    assert !(open < p < close);
  }

  /** A marker that starts in a key is that key. */
  lemma InKey(text: string, name: string, i: int, key: string, open: int)
    requires IsWord(name) && name != "" && IsWord(key) && OccursAt(text, Marker(name), i)
    requires 0 <= open && open + |key| + 2 < |text|
    requires text[open] == '"' && text[open + 1..open + 1 + |key|] == key
    requires text[open + 1 + |key|] == '"' && text[open + 2 + |key|] == ':'
    requires open <= i <= open + 2 + |key|
    ensures i == open && key == name
  {
    MarkerAt(text, name, i);
    forall k | open < k <= open + |key| ensures IsWordChar(text[k]) {
      assert text[k] == text[open + 1..open + 1 + |key|][k - open - 1];
    }
  }

  /** Where the parts of a member stand. */
  lemma ItemLayout(item: Item, rest: string)
    requires item.Valid()
    ensures var text, n := ItemText(item) + rest, |item.key|;
      && |ItemText(item)| == n + 4 + |item.ValueText()|
      && text[0] == ',' && text[1] == '"' && text[2..2 + n] == item.key && text[2 + n] == '"' && text[3 + n] == ':'
      && text[4 + n..|ItemText(item)|] == item.ValueText()
  {
    WordsEscapeToThemselves(item.key);
    hide Escape, IsWord, Item.ValueText;
    Assembled(item.key, item.ValueText());
    assert ItemText(item) == RawText(item.key, item.ValueText());
    hide ItemText;
    RawLayout(item.key, item.ValueText(), rest);
  }

  lemma RawLayout(key: string, value: string, rest: string)
    ensures var text, n := RawText(key, value) + rest, |key|;
      && |RawText(key, value)| == n + 4 + |value|
      && text[0] == ',' && text[1] == '"' && text[2..2 + n] == key && text[2 + n] == '"' && text[3 + n] == ':'
      && text[4 + n..|RawText(key, value)|] == value
  {
    var text := RawText(key, value) + rest;
    assert text[2..] == key + ("\":" + value + rest);
    SliceOfSlice(text, 2, |text|, 0, |key|);
    assert text[4 + |key|..] == value + rest;
    SliceOfSlice(text, 4 + |key|, |text|, 0, |value|);
  }

  /** A marker in the tail of an object is the key of its first member, or lies in the rest. */
  lemma TailOccurrence(items: seq<Item>, name: string, i: int)
    requires items != [] && items[0].Valid() && IsWord(name) && name != "" && OccursAt(Tail(items), Marker(name), i)
    ensures (i == 1 && items[0].key == name)
         || (i >= |ItemText(items[0])| && OccursAt(Tail(items[1..]), Marker(name), i - |ItemText(items[0])|))
  {
    var item, rest := items[0], Tail(items[1..]);
    var head := ItemText(item);
    assert Tail(items) == head + rest;
    TailStart(items[1..]);
    OccurrenceInMember(item, rest, name, i);
  }

  lemma OccurrenceInMember(item: Item, rest: string, name: string, i: int)
    requires item.Valid() && IsWord(name) && name != "" && OccursAt(ItemText(item) + rest, Marker(name), i)
    requires |rest| >= 1 && (rest[0] == ',' || rest[0] == '}')
    ensures (i == 1 && item.key == name) || (i >= |ItemText(item)| && OccursAt(rest, Marker(name), i - |ItemText(item)|))
  {
    hide ItemText;
    var head, n := ItemText(item), |item.key|;
    ItemLayout(item, rest);
    MarkerAt(head + rest, name, i);
    if i >= |head| {
      OccursInRest(head, rest, Marker(name), i);
    } else if i >= n + 4 {
      assert head[n + 4..] == (head + rest)[n + 4..|head|];
      InValue(head, rest, item, name, i);
    } else if i >= 1 {
      InKey(head + rest, name, i, item.key, 1);
    }
  }

  lemma OccursInRest(head: string, rest: string, marker: string, i: int)
    requires i >= |head| && OccursAt(head + rest, marker, i)
    ensures OccursAt(rest, marker, i - |head|)
  {
    assert (head + rest)[i..i + |marker|] == rest[i - |head|..i - |head| + |marker|];
  }

  lemma InValue(head: string, rest: string, item: Item, name: string, i: int)
    requires item.Valid() && |head| == |item.key| + 4 + |item.ValueText()|
    requires head[|item.key| + 4..] == item.ValueText()
    requires |rest| >= 1 && (rest[0] == ',' || rest[0] == '}')
    requires IsWord(name) && name != "" && OccursAt(head + rest, Marker(name), i)
    ensures !(|item.key| + 4 <= i < |head|)
  {
    var text, v := head + rest, |item.key| + 4;
    MarkerAt(text, name, i);
    match item
    case Raw(_, raw) =>
      forall k | v <= k < |head| ensures IsWordChar(text[k]) {
        assert text[k] == head[v..][k - v] == raw[k - v];
      }
    case Quoted(_, value) =>
      QuotedValueLayout(value);
      var quoted := Quote(value);
      var close := v + |quoted| - 1;
      assert text[v..|head|] == quoted;
      SliceOfSlice(text, v, |head|, 1, |quoted| - 1);
      assert text[close] == head[v..][|quoted| - 1] && text[close + 1] == rest[0];
      NotInQuotedValue(text, name, i, v, close);
  }

  lemma QuotedValueLayout(value: string)
    ensures var quoted := Quote(value);
      |quoted| >= 2 && quoted[0] == '"' && quoted[|quoted| - 1] == '"' && QuotesEscaped(quoted[1..|quoted| - 1])
  {
    EscapeEscapesQuotes(value);
    assert Quote(value)[1..|Quote(value)| - 1] == Escape(value);
  }

  /** How many members carry the name. */
  function Named(items: seq<Item>, name: string): nat {
    if items == [] then 0 else (if items[0].key == name then 1 else 0) + Named(items[1..], name)
  }

  ghost predicate AllValid(items: seq<Item>) { forall i | 0 <= i < |items| :: items[i].Valid() }

  lemma {:induction false} NoMember(items: seq<Item>, name: string, i: int)
    requires AllValid(items) && IsWord(name) && name != "" && Named(items, name) == 0
    ensures !OccursAt(Tail(items), Marker(name), i)
    decreases |items|
  {
    hide ItemText, OccursAt, IsWord;
    if OccursAt(Tail(items), Marker(name), i) {
      if items == [] { MarkerAt(Tail(items), name, i); }
      else {
        TailOccurrence(items, name, i);
        NoMember(items[1..], name, i - |ItemText(items[0])|);
      }
    }
  }

  lemma {:induction false} OneMember(items: seq<Item>, name: string, i: int, j: int)
    requires AllValid(items) && IsWord(name) && name != "" && Named(items, name) <= 1
    requires OccursAt(Tail(items), Marker(name), i) && OccursAt(Tail(items), Marker(name), j)
    ensures i == j
    decreases |items|
  {
    hide ItemText, OccursAt, IsWord;
    if items == [] { MarkerAt(Tail(items), name, i); }
    else {
      var n := |ItemText(items[0])|;
      TailOccurrence(items, name, i);
      TailOccurrence(items, name, j);
      if items[0].key == name {
        NoMember(items[1..], name, i - n);
        NoMember(items[1..], name, j - n);
      } else {
        OneMember(items[1..], name, i - n, j - n);
      }
    }
  }

  lemma RenderShifts(items: seq<Item>, name: string, i: int)
    requires IsWord(name) && name != "" && OccursAt(Render(items), Marker(name), i)
    ensures OccursAt(Tail(items), Marker(name), i)
  {
    TailStart(items);
    MarkerAt(Render(items), name, i);
    SameAfterFirst(Render(items), Tail(items), Marker(name), i);
  }

  lemma SameAfterFirst(a: string, b: string, marker: string, i: int)
    requires a != "" && b != "" && a[1..] == b[1..] && i >= 1 && OccursAt(a, marker, i)
    ensures OccursAt(b, marker, i)
  {
    SliceOfSlice(a, 1, |a|, i - 1, i - 1 + |marker|);
    SliceOfSlice(b, 1, |b|, i - 1, i - 1 + |marker|);
  }

  // ---------------------------------------------------------------- responses

  /** The quoted keys that identify a response. */
  const MAGIC_KEY := "magic"
  const VERSION_KEY := "version"
  const NONCE_KEY := "sessionNonce"
  const SEQUENCE_KEY := "sequence"
  const OPERATION_KEY := "operation"
  const REQUEST_KEY := "requestSha256"
  const STATUS_KEY := "status"
  const ERROR_KEY := "errorCode"

  const RESERVED: set<string> :=
    {MAGIC_KEY, VERSION_KEY, NONCE_KEY, SEQUENCE_KEY, OPERATION_KEY, REQUEST_KEY, STATUS_KEY}

  function ValueItems(values: seq<(string, string)>): seq<Item> {
    if values == [] then [] else [Quoted(values[0].0, values[0].1)] + ValueItems(values[1..])
  }

  function IdentityItems(nonce: string, sequence: string, operation: string, request: string, status: string): seq<Item> {
    [Quoted(MAGIC_KEY, "FLUYONS1"), Raw(VERSION_KEY, "1"), Quoted(NONCE_KEY, nonce), Quoted(SEQUENCE_KEY, sequence),
     Quoted(OPERATION_KEY, operation), Quoted(REQUEST_KEY, request), Quoted(STATUS_KEY, status)]
  }

  function Response(nonce: string, sequence: string, operation: string, request: string, status: string,
                    errorCode: string, values: seq<(string, string)>): string {
    Render(AllItems(nonce, sequence, operation, request, status, errorCode, values))
  }

  function WordText(key: string, value: string): string { ",\"" + key + "\":\"" + value + "\"" }

  function RawText(key: string, text: string): string { ",\"" + key + "\":" + text }

  const STATUS_OPEN := ",\"status\":\""

  /**
   The text up to the status word:
   {"magic":"FLUYONS1","version":1,"sessionNonce":"...","sequence":"...","operation":"...","requestSha256":"...","status":"
   */
  function IdentityPrefix(nonce: string, sequence: string, operation: string, request: string): string {
    "{" + Opening(nonce, sequence, operation, request)[1..]
  }

  function Opening(nonce: string, sequence: string, operation: string, request: string): string {
    WordText(MAGIC_KEY, "FLUYONS1") + (RawText(VERSION_KEY, "1") + (WordText(NONCE_KEY, nonce) + (WordText(SEQUENCE_KEY, sequence)
      + (WordText(OPERATION_KEY, operation) + (WordText(REQUEST_KEY, request) + STATUS_OPEN)))))
  }

  predicate StartsWith(text: string, prefix: string) { |prefix| <= |text| && text[..|prefix|] == prefix }

  predicate EndsWith(text: string, suffix: string) { |suffix| <= |text| && text[|text| - |suffix|..] == suffix }

  /** The first occurrence is the last one. */
  predicate Once(text: string, marker: string) {
    forall i, j | 0 <= i < |text| && 0 <= j < |text| && OccursAt(text, marker, i) && OccursAt(text, marker, j) :: i == j
  }

  /** The loader's check that a stored response answers exactly this request. */
  predicate AnswersRequest(text: string, nonce: string, sequence: string, operation: string, request: string) {
    var prefix := IdentityPrefix(nonce, sequence, operation, request);
    && StartsWith(text, prefix) && EndsWith(text, "}")
    && (StartsWith(text[|prefix|..], "PASS\"") || StartsWith(text[|prefix|..], "FAIL\""))
    && (forall name | name in RESERVED :: Once(text, Marker(name)))
  }

  ghost predicate FreeKeys(values: seq<(string, string)>) {
    forall i | 0 <= i < |values| :: IsWord(values[i].0) && values[i].0 !in RESERVED
  }

  lemma {:induction false} ValueItemsAreFree(values: seq<(string, string)>, name: string)
    requires FreeKeys(values) && name in RESERVED
    ensures AllValid(ValueItems(values)) && Named(ValueItems(values), name) == 0
  {
    if values != [] {
      ValueItemsAreFree(values[1..], name);
      var rest := ValueItems(values[1..]);
      assert ValueItems(values)[1..] == rest;
      forall i | 0 <= i < |ValueItems(values)| ensures ValueItems(values)[i].Valid() {
        if i > 0 { assert ValueItems(values)[i] == rest[i - 1]; }
      }
    }
  }

  lemma {:induction false} NamedConcat(a: seq<Item>, b: seq<Item>, name: string)
    ensures Named(a + b, name) == Named(a, name) + Named(b, name)
  {
    if a == [] { assert a + b == b; }
    else {
      NamedConcat(a[1..], b, name);
      assert (a + b)[1..] == a[1..] + b;
    }
  }

  lemma {:induction false} TailEnds(items: seq<Item>)
    ensures EndsWith(Tail(items), "}")
  {
    if items != [] { TailEnds(items[1..]); }
  }

  lemma ReservedAreWords(name: string)
    requires name in RESERVED
    ensures IsWord(name) && name != ""
  {
  }

  lemma NamedStep(first: Item, rest: seq<Item>, name: string)
    ensures Named([first] + rest, name) == (if first.key == name then 1 else 0) + Named(rest, name)
  {
    assert ([first] + rest)[1..] == rest;
  }

  lemma IdentityNamesOnce(nonce: string, sequence: string, operation: string, request: string, status: string, name: string)
    requires name in RESERVED
    ensures Named(IdentityItems(nonce, sequence, operation, request, status), name) == 1
  {
    hide Named;
    NoneNamed(name);
    var i6 := [Quoted(STATUS_KEY, status)];
    var i5 := [Quoted(REQUEST_KEY, request)] + i6;
    var i4 := [Quoted(OPERATION_KEY, operation)] + i5;
    var i3 := [Quoted(SEQUENCE_KEY, sequence)] + i4;
    var i2 := [Quoted(NONCE_KEY, nonce)] + i3;
    var i1 := [Raw(VERSION_KEY, "1")] + i2;
    assert IdentityItems(nonce, sequence, operation, request, status) == [Quoted(MAGIC_KEY, "FLUYONS1")] + i1;
    assert i6 == i6 + [];
    NamedStep(Quoted(STATUS_KEY, status), [], name);
    NamedStep(Quoted(REQUEST_KEY, request), i6, name);
    NamedStep(Quoted(OPERATION_KEY, operation), i5, name);
    NamedStep(Quoted(SEQUENCE_KEY, sequence), i4, name);
    NamedStep(Quoted(NONCE_KEY, nonce), i3, name);
    NamedStep(Raw(VERSION_KEY, "1"), i2, name);
    NamedStep(Quoted(MAGIC_KEY, "FLUYONS1"), i1, name);
  }

  lemma NoneNamed(name: string)
    ensures Named([], name) == 0
  {
  }

  function AllItems(nonce: string, sequence: string, operation: string, request: string, status: string,
                    errorCode: string, values: seq<(string, string)>): seq<Item> {
    IdentityItems(nonce, sequence, operation, request, status) + MoreItems(errorCode, values)
  }

  function MoreItems(errorCode: string, values: seq<(string, string)>): seq<Item> {
    (if errorCode == "" then [] else [Quoted(ERROR_KEY, errorCode)]) + ValueItems(values)
  }

  lemma MoreItemsAreFree(errorCode: string, values: seq<(string, string)>, name: string)
    requires FreeKeys(values) && name in RESERVED
    ensures AllValid(MoreItems(errorCode, values)) && Named(MoreItems(errorCode, values), name) == 0
  {
    ValueItemsAreFree(values, name);
    if errorCode == "" {
      assert MoreItems(errorCode, values) == ValueItems(values);
    } else {
      assert MoreItems(errorCode, values) == [Quoted(ERROR_KEY, errorCode)] + ValueItems(values);
      NamedStep(Quoted(ERROR_KEY, errorCode), ValueItems(values), name);
    }
  }

  lemma IdentityItemsValid(nonce: string, sequence: string, operation: string, request: string, status: string)
    ensures AllValid(IdentityItems(nonce, sequence, operation, request, status))
  {
    assert IsWord(MAGIC_KEY) && IsWord(VERSION_KEY) && IsWord("1") && IsWord(NONCE_KEY);
    assert IsWord(SEQUENCE_KEY) && IsWord(OPERATION_KEY) && IsWord(REQUEST_KEY) && IsWord(STATUS_KEY);
  }

  lemma ResponseItems(nonce: string, sequence: string, operation: string, request: string, status: string,
                      errorCode: string, values: seq<(string, string)>, name: string)
    requires FreeKeys(values) && name in RESERVED
    ensures var items := AllItems(nonce, sequence, operation, request, status, errorCode, values);
      AllValid(items) && Named(items, name) == 1
  {
    IdentityItemsValid(nonce, sequence, operation, request, status);
    MoreItemsAreFree(errorCode, values, name);
    IdentityNamesOnce(nonce, sequence, operation, request, status, name);
    hide Named, IdentityItems, MoreItems, FreeKeys, Item.Valid;
    NamedConcat(IdentityItems(nonce, sequence, operation, request, status), MoreItems(errorCode, values), name);
  }

  /** Whatever the values hold, every identifying key stands in the response exactly once. */
  lemma MarkersStandOnce(nonce: string, sequence: string, operation: string, request: string, status: string,
                         errorCode: string, values: seq<(string, string)>)
    requires FreeKeys(values)
    ensures forall name | name in RESERVED ::
              Once(Response(nonce, sequence, operation, request, status, errorCode, values), Marker(name))
  {
    var items := AllItems(nonce, sequence, operation, request, status, errorCode, values);
    forall name, i, j | name in RESERVED && OccursAt(Render(items), Marker(name), i) && OccursAt(Render(items), Marker(name), j)
      ensures i == j
    {
      ResponseItems(nonce, sequence, operation, request, status, errorCode, values, name);
      ReservedAreWords(name);
      RenderShifts(items, name, i);
      RenderShifts(items, name, j);
      OneMember(items, name, i, j);
    }
  }

  lemma TailStep(first: Item, rest: seq<Item>)
    ensures Tail([first] + rest) == ItemText(first) + Tail(rest)
  {
    assert ([first] + rest)[1..] == rest;
  }

  lemma Assembled(key: string, value: string)
    ensures "," + ("\"" + key + "\"") + ":" + value == RawText(key, value)
  {
  }

  lemma AssembledWord(key: string, value: string)
    ensures RawText(key, "\"" + value + "\"") == WordText(key, value)
  {
  }

  lemma WordItem(key: string, value: string)
    requires IsWord(key) && IsWord(value)
    ensures ItemText(Quoted(key, value)) == WordText(key, value)
  {
    WordsEscapeToThemselves(key);
    WordsEscapeToThemselves(value);
    hide Escape, IsWord;
    Assembled(key, "\"" + value + "\"");
    AssembledWord(key, value);
  }

  lemma Nested(a: string, x: string, y: string)
    requires StartsWith(x, y)
    ensures StartsWith(a + x, a + y) && (a + x)[|a + y|..] == x[|y|..]
  {
  }

  lemma Opens(a: string, b: string, c: string)
    ensures StartsWith((a + b) + c, a) && ((a + b) + c)[|a|..] == b + c
  {
  }

  lemma StatusText(status: string)
    ensures WordText(STATUS_KEY, status) == STATUS_OPEN + (status + "\"")
  {
  }

  lemma StatusMember(status: string, more: seq<Item>)
    requires IsWord(status)
    ensures var x := Tail([Quoted(STATUS_KEY, status)] + more);
      StartsWith(x, STATUS_OPEN) && x[|STATUS_OPEN|..] == status + "\"" + Tail(more)
  {
    assert IsWord(STATUS_KEY);
    WordItem(STATUS_KEY, status);
    TailStep(Quoted(STATUS_KEY, status), more);
    StatusText(status);
    Opens(STATUS_OPEN, status + "\"", Tail(more));
    hide *;
  }

  /** The identifying members come out as the prefix the loader looks for, then the status. */
  lemma OpeningText(nonce: string, sequence: string, operation: string, request: string, status: string, more: seq<Item>)
    requires IsWord(nonce) && IsWord(sequence) && IsWord(operation) && IsWord(request) && IsWord(status)
    ensures var x := Tail(IdentityItems(nonce, sequence, operation, request, status) + more);
      var opening := Opening(nonce, sequence, operation, request);
      StartsWith(x, opening) && x[|opening|..] == status + "\"" + Tail(more)
  {
    var i6 := [Quoted(STATUS_KEY, status)] + more;
    var i5 := [Quoted(REQUEST_KEY, request)] + i6;
    var i4 := [Quoted(OPERATION_KEY, operation)] + i5;
    var i3 := [Quoted(SEQUENCE_KEY, sequence)] + i4;
    var i2 := [Quoted(NONCE_KEY, nonce)] + i3;
    var i1 := [Raw(VERSION_KEY, "1")] + i2;
    assert IdentityItems(nonce, sequence, operation, request, status) + more == [Quoted(MAGIC_KEY, "FLUYONS1")] + i1;
    hide Tail, ItemText, IdentityItems, StartsWith, WordText, RawText, IsWord;
    KeysAreWords();
    StatusMember(status, more);
    var y6 := STATUS_OPEN;
    Grown(REQUEST_KEY, request, i6, y6);
    var y5 := WordText(REQUEST_KEY, request) + y6;
    Grown(OPERATION_KEY, operation, i5, y5);
    var y4 := WordText(OPERATION_KEY, operation) + y5;
    Grown(SEQUENCE_KEY, sequence, i4, y4);
    var y3 := WordText(SEQUENCE_KEY, sequence) + y4;
    Grown(NONCE_KEY, nonce, i3, y3);
    var y2 := WordText(NONCE_KEY, nonce) + y3;
    TailStep(Raw(VERSION_KEY, "1"), i2);
    RawItem(VERSION_KEY, "1");
    Nested(RawText(VERSION_KEY, "1"), Tail(i2), y2);
    var y1 := RawText(VERSION_KEY, "1") + y2;
    Grown(MAGIC_KEY, "FLUYONS1", i1, y1);
  }

  lemma RawItem(key: string, text: string)
    requires IsWord(key)
    ensures ItemText(Raw(key, text)) == RawText(key, text)
  {
    WordsEscapeToThemselves(key);
    hide Escape, IsWord;
    Assembled(key, text);
  }

  lemma KeysAreWords()
    ensures IsWord(MAGIC_KEY) && IsWord("FLUYONS1") && IsWord(NONCE_KEY) && IsWord(SEQUENCE_KEY)
    ensures IsWord(OPERATION_KEY) && IsWord(REQUEST_KEY) && IsWord(VERSION_KEY) && IsWord("PASS") && IsWord("FAIL")
  {
  }

  lemma Grown(key: string, value: string, rest: seq<Item>, y: string)
    requires IsWord(key) && IsWord(value) && StartsWith(Tail(rest), y)
    ensures var x := Tail([Quoted(key, value)] + rest);
      StartsWith(x, WordText(key, value) + y) && x[|WordText(key, value) + y|..] == Tail(rest)[|y|..]
  {
    WordItem(key, value);
    TailStep(Quoted(key, value), rest);
    Nested(WordText(key, value), Tail(rest), y);
  }

  lemma AfterFirst(x: string, opening: string)
    requires opening != "" && StartsWith(x, opening)
    ensures StartsWith("{" + x[1..], "{" + opening[1..])
    ensures ("{" + x[1..])[|"{" + opening[1..]|..] == x[|opening|..]
  {
    assert ("{" + x[1..])[|opening|..] == x[1..][|opening| - 1..];
  }

  /** Every response the broker renders for a request answers that request, in the loader's sense. */
  lemma ResponseAnswersItsRequest(nonce: string, sequence: string, operation: string, request: string, status: string,
                                  errorCode: string, values: seq<(string, string)>)
    requires IsWord(nonce) && IsWord(sequence) && IsWord(operation) && IsWord(request)
    requires (status == "PASS" || status == "FAIL") && FreeKeys(values)
    ensures AnswersRequest(Response(nonce, sequence, operation, request, status, errorCode, values),
                           nonce, sequence, operation, request)
  {
    hide Tail, IdentityItems, MoreItems, FreeKeys, IsWord, Opening, StartsWith, EndsWith, Once, Marker, AnswersRequest;
    var more := MoreItems(errorCode, values);
    KeysAreWords();
    MarkersStandOnce(nonce, sequence, operation, request, status, errorCode, values);
    OpeningText(nonce, sequence, operation, request, status, more);
    TailEnds(AllItems(nonce, sequence, operation, request, status, errorCode, values));
    OpeningIsSome(nonce, sequence, operation, request);
    AnswersByShape(Tail(AllItems(nonce, sequence, operation, request, status, errorCode, values)),
                   nonce, sequence, operation, request, status, Tail(more));
  }

  lemma OpeningIsSome(nonce: string, sequence: string, operation: string, request: string)
    ensures Opening(nonce, sequence, operation, request) != ""
  {
    hide WordText;
    assert |WordText(MAGIC_KEY, "FLUYONS1")| > 0 by { WordTextIsSome(MAGIC_KEY, "FLUYONS1"); }
  }

  lemma WordTextIsSome(key: string, value: string)
    ensures WordText(key, value) != ""
  {
  }

  lemma AnswersByShape(x: string, nonce: string, sequence: string, operation: string, request: string, status: string, rest: string)
    requires status == "PASS" || status == "FAIL"
    requires var opening := Opening(nonce, sequence, operation, request);
      opening != "" && StartsWith(x, opening) && x[|opening|..] == status + "\"" + rest && EndsWith(x, "}")
    requires forall name | name in RESERVED :: Once("{" + x[1..], Marker(name))
    ensures AnswersRequest("{" + x[1..], nonce, sequence, operation, request)
  {
    assert status + "\"" == "PASS\"" || status + "\"" == "FAIL\"";
    hide Opening, StartsWith, EndsWith, Once, Marker;
    assert IdentityPrefix(nonce, sequence, operation, request) == "{" + Opening(nonce, sequence, operation, request)[1..];
    ShapeOfResponse(x, Opening(nonce, sequence, operation, request), status, rest);
  }

  lemma ShapeOfResponse(x: string, opening: string, status: string, rest: string)
    requires opening != "" && StartsWith(x, opening) && x[|opening|..] == status + "\"" + rest && EndsWith(x, "}")
    ensures var text, prefix := "{" + x[1..], "{" + opening[1..];
      StartsWith(text, prefix) && EndsWith(text, "}") && StartsWith(text[|prefix|..], status + "\"")
  {
    AfterFirst(x, opening);
    var text := "{" + x[1..];
    assert |x| > 1;
    assert text[|text| - 1] == x[|x| - 1];
    assert text[|text| - 1..] == [x[|x| - 1]] == x[|x| - 1..];
  }
}
