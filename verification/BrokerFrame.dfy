/**
 The binary request frame of the native broker
 (scripts/r4b-evidence/windows-native-boundary.cs, ParseFrame): a 36-byte
 prelude, a header of ascending length-prefixed text fields, and a payload.
 Integers are little-endian and unsigned.
 */
module BrokerFrame {
  import opened Basics
  import opened Utf8

  const MAX_HEADER_BYTES: nat := 65536
  const MAX_PAYLOAD_BYTES: nat := 536870912
  const PRELUDE: nat := 36
  const LAST_ID: nat := 65535
  const MAGIC: seq<byte> := [0x46, 0x4C, 0x55, 0x59, 0x4F, 0x4E, 0x52, 0x31]

  datatype FrameError =
    | FrameTruncated | FrameMagic | FrameVersion | FrameBound | FrameLength
    | FieldTruncated | FieldOrderOrLength | FieldText

  datatype Frame = Frame(sequence: nat, operation: nat, fields: map<nat, string>, payload: seq<byte>)

  // ---------------------------------------------------------------- little-endian integers

  function Pow256(width: nat): (p: nat)
    ensures p >= 1
  {
    if width == 0 then 1 else 256 * Pow256(width - 1)
  }

  function Le(n: nat, width: nat): (bytes: seq<byte>)
    ensures |bytes| == width
  {
    if width == 0 then [] else [n % 256] + Le(n / 256, width - 1)
  }

  function UnLe(bytes: seq<byte>): nat {
    if bytes == [] then 0 else bytes[0] + 256 * UnLe(bytes[1..])
  }

  lemma {:induction false} UnLeBound(bytes: seq<byte>)
    ensures UnLe(bytes) < Pow256(|bytes|)
  {
    if bytes != [] { UnLeBound(bytes[1..]); }
  }

  lemma {:induction false} UnLeLe(n: nat, width: nat)
    requires n < Pow256(width)
    ensures UnLe(Le(n, width)) == n
  {
    if width > 0 {
      UnLeLe(n / 256, width - 1);
      assert Le(n, width)[1..] == Le(n / 256, width - 1);
    }
  }

  lemma {:induction false} LeUnLe(bytes: seq<byte>)
    ensures Le(UnLe(bytes), |bytes|) == bytes
  {
    if bytes != [] {
      LeUnLe(bytes[1..]);
      var n := UnLe(bytes);
      assert n % 256 == bytes[0] as int && n / 256 == UnLe(bytes[1..]);
    }
  }

  lemma Widths()
    ensures Pow256(2) == 0x1_0000 && Pow256(4) == 0x1_0000_0000 && Pow256(8) == 0x1_0000_0000_0000_0000
  {
    assert Pow256(1) == 256 && Pow256(2) == 0x1_0000 && Pow256(3) == 0x100_0000 && Pow256(4) == 0x1_0000_0000;
    assert Pow256(5) == 0x100_0000_0000 && Pow256(6) == 0x1_0000_0000_0000 && Pow256(7) == 0x100_0000_0000_0000;
  }

  // ---------------------------------------------------------------- fields

  function EncodeField(id: nat, value: string): seq<byte> {
    Le(id, 2) + Le(|Encode(value)|, 4) + Encode(value)
  }

  /** The fields with an id above `previous`, by ascending id. */
  function EncodeFields(fields: map<nat, string>, previous: nat): seq<byte>
    decreases LAST_ID - previous
  {
    if previous >= LAST_ID then []
    else
      (if previous + 1 in fields then EncodeField(previous + 1, fields[previous + 1]) else [])
      + EncodeFields(fields, previous + 1)
  }

  function ParseFields(header: seq<byte>, previous: nat): Result<map<nat, string>, FrameError>
    decreases |header|
  {
    if header == [] then Ok(map[])
    else if |header| < 6 then Err(FieldTruncated)
    else
      var id, length := UnLe(header[..2]), UnLe(header[2..6]);
      if id <= previous || 6 + length > |header| then Err(FieldOrderOrLength)
      else
        var value := Decode(header[6..6 + length]);
        if value.None? then Err(FieldText)
        else
          var rest := ParseFields(header[6 + length..], id);
          if rest.Err? then rest else Ok(rest.value[id := value.value])
  }

  predicate IdsAbove(fields: map<nat, string>, previous: nat) {
    forall id | id in fields :: previous < id <= LAST_ID
  }

  lemma {:induction false} SkipIds(fields: map<nat, string>, p: nat, q: nat)
    requires p <= q <= LAST_ID && forall id | id in fields :: id <= p || id > q
    ensures EncodeFields(fields, p) == EncodeFields(fields, q)
    decreases q - p
  {
    if p < q { SkipIds(fields, p + 1, q); }
  }

  lemma {:induction false} SameAbove(a: map<nat, string>, b: map<nat, string>, p: nat)
    requires forall id | id > p :: (id in a <==> id in b) && (id in a ==> a[id] == b[id])
    ensures EncodeFields(a, p) == EncodeFields(b, p)
    decreases LAST_ID - p
  {
    if p < LAST_ID { SameAbove(a, b, p + 1); }
  }

  /** What parses is the encoding of what it parses to. */
  lemma {:induction false} EncodeParsedFields(header: seq<byte>, previous: nat)
    requires ParseFields(header, previous).Ok? && previous <= LAST_ID
    ensures IdsAbove(ParseFields(header, previous).value, previous)
    ensures EncodeFields(ParseFields(header, previous).value, previous) == header
    decreases |header|
  {
    var fields := ParseFields(header, previous).value;
    if header == [] {
      SkipIds(fields, previous, LAST_ID);
    } else {
      var id, length := UnLe(header[..2]), UnLe(header[2..6]);
      var rest := header[6 + length..];
      Widths();
      UnLeBound(header[..2]);
      EncodeParsedFields(rest, id);
      FieldBytes(header, id, length);
      FirstField(fields, ParseFields(rest, id).value, previous, id);
    }
  }

  lemma FieldBytes(header: seq<byte>, id: nat, length: nat)
    requires |header| >= 6 && id == UnLe(header[..2]) && length == UnLe(header[2..6]) && 6 + length <= |header|
    requires Decode(header[6..6 + length]).Some?
    ensures header == EncodeField(id, Decode(header[6..6 + length]).value) + header[6 + length..]
  {
    EncodeDecoded(header[6..6 + length]);
    LeUnLe(header[..2]);
    LeUnLe(header[2..6]);
  }

  lemma FirstField(fields: map<nat, string>, rest: map<nat, string>, previous: nat, id: nat)
    requires previous < id <= LAST_ID && IdsAbove(rest, id) && id in fields && fields == rest[id := fields[id]]
    ensures IdsAbove(fields, previous)
    ensures EncodeFields(fields, previous) == EncodeField(id, fields[id]) + EncodeFields(rest, id)
  {
    SkipIds(fields, previous, id - 1);
    SameAbove(fields, rest, id);
  }

  function Above(fields: map<nat, string>, p: nat): map<nat, string> {
    map id | id in fields && id > p :: fields[id]
  }

  /** The encoding of fields parses to those fields. */
  lemma {:induction false} ParseEncodedFields(fields: map<nat, string>, p: nat)
    requires IdsAbove(fields, 0) && forall id | id in fields :: |Encode(fields[id])| < 0x1_0000_0000
    ensures ParseFields(EncodeFields(fields, p), p) == Ok(Above(fields, p))
    decreases LAST_ID - p
  {
    hide Encode, EncodeField, ParseFields, Above;
    AboveStep(fields, p);
    if p < LAST_ID {
      ParseEncodedFields(fields, p + 1);
      var rest := EncodeFields(fields, p + 1);
      if p + 1 in fields {
        ParseOneField(p + 1, fields[p + 1], rest, p);
      } else {
        assert EncodeFields(fields, p) == rest;
        ParseLoosens(rest, p + 1, p);
      }
    } else {
      ParseNothing(p);
    }
  }

  lemma AboveStep(fields: map<nat, string>, p: nat)
    requires IdsAbove(fields, 0)
    ensures Above(fields, p) == if p + 1 in fields then Above(fields, p + 1)[p + 1 := fields[p + 1]] else Above(fields, p + 1)
    ensures p >= LAST_ID ==> Above(fields, p) == map[]
  {
  }

  lemma ParseNothing(p: nat)
    ensures ParseFields([], p) == Ok(map[])
  {
  }

  lemma ParseOneField(id: nat, value: string, rest: seq<byte>, p: nat)
    requires p < id <= LAST_ID && |Encode(value)| < 0x1_0000_0000
    ensures var parsed := ParseFields(rest, id);
      ParseFields(EncodeField(id, value) + rest, p) == if parsed.Err? then parsed else Ok(parsed.value[id := value])
  {
    var text := Encode(value);
    var header := EncodeField(id, value) + rest;
    Widths();
    UnLeLe(id, 2);
    UnLeLe(|text|, 4);
    DecodeEncoded(value);
    assert header[..2] == Le(id, 2) && header[2..6] == Le(|text|, 4);
    assert header[6..6 + |text|] == text && header[6 + |text|..] == rest;
  }

  lemma ParseLoosens(header: seq<byte>, p: nat, q: nat)
    requires q <= p && ParseFields(header, p).Ok?
    ensures ParseFields(header, q) == ParseFields(header, p)
  {
  }

  // ---------------------------------------------------------------- frames

  function EncodeFrame(f: Frame): seq<byte> {
    var header := EncodeFields(f.fields, 0);
    MAGIC + Le(1, 4) + Le(f.sequence, 8) + Le(f.operation, 4) + Le(|header|, 4) + Le(|f.payload|, 8) + header + f.payload
  }

  predicate WithinBounds(f: Frame) {
    && f.sequence < 0x1_0000_0000_0000_0000 && f.operation < 0x1_0000_0000 && IdsAbove(f.fields, 0)
    && |EncodeFields(f.fields, 0)| <= MAX_HEADER_BYTES && |f.payload| <= MAX_PAYLOAD_BYTES
  }

  function Parse(request: seq<byte>): Result<Frame, FrameError> {
    if |request| < PRELUDE then Err(FrameTruncated)
    else if request[..8] != MAGIC then Err(FrameMagic)
    else if UnLe(request[8..12]) != 1 then Err(FrameVersion)
    else
      var headerBytes, payloadBytes := UnLe(request[24..28]), UnLe(request[28..36]);
      if headerBytes > MAX_HEADER_BYTES || payloadBytes > MAX_PAYLOAD_BYTES then Err(FrameBound)
      else if |request| != PRELUDE + headerBytes + payloadBytes then Err(FrameLength)
      else
        var fields := ParseFields(request[PRELUDE..PRELUDE + headerBytes], 0);
        if fields.Err? then Err(fields.error)
        else Ok(Frame(UnLe(request[12..20]), UnLe(request[20..24]), fields.value, request[PRELUDE + headerBytes..]))
  }

  lemma {:induction false} FieldFitsHeader(fields: map<nat, string>, p: nat, id: nat)
    requires id in fields && p < id <= LAST_ID
    ensures |Encode(fields[id])| <= |EncodeFields(fields, p)|
    decreases LAST_ID - p
  {
    if p + 1 < id { FieldFitsHeader(fields, p + 1, id); }
  }

  /** Every frame within the bounds survives its encoding. */
  lemma ParseOfEncoding(f: Frame)
    requires WithinBounds(f)
    ensures Parse(EncodeFrame(f)) == Ok(f)
  {
    hide EncodeFields, ParseFields, Le, UnLe, Encode, Pow256;
    var header := EncodeFields(f.fields, 0);
    Widths();
    UnLeLe(1, 4);
    UnLeLe(f.sequence, 8);
    UnLeLe(f.operation, 4);
    UnLeLe(|header|, 4);
    UnLeLe(|f.payload|, 8);
    forall id | id in f.fields ensures |Encode(f.fields[id])| < 0x1_0000_0000 { FieldFitsHeader(f.fields, 0, id); }
    ParseEncodedFields(f.fields, 0);
    assert Above(f.fields, 0) == f.fields;
    Slices(MAGIC, Le(1, 4), Le(f.sequence, 8), Le(f.operation, 4), Le(|header|, 4), Le(|f.payload|, 8), header, f.payload);
  }

  lemma Slices(a: seq<byte>, b: seq<byte>, c: seq<byte>, d: seq<byte>, e: seq<byte>, g: seq<byte>, h: seq<byte>, p: seq<byte>)
    requires |a| == 8 && |b| == 4 && |c| == 8 && |d| == 4 && |e| == 4 && |g| == 8
    ensures var r := a + b + c + d + e + g + h + p;
      && r[..8] == a && r[8..12] == b && r[12..20] == c && r[20..24] == d && r[24..28] == e && r[28..36] == g
      && r[36..36 + |h|] == h && r[36 + |h|..] == p
  {
  }

  /** Whatever parses is the encoding of the frame it parses to, byte for byte. */
  lemma EncodingOfParse(request: seq<byte>)
    requires Parse(request).Ok?
    ensures WithinBounds(Parse(request).value) && EncodeFrame(Parse(request).value) == request
  {
    hide EncodeFields, ParseFields, Le, UnLe, Encode, Pow256;
    var headerBytes := UnLe(request[24..28]);
    var header := request[PRELUDE..PRELUDE + headerBytes];
    Widths();
    UnLeBound(request[12..20]);
    UnLeBound(request[20..24]);
    EncodeParsedFields(header, 0);
    LeUnLe(request[8..12]);
    LeUnLe(request[12..20]);
    LeUnLe(request[20..24]);
    LeUnLe(request[24..28]);
    LeUnLe(request[28..36]);
    assert request == request[..8] + request[8..12] + request[12..20] + request[20..24] + request[24..28] + request[28..36]
                      + header + request[PRELUDE + headerBytes..];
  }

  /** No two byte strings parse to the same frame. */
  lemma ParseIsInjective(a: seq<byte>, b: seq<byte>)
    requires Parse(a).Ok? && Parse(a) == Parse(b)
    ensures a == b
  {
    EncodingOfParse(a);
    EncodingOfParse(b);
  }

  /** The parser: one pass over the header with a moving offset. */
  method ParseFrame(request: seq<byte>) returns (result: Result<Frame, FrameError>)
    ensures result == Parse(request)
  {
    hide UnLe, Decode, Joined;
    if |request| < PRELUDE { return Err(FrameTruncated); }
    if request[0..8] != MAGIC { return Err(FrameMagic); }
    if UnLe(request[8..12]) != 1 { return Err(FrameVersion); }
    var headerBytes, payloadBytes := UnLe(request[24..28]), UnLe(request[28..36]);
    if headerBytes > MAX_HEADER_BYTES || payloadBytes > MAX_PAYLOAD_BYTES { return Err(FrameBound); }
    if |request| != PRELUDE + headerBytes + payloadBytes { return Err(FrameLength); }
    var offset, previous, headerEnd := PRELUDE, 0, PRELUDE + headerBytes;
    var fields: map<nat, string> := map[];
    JoinNothing(ParseFields(request[offset..headerEnd], previous));
    while offset < headerEnd
      invariant PRELUDE <= offset <= headerEnd
      invariant forall id | id in fields :: id <= previous
      invariant ParseFields(request[PRELUDE..headerEnd], 0) == Joined(fields, ParseFields(request[offset..headerEnd], previous))
    {
      ghost var rest := request[offset..headerEnd];
      NothingJoined(fields);
      if offset + 6 > headerEnd { return Err(FieldTruncated); }
      var id, length := UnLe(request[offset..offset + 2]), UnLe(request[offset + 2..offset + 6]);
      SliceOfSlice(request, offset, headerEnd, 0, 2);
      SliceOfSlice(request, offset, headerEnd, 2, 6);
      offset := offset + 6;
      if id <= previous || offset + length > headerEnd { return Err(FieldOrderOrLength); }
      var value := Decode(request[offset..offset + length]);
      SliceOfSlice(request, offset - 6, headerEnd, 6, 6 + length);
      if value.None? { return Err(FieldText); }
      SliceOfSlice(request, offset - 6, headerEnd, 6 + length, |rest|);
      JoinOne(fields, ParseFields(rest[6 + length..], id), id, value.value, previous);
      fields := fields[id := value.value];
      previous := id;
      offset := offset + length;
    }
    assert request[offset..headerEnd] == [];
    NothingJoined(fields);
    return Ok(Frame(UnLe(request[12..20]), UnLe(request[20..24]), fields, request[headerEnd..]));
  }

  function Joined(fields: map<nat, string>, rest: Result<map<nat, string>, FrameError>): Result<map<nat, string>, FrameError> {
    if rest.Err? then rest else Ok(rest.value + fields)
  }

  lemma NothingJoined(fields: map<nat, string>)
    ensures Joined(fields, Ok(map[])) == Ok(fields)
    ensures forall e :: Joined(fields, Err(e)) == Err(e)
  {
    assert map[] + fields == fields;
  }

  lemma JoinNothing(rest: Result<map<nat, string>, FrameError>)
    ensures Joined(map[], rest) == rest
  {
    if rest.Ok? { assert rest.value + map[] == rest.value; }
  }

  lemma JoinOne(fields: map<nat, string>, rest: Result<map<nat, string>, FrameError>, id: nat, value: string, previous: nat)
    requires forall i | i in fields :: i <= previous
    requires id > previous
    ensures Joined(fields[id := value], rest) == Joined(fields, if rest.Err? then rest else Ok(rest.value[id := value]))
  {
    if rest.Ok? { assert rest.value + fields[id := value] == rest.value[id := value] + fields; }
  }

  // ---------------------------------------------------------------- operation schemas

  datatype Schema = Schema(payloadCap: nat, ids: set<nat>)

  const BASE := {1, 17, 18, 19, 20, 21}
  const TARGET := {1, 2, 3, 17, 18, 19, 20, 21, 22}
  const ARGUMENTS := {1, 17, 18, 19, 20, 21, 22, 23}

  /** The exact fields of each operation and the cap on its payload. */
  function SchemaOf(operation: nat): Option<Schema> {
    match operation
    case 1 => Some(Schema(0, BASE))
    case 2 => Some(Schema(0, TARGET + {5, 10}))
    case 3 => Some(Schema(0, TARGET + {5, 10}))
    case 4 => Some(Schema(0, TARGET + {5, 6, 7, 8, 9}))
    case 5 => Some(Schema(0, TARGET))
    case 6 => Some(Schema(67108864, TARGET))
    case 7 => Some(Schema(67108864, TARGET + {11, 12}))
    case 8 => Some(Schema(0, TARGET + {4, 11, 12}))
    case 9 => Some(Schema(0, TARGET + {11, 12}))
    case 10 => Some(Schema(0, TARGET + {5, 6, 7, 8, 9, 10, 16}))
    case 11 => Some(Schema(0, TARGET + {5}))
    case 12 => Some(Schema(0, ARGUMENTS))
    case 13 => Some(Schema(0, ARGUMENTS + {14, 15}))
    case 14 => Some(Schema(0, ARGUMENTS))
    case 15 => Some(Schema(0, ARGUMENTS))
    case 16 => Some(Schema(0, ARGUMENTS))
    case 17 => Some(Schema(0, ARGUMENTS))
    case 18 => Some(Schema(0, ARGUMENTS))
    case 19 => Some(Schema(0, TARGET + {13}))
    case 20 => Some(Schema(0, BASE))
    case 21 => Some(Schema(0, BASE + {24}))
    case 22 => Some(Schema(0, TARGET))
    case 23 => Some(Schema(67108864, TARGET + {11, 12}))
    case 24 => Some(Schema(0, BASE + {22}))
    case _ => None
  }

  predicate FitsSchema(f: Frame) {
    var schema := SchemaOf(f.operation);
    schema.Some? && f.fields.Keys == schema.value.ids && |f.payload| <= schema.value.payloadCap
  }

  /**
   A frame that fits its schema has every field the session checks read, and
   names a path only together with a root.
   */
  lemma SchemaCoversSession(f: Frame)
    requires FitsSchema(f)
    ensures BASE <= f.fields.Keys
    ensures f.operation !in {1, 20, 21} ==> 22 in f.fields
    ensures f.operation == 21 <==> 24 in f.fields
    ensures (2 in f.fields <==> 3 in f.fields) && (4 in f.fields ==> 2 in f.fields)
  {
  }
}
