/**
 The canonical encoding of the Simplex messages. A message is a sequence of optional byte fields, numbered from 1,
 each written as a tag, a length and its content, in increasing order, and left out when it holds its zero value.
 The block, finalization and certificate messages differ only in their schema.
 */
module Canoto {
  import opened Wrappers
  import opened BigInts

  datatype Kind =
    | Bytes
    | FixedBytes(length: nat)

  /** The kind of the field with number i + 1 at index i. */
  type Schema = seq<Kind>

  /** The value of the field with number i + 1 at index i. */
  type Message = seq<seq<Byte>>

  const UINT32_LIMIT: nat := 0x1_0000_0000
  const UINT64_LIMIT: nat := 0x1_0000_0000_0000_0000

  const SIGNATURE_LEN: nat := 96

  const BLOCK: Schema := [Bytes, Bytes, Bytes]
  const FINALIZATION: Schema := [Bytes, Bytes]
  const CERTIFICATE: Schema := [FixedBytes(SIGNATURE_LEN), Bytes]

  datatype Error =
    | UnexpectedEOF
    | Overflow
    | PaddedZeroes
    | InvalidWireType
    | InvalidFieldOrder
    | UnknownField
    | UnexpectedWireType
    | InvalidLength
    | ZeroValue

  // ---------------------------------------------------------------------------------------
  // Varints: seven bits a byte, least significant first, the last byte below 128.
  // ---------------------------------------------------------------------------------------

  function EncodeUint(n: nat): (b: seq<Byte>)
    ensures |b| > 0
  {
    if n < 128 then [n] else [n % 128 + 128] + EncodeUint(n / 128)
  }

  function SizeUint(n: nat): nat {
    if n == 0 then 1 else (BitLen(n) + 6) / 7
  }

  /** The value of the first varint and the number of bytes it takes. */
  function Uvarint(b: seq<Byte>): (r: Option<(nat, nat)>)
    ensures r.Some? ==> 0 < r.value.1 <= |b|
  {
    if b == [] then None
    else if b[0] < 128 then Some((b[0], 1))
    else match Uvarint(b[1..])
      case None => None
      case Some((v, k)) => Some((v * 128 + b[0] - 128, k + 1))
  }

  function ReadUint(b: seq<Byte>, limit: nat): (r: Result<(nat, nat), Error>)
    ensures r.Ok? ==> r.value.0 < limit && 0 < r.value.1 <= |b|
  {
    match Uvarint(b)
    case None => Err(UnexpectedEOF)
    case Some((v, k)) =>
      if v >= limit then Err(Overflow)
      else if k > 1 && b[k - 1] == 0 then Err(PaddedZeroes)
      else Ok((v, k))
  }

  lemma ConsConcat<T>(x: T, tail: seq<T>, rest: seq<T>)
    ensures (([x] + tail) + rest)[0] == x && (([x] + tail) + rest)[1..] == tail + rest
  {
  }

  lemma {:induction false} UvarintOfEncoding(n: nat, rest: seq<Byte>)
    ensures Uvarint(EncodeUint(n) + rest) == Some((n, |EncodeUint(n)|))
  {
    if n < 128 {
    } else {
      UvarintOfEncoding(n / 128, rest);
      ConsConcat(n % 128 + 128, EncodeUint(n / 128), rest);
    }
  }

  /** The last byte of an encoding is not padding. */
  lemma {:induction false} NoPadding(n: nat)
    ensures var b := EncodeUint(n); b[|b| - 1] == 0 ==> n == 0 && |b| == 1
  {
    if n >= 128 {
      NoPadding(n / 128);
    }
  }

  /** Reading back what was written. */
  lemma ReadUintComplete(n: nat, rest: seq<Byte>, limit: nat)
    requires n < limit
    ensures ReadUint(EncodeUint(n) + rest, limit) == Ok((n, |EncodeUint(n)|))
  {
    UvarintOfEncoding(n, rest);
    NoPadding(n);
  }

  lemma {:induction false} UvarintIsEncoding(b: seq<Byte>)
    requires Uvarint(b).Some?
    requires var k := Uvarint(b).value.1; k > 1 ==> b[k - 1] != 0
    ensures b[..Uvarint(b).value.1] == EncodeUint(Uvarint(b).value.0)
    ensures Uvarint(b).value.1 > 1 ==> Uvarint(b).value.0 >= 128
  {
    if b[0] < 128 {
    } else {
      var (v, k) := Uvarint(b[1..]).value;
      assert k == 1 ==> v == b[1];
      UvarintIsEncoding(b[1..]);
      assert b[..k + 1] == [b[0]] + b[1..][..k];
    }
  }

  /** Whatever is accepted is exactly what would be written. */
  lemma ReadUintSound(b: seq<Byte>, limit: nat)
    requires ReadUint(b, limit).Ok?
    ensures b[..ReadUint(b, limit).value.1] == EncodeUint(ReadUint(b, limit).value.0)
  {
    UvarintIsEncoding(b);
  }

  lemma {:induction false} SizeUintIsLength(n: nat)
    ensures SizeUint(n) == |EncodeUint(n)|
  {
    if n < 128 {
      SmallBitLen(n);
    } else {
      SizeUintIsLength(n / 128);
      ShiftedBitLen(n);
    }
  }

  lemma SmallBitLen(n: nat)
    requires n < 128
    ensures BitLen(n) <= 7
  {
    BitLenBound(n, 7);
  }

  lemma ShiftedBitLen(n: nat)
    requires n >= 128
    ensures BitLen(n) == BitLen(n / 128) + 7
  {
    assert n / 2 / 2 / 2 / 2 / 2 / 2 / 2 == n / 128;
    var h := n / 2;
    assert BitLen(n) == 1 + BitLen(h) && BitLen(h) == 1 + BitLen(h / 2);
    var q := h / 2 / 2;
    assert BitLen(h / 2) == 1 + BitLen(q) && BitLen(q) == 1 + BitLen(q / 2);
    var e := q / 2 / 2;
    assert BitLen(q / 2) == 1 + BitLen(e) && BitLen(e) == 1 + BitLen(e / 2) && BitLen(e / 2) == 1 + BitLen(e / 2 / 2);
  }

  // ---------------------------------------------------------------------------------------
  // Fields.
  // ---------------------------------------------------------------------------------------

  const WIRE_LEN: nat := 2

  predicate IsZero(kind: Kind, v: seq<Byte>) {
    match kind
    case Bytes => v == []
    case FixedBytes(_) => forall i :: 0 <= i < |v| ==> v[i] == 0
  }

  /** A value that a field of this kind can hold. */
  predicate Fits(kind: Kind, v: seq<Byte>) {
    && |v| < UINT64_LIMIT
    && (kind.FixedBytes? ==> |v| == kind.length)
  }

  function ZeroOf(kind: Kind): (v: seq<Byte>)
    ensures IsZero(kind, v)
  {
    match kind
    case Bytes => []
    case FixedBytes(n) => seq(n, _ => 0)
  }

  function Zeros(schema: Schema): Message {
    seq(|schema|, i requires 0 <= i < |schema| => ZeroOf(schema[i]))
  }

  predicate WellFormed(schema: Schema, m: Message) {
    && |m| == |schema|
    && forall i :: 0 <= i < |m| ==> Fits(schema[i], m[i])
  }

  lemma ZeroIsUnique(kind: Kind, v: seq<Byte>)
    requires Fits(kind, v) && IsZero(kind, v)
    ensures v == ZeroOf(kind)
  {
  }

  function TagOf(i: nat): nat {
    (i + 1) * 8 + WIRE_LEN
  }

  function EncodeField(i: nat, v: seq<Byte>): (b: seq<Byte>)
    ensures |b| > 0
  {
    EncodeUint(TagOf(i)) + (EncodeUint(|v|) + v)
  }

  /** The content of a field and the number of bytes it takes, the length included. */
  function ReadContent(kind: Kind, b: seq<Byte>): (r: Result<(seq<Byte>, nat), Error>)
    ensures r.Ok? ==> r.value.1 <= |b|
  {
    match ReadUint(b, UINT64_LIMIT)
    case Err(e) => Err(e)
    case Ok((length, k)) =>
      if kind.FixedBytes? && length != kind.length then Err(InvalidLength)
      else if length > |b| - k then Err(UnexpectedEOF)
      else
        var v := b[k..k + length];
        if IsZero(kind, v) then Err(ZeroValue) else Ok((v, k + length))
  }

  /** The index of the next field, its value and the number of bytes it takes. */
  function ReadField(schema: Schema, minField: nat, b: seq<Byte>): (r: Result<(nat, seq<Byte>, nat), Error>)
    ensures r.Ok? ==> minField <= r.value.0 + 1 && r.value.0 < |schema| && 0 < r.value.2 <= |b|
  {
    match ReadUint(b, UINT32_LIMIT)
    case Err(e) => Err(e)
    case Ok((tag, k)) =>
      var field, wireType := tag / 8, tag % 8;
      if wireType !in {0, 1, 2, 5} then Err(InvalidWireType)
      else if field < minField then Err(InvalidFieldOrder)
      else if field == 0 || field > |schema| then Err(UnknownField)
      else if wireType != WIRE_LEN then Err(UnexpectedWireType)
      else match ReadContent(schema[field - 1], b[k..])
        case Err(e) => Err(e)
        case Ok((v, n)) => Ok((field - 1, v, k + n))
  }

  lemma ReadContentSound(kind: Kind, b: seq<Byte>)
    requires ReadContent(kind, b).Ok?
    ensures var (v, k) := ReadContent(kind, b).value;
      b[..k] == EncodeUint(|v|) + v && Fits(kind, v) && !IsZero(kind, v)
  {
    ReadUintSound(b, UINT64_LIMIT);
    var (length, k) := ReadUint(b, UINT64_LIMIT).value;
    assert b[..k + length] == b[..k] + b[k..k + length];
  }

  lemma TagIsUnique(tag: nat)
    requires tag % 8 == WIRE_LEN && tag / 8 > 0
    ensures tag == TagOf(tag / 8 - 1)
  {
  }

  lemma SplitTwice(b: seq<Byte>, k: nat, n: nat, tag: seq<Byte>, content: seq<Byte>)
    requires k + n <= |b| && b[..k] == tag && b[k..][..n] == content
    ensures b == (tag + content) + b[k + n..]
  {
    assert b == b[..k] + b[k..];
    assert b[k..] == b[k..][..n] + b[k + n..];
  }

  lemma ReadFieldSound(schema: Schema, minField: nat, b: seq<Byte>, i: nat, v: seq<Byte>, n: nat)
    requires ReadField(schema, minField, b) == Ok((i, v, n))
    ensures b == EncodeField(i, v) + b[n..] && Fits(schema[i], v) && !IsZero(schema[i], v)
  {
    var (tag, k) := ReadUint(b, UINT32_LIMIT).value;
    ReadUintSound(b, UINT32_LIMIT);
    TagIsUnique(tag);
    ReadContentSound(schema[i], b[k..]);
    SplitTwice(b, k, n - k, EncodeUint(tag), EncodeUint(|v|) + v);
  }

  lemma ReadContentComplete(kind: Kind, v: seq<Byte>, rest: seq<Byte>)
    requires Fits(kind, v) && !IsZero(kind, v)
    ensures ReadContent(kind, EncodeUint(|v|) + v + rest) == Ok((v, |EncodeUint(|v|)| + |v|))
  {
    var e := EncodeUint(|v|);
    ReadUintComplete(|v|, v + rest, UINT64_LIMIT);
    assert e + v + rest == e + (v + rest);
    assert (e + v + rest)[|e|..|e| + |v|] == v;
  }

  lemma ReadFieldComplete(schema: Schema, minField: nat, i: nat, v: seq<Byte>, rest: seq<Byte>)
    requires minField <= i + 1 && i < |schema| && TagOf(|schema|) < UINT32_LIMIT
    requires Fits(schema[i], v) && !IsZero(schema[i], v)
    ensures ReadField(schema, minField, EncodeField(i, v) + rest) == Ok((i, v, |EncodeField(i, v)|))
  {
    var t, c := EncodeUint(TagOf(i)), EncodeUint(|v|) + v;
    ReadUintComplete(TagOf(i), c + rest, UINT32_LIMIT);
    assert EncodeField(i, v) + rest == t + (c + rest);
    assert (t + (c + rest))[|t|..] == c + rest;
    ReadContentComplete(schema[i], v, rest);
    assert TagOf(i) / 8 == i + 1 && TagOf(i) % 8 == 2;
  }

  // ---------------------------------------------------------------------------------------
  // Messages.
  // ---------------------------------------------------------------------------------------

  /** The fields from index `from` on. */
  function EncodeFrom(schema: Schema, m: Message, from: nat): seq<Byte>
    requires |m| == |schema| && from <= |m|
    decreases |m| - from
  {
    if from == |m| then []
    else if IsZero(schema[from], m[from]) then EncodeFrom(schema, m, from + 1)
    else EncodeField(from, m[from]) + EncodeFrom(schema, m, from + 1)
  }

  function Marshal(schema: Schema, m: Message): seq<Byte>
    requires |m| == |schema|
  {
    EncodeFrom(schema, m, 0)
  }

  function SizeFrom(schema: Schema, m: Message, from: nat): nat
    requires |m| == |schema| && from <= |m|
    decreases |m| - from
  {
    if from == |m| then 0
    else if IsZero(schema[from], m[from]) then SizeFrom(schema, m, from + 1)
    else SizeUint(TagOf(from)) + (SizeUint(|m[from]|) + |m[from]|) + SizeFrom(schema, m, from + 1)
  }

  lemma FieldSize(i: nat, v: seq<Byte>)
    ensures |EncodeField(i, v)| == SizeUint(TagOf(i)) + (SizeUint(|v|) + |v|)
  {
    SizeUintIsLength(TagOf(i));
    SizeUintIsLength(|v|);
  }

  /** The cached size is the length of the encoding. */
  lemma {:induction false} SizeIsLength(schema: Schema, m: Message, from: nat)
    requires |m| == |schema| && from <= |m|
    ensures SizeFrom(schema, m, from) == |EncodeFrom(schema, m, from)|
    decreases |m| - from
  {
    hide EncodeField, SizeUint;
    if from < |m| {
      SizeIsLength(schema, m, from + 1);
      FieldSize(from, m[from]);
    }
  }

  /** The size that is cached before writing, added up field by field. */
  method CalculateSize(schema: Schema, m: Message) returns (size: nat)
    requires |m| == |schema|
    ensures size == |Marshal(schema, m)|
  {
    size := 0;
    for i := 0 to |m|
      invariant size + SizeFrom(schema, m, i) == SizeFrom(schema, m, 0)
    {
      if !IsZero(schema[i], m[i]) {
        size := size + SizeUint(TagOf(i)) + (SizeUint(|m[i]|) + |m[i]|);
      }
    }
    SizeIsLength(schema, m, 0);
  }

  method MarshalCanoto(schema: Schema, m: Message) returns (w: seq<Byte>)
    requires |m| == |schema|
    ensures w == Marshal(schema, m)
  {
    w := [];
    for i := 0 to |m|
      invariant w + EncodeFrom(schema, m, i) == Marshal(schema, m)
    {
      if !IsZero(schema[i], m[i]) {
        assert w + (EncodeField(i, m[i]) + EncodeFrom(schema, m, i + 1)) ==
               w + EncodeField(i, m[i]) + EncodeFrom(schema, m, i + 1);
        w := w + EncodeField(i, m[i]);
      }
    }
  }

  function Parse(schema: Schema, m: Message, minField: nat, b: seq<Byte>): (r: Result<Message, Error>)
    requires |m| == |schema|
    ensures r.Ok? ==> |r.value| == |schema|
    decreases |b|
  {
    if b == [] then Ok(m)
    else match ReadField(schema, minField, b)
      case Err(e) => Err(e)
      case Ok((i, v, k)) => Parse(schema, m[i := v], i + 2, b[k..])
  }

  function Unmarshal(schema: Schema, b: seq<Byte>): (r: Result<Message, Error>)
    ensures r.Ok? ==> |r.value| == |schema|
  {
    Parse(schema, Zeros(schema), 0, b)
  }

  /** The decode loop. */
  method UnmarshalCanoto(schema: Schema, bytes: seq<Byte>) returns (r: Result<Message, Error>)
    ensures r == Unmarshal(schema, bytes)
  {
    hide ReadField;
    var m := Zeros(schema);
    var b := bytes;
    var minField := 0;
    while b != []
      invariant |m| == |schema|
      invariant Parse(schema, m, minField, b) == Unmarshal(schema, bytes)
      decreases |b|
    {
      var field := ReadField(schema, minField, b);
      if field.Err? {
        return Err(field.error);
      }
      var (i, v, k) := field.value;
      m := m[i := v];
      b := b[k..];
      minField := i + 2;
    }
    return Ok(m);
  }

  ghost predicate ZeroFrom(schema: Schema, m: Message, from: nat)
    requires |m| == |schema|
  {
    forall j :: from <= j < |m| ==> m[j] == ZeroOf(schema[j])
  }

  lemma {:induction false} EncodeSkipsZeros(schema: Schema, m: Message, from: nat, stop: nat)
    requires |m| == |schema| && from <= stop <= |m|
    requires forall j :: from <= j < stop ==> IsZero(schema[j], m[j])
    ensures EncodeFrom(schema, m, from) == EncodeFrom(schema, m, stop)
    decreases stop - from
  {
    if from < stop {
      EncodeSkipsZeros(schema, m, from + 1, stop);
    }
  }

  /** Where the next field may start. */
  ghost function Start(minField: nat): nat {
    if minField == 0 then 0 else minField - 1
  }

  /** Fields that were skipped are zero, so nothing is written for them. */
  lemma EncodeFromField(schema: Schema, m: Message, n: Message, from: nat, i: nat, v: seq<Byte>)
    requires |m| == |n| == |schema| && from <= i < |m| && ZeroFrom(schema, m, from)
    requires n[..i + 1] == m[i := v][..i + 1] && !IsZero(schema[i], v)
    ensures n[..from] == m[..from]
    ensures EncodeFrom(schema, n, from) == EncodeField(i, v) + EncodeFrom(schema, n, i + 1)
  {
    assert forall j :: 0 <= j < i ==> n[j] == n[..i + 1][j] == m[i := v][..i + 1][j] == m[j];
    assert n[i] == n[..i + 1][i] == v;
    EncodeSkipsZeros(schema, n, from, i);
  }

  lemma SetKeepsWellFormed(schema: Schema, m: Message, from: nat, i: nat, v: seq<Byte>)
    requires WellFormed(schema, m) && from <= i < |m| && ZeroFrom(schema, m, from) && Fits(schema[i], v)
    ensures WellFormed(schema, m[i := v]) && ZeroFrom(schema, m[i := v], i + 1)
  {
  }

  lemma ParseStep(schema: Schema, m: Message, minField: nat, b: seq<Byte>, n: Message)
      returns (i: nat, v: seq<Byte>, k: nat)
    requires |m| == |schema| && b != [] && Parse(schema, m, minField, b) == Ok(n)
    ensures minField <= i + 1 && i < |schema| && 0 < k <= |b| && Fits(schema[i], v) && !IsZero(schema[i], v)
    ensures b == EncodeField(i, v) + b[k..] && Parse(schema, m[i := v], i + 2, b[k..]) == Ok(n)
  {
    hide ReadField, EncodeField;
    var field := ReadField(schema, minField, b);
    i, v, k := field.value.0, field.value.1, field.value.2;
    ReadFieldSound(schema, minField, b, i, v, k);
  }

  /** Whatever is accepted is exactly what would be written. */
  lemma {:induction false} ParseSound(schema: Schema, m: Message, minField: nat, b: seq<Byte>, n: Message)
    requires WellFormed(schema, m) && Start(minField) <= |m| && ZeroFrom(schema, m, Start(minField))
    requires Parse(schema, m, minField, b) == Ok(n)
    ensures WellFormed(schema, n) && n[..Start(minField)] == m[..Start(minField)]
    ensures b == EncodeFrom(schema, n, Start(minField))
    decreases |b|
  {
    hide ReadField, EncodeField;
    if b == [] {
      EncodeSkipsZeros(schema, m, Start(minField), |m|);
    } else {
      var i, v, k := ParseStep(schema, m, minField, b, n);
      SetKeepsWellFormed(schema, m, Start(minField), i, v);
      ParseSound(schema, m[i := v], i + 2, b[k..], n);
      EncodeFromField(schema, m, n, Start(minField), i, v);
    }
  }

  lemma SkippedFieldsAgree(schema: Schema, m: Message, n: Message, from: nat, i: nat)
    requires WellFormed(schema, m) && WellFormed(schema, n) && from <= i <= |m| && ZeroFrom(schema, m, from)
    requires m[..from] == n[..from] && forall j :: from <= j < i ==> IsZero(schema[j], n[j])
    ensures m[..i] == n[..i]
  {
    forall j | 0 <= j < i
      ensures m[j] == n[j]
    {
      if j < from {
        assert m[..from][j] == n[..from][j];
      } else {
        ZeroIsUnique(schema[j], n[j]);
      }
    }
  }

  lemma ExtendPrefix(m: Message, n: Message, i: nat)
    requires i < |m| == |n| && m[..i] == n[..i]
    ensures m[i := n[i]][..i + 1] == n[..i + 1]
  {
    assert m[i := n[i]][..i + 1] == m[..i] + [n[i]] && n[..i + 1] == n[..i] + [n[i]];
  }

  lemma ParseOneField(schema: Schema, m: Message, minField: nat, i: nat, v: seq<Byte>, rest: seq<Byte>)
    requires |m| == |schema| && minField <= i + 1 && i < |schema| && TagOf(|schema|) < UINT32_LIMIT
    requires Fits(schema[i], v) && !IsZero(schema[i], v)
    ensures Parse(schema, m, minField, EncodeField(i, v) + rest) == Parse(schema, m[i := v], i + 2, rest)
  {
    hide ReadField, EncodeField;
    var e := EncodeField(i, v);
    ReadFieldComplete(schema, minField, i, v, rest);
    assert (e + rest)[|e|..] == rest;
  }

  lemma EncodeFirstSet(schema: Schema, m: Message, from: nat)
    requires |m| == |schema| && from <= |m|
    ensures var i := FirstSet(schema, m, from);
      EncodeFrom(schema, m, from) ==
      if i == |m| then [] else EncodeField(i, m[i]) + EncodeFrom(schema, m, i + 1)
  {
    EncodeSkipsZeros(schema, m, from, FirstSet(schema, m, from));
  }

  lemma {:induction false} ParseComplete(schema: Schema, m: Message, minField: nat, n: Message, b: seq<Byte>)
    requires WellFormed(schema, m) && WellFormed(schema, n) && TagOf(|schema|) < UINT32_LIMIT
    requires Start(minField) <= |m| && ZeroFrom(schema, m, Start(minField))
    requires m[..Start(minField)] == n[..Start(minField)]
    requires b == EncodeFrom(schema, n, Start(minField))
    ensures Parse(schema, m, minField, b) == Ok(n)
    decreases |m| - Start(minField)
  {
    hide ReadField, EncodeField;
    var from := Start(minField);
    var i := FirstSet(schema, n, from);
    EncodeFirstSet(schema, n, from);
    SkippedFieldsAgree(schema, m, n, from, i);
    if i == |n| {
      assert m[..i] == m && n[..i] == n;
    } else {
      var rest := EncodeFrom(schema, n, i + 1);
      SetKeepsWellFormed(schema, m, from, i, n[i]);
      ExtendPrefix(m, n, i);
      ParseComplete(schema, m[i := n[i]], i + 2, n, rest);
      ParseOneField(schema, m, minField, i, n[i], rest);
    }
  }

  /** The first field that is written. */
  ghost function FirstSet(schema: Schema, m: Message, from: nat): (i: nat)
    requires |m| == |schema| && from <= |m|
    ensures from <= i <= |m| && (i < |m| ==> !IsZero(schema[i], m[i]))
    ensures forall j :: from <= j < i ==> IsZero(schema[j], m[j])
    decreases |m| - from
  {
    if from == |m| || !IsZero(schema[from], m[from]) then from else FirstSet(schema, m, from + 1)
  }

  predicate ValidSchema(schema: Schema) {
    && TagOf(|schema|) < UINT32_LIMIT
    && forall i :: 0 <= i < |schema| && schema[i].FixedBytes? ==> schema[i].length < UINT64_LIMIT
  }

  lemma ZerosAreWellFormed(schema: Schema)
    requires ValidSchema(schema)
    ensures WellFormed(schema, Zeros(schema)) && ZeroFrom(schema, Zeros(schema), 0)
  {
  }

  /** Decoding undoes encoding. */
  lemma RoundTrip(schema: Schema, m: Message)
    requires ValidSchema(schema) && WellFormed(schema, m)
    ensures Unmarshal(schema, Marshal(schema, m)) == Ok(m)
  {
    ZerosAreWellFormed(schema);
    ParseComplete(schema, Zeros(schema), 0, m, Marshal(schema, m));
  }

  /** Encoding undoes decoding: only the encoding of a message is accepted as that message. */
  lemma Canonical(schema: Schema, b: seq<Byte>)
    requires ValidSchema(schema) && Unmarshal(schema, b).Ok?
    ensures WellFormed(schema, Unmarshal(schema, b).value) && Marshal(schema, Unmarshal(schema, b).value) == b
  {
    ZerosAreWellFormed(schema);
    ParseSound(schema, Zeros(schema), 0, b, Unmarshal(schema, b).value);
  }

  /** The decoder accepts exactly the encodings of well-formed messages. */
  lemma AcceptsExactlyEncodings(schema: Schema, b: seq<Byte>)
    requires ValidSchema(schema)
    ensures Unmarshal(schema, b).Ok? <==> exists m :: WellFormed(schema, m) && Marshal(schema, m) == b
  {
    if Unmarshal(schema, b).Ok? {
      Canonical(schema, b);
    }
    forall m | WellFormed(schema, m) && Marshal(schema, m) == b
      ensures Unmarshal(schema, b).Ok?
    {
      RoundTrip(schema, m);
    }
  }

  // ---------------------------------------------------------------------------------------
  // The format, byte by byte.
  // ---------------------------------------------------------------------------------------

  /** Seven bits a byte, least significant first. */
  function ValueOf(b: seq<Byte>): nat {
    if b == [] then 0 else b[0] % 128 + 128 * ValueOf(b[1..])
  }

  /** A varint is the digits of its number; all bytes but the last have their top bit set, and the last is not zero
      unless it is the only one. */
  lemma {:induction false} VarintFormat(n: nat)
    ensures var b := EncodeUint(n);
      && ValueOf(b) == n
      && (forall k :: 0 <= k < |b| ==> (b[k] >= 128 <==> k < |b| - 1))
      && (|b| > 1 ==> b[|b| - 1] > 0)
  {
    var b := EncodeUint(n);
    if n >= 128 {
      VarintFormat(n / 128);
      assert b[1..] == EncodeUint(n / 128);
      forall k | 0 <= k < |b|
        ensures b[k] >= 128 <==> k < |b| - 1
      {
        if k > 0 {
          assert b[k] == EncodeUint(n / 128)[k - 1];
        }
      }
    } else {
      assert b[1..] == [];
    }
  }

  /** A block is its metadata, its inner block and its blacklist under the tags 0x0a, 0x12 and 0x1a, each with its
      length, and without those that are empty. */
  lemma BlockFormat(metadata: seq<Byte>, inner: seq<Byte>, blacklist: seq<Byte>)
    ensures Marshal(BLOCK, [metadata, inner, blacklist]) ==
      Tagged(0x0a, metadata) + Tagged(0x12, inner) + Tagged(0x1a, blacklist)
  {
    var m := [metadata, inner, blacklist];
    FieldFormat(0, 0x0a, metadata);
    FieldFormat(1, 0x12, inner);
    FieldFormat(2, 0x1a, blacklist);
    assert EncodeFrom(BLOCK, m, 3) == [];
    assert EncodeFrom(BLOCK, m, 2) == Tagged(0x1a, blacklist) + [];
    assert EncodeFrom(BLOCK, m, 1) == Tagged(0x12, inner) + EncodeFrom(BLOCK, m, 2);
    assert EncodeFrom(BLOCK, m, 0) == Tagged(0x0a, metadata) + EncodeFrom(BLOCK, m, 1);
  }

  /** A field under a one-byte tag. */
  function Tagged(tag: Byte, v: seq<Byte>): seq<Byte> {
    if v == [] then [] else [tag] + EncodeUint(|v|) + v
  }

  lemma FieldFormat(i: nat, tag: Byte, v: seq<Byte>)
    requires TagOf(i) == tag < 128
    ensures EncodeField(i, v) == [tag] + EncodeUint(|v|) + v
  {
    hide EncodeUint;
    SmallUint(tag);
    Joins([tag], EncodeUint(|v|), v);
  }

  lemma Joins(a: seq<Byte>, b: seq<Byte>, c: seq<Byte>)
    ensures a + (b + c) == a + b + c
  {
  }

  lemma SmallUint(n: Byte)
    requires n < 128
    ensures EncodeUint(n) == [n]
  {
  }
}
