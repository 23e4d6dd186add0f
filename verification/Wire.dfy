/**
 * The generated codecs as one template over a schema: what the printers put on the wire,
 * and what the parsers make of any byte sequence.
 */
module Wire {
  import opened Words
  import opened Varints
  import opened Skipping

  /** A field's type; a schema lists the fields numbered 1, 2, .. */
  datatype Kind = U32 | U64 | I32 | I64 | Bytes | RepBytes | RepMsg(sub: seq<Kind>) {
    predicate IsNumber() {
      U32? || U64? || I32? || I64?
    }
  }

  type Schema = seq<Kind>

  datatype Value = Num(n: int) | Blob(b: bytes) | Blobs(bs: seq<bytes>) | Msgs(ms: seq<Msg>)

  datatype Msg = Msg(fields: seq<Value>)

  function Zero(kind: Kind): Value {
    match kind
    case Bytes => Blob([])
    case RepBytes => Blobs([])
    case RepMsg(_) => Msgs([])
    case _ => Num(0)
  }

  /** The zero message, `&T{}`. */
  function Empty(schema: Schema): (m: Msg)
    ensures |m.fields| == |schema|
  {
    Msg(seq(|schema|, i requires 0 <= i < |schema| => Zero(schema[i])))
  }

  /** The numbers of a field kind. */
  predicate InRange(kind: Kind, n: int) {
    match kind
    case U32 => 0 <= n < 0x1_0000_0000
    case U64 => 0 <= n < 0x1_0000_0000_0000_0000
    case I32 => -0x8000_0000 <= n < 0x8000_0000
    case I64 => -0x8000_0000_0000_0000 <= n < 0x8000_0000_0000_0000
    case _ => false
  }

  /** `v` is a value of the field's type. */
  predicate FitsValue(kind: Kind, v: Value)
    decreases kind, 1
  {
    match kind
    case Bytes => v.Blob?
    case RepBytes => v.Blobs?
    case RepMsg(sub) => v.Msgs? && forall j :: 0 <= j < |v.ms| ==> Fits(sub, v.ms[j])
    case _ => v.Num? && InRange(kind, v.n)
  }

  predicate Fits(schema: Schema, m: Msg)
    decreases schema, 0
  {
    |m.fields| == |schema| && forall i :: 0 <= i < |schema| ==> FitsValue(schema[i], m.fields[i])
  }

  /** Every tag fits one byte, as in the generated printers. */
  predicate OneByteTags(schema: Schema) {
    |schema| <= 15 && forall i :: 0 <= i < |schema| && schema[i].RepMsg? ==> OneByteTags(schema[i].sub)
  }

  // ---------- printing ----------

  /** `uint64(n)`: negative numbers are sign-extended. */
  function Unsigned64(n: int): uint64
    requires -0x8000_0000_0000_0000 <= n < 0x1_0000_0000_0000_0000
  {
    if n < 0 then n + 0x1_0000_0000_0000_0000 else n
  }

  /** A field's number and wire type. */
  function Tag(num: nat, wireType: nat): byte
    requires num <= 15 && wireType < 8
  {
    8 * num + wireType
  }

  function Delimited(num: nat, payload: bytes): (r: bytes)
    requires num <= 15
  {
    [Tag(num, 2)] + Varint(|payload|) + payload
  }

  function EncodeNumber(num: nat, n: int): bytes
    requires num <= 15 && -0x8000_0000_0000_0000 <= n < 0x1_0000_0000_0000_0000
  {
    if n == 0 then [] else [Tag(num, 0)] + Varint(Unsigned64(n))
  }

  /** The elements of a repeated bytes field from the j-th on; empty ones are written too. */
  function EncodeBlobs(num: nat, bs: seq<bytes>, j: nat): bytes
    requires num <= 15 && j <= |bs|
    decreases |bs| - j
  {
    if j == |bs| then [] else Delimited(num, bs[j]) + EncodeBlobs(num, bs, j + 1)
  }

  function EncodeMsgs(sub: Schema, num: nat, ms: seq<Msg>, j: nat): bytes
    requires num <= 15 && j <= |ms| && OneByteTags(sub)
    requires forall e :: 0 <= e < |ms| ==> Fits(sub, ms[e])
    decreases sub, 1, |ms| - j
  {
    if j == |ms| then [] else Delimited(num, Encode(sub, ms[j])) + EncodeMsgs(sub, num, ms, j + 1)
  }

  function EncodeValue(kind: Kind, num: nat, v: Value): bytes
    requires num <= 15 && FitsValue(kind, v) && (kind.RepMsg? ==> OneByteTags(kind.sub))
    decreases kind
  {
    match kind
    case Bytes => if v.b == [] then [] else Delimited(num, v.b)
    case RepBytes => EncodeBlobs(num, v.bs, 0)
    case RepMsg(sub) => EncodeMsgs(sub, num, v.ms, 0)
    case _ => EncodeNumber(num, v.n)
  }

  /** The fields from the i-th on, in ascending order. */
  function EncodeFrom(schema: Schema, m: Msg, i: nat): bytes
    requires OneByteTags(schema) && Fits(schema, m) && i <= |schema|
    decreases schema, 0, |m.fields| - i
  {
    if i == |schema| then [] else EncodeValue(schema[i], i + 1, m.fields[i]) + EncodeFrom(schema, m, i + 1)
  }

  function Encode(schema: Schema, m: Msg): bytes
    requires OneByteTags(schema) && Fits(schema, m)
    decreases schema, 0, |m.fields| + 1
  {
    EncodeFrom(schema, m, 0)
  }

  // ---------- parsing ----------

  /** Why parsing stopped; a length past the end is kept as the end it asks for. */
  datatype Fault = Plain(error: Error) | Overrun(end: nat)

  /** The error returned for a message that starts at index 0: a too large end has wrapped around. */
  function Surface(f: Fault): Error {
    match f
    case Plain(e) => e
    case Overrun(end) => if end > MAX_INT then InvalidLength else UnexpectedEof
  }

  /** A fault of a part that starts `n` bytes later. */
  function Later(f: Fault, n: nat): Fault {
    if f.Overrun? then Overrun(f.end + n) else f
  }

  /** The number a field holds after reading a varint: its low bits, as the field's type. */
  function FromRaw(kind: Kind, raw: nat): (n: int)
    ensures kind.IsNumber() ==> InRange(kind, n)
  {
    match kind
    case U32 => Low32(raw)
    case U64 => Low64(raw)
    case I32 => Signed32(raw)
    case _ => Signed64(raw)
  }

  /** Where a length-delimited payload stands. */
  datatype SpanRead = Span(start: nat, end: nat) | BadSpan(fault: Fault)

  function ReadSpan(data: bytes, k: nat): (r: SpanRead)
    requires k <= |data|
    ensures r.Span? ==> k < r.start <= r.end <= |data|
  {
    match ReadVarint(data, k)
    case Overflow(_) => BadSpan(Plain(IntOverflow))
    case Eof(_) => BadSpan(Plain(UnexpectedEof))
    case Done(raw, n) =>
      var len := Signed64(raw);
      if len < 0 then BadSpan(Plain(InvalidLength))
      else if k + n + len > |data| then BadSpan(Overrun(k + n + len))
      else Span(k + n, k + n + len)
  }

  /** The value of one field after one of its records, and the index after the record. */
  datatype FieldStep = FieldOk(v: Value, n: nat) | FieldErr(v: Value, fault: Fault)

  /** A number field is overwritten; on a broken varint it keeps the groups read so far. */
  function ParseNumber(kind: Kind, data: bytes, k: nat): (r: FieldStep)
    requires k <= |data| && kind.IsNumber()
    ensures r.FieldOk? ==> k < r.n <= |data|
    ensures FitsValue(kind, r.v)
  {
    match ReadVarint(data, k)
    case Done(raw, n) => FieldOk(Num(FromRaw(kind, raw)), k + n)
    case Overflow(raw) => FieldErr(Num(FromRaw(kind, raw)), Plain(IntOverflow))
    case Eof(raw) => FieldErr(Num(FromRaw(kind, raw)), Plain(UnexpectedEof))
  }

  function ParseField(kind: Kind, num: nat, wireType: nat, data: bytes, k: nat, v: Value): (r: FieldStep)
    requires 0 < k <= |data| && FitsValue(kind, v)
    ensures r.FieldOk? ==> k < r.n <= |data|
    ensures FitsValue(kind, r.v)
    decreases |data|, 0, 1
  {
    if wireType != (if kind.IsNumber() then 0 else 2) then FieldErr(v, Plain(WrongWireType(wireType, num)))
    else if kind.IsNumber() then ParseNumber(kind, data, k)
    else
      match ReadSpan(data, k)
      case BadSpan(fault) => FieldErr(v, fault)
      case Span(start, end) => ParseSpan(kind, data, start, end, v)
  }

  /** Bytes are replaced, repeated fields appended to; a nested message that fails stays in the list as far as it got. */
  function ParseSpan(kind: Kind, data: bytes, start: nat, end: nat, v: Value): (r: FieldStep)
    requires 0 < start <= end <= |data| && !kind.IsNumber() && FitsValue(kind, v)
    ensures r.FieldOk? ==> r.n == end
    ensures FitsValue(kind, r.v)
    decreases |data|, 0, 0
  {
    var payload := data[start..end];
    match kind
    case Bytes => FieldOk(Blob(payload), end)
    case RepBytes => FieldOk(Blobs(v.bs + [payload]), end)
    case RepMsg(sub) =>
      var o := Parse(sub, payload, Empty(sub));
      if o.fault.None? then FieldOk(Msgs(v.ms + [o.m]), end)
      else FieldErr(Msgs(v.ms + [o.m]), Plain(Surface(o.fault.value)))
  }

  /** One turn of the parsing loop: the message after it and the bytes consumed, or the fault. */
  datatype Step = Next(m: Msg, n: nat) | Fail(m: Msg, fault: Fault)

  function ParseOne(schema: Schema, data: bytes, m: Msg): (r: Step)
    requires data != [] && Fits(schema, m)
    ensures r.Next? ==> 0 < r.n <= |data|
    ensures Fits(schema, r.m)
    decreases |data|, 1
  {
    match ReadVarint(data, 0)
    case Overflow(_) => Fail(m, Plain(IntOverflow))
    case Eof(_) => Fail(m, Plain(UnexpectedEof))
    case Done(raw, k) =>
      var wire := Low64(raw);
      var num, wireType := Signed32(wire / 8), wire % 8;
      if wireType == 4 then Fail(m, Plain(EndGroupForNonGroup))
      else if num <= 0 then Fail(m, Plain(IllegalTag(num, wire)))
      else if num <= |schema| then StoreField(schema, num, wireType, data, k, m)
      else SkipUnknown(data, m)
  }

  function StoreField(schema: Schema, num: nat, wireType: nat, data: bytes, k: nat, m: Msg): (r: Step)
    requires 0 < k <= |data| && 0 < num <= |schema| && Fits(schema, m)
    ensures r.Next? ==> 0 < r.n <= |data|
    ensures Fits(schema, r.m)
    decreases |data|, 0, 2
  {
    match ParseField(schema[num - 1], num, wireType, data, k, m.fields[num - 1])
    case FieldOk(v, n) => Next(Msg(m.fields[num - 1 := v]), n)
    case FieldErr(v, fault) => Fail(Msg(m.fields[num - 1 := v]), fault)
  }

  function SkipUnknown(data: bytes, m: Msg): (r: Step)
    requires data != []
    ensures r.Next? ==> 0 < r.n <= |data|
    ensures r.m == m
  {
    match Skip(data, 0, 0)
    case SkipErr(e) => Fail(m, Plain(e))
    case SkipTo(n) => if n > |data| then Fail(m, Overrun(n)) else Next(m, n)
  }

  /** The message after parsing, and the fault if there was one. */
  datatype Outcome = Outcome(m: Msg, fault: Option<Fault>)

  function Delay(o: Outcome, n: nat): Outcome {
    if o.fault.Some? then Outcome(o.m, Some(Later(o.fault.value, n))) else o
  }

  /** The whole loop, merging into `m`. */
  function Parse(schema: Schema, data: bytes, m: Msg): (o: Outcome)
    requires Fits(schema, m)
    ensures Fits(schema, o.m)
    decreases |data|, 2
  {
    if data == [] then Outcome(m, None)
    else
      match ParseOne(schema, data, m)
      case Next(m', n) => Delay(Parse(schema, data[n..], m'), n)
      case Fail(m', fault) => Outcome(m', Some(fault))
  }

  /** `m.Unmarshal(data)`: the message it leaves and the error it returns. */
  function Unmarshal(schema: Schema, data: bytes, m: Msg): (r: (Msg, Option<Error>))
    requires Fits(schema, m)
    ensures Fits(schema, r.0)
  {
    var o := Parse(schema, data, m);
    (o.m, if o.fault.None? then None else Some(Surface(o.fault.value)))
  }
}
