/** Re-encoding what was accepted never grows it, but for int32 fields that turn out negative. */
module Reencoding {
  import opened Words
  import opened Varints
  import opened Skipping
  import opened Wire
  import opened Merging
  import opened RoundTrip

  /** No int32 field, at any depth. */
  predicate NoInt32(schema: Schema) {
    forall i :: 0 <= i < |schema| ==> schema[i] != I32 && (schema[i].RepMsg? ==> NoInt32(schema[i].sub))
  }

  /** int32 fields stand at the top level only. */
  predicate Int32OnTop(schema: Schema) {
    OneByteTags(schema) && forall i :: 0 <= i < |schema| && schema[i].RepMsg? ==> NoInt32(schema[i].sub)
  }

  /** A negative int32 is printed in 10 varint bytes although 5 would carry it. */
  function Padding(kind: Kind, v: Value): nat
    requires FitsValue(kind, v)
  {
    if kind == I32 && v.n < 0 then 5 else 0
  }

  function PaddingFrom(schema: Schema, m: Msg, i: nat): nat
    requires Fits(schema, m) && i <= |schema|
    decreases |m.fields| - i
  {
    if i == |schema| then 0 else Padding(schema[i], m.fields[i]) + PaddingFrom(schema, m, i + 1)
  }

  /** The printed size of a field without the padding. */
  function Weight(kind: Kind, num: nat, v: Value): int
    requires num <= 15 && FitsValue(kind, v) && (kind.RepMsg? ==> OneByteTags(kind.sub))
  {
    |EncodeValue(kind, num, v)| - Padding(kind, v)
  }

  function WeightFrom(schema: Schema, m: Msg, i: nat): int
    requires OneByteTags(schema) && Fits(schema, m) && i <= |schema|
    decreases |m.fields| - i
  {
    if i == |schema| then 0 else Weight(schema[i], i + 1, m.fields[i]) + WeightFrom(schema, m, i + 1)
  }

  lemma {:induction false} SizeIsWeightAndPadding(schema: Schema, m: Msg, i: nat)
    requires OneByteTags(schema) && Fits(schema, m) && i <= |schema|
    ensures |EncodeFrom(schema, m, i)| == WeightFrom(schema, m, i) + PaddingFrom(schema, m, i)
    decreases |schema| - i
  {
    if i < |schema| {
      SizeIsWeightAndPadding(schema, m, i + 1);
    }
  }

  lemma {:induction false} WeightOfUpdate(schema: Schema, m: Msg, k: nat, v: Value, i: nat)
    requires OneByteTags(schema) && Fits(schema, m) && k < |schema| && FitsValue(schema[k], v) && i <= |schema|
    requires Fits(schema, Msg(m.fields[k := v]))
    ensures WeightFrom(schema, Msg(m.fields[k := v]), i) ==
            WeightFrom(schema, m, i) +
            if i <= k then Weight(schema[k], k + 1, v) - Weight(schema[k], k + 1, m.fields[k]) else 0
    decreases |schema| - i
  {
    if i < |schema| {
      WeightOfUpdate(schema, m, k, v, i + 1);
    }
  }

  lemma {:induction false} WeightOfEmpty(schema: Schema, i: nat)
    requires OneByteTags(schema) && Fits(schema, Empty(schema)) && i <= |schema|
    ensures WeightFrom(schema, Empty(schema), i) == 0
    decreases |schema| - i
  {
    if i < |schema| {
      assert EncodeValue(schema[i], i + 1, Zero(schema[i])) == [];
      WeightOfEmpty(schema, i + 1);
    }
  }

  lemma {:induction false} NoPadding(schema: Schema, m: Msg, i: nat)
    requires NoInt32(schema) && Fits(schema, m) && i <= |schema|
    ensures PaddingFrom(schema, m, i) == 0
    decreases |schema| - i
  {
    if i < |schema| {
      NoPadding(schema, m, i + 1);
    }
  }

  // ---------- one record ----------

  lemma NumberWeight(kind: Kind, num: nat, raw: nat, data: bytes, k: nat)
    requires kind.IsNumber() && 1 <= num <= 15 && k <= |data|
    requires ReadVarint(data, k).Done? && ReadVarint(data, k).raw == raw
    ensures Weight(kind, num, Num(FromRaw(kind, raw))) <= 1 + ReadVarint(data, k).n
  {
    var n := FromRaw(kind, raw);
    var u := Unsigned64(n);
    VarintRoundTrip(u, [], []);
    if kind == I32 && n < 0 {
      NegativeTakesFive(data, k);
    } else {
      UnsignedIsBelowRaw(kind, raw);
      ReadNeverShorterThanWritten(data, k, u);
    }
  }

  lemma UnsignedIsBelowRaw(kind: Kind, raw: nat)
    requires kind.IsNumber() && (kind == I32 ==> FromRaw(kind, raw) >= 0)
    ensures Unsigned64(FromRaw(kind, raw)) <= raw
  {
  }

  lemma NegativeTakesFive(data: bytes, k: nat)
    requires k <= |data| && ReadVarint(data, k).Done? && Signed32(ReadVarint(data, k).raw) < 0
    ensures ReadVarint(data, k).n >= 5
  {
    ReadBound(data, k, 10);
    assert Pow128(1) == 0x80;
    assert Pow128(2) == 0x4000;
    assert Pow128(3) == 0x20_0000;
    assert Pow128(4) == 0x1000_0000;
  }

  /** A payload no longer than the one read needs no longer a length. */
  lemma DelimitedFits(num: nat, payload: bytes, data: bytes, k: nat)
    requires 1 <= num <= 15 && k <= |data| && ReadSpan(data, k).Span?
    requires |payload| <= ReadSpan(data, k).end - ReadSpan(data, k).start
    ensures |Delimited(num, payload)| <= 1 + ReadSpan(data, k).end - k
  {
    ReadNeverShorterThanWritten(data, k, |payload|);
  }

  lemma {:induction false} BlobsAppend(num: nat, bs: seq<bytes>, b: bytes, j: nat)
    requires num <= 15 && j <= |bs|
    ensures EncodeBlobs(num, bs + [b], j) == EncodeBlobs(num, bs, j) + Delimited(num, b)
    decreases |bs| - j
  {
    if j == |bs| {
      assert EncodeBlobs(num, bs + [b], j + 1) == [];
    } else {
      BlobsAppend(num, bs, b, j + 1);
    }
  }

  lemma {:induction false} MsgsAppend(sub: Schema, num: nat, ms: seq<Msg>, x: Msg, j: nat)
    requires num <= 15 && j <= |ms| && OneByteTags(sub) && Fits(sub, x)
    requires forall e :: 0 <= e < |ms| ==> Fits(sub, ms[e])
    ensures EncodeMsgs(sub, num, ms + [x], j) == EncodeMsgs(sub, num, ms, j) + Delimited(num, Encode(sub, x))
    decreases |ms| - j
  {
    if j == |ms| {
      assert EncodeMsgs(sub, num, ms + [x], j + 1) == [];
    } else {
      MsgsAppend(sub, num, ms, x, j + 1);
    }
  }

  lemma {:induction false} SpanWeight(kind: Kind, num: nat, data: bytes, k: nat, v: Value)
    requires 0 < k <= |data| && ReadSpan(data, k).Span? && !kind.IsNumber() && FitsValue(kind, v) && 1 <= num <= 15
    requires kind.RepMsg? ==> OneByteTags(kind.sub) && NoInt32(kind.sub)
    requires ParseSpan(kind, data, ReadSpan(data, k).start, ReadSpan(data, k).end, v).FieldOk?
    ensures var r := ParseSpan(kind, data, ReadSpan(data, k).start, ReadSpan(data, k).end, v);
            Weight(kind, num, r.v) <= Weight(kind, num, v) + 1 + r.n - k
    decreases |data|, 0
  {
    var span := ReadSpan(data, k);
    var payload := data[span.start..span.end];
    match kind
    case Bytes =>
      DelimitedFits(num, payload, data, k);
    case RepBytes =>
      DelimitedFits(num, payload, data, k);
      BlobsAppend(num, v.bs, payload, 0);
    case RepMsg(sub) =>
      var x := Parse(sub, payload, Empty(sub)).m;
      ReencodingNeverGrowsPlain(sub, payload);
      DelimitedFits(num, Encode(sub, x), data, k);
      MsgsAppend(sub, num, v.ms, x, 0);
  }

  lemma {:induction false} FieldWeight(kind: Kind, num: nat, wireType: nat, data: bytes, k: nat, v: Value)
    requires 0 < k <= |data| && FitsValue(kind, v) && 1 <= num <= 15
    requires kind.RepMsg? ==> OneByteTags(kind.sub) && NoInt32(kind.sub)
    requires ParseField(kind, num, wireType, data, k, v).FieldOk?
    ensures var r := ParseField(kind, num, wireType, data, k, v);
            Weight(kind, num, r.v) <= Weight(kind, num, v) + 1 + r.n - k
    decreases |data|, 1
  {
    if kind.IsNumber() {
      NumberWeight(kind, num, ReadVarint(data, k).raw, data, k);
      WeightIsNatural(kind, num, v);
    } else {
      SpanWeight(kind, num, data, k, v);
    }
  }

  lemma WeightIsNatural(kind: Kind, num: nat, v: Value)
    requires 1 <= num <= 15 && FitsValue(kind, v) && (kind.RepMsg? ==> OneByteTags(kind.sub))
    ensures Weight(kind, num, v) >= 0
  {
    if kind == I32 && v.n < 0 {
      LargeVarint(Unsigned64(v.n));
    }
  }

  lemma LargeVarint(u: nat)
    requires u >= 0x1000_0000
    ensures |Varint(u)| >= 5
  {
    assert |Varint(u / 128 / 128 / 128 / 128)| >= 1;
    assert |Varint(u / 128 / 128 / 128)| >= 2;
    assert |Varint(u / 128 / 128)| >= 3;
    assert |Varint(u / 128)| >= 4;
  }

  lemma {:induction false} RecordWeight(schema: Schema, data: bytes, m: Msg)
    requires Int32OnTop(schema) && data != [] && Fits(schema, m) && ParseOne(schema, data, m).Next?
    ensures var r := ParseOne(schema, data, m);
            WeightFrom(schema, r.m, 0) <= WeightFrom(schema, m, 0) + r.n
    decreases |data|, 2
  {
    var tag := ReadVarint(data, 0);
    var wire := Low64(tag.raw);
    var num := Signed32(wire / 8);
    if num <= |schema| {
      FieldWeight(schema[num - 1], num, wire % 8, data, tag.n, m.fields[num - 1]);
      var r := ParseField(schema[num - 1], num, wire % 8, data, tag.n, m.fields[num - 1]);
      WeightOfUpdate(schema, m, num - 1, r.v, 0);
    }
  }

  lemma {:induction false} ParseWeight(schema: Schema, data: bytes, m: Msg)
    requires Int32OnTop(schema) && Fits(schema, m) && Parse(schema, data, m).fault.None?
    ensures WeightFrom(schema, Parse(schema, data, m).m, 0) <= WeightFrom(schema, m, 0) + |data|
    decreases |data|, 3
  {
    if data != [] {
      RecordWeight(schema, data, m);
      var step := ParseOne(schema, data, m);
      ParseWeight(schema, data[step.n..], step.m);
    }
  }

  // ---------- the theorems ----------

  /** An accepted input is at least as long as the encoding of what it was read as. */
  lemma {:induction false} ReencodingNeverGrowsPlain(schema: Schema, data: bytes)
    requires OneByteTags(schema) && NoInt32(schema) && Unmarshal(schema, data, Empty(schema)).1.None?
    ensures |Encode(schema, Unmarshal(schema, data, Empty(schema)).0)| <= |data|
    decreases |data|, 4
  {
    var m := Unmarshal(schema, data, Empty(schema)).0;
    ParseWeight(schema, data, Empty(schema));
    WeightOfEmpty(schema, 0);
    SizeIsWeightAndPadding(schema, m, 0);
    NoPadding(schema, m, 0);
  }

  /** With int32 fields it grows by at most 5 bytes for each field read as negative. */
  lemma ReencodingNeverGrows(schema: Schema, data: bytes)
    requires Int32OnTop(schema) && Unmarshal(schema, data, Empty(schema)).1.None?
    ensures var m := Unmarshal(schema, data, Empty(schema)).0;
            |Encode(schema, m)| <= |data| + PaddingFrom(schema, m, 0)
  {
    var m := Unmarshal(schema, data, Empty(schema)).0;
    ParseWeight(schema, data, Empty(schema));
    WeightOfEmpty(schema, 0);
    SizeIsWeightAndPadding(schema, m, 0);
  }

  /** With one int32 field, its sign decides the padding. */
  lemma {:induction false} PaddingOfOne(schema: Schema, m: Msg, k: nat, i: nat)
    requires Fits(schema, m) && k < |schema| && i <= |schema|
    requires forall j :: 0 <= j < |schema| && j != k ==> schema[j] != I32
    ensures PaddingFrom(schema, m, i) == if i <= k then Padding(schema[k], m.fields[k]) else 0
    decreases |schema| - i
  {
    if i < |schema| {
      PaddingOfOne(schema, m, k, i + 1);
    }
  }

  /** With a single int32 field it grows by at most 5 bytes, and only when that field was read as negative. */
  lemma ReencodingWithOneInt32(schema: Schema, k: nat, data: bytes)
    requires Int32OnTop(schema) && k < |schema| && Unmarshal(schema, data, Empty(schema)).1.None?
    requires forall j :: 0 <= j < |schema| && j != k ==> schema[j] != I32
    ensures var m := Unmarshal(schema, data, Empty(schema)).0;
            |Encode(schema, m)| <= |data| + Padding(schema[k], m.fields[k])
  {
    ReencodingNeverGrows(schema, data);
    PaddingOfOne(schema, Unmarshal(schema, data, Empty(schema)).0, k, 0);
  }

  /** Re-encoding an accepted input, whatever its shape, and reading that again gives the same message. */
  lemma ReencodingIsStable(schema: Schema, data: bytes)
    requires OneByteTags(schema) && Unmarshal(schema, data, Empty(schema)).1.None?
    requires |Encode(schema, Unmarshal(schema, data, Empty(schema)).0)| <= MAX_INT
    ensures var m := Unmarshal(schema, data, Empty(schema)).0;
            Unmarshal(schema, Encode(schema, m), Empty(schema)) == Unmarshal(schema, data, Empty(schema))
  {
    MarshalThenUnmarshal(schema, Unmarshal(schema, data, Empty(schema)).0);
  }
}
