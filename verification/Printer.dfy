/** The printers: sizes first, then the buffer filled backwards, from the last field to the first. */
module Printer {
  import opened Words
  import opened Varints
  import opened Wire

  /** Between `i` and `end` stands `bs`; every other byte is as before. */
  ghost predicate Wrote(after: bytes, before: bytes, i: nat, end: nat, bs: bytes) {
    && |after| == |before| && i + |bs| == end <= |before|
    && after[..i] == before[..i]
    && after[i..end] == bs
    && after[end..] == before[end..]
  }

  lemma WroteNothing(s: bytes, i: nat)
    requires i <= |s|
    ensures Wrote(s, s, i, i, [])
  {
  }

  /** Writing in front of what was written. */
  lemma WroteBefore(s2: bytes, s1: bytes, s0: bytes, i: nat, j: nat, end: nat, front: bytes, back: bytes)
    requires Wrote(s1, s0, j, end, back) && Wrote(s2, s1, i, j, front)
    ensures Wrote(s2, s0, i, end, front + back)
  {
    assert s1[..i] == s1[..j][..i] == s0[..j][..i] == s0[..i];
    assert s2[j..end] == s2[j..][..end - j] == s1[j..][..end - j] == s1[j..end];
    assert s2[i..end] == s2[i..j] + s2[j..end];
    assert s2[end..] == s2[j..][end - j..] == s1[j..][end - j..] == s1[end..];
  }

  /** `copy(dAtA[i:], b)`. */
  method CopyInto(dAtA: array<byte>, i: nat, b: bytes)
    requires i + |b| <= dAtA.Length
    modifies dAtA
    ensures Wrote(dAtA[..], old(dAtA[..]), i, i + |b|, b)
  {
    forall k | 0 <= k < |b| {
      dAtA[i + k] := b[k];
    }
  }

  method PutByte(dAtA: array<byte>, i: nat, b: byte) returns (i': nat)
    requires 0 < i <= dAtA.Length
    modifies dAtA
    ensures i' == i - 1
    ensures Wrote(dAtA[..], old(dAtA[..]), i', i, [b])
  {
    i' := i - 1;
    dAtA[i'] := b;
  }

  method PutVarint(dAtA: array<byte>, i: nat, v: uint64) returns (i': nat)
    requires |Varint(v)| <= i <= dAtA.Length
    modifies dAtA
    ensures i' == i - |Varint(v)|
    ensures Wrote(dAtA[..], old(dAtA[..]), i', i, Varint(v))
  {
    SovIsExact(v);
    i' := EncodeVarint(dAtA, i, v);
  }

  /** A tag and a varint in front of index `i`. */
  method PutTagged(dAtA: array<byte>, i: nat, num: nat, wireType: nat, v: uint64) returns (i': nat)
    requires num <= 15 && wireType < 8 && 1 + |Varint(v)| <= i <= dAtA.Length
    modifies dAtA
    ensures i' == i - 1 - |Varint(v)|
    ensures Wrote(dAtA[..], old(dAtA[..]), i', i, [Tag(num, wireType)] + Varint(v))
  {
    ghost var s0 := dAtA[..];
    var j := PutVarint(dAtA, i, v);
    ghost var s1 := dAtA[..];
    i' := PutByte(dAtA, j, Tag(num, wireType));
    WroteBefore(dAtA[..], s1, s0, i', j, i, [Tag(num, wireType)], Varint(v));
  }

  method PutDelimited(dAtA: array<byte>, i: nat, num: nat, payload: bytes) returns (i': nat)
    requires num <= 15 && |payload| <= MAX_INT && |Delimited(num, payload)| <= i <= dAtA.Length
    modifies dAtA
    ensures i' == i - |Delimited(num, payload)|
    ensures Wrote(dAtA[..], old(dAtA[..]), i', i, Delimited(num, payload))
  {
    ghost var s0 := dAtA[..];
    var j := i - |payload|;
    CopyInto(dAtA, j, payload);
    ghost var s1 := dAtA[..];
    i' := PutTagged(dAtA, j, num, 2, |payload|);
    WroteBefore(dAtA[..], s1, s0, i', j, i, [Tag(num, 2)] + Varint(|payload|), payload);
  }

  // ---------- sizes ----------

  lemma {:induction false} BlobsGrow(num: nat, bs: seq<bytes>, j: nat)
    requires num <= 15 && j <= |bs|
    ensures |EncodeBlobs(num, bs, 0)| >= |EncodeBlobs(num, bs, j)|
  {
    if j > 0 {
      BlobsGrow(num, bs, j - 1);
    }
  }

  lemma {:induction false} MsgsGrow(sub: Schema, num: nat, ms: seq<Msg>, j: nat)
    requires num <= 15 && j <= |ms| && OneByteTags(sub) && forall e :: 0 <= e < |ms| ==> Fits(sub, ms[e])
    ensures |EncodeMsgs(sub, num, ms, 0)| >= |EncodeMsgs(sub, num, ms, j)|
  {
    if j > 0 {
      MsgsGrow(sub, num, ms, j - 1);
    }
  }

  lemma {:induction false} FieldsGrow(schema: Schema, m: Msg, i: nat)
    requires OneByteTags(schema) && Fits(schema, m) && i <= |schema|
    ensures |Encode(schema, m)| >= |EncodeFrom(schema, m, i)|
  {
    if i > 0 {
      FieldsGrow(schema, m, i - 1);
    }
  }

  /** `Size()`: what the generated code adds up, field by field, is the exact length of the encoding. */
  method Size(schema: Schema, m: Msg) returns (n: nat)
    requires OneByteTags(schema) && Fits(schema, m) && |Encode(schema, m)| <= MAX_INT
    ensures n == |Encode(schema, m)|
    decreases schema, 0
  {
    n := 0;
    var i := 0;
    while i < |schema|
      invariant 0 <= i <= |schema|
      invariant n + |EncodeFrom(schema, m, i)| == |Encode(schema, m)|
    {
      FieldsGrow(schema, m, i);
      var s := SizeOfField(schema[i], i + 1, m.fields[i]);
      n := n + s;
      i := i + 1;
    }
  }

  method SizeOfField(kind: Kind, num: nat, v: Value) returns (n: nat)
    requires num <= 15 && FitsValue(kind, v) && (kind.RepMsg? ==> OneByteTags(kind.sub))
    requires |EncodeValue(kind, num, v)| <= MAX_INT
    ensures n == |EncodeValue(kind, num, v)|
    decreases kind
  {
    n := 0;
    match kind
    case Bytes =>
      if |v.b| > 0 {
        n := SizeOfDelimited(num, v.b, |v.b|);
      }
    case RepBytes =>
      for j := 0 to |v.bs|
        invariant n + |EncodeBlobs(num, v.bs, j)| == |EncodeBlobs(num, v.bs, 0)|
      {
        BlobsGrow(num, v.bs, j);
        var s := SizeOfDelimited(num, v.bs[j], |v.bs[j]|);
        n := n + s;
      }
    case RepMsg(sub) =>
      for j := 0 to |v.ms|
        invariant n + |EncodeMsgs(sub, num, v.ms, j)| == |EncodeMsgs(sub, num, v.ms, 0)|
      {
        MsgsGrow(sub, num, v.ms, j);
        var l := Size(sub, v.ms[j]);
        var s := SizeOfDelimited(num, Encode(sub, v.ms[j]), l);
        n := n + s;
      }
    case _ =>
      if v.n != 0 {
        SovIsExact(Unsigned64(v.n));
        n := 1 + Sov(Unsigned64(v.n));
      }
  }

  method SizeOfDelimited(num: nat, ghost payload: bytes, l: nat) returns (n: nat)
    requires num <= 15 && l == |payload| <= MAX_INT
    ensures n == |Delimited(num, payload)|
  {
    SovIsExact(l);
    n := 1 + l + Sov(l);
  }

  // ---------- printing ----------

  /** The printer's block for one field, in front of index `i`. */
  method MarshalField(kind: Kind, num: nat, v: Value, dAtA: array<byte>, i: nat) returns (i': nat)
    requires num <= 15 && FitsValue(kind, v) && (kind.RepMsg? ==> OneByteTags(kind.sub))
    requires |EncodeValue(kind, num, v)| <= i <= dAtA.Length && |EncodeValue(kind, num, v)| <= MAX_INT
    modifies dAtA
    ensures i' == i - |EncodeValue(kind, num, v)|
    ensures Wrote(dAtA[..], old(dAtA[..]), i', i, EncodeValue(kind, num, v))
    decreases kind
  {
    i' := i;
    WroteNothing(dAtA[..], i);
    match kind
    case Bytes =>
      if |v.b| > 0 {
        i' := PutDelimited(dAtA, i', num, v.b);
      }
    case RepBytes =>
      i' := MarshalBlobs(num, v.bs, dAtA, i);
    case RepMsg(sub) =>
      i' := MarshalMsgs(sub, num, v.ms, dAtA, i);
    case _ =>
      if v.n != 0 {
        i' := PutTagged(dAtA, i', num, 0, Unsigned64(v.n));
      }
  }

  /** The last element first. */
  method MarshalBlobs(num: nat, bs: seq<bytes>, dAtA: array<byte>, i: nat) returns (i': nat)
    requires num <= 15
    requires |EncodeBlobs(num, bs, 0)| <= i <= dAtA.Length && |EncodeBlobs(num, bs, 0)| <= MAX_INT
    modifies dAtA
    ensures i' == i - |EncodeBlobs(num, bs, 0)|
    ensures Wrote(dAtA[..], old(dAtA[..]), i', i, EncodeBlobs(num, bs, 0))
  {
    i' := i;
    ghost var s0 := dAtA[..];
    WroteNothing(s0, i);
    var iNdEx := |bs| - 1;
    while iNdEx >= 0
      invariant -1 <= iNdEx < |bs|
      invariant i' == i - |EncodeBlobs(num, bs, iNdEx + 1)|
      invariant Wrote(dAtA[..], s0, i', i, EncodeBlobs(num, bs, iNdEx + 1))
    {
      BlobsGrow(num, bs, iNdEx);
      ghost var s1, j := dAtA[..], i';
      i' := PutDelimited(dAtA, i', num, bs[iNdEx]);
      WroteBefore(dAtA[..], s1, s0, i', j, i, Delimited(num, bs[iNdEx]), EncodeBlobs(num, bs, iNdEx + 1));
      iNdEx := iNdEx - 1;
    }
  }

  /** A nested message is printed in place, `dAtA[:i]`; the size it returns becomes its length prefix. */
  method MarshalMsgs(sub: Schema, num: nat, ms: seq<Msg>, dAtA: array<byte>, i: nat) returns (i': nat)
    requires num <= 15 && OneByteTags(sub) && forall e :: 0 <= e < |ms| ==> Fits(sub, ms[e])
    requires |EncodeMsgs(sub, num, ms, 0)| <= i <= dAtA.Length && |EncodeMsgs(sub, num, ms, 0)| <= MAX_INT
    modifies dAtA
    ensures i' == i - |EncodeMsgs(sub, num, ms, 0)|
    ensures Wrote(dAtA[..], old(dAtA[..]), i', i, EncodeMsgs(sub, num, ms, 0))
    decreases sub, 1
  {
    i' := i;
    ghost var s0 := dAtA[..];
    WroteNothing(s0, i);
    var iNdEx := |ms| - 1;
    while iNdEx >= 0
      invariant -1 <= iNdEx < |ms|
      invariant i' == i - |EncodeMsgs(sub, num, ms, iNdEx + 1)|
      invariant Wrote(dAtA[..], s0, i', i, EncodeMsgs(sub, num, ms, iNdEx + 1))
    {
      MsgsGrow(sub, num, ms, iNdEx);
      ghost var s1, j := dAtA[..], i';
      i' := MarshalMsg(sub, num, ms[iNdEx], dAtA, i');
      WroteBefore(dAtA[..], s1, s0, i', j, i, Delimited(num, Encode(sub, ms[iNdEx])), EncodeMsgs(sub, num, ms, iNdEx + 1));
      iNdEx := iNdEx - 1;
    }
  }

  method MarshalMsg(sub: Schema, num: nat, m: Msg, dAtA: array<byte>, i: nat) returns (i': nat)
    requires num <= 15 && OneByteTags(sub) && Fits(sub, m)
    requires |Delimited(num, Encode(sub, m))| <= i <= dAtA.Length && |Encode(sub, m)| <= MAX_INT
    modifies dAtA
    ensures i' == i - |Delimited(num, Encode(sub, m))|
    ensures Wrote(dAtA[..], old(dAtA[..]), i', i, Delimited(num, Encode(sub, m)))
    decreases sub, 0, |sub| + 2
  {
    ghost var s0 := dAtA[..];
    var size := MarshalToSizedBuffer(sub, m, dAtA, i);
    ghost var s1 := dAtA[..];
    var j := i - size;
    i' := PutTagged(dAtA, j, num, 2, size);
    WroteBefore(dAtA[..], s1, s0, i', j, i, [Tag(num, 2)] + Varint(size), Encode(sub, m));
  }

  /**
   * `MarshalToSizedBuffer(dAtA[:end])`: fields in descending order, each in front of the one before,
   * end up as the ascending encoding in the last bytes before `end`; the rest of the buffer is untouched.
   */
  method MarshalToSizedBuffer(schema: Schema, m: Msg, dAtA: array<byte>, end: nat) returns (n: nat)
    requires OneByteTags(schema) && Fits(schema, m)
    requires |Encode(schema, m)| <= end <= dAtA.Length && |Encode(schema, m)| <= MAX_INT
    modifies dAtA
    ensures n == |Encode(schema, m)|
    ensures Wrote(dAtA[..], old(dAtA[..]), end - n, end, Encode(schema, m))
    decreases schema, 0, |schema| + 1
  {
    var i := end;
    ghost var s0 := dAtA[..];
    WroteNothing(s0, end);
    var f := |schema|;
    while f > 0
      invariant 0 <= f <= |schema|
      invariant i == end - |EncodeFrom(schema, m, f)|
      invariant Wrote(dAtA[..], s0, i, end, EncodeFrom(schema, m, f))
    {
      f := f - 1;
      FieldsGrow(schema, m, f);
      ghost var s1, j := dAtA[..], i;
      i := MarshalField(schema[f], f + 1, m.fields[f], dAtA, i);
      WroteBefore(dAtA[..], s1, s0, i, j, end, EncodeValue(schema[f], f + 1, m.fields[f]), EncodeFrom(schema, m, f + 1));
    }
    n := end - i;
  }

  /** `Marshal`: the buffer of `Size()` bytes is filled from its end exactly down to index 0. */
  method Marshal(schema: Schema, m: Msg) returns (dAtA: array<byte>)
    requires OneByteTags(schema) && Fits(schema, m) && |Encode(schema, m)| <= MAX_INT
    ensures fresh(dAtA) && dAtA[..] == Encode(schema, m)
  {
    var size := Size(schema, m);
    dAtA := new byte[size];
    var n := MarshalToSizedBuffer(schema, m, dAtA, size);
    assert dAtA[..] == dAtA[..][0..size];
  }
}
