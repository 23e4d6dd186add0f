/**
 * Which inputs an unmarshaller accepts, what one record does to the message, and with which error anything else is
 * refused: told from the bytes, field number and wire type by field number and wire type, beside the parser.
 */
module Acceptance {
  import opened Words
  import opened Varints
  import opened Skipping
  import opened FieldGrammar
  import opened Wire
  import opened Merging

  // ---------- the accepted inputs ----------

  /** Numbers are varints, everything else is length-delimited. */
  function WireTypeOf(kind: Kind): nat {
    match kind
    case U32 => 0
    case U64 => 0
    case I32 => 0
    case I64 => 0
    case Bytes => 2
    case RepBytes => 2
    case RepMsg(_) => 2
  }

  /** The field number and the wire type of a tag. */
  function TagNumber(raw: nat): int32 {
    Signed32(Low64(raw) / 8)
  }

  function TagType(raw: nat): nat {
    raw % 8
  }

  /** The bytes behind a length prefix that stands at `k`. */
  function Payload(bs: bytes, k: nat): bytes
    requires k <= |bs| && IsPayload(bs, k, 2)
  {
    bs[k + ReadVarint(bs, k).n..]
  }

  /** A known field with the wire type of its kind and a whole payload, or a well-nested field of another number. */
  ghost predicate IsRecord(schema: Schema, bs: bytes)
    decreases |bs|, 0
  {
    var tag := ReadVarint(bs, 0);
    && tag.Done? && TagNumber(tag.raw) > 0 && TagType(tag.raw) != 4
    && if TagNumber(tag.raw) > |schema| then StartsWithField(bs, |bs|)
       else
         var kind := schema[TagNumber(tag.raw) - 1];
         && TagType(tag.raw) == WireTypeOf(kind)
         && IsPayload(bs, tag.n, WireTypeOf(kind))
         && (kind.RepMsg? ==> Accepts(kind.sub, Payload(bs, tag.n)))
  }

  /** A sequence of such records. */
  ghost predicate Accepts(schema: Schema, bs: bytes)
    decreases |bs|, 1
  {
    bs == [] || exists n: nat :: 0 < n <= |bs| && IsRecord(schema, bs[..n]) && Accepts(schema, bs[n..])
  }

  /** A record is parsed to its end, and nothing else is. */
  lemma {:induction false} RecordIff(schema: Schema, bs: bytes, m: Msg)
    requires bs != [] && |bs| <= MAX_INT && Fits(schema, m)
    ensures ParseOne(schema, bs, m).Next? && ParseOne(schema, bs, m).n == |bs| <==> IsRecord(schema, bs)
    decreases |bs|, 1
  {
    var tag := ReadVarint(bs, 0);
    if tag.Done? {
      Low64KeepsLowBits(tag.raw);
      var num, wt := TagNumber(tag.raw), TagType(tag.raw);
      if wt != 4 && num > 0 {
        if num > |schema| {
          SkipRecognizesFields(bs, |bs|);
        } else {
          FieldIff(schema[num - 1], num, wt, bs, tag.n, m.fields[num - 1]);
          assert ParseOne(schema, bs, m) == StoreField(schema, num, wt, bs, tag.n, m);
        }
      }
    }
  }

  lemma {:induction false} FieldIff(kind: Kind, num: nat, wt: nat, bs: bytes, k: nat, v: Value)
    requires 0 < k <= |bs| <= MAX_INT && FitsValue(kind, v) && wt < 8
    ensures ParseField(kind, num, wt, bs, k, v).FieldOk? && ParseField(kind, num, wt, bs, k, v).n == |bs| <==>
              && wt == WireTypeOf(kind) && IsPayload(bs, k, wt)
              && (kind.RepMsg? ==> Accepts(kind.sub, Payload(bs, k)))
    decreases |bs|, 0
  {
    if wt == WireTypeOf(kind) && !kind.IsNumber() && ReadSpan(bs, k).Span? && ReadSpan(bs, k).end == |bs| {
      var start := ReadSpan(bs, k).start;
      assert Payload(bs, k) == bs[start..|bs|];
      if kind.RepMsg? {
        AcceptedIff(kind.sub, bs[start..|bs|], Empty(kind.sub));
      }
    }
  }

  /** An input is accepted, into whatever message, if and only if it is a sequence of records. */
  lemma {:induction false} AcceptedIff(schema: Schema, bs: bytes, m: Msg)
    requires |bs| <= MAX_INT && Fits(schema, m)
    ensures Unmarshal(schema, bs, m).1.None? <==> Accepts(schema, bs)
    decreases |bs|, 2
  {
    if bs != [] {
      if Parse(schema, bs, m).fault.None? {
        var step := ParseOne(schema, bs, m);
        RecordStandsAlone(schema, bs, m);
        RecordIff(schema, bs[..step.n], m);
        AcceptedIff(schema, bs[step.n..], step.m);
      }
      if Accepts(schema, bs) {
        var n: nat :| 0 < n <= |bs| && IsRecord(schema, bs[..n]) && Accepts(schema, bs[n..]);
        RecordIff(schema, bs[..n], m);
        RecordInFront(schema, bs, n, m);
        AcceptedIff(schema, bs[n..], ParseOne(schema, bs, m).m);
      }
    }
  }

  lemma {:induction false} RecordInFront(schema: Schema, bs: bytes, n: nat, m: Msg)
    requires 0 < n <= |bs| <= MAX_INT && Fits(schema, m)
    requires ParseOne(schema, bs[..n], m).Next? && ParseOne(schema, bs[..n], m).n == n
    ensures ParseOne(schema, bs, m).Next? && ParseOne(schema, bs, m).n == n
  {
    assert bs[..n] + bs[n..] == bs;
    RecordIgnoresSuffix(schema, bs[..n], bs[n..], m);
  }

  // ---------- what a record does ----------

  /** The number agrees with the varint in all the bits that the field has. */
  predicate HasLowBits(kind: Kind, n: int, raw: nat) {
    InRange(kind, n) && if kind == U32 || kind == I32 then (raw - n) % 0x1_0000_0000 == 0 else (raw - n) % 0x1_0000_0000_0000_0000 == 0
  }

  /** Unknown fields do nothing; a known one changes its own field and no other. */
  ghost predicate Sets(schema: Schema, bs: bytes, m: Msg, m': Msg)
    requires IsRecord(schema, bs) && Fits(schema, m) && Fits(schema, m')
  {
    var tag := ReadVarint(bs, 0);
    var i := TagNumber(tag.raw) - 1;
    if i >= |schema| then m' == m
    else
      && (forall j :: 0 <= j < |schema| && j != i ==> m'.fields[j] == m.fields[j])
      && FieldSet(schema[i], bs, tag.n, m.fields[i], m'.fields[i])
  }

  /** Numbers and bytes are replaced; elements are appended, a nested message as its own bytes are unmarshalled. */
  ghost predicate FieldSet(kind: Kind, bs: bytes, k: nat, v: Value, v': Value)
    requires k <= |bs| && IsPayload(bs, k, WireTypeOf(kind)) && FitsValue(kind, v) && FitsValue(kind, v')
  {
    match kind
    case Bytes => v'.b == Payload(bs, k)
    case RepBytes => v'.bs == v.bs + [Payload(bs, k)]
    case RepMsg(sub) => v'.ms == v.ms + [Unmarshal(sub, Payload(bs, k), Empty(sub)).0]
    case _ => HasLowBits(kind, v'.n, ReadVarint(bs, k).raw)
  }

  lemma {:induction false} FromRawHasLowBits(kind: Kind, raw: nat)
    requires kind.IsNumber()
    ensures HasLowBits(kind, FromRaw(kind, raw), raw)
  {
  }

  lemma {:induction false} FieldSets(kind: Kind, num: nat, bs: bytes, k: nat, v: Value)
    requires 0 < k <= |bs| <= MAX_INT && FitsValue(kind, v) && IsPayload(bs, k, WireTypeOf(kind))
    requires kind.RepMsg? ==> Accepts(kind.sub, Payload(bs, k))
    ensures var r := ParseField(kind, num, WireTypeOf(kind), bs, k, v);
            r.FieldOk? && FieldSet(kind, bs, k, v, r.v)
  {
    FieldIff(kind, num, WireTypeOf(kind), bs, k, v);
    if kind.IsNumber() {
      FromRawHasLowBits(kind, ReadVarint(bs, k).raw);
    } else {
      var span := ReadSpan(bs, k);
      assert Payload(bs, k) == bs[span.start..span.end];
      assert ParseField(kind, num, 2, bs, k, v) == ParseSpan(kind, bs, span.start, span.end, v);
    }
  }

  /** What an accepted record does. With the merge law of concatenation this is what every accepted input does. */
  lemma {:induction false} RecordSets(schema: Schema, bs: bytes, m: Msg)
    requires IsRecord(schema, bs) && |bs| <= MAX_INT && Fits(schema, m)
    ensures Unmarshal(schema, bs, m).1.None? && Sets(schema, bs, m, Unmarshal(schema, bs, m).0)
  {
    RecordIff(schema, bs, m);
    OneRecord(schema, bs, m);
    var tag := ReadVarint(bs, 0);
    Low64KeepsLowBits(tag.raw);
    var i := TagNumber(tag.raw) - 1;
    if i < |schema| {
      FieldSets(schema[i], i + 1, bs, tag.n, m.fields[i]);
      assert ParseOne(schema, bs, m) == StoreField(schema, i + 1, TagType(tag.raw), bs, tag.n, m);
    }
  }

  // ---------- what is refused, and how ----------

  /** The first record that is refused decides the error. */
  lemma {:induction false} FirstFault(schema: Schema, a: bytes, b: bytes, m: Msg, m': Msg, left: Msg, e: Error)
    requires Fits(schema, m) && |a| + |b| <= MAX_INT && Unmarshal(schema, a, m) == (m', None)
    requires b != [] && ParseOne(schema, b, m') == Fail(left, Plain(e))
    ensures Unmarshal(schema, a + b, m) == (left, Some(e))
  {
    ParseConcat(schema, a, b, m);
  }

  /** Ten bytes with their top bit set are no varint, and the input may not end within one. */
  lemma {:induction false} BrokenVarint(bs: bytes, i: nat, k: nat)
    requires i <= |bs| && k <= 10
    ensures ReadGroups(bs, i, k).Overflow? <==> i + k <= |bs| && forall j :: i <= j < i + k ==> bs[j] >= 128
    ensures ReadGroups(bs, i, k).Eof? <==> |bs| - i < k && forall j :: i <= j < |bs| ==> bs[j] >= 128
    decreases k
  {
    if k > 0 && i < |bs| && bs[i] >= 128 {
      BrokenVarint(bs, i + 1, k - 1);
    }
  }

  predicate TenContinue(bs: bytes, i: nat) {
    i + 10 <= |bs| && forall j :: i <= j < i + 10 ==> bs[j] >= 128
  }

  predicate EndsWithin(bs: bytes, i: nat) {
    i <= |bs| < i + 10 && forall j :: i <= j < |bs| ==> bs[j] >= 128
  }

  lemma {:induction false} BrokenRead(bs: bytes, i: nat)
    requires i <= |bs|
    ensures TenContinue(bs, i) <==> ReadVarint(bs, i).Overflow?
    ensures EndsWithin(bs, i) <==> ReadVarint(bs, i).Eof?
  {
    BrokenVarint(bs, i, 10);
  }

  /** Behind an accepted input: a broken tag, the end of a group, a field number that is not positive, a wrong wire type. */
  lemma {:induction false} RefusedTag(schema: Schema, a: bytes, b: bytes, m: Msg)
    requires Fits(schema, m) && |a| + |b| <= MAX_INT && Unmarshal(schema, a, m).1.None? && b != []
    ensures var (m', r, tag) := (Unmarshal(schema, a, m).0, Unmarshal(schema, a + b, m), ReadVarint(b, 0));
            && (TenContinue(b, 0) ==> r == (m', Some(IntOverflow)))
            && (EndsWithin(b, 0) ==> r == (m', Some(UnexpectedEof)))
            && (tag.Done? && TagType(tag.raw) == 4 ==> r == (m', Some(EndGroupForNonGroup)))
            && (tag.Done? && TagType(tag.raw) != 4 && TagNumber(tag.raw) <= 0 ==>
                  r == (m', Some(IllegalTag(TagNumber(tag.raw), Low64(tag.raw)))))
            && (tag.Done? && TagType(tag.raw) != 4 && 0 < TagNumber(tag.raw) <= |schema|
                && TagType(tag.raw) != WireTypeOf(schema[TagNumber(tag.raw) - 1]) ==>
                  r == (m', Some(WrongWireType(TagType(tag.raw), TagNumber(tag.raw)))))
  {
    var m' := Unmarshal(schema, a, m).0;
    var tag := ReadVarint(b, 0);
    BrokenRead(b, 0);
    var step := ParseOne(schema, b, m');
    if tag.Done? {
      Low64KeepsLowBits(tag.raw);
      var num, wt := TagNumber(tag.raw), TagType(tag.raw);
      if wt != 4 && 0 < num <= |schema| && wt != WireTypeOf(schema[num - 1]) {
        WrongTypeFails(schema, num, wt, b, tag.n, m');
        assert step == StoreField(schema, num, wt, b, tag.n, m');
      }
    }
    if step.Fail? && step.fault.Plain? {
      FirstFault(schema, a, b, m, m', step.m, step.fault.error);
    }
  }

  lemma {:induction false} WrongTypeFails(schema: Schema, num: nat, wt: nat, b: bytes, k: nat, m: Msg)
    requires 0 < k <= |b| && 0 < num <= |schema| && Fits(schema, m) && wt != WireTypeOf(schema[num - 1])
    ensures StoreField(schema, num, wt, b, k, m) == Fail(m, Plain(WrongWireType(wt, num)))
  {
    assert m.fields[num - 1 := m.fields[num - 1]] == m.fields;
  }

  /** In particular a known field under a one-byte tag with a wire type that is not its own. */
  lemma {:induction false} WrongWireTypeIsRefused(schema: Schema, a: bytes, num: nat, wt: nat, rest: bytes, m: Msg)
    requires Fits(schema, m) && 1 <= num <= |schema| && num <= 15 && wt < 8 && wt != 4
    requires wt != (match schema[num - 1] case U32 => 0 case U64 => 0 case I32 => 0 case I64 => 0 case _ => 2)
    requires |a| + 1 + |rest| <= MAX_INT && Unmarshal(schema, a, m).1.None?
    ensures Unmarshal(schema, a + ([8 * num + wt] + rest), m) == (Unmarshal(schema, a, m).0, Some(WrongWireType(wt, num)))
  {
    var b: bytes := [8 * num + wt] + rest;
    OneByteTag(num, wt, b);
    RefusedTag(schema, a, b, m);
  }

  lemma {:induction false} OneByteTag(num: nat, wt: nat, b: bytes)
    requires 1 <= num <= 15 && wt < 8 && b != [] && b[0] == 8 * num + wt
    ensures ReadVarint(b, 0) == Done(8 * num + wt, 1)
    ensures TagType(8 * num + wt) == wt && TagNumber(8 * num + wt) == num
  {
  }

  /** `b` begins with the tag of the known field `i`, of its own wire type; the payload is to stand at `k`. */
  predicate StartsField(schema: Schema, b: bytes, i: nat, k: nat) {
    var tag := ReadVarint(b, 0);
    tag.Done? && tag.n == k && i < |schema| && TagNumber(tag.raw) == i + 1 && TagType(tag.raw) == WireTypeOf(schema[i])
  }

  lemma {:induction false} FieldDecides(schema: Schema, b: bytes, i: nat, k: nat, m: Msg)
    requires StartsField(schema, b, i, k) && Fits(schema, m)
    ensures ParseOne(schema, b, m) == StoreField(schema, i + 1, WireTypeOf(schema[i]), b, k, m)
  {
    Low64KeepsLowBits(ReadVarint(b, 0).raw);
  }

  /** A broken number leaves the groups read so far in the field. */
  lemma {:induction false} RefusedNumber(schema: Schema, a: bytes, b: bytes, i: nat, k: nat, m: Msg)
    requires Fits(schema, m) && |a| + |b| <= MAX_INT && Unmarshal(schema, a, m).1.None?
    requires StartsField(schema, b, i, k) && schema[i].IsNumber() && (TenContinue(b, k) || EndsWithin(b, k))
    ensures var (m', r) := (Unmarshal(schema, a, m).0, Unmarshal(schema, a + b, m));
            && r.1 == Some(if TenContinue(b, k) then IntOverflow else UnexpectedEof)
            && (forall j :: 0 <= j < |schema| && j != i ==> r.0.fields[j] == m'.fields[j])
            && r.0.fields[i].Num? && HasLowBits(schema[i], r.0.fields[i].n, ReadVarint(b, k).raw)
  {
    var m' := Unmarshal(schema, a, m).0;
    BrokenRead(b, k);
    FieldDecides(schema, b, i, k, m');
    FromRawHasLowBits(schema[i], ReadVarint(b, k).raw);
    var step := ParseOne(schema, b, m');
    FirstFault(schema, a, b, m, m', step.m, if TenContinue(b, k) then IntOverflow else UnexpectedEof);
  }

  /** A broken or negative length, and a payload that is not all there, leave the message as it was. */
  lemma {:induction false} RefusedLength(schema: Schema, a: bytes, b: bytes, i: nat, k: nat, m: Msg)
    requires Fits(schema, m) && |a| + |b| <= MAX_INT && Unmarshal(schema, a, m).1.None?
    requires StartsField(schema, b, i, k) && !schema[i].IsNumber()
    ensures var (m', r, length) := (Unmarshal(schema, a, m).0, Unmarshal(schema, a + b, m), ReadVarint(b, k));
            && (TenContinue(b, k) ==> r == (m', Some(IntOverflow)))
            && (EndsWithin(b, k) ==> r == (m', Some(UnexpectedEof)))
            && (length.Done? && Signed64(length.raw) < 0 ==> r == (m', Some(InvalidLength)))
            && (length.Done? && Signed64(length.raw) >= 0 && k + length.n + Signed64(length.raw) > |b| ==>
                  r == (m', Some(if |a| + k + length.n + Signed64(length.raw) > MAX_INT then InvalidLength else UnexpectedEof)))
  {
    var m' := Unmarshal(schema, a, m).0;
    BrokenRead(b, k);
    FieldDecides(schema, b, i, k, m');
    assert m'.fields[i := m'.fields[i]] == m'.fields;
    ParseConcat(schema, a, b, m);
  }

  /** A nested message that is refused stays in the list as far as it got, and its error is the error. */
  lemma {:induction false} RefusedElement(schema: Schema, a: bytes, b: bytes, i: nat, k: nat, m: Msg)
    requires Fits(schema, m) && |a| + |b| <= MAX_INT && Unmarshal(schema, a, m).1.None?
    requires StartsField(schema, b, i, k) && schema[i].RepMsg? && ReadSpan(b, k).Span?
    requires var span := ReadSpan(b, k); Unmarshal(schema[i].sub, b[span.start..span.end], Empty(schema[i].sub)).1.Some?
    ensures var (m', r, span) := (Unmarshal(schema, a, m).0, Unmarshal(schema, a + b, m), ReadSpan(b, k));
            var element := Unmarshal(schema[i].sub, b[span.start..span.end], Empty(schema[i].sub));
            && r.1 == element.1
            && (forall j :: 0 <= j < |schema| && j != i ==> r.0.fields[j] == m'.fields[j])
            && FitsValue(schema[i], m'.fields[i]) && r.0.fields[i] == Msgs(m'.fields[i].ms + [element.0])
  {
    var m' := Unmarshal(schema, a, m).0;
    FieldDecides(schema, b, i, k, m');
    assert FitsValue(schema[i], m'.fields[i]);
    var span := ReadSpan(b, k);
    var step := ParseOne(schema, b, m');
    assert ParseField(schema[i], i + 1, 2, b, k, m'.fields[i]) == ParseSpan(schema[i], b, span.start, span.end, m'.fields[i]);
    FirstFault(schema, a, b, m, m', step.m, Unmarshal(schema[i].sub, b[span.start..span.end], Empty(schema[i].sub)).1.value);
  }

  /** An unknown field is refused as the skipping loop refuses it, and when it is not all there. */
  lemma {:induction false} RefusedUnknown(schema: Schema, a: bytes, b: bytes, m: Msg)
    requires Fits(schema, m) && |a| + |b| <= MAX_INT && Unmarshal(schema, a, m).1.None? && b != []
    requires ReadVarint(b, 0).Done? && TagType(ReadVarint(b, 0).raw) != 4 && TagNumber(ReadVarint(b, 0).raw) > |schema|
    ensures var (m', r) := (Unmarshal(schema, a, m).0, Unmarshal(schema, a + b, m));
            match Skip(b, 0, 0)
            case SkipErr(e) => r == (m', Some(e))
            case SkipTo(n) => n > |b| ==> r == (m', Some(if |a| + n > MAX_INT then InvalidLength else UnexpectedEof))
  {
    var m' := Unmarshal(schema, a, m).0;
    Low64KeepsLowBits(ReadVarint(b, 0).raw);
    assert ParseOne(schema, b, m') == SkipUnknown(b, m');
    ParseConcat(schema, a, b, m);
  }

  /** How the skipping loop refuses a token, in whatever depth: a broken tag, a wire type that there is none of, a broken payload. */
  lemma {:induction false} SkipRefusals(data: bytes, i: nat, depth: nat)
    requires i < |data| <= MAX_INT
    ensures var (r, tag) := (Skip(data, i, depth), ReadVarint(data, i));
            && (TenContinue(data, i) ==> r == SkipErr(IntOverflow))
            && (EndsWithin(data, i) ==> r == SkipErr(UnexpectedEof))
            && (tag.Done? ==>
                  var (wt, k) := (tag.raw % 8, i + tag.n);
                  && (wt == 6 || wt == 7 ==> r == SkipErr(IllegalWireType(wt)))
                  && (wt == 4 && depth == 0 ==> r == SkipErr(UnexpectedEndOfGroup))
                  && ((wt == 0 || wt == 2) && TenContinue(data, k) ==> r == SkipErr(IntOverflow))
                  && ((wt == 0 || wt == 2) && EndsWithin(data, k) ==> r == SkipErr(UnexpectedEof))
                  && (wt == 2 && ReadVarint(data, k).Done? && Signed64(ReadVarint(data, k).raw) < 0 ==> r == SkipErr(InvalidLength)))
    ensures Skip(data, |data|, depth) == SkipErr(UnexpectedEof)
  {
    BrokenRead(data, i);
    var tag := ReadVarint(data, i);
    if tag.Done? {
      BrokenRead(data, i + tag.n);
    }
  }
}
