/** What a printer writes, a parser merges back: the round trip, and the merge law of concatenated encodings. */
module RoundTrip {
  import opened Words
  import opened Varints
  import opened Skipping
  import opened Wire
  import opened Merging

  /** A field after the encoding of `next` is parsed over `base`: set scalars win, unset ones leave it, lists grow. */
  function MergeValue(kind: Kind, base: Value, next: Value): (r: Value)
    requires FitsValue(kind, base) && FitsValue(kind, next)
    ensures FitsValue(kind, r)
  {
    match kind
    case Bytes => if next.b == [] then base else next
    case RepBytes => Blobs(base.bs + next.bs)
    case RepMsg(_) => Msgs(base.ms + next.ms)
    case _ => if next.n == 0 then base else next
  }

  /** The first `i` fields merged. */
  function MergeUpTo(schema: Schema, base: Msg, next: Msg, i: nat): (m: Msg)
    requires Fits(schema, base) && Fits(schema, next) && i <= |schema|
    ensures Fits(schema, m)
  {
    Msg(seq(|schema|, k requires 0 <= k < |schema| =>
      if k < i then MergeValue(schema[k], base.fields[k], next.fields[k]) else base.fields[k]))
  }

  function Merge(schema: Schema, base: Msg, next: Msg): (m: Msg)
    requires Fits(schema, base) && Fits(schema, next)
    ensures Fits(schema, m)
  {
    MergeUpTo(schema, base, next, |schema|)
  }

  lemma {:induction false} MergeIntoEmpty(schema: Schema, m: Msg)
    requires Fits(schema, m)
    ensures Merge(schema, Empty(schema), m) == m
  {
    var r := Merge(schema, Empty(schema), m);
    forall k | 0 <= k < |schema|
      ensures r.fields[k] == m.fields[k]
    {
      MergeIntoZero(schema[k], m.fields[k]);
    }
    assert r.fields == m.fields;
  }

  lemma MergeIntoZero(kind: Kind, v: Value)
    requires FitsValue(kind, v)
    ensures FitsValue(kind, Zero(kind)) && MergeValue(kind, Zero(kind), v) == v
  {
  }

  // ---------- reading back single records ----------

  /** A tag byte is read back as its field number and wire type. */
  lemma TagIsRead(num: nat, wireType: nat, data: bytes)
    requires 1 <= num <= 15 && wireType < 8 && data != [] && data[0] == Tag(num, wireType)
    ensures ReadVarint(data, 0) == Done(Tag(num, wireType), 1)
    ensures Low64(Tag(num, wireType)) % 8 == wireType && Signed32(Low64(Tag(num, wireType)) / 8) == num
  {
  }

  /** The raw varint of a number gives the number back: sign extension and truncation cancel. */
  lemma NumberSurvives(kind: Kind, n: int)
    requires kind.IsNumber() && InRange(kind, n)
    ensures FromRaw(kind, Unsigned64(n)) == n
  {
  }

  lemma {:induction false} NumberIsRead(kind: Kind, num: nat, n: int, data: bytes, v: Value)
    requires kind.IsNumber() && InRange(kind, n) && 1 <= num <= 15 && FitsValue(kind, v)
    requires n != 0 && data == EncodeNumber(num, n)
    ensures ParseField(kind, num, 0, data, 1, v) == FieldOk(Num(n), |data|)
  {
    var u := Unsigned64(n);
    VarintRoundTrip(u, [Tag(num, 0)], []);
    assert data == [Tag(num, 0)] + Varint(u) + [];
    NumberSurvives(kind, n);
  }

  lemma {:induction false} SpanIsRead(num: nat, payload: bytes)
    requires 1 <= num <= 15 && |payload| <= MAX_INT
    ensures var data := Delimited(num, payload);
            var start := 1 + |Varint(|payload|)|;
            && ReadSpan(data, 1) == Span(start, |data|)
            && start <= |data| && data[start..|data|] == payload
  {
    VarintRoundTrip(|payload|, [Tag(num, 2)], payload);
    DropHead([Tag(num, 2)] + Varint(|payload|), payload);
  }

  lemma DropHead(head: bytes, rest: bytes)
    ensures (head + rest)[|head|..|head + rest|] == rest
  {
  }

  /** A record of field i+1 that reads `v` replaces that field. */
  lemma {:induction false} FieldRecord(schema: Schema, i: nat, wireType: nat, data: bytes, m: Msg, v: Value)
    requires i < |schema| <= 15 && Fits(schema, m) && wireType < 8 && wireType != 4
    requires |data| >= 1 && data[0] == Tag(i + 1, wireType)
    requires ParseField(schema[i], i + 1, wireType, data, 1, m.fields[i]) == FieldOk(v, |data|)
    ensures Parse(schema, data, m) == Outcome(Msg(m.fields[i := v]), None)
  {
    TagIsRead(i + 1, wireType, data);
    assert ParseOne(schema, data, m) == StoreField(schema, i + 1, wireType, data, 1, m);
    OneRecord(schema, data, m);
  }

  /** Any varint, canonical for the field's type or not, is read as its low bits. */
  lemma {:induction false} RawNumberIsRead(schema: Schema, i: nat, raw: uint64, data: bytes, m: Msg, v: Value)
    requires i < |schema| <= 15 && Fits(schema, m) && schema[i].IsNumber()
    requires data == [Tag(i + 1, 0)] + Varint(raw) && v == Num(FromRaw(schema[i], raw))
    ensures Parse(schema, data, m) == Outcome(Msg(m.fields[i := v]), None)
  {
    assert FitsValue(schema[i], m.fields[i]);
    RawNumberField(schema[i], i + 1, raw, data, m.fields[i]);
    FieldRecord(schema, i, 0, data, m, v);
  }

  lemma {:induction false} RawNumberField(kind: Kind, num: nat, raw: uint64, data: bytes, v: Value)
    requires kind.IsNumber() && 1 <= num <= 15 && FitsValue(kind, v)
    requires data == [Tag(num, 0)] + Varint(raw)
    ensures ParseField(kind, num, 0, data, 1, v) == FieldOk(Num(FromRaw(kind, raw)), |data|)
  {
    VarintRoundTrip(raw, [Tag(num, 0)], []);
    assert [Tag(num, 0)] + Varint(raw) + [] == data;
  }

  lemma {:induction false} PayloadRecord(schema: Schema, i: nat, payload: bytes, m: Msg, v: Value)
    requires i < |schema| <= 15 && Fits(schema, m) && |payload| <= MAX_INT && !schema[i].IsNumber()
    requires forall data: bytes, start: nat :: 0 < start <= |data| && data[start..|data|] == payload ==>
      ParseSpan(schema[i], data, start, |data|, m.fields[i]) == FieldOk(v, |data|)
    ensures Parse(schema, Delimited(i + 1, payload), m) == Outcome(Msg(m.fields[i := v]), None)
  {
    SpanIsRead(i + 1, payload);
    var data := Delimited(i + 1, payload);
    FieldRecord(schema, i, 2, data, m, v);
  }

  // ---------- fields ----------

  lemma TakeOneMore<T>(have: seq<T>, rest: seq<T>, j: nat)
    requires j < |rest|
    ensures have + [rest[j]] + rest[j + 1..] == have + rest[j..]
  {
  }

  lemma UpdateTwice(m: Msg, i: nat, v: Value, w: Value)
    requires i < |m.fields|
    ensures Msg(Msg(m.fields[i := v]).fields[i := w]) == Msg(m.fields[i := w])
  {
    assert m.fields[i := v][i := w] == m.fields[i := w];
  }

  lemma {:induction false} BlobsAreRead(schema: Schema, i: nat, have: seq<bytes>, bs: seq<bytes>, j: nat, m: Msg)
    requires i < |schema| <= 15 && schema[i] == RepBytes && Fits(schema, m) && j <= |bs|
    requires m.fields[i] == Blobs(have) && |EncodeBlobs(i + 1, bs, j)| <= MAX_INT
    ensures Parse(schema, EncodeBlobs(i + 1, bs, j), m) == Outcome(Msg(m.fields[i := Blobs(have + bs[j..])]), None)
    decreases |bs| - j
  {
    if j == |bs| {
      assert have + bs[j..] == have;
      assert m.fields[i := m.fields[i]] == m.fields;
    } else {
      var v := Blobs(have + [bs[j]]);
      PayloadRecord(schema, i, bs[j], m, v);
      ParseConcat(schema, Delimited(i + 1, bs[j]), EncodeBlobs(i + 1, bs, j + 1), m);
      BlobsAreRead(schema, i, v.bs, bs, j + 1, Msg(m.fields[i := v]));
      TakeOneMore(have, bs, j);
      UpdateTwice(m, i, v, Blobs(have + bs[j..]));
    }
  }

  lemma {:induction false} MsgsAreRead(schema: Schema, i: nat, sub: Schema, have: seq<Msg>, ms: seq<Msg>, j: nat, m: Msg)
    requires i < |schema| <= 15 && schema[i] == RepMsg(sub) && Fits(schema, m) && j <= |ms|
    requires OneByteTags(sub) && forall e :: 0 <= e < |ms| ==> Fits(sub, ms[e])
    requires m.fields[i] == Msgs(have) && |EncodeMsgs(sub, i + 1, ms, j)| <= MAX_INT
    ensures Parse(schema, EncodeMsgs(sub, i + 1, ms, j), m) == Outcome(Msg(m.fields[i := Msgs(have + ms[j..])]), None)
    decreases sub, 2, |ms| - j
  {
    if j == |ms| {
      assert have + ms[j..] == have;
      assert m.fields[i := m.fields[i]] == m.fields;
    } else {
      var payload := Encode(sub, ms[j]);
      var v := Msgs(have + [ms[j]]);
      MsgRecord(schema, i, sub, have, ms[j], m);
      ParseConcat(schema, Delimited(i + 1, payload), EncodeMsgs(sub, i + 1, ms, j + 1), m);
      MsgsAreRead(schema, i, sub, v.ms, ms, j + 1, Msg(m.fields[i := v]));
      TakeOneMore(have, ms, j);
      UpdateTwice(m, i, v, Msgs(have + ms[j..]));
    }
  }

  lemma {:induction false} MsgRecord(schema: Schema, i: nat, sub: Schema, have: seq<Msg>, x: Msg, m: Msg)
    requires i < |schema| <= 15 && schema[i] == RepMsg(sub) && Fits(schema, m) && OneByteTags(sub) && Fits(sub, x)
    requires m.fields[i] == Msgs(have) && |Encode(sub, x)| <= MAX_INT
    ensures Parse(schema, Delimited(i + 1, Encode(sub, x)), m) == Outcome(Msg(m.fields[i := Msgs(have + [x])]), None)
    decreases sub, 1
  {
    EncodedMessageIsMerged(sub, Empty(sub), x);
    MergeIntoEmpty(sub, x);
    PayloadRecord(schema, i, Encode(sub, x), m, Msgs(have + [x]));
  }

  lemma {:induction false} FieldIsMerged(schema: Schema, i: nat, v: Value, m: Msg)
    requires OneByteTags(schema) && i < |schema| && Fits(schema, m) && FitsValue(schema[i], v)
    requires |EncodeValue(schema[i], i + 1, v)| <= MAX_INT
    ensures Parse(schema, EncodeValue(schema[i], i + 1, v), m) ==
            Outcome(Msg(m.fields[i := MergeValue(schema[i], m.fields[i], v)]), None)
    decreases schema[i]
  {
    assert m.fields[i := m.fields[i]] == m.fields;
    match schema[i]
    case Bytes =>
      if v.b != [] {
        PayloadRecord(schema, i, v.b, m, v);
      }
    case RepBytes =>
      BlobsAreRead(schema, i, m.fields[i].bs, v.bs, 0, m);
      assert v.bs[0..] == v.bs;
    case RepMsg(sub) =>
      MsgsAreRead(schema, i, sub, m.fields[i].ms, v.ms, 0, m);
      assert v.ms[0..] == v.ms;
    case _ =>
      if v.n != 0 {
        var data := EncodeNumber(i + 1, v.n);
        NumberIsRead(schema[i], i + 1, v.n, data, m.fields[i]);
        FieldRecord(schema, i, 0, data, m, v);
      }
  }

  lemma {:induction false} FieldsAreMerged(schema: Schema, base: Msg, next: Msg, i: nat)
    requires OneByteTags(schema) && Fits(schema, base) && Fits(schema, next) && i <= |schema|
    requires |EncodeFrom(schema, next, i)| <= MAX_INT
    ensures Parse(schema, EncodeFrom(schema, next, i), MergeUpTo(schema, base, next, i)) ==
            Outcome(Merge(schema, base, next), None)
    decreases schema, 0, |schema| - i
  {
    if i < |schema| {
      var m := MergeUpTo(schema, base, next, i);
      var first := EncodeValue(schema[i], i + 1, next.fields[i]);
      FieldIsMerged(schema, i, next.fields[i], m);
      MergeOneMore(schema, base, next, i);
      ParseConcat(schema, first, EncodeFrom(schema, next, i + 1), m);
      FieldsAreMerged(schema, base, next, i + 1);
    }
  }

  lemma MergeOneMore(schema: Schema, base: Msg, next: Msg, i: nat)
    requires Fits(schema, base) && Fits(schema, next) && i < |schema|
    ensures var m := MergeUpTo(schema, base, next, i);
            Msg(m.fields[i := MergeValue(schema[i], m.fields[i], next.fields[i])]) == MergeUpTo(schema, base, next, i + 1)
  {
    var m := MergeUpTo(schema, base, next, i);
    assert m.fields[i := MergeValue(schema[i], m.fields[i], next.fields[i])] == MergeUpTo(schema, base, next, i + 1).fields;
  }

  lemma {:induction false} EncodedMessageIsMerged(schema: Schema, base: Msg, next: Msg)
    requires OneByteTags(schema) && Fits(schema, base) && Fits(schema, next)
    requires |Encode(schema, next)| <= MAX_INT
    ensures Parse(schema, Encode(schema, next), base) == Outcome(Merge(schema, base, next), None)
    decreases schema, 0, |schema| + 1
  {
    assert MergeUpTo(schema, base, next, 0).fields == base.fields;
    FieldsAreMerged(schema, base, next, 0);
  }

  // ---------- the theorems ----------

  /** Unmarshalling a marshalled message into an empty one gives the message back, nested messages included. */
  lemma {:induction false} MarshalThenUnmarshal(schema: Schema, m: Msg)
    requires OneByteTags(schema) && Fits(schema, m) && |Encode(schema, m)| <= MAX_INT
    ensures Unmarshal(schema, Encode(schema, m), Empty(schema)) == (m, None)
  {
    EncodedMessageIsMerged(schema, Empty(schema), m);
    MergeIntoEmpty(schema, m);
  }

  /** Different messages are printed differently. */
  lemma MarshalIsInjective(schema: Schema, m1: Msg, m2: Msg)
    requires OneByteTags(schema) && Fits(schema, m1) && Fits(schema, m2)
    requires Encode(schema, m1) == Encode(schema, m2) && |Encode(schema, m1)| <= MAX_INT
    ensures m1 == m2
  {
    MarshalThenUnmarshal(schema, m1);
    MarshalThenUnmarshal(schema, m2);
  }

  /** Two printed messages laid end to end are accepted as their merge: last one wins, lists are appended. */
  lemma {:induction false} JoinedEncodingsMerge(schema: Schema, m1: Msg, m2: Msg)
    requires OneByteTags(schema) && Fits(schema, m1) && Fits(schema, m2)
    requires |Encode(schema, m1)| + |Encode(schema, m2)| <= MAX_INT
    ensures Unmarshal(schema, Encode(schema, m1) + Encode(schema, m2), Empty(schema)) == (Merge(schema, m1, m2), None)
  {
    EncodedMessageIsMerged(schema, Empty(schema), m1);
    MergeIntoEmpty(schema, m1);
    EncodedMessageIsMerged(schema, m1, m2);
    ParseConcat(schema, Encode(schema, m1), Encode(schema, m2), Empty(schema));
  }
}
