/** The parsers: one pass over the input on wrapping `int` indices, fields of the message set as they are met. */
module Parser {
  import opened Words
  import opened Varints
  import opened Skipping
  import opened Wire

  lemma {:induction false} ReadGroupsInSuffix(data: bytes, i: nat, k: nat, groups: nat)
    requires i + k <= |data|
    ensures ReadGroups(data[i..], k, groups) == ReadGroups(data, i + k, groups)
    decreases groups
  {
    if groups > 0 && i + k < |data| {
      ReadGroupsInSuffix(data, i, k + 1, groups - 1);
    }
  }

  lemma ReadInSuffix(data: bytes, i: nat, k: nat)
    requires i + k <= |data|
    ensures ReadVarint(data[i..], k) == ReadVarint(data, i + k)
  {
    ReadGroupsInSuffix(data, i, k, 10);
  }

  /** The variable a field's varint is accumulated in. */
  function WidthOf(kind: Kind): Width {
    if kind == U32 || kind == I32 then W32 else W64
  }

  lemma NumberOfTruncated(kind: Kind, raw: nat)
    requires kind.IsNumber()
    ensures FromRaw(kind, Truncate(raw, WidthOf(kind))) == FromRaw(kind, raw)
  {
    TruncateIsRemainder(raw, WidthOf(kind));
    LowBitsTwice(raw);
  }

  lemma LowBitsTwice(x: nat)
    ensures Low32(Low32(x)) == Low32(x) && Low64(Low64(x)) == Low64(x)
  {
  }

  lemma SliceOfSuffix(data: bytes, pre: nat, start: nat, end: nat)
    requires pre <= start <= end <= |data|
    ensures data[pre..][start - pre..end - pre] == data[start..end]
  {
    assert data[pre..][start - pre..] == data[start..];
  }

  lemma FitsAfterUpdate(schema: Schema, m: Msg, i: nat, v: Value)
    requires Fits(schema, m) && i < |schema| && FitsValue(schema[i], v)
    ensures Fits(schema, Msg(m.fields[i := v]))
  {
  }

  lemma DelayTwice(o: Outcome, n: nat, k: nat)
    ensures Delay(Delay(o, n), k) == Delay(o, k + n)
  {
  }

  /** A message being filled in place. */
  class Message {
    const schema: Schema
    var fields: seq<Value>

    ghost function Contents(): Msg
      reads this
    {
      Msg(fields)
    }

    ghost predicate Valid()
      reads this
    {
      Fits(schema, Contents())
    }

    /** `&T{}`. */
    constructor (schema: Schema)
      ensures this.schema == schema && Contents() == Empty(schema) && Valid()
    {
      this.schema := schema;
      fields := Empty(schema).fields;
    }

    /** The length prefix at `i` and the end of its payload, checked as the generated code checks them. */
    static method DecodeSpan(dAtA: bytes, ghost pre: nat, i: nat) returns (r: Result<(int64, int64), Error>)
      requires pre <= i <= |dAtA| <= MAX_INT
      ensures match ReadSpan(dAtA[pre..], i - pre)
              case Span(start, end) => r == Ok((pre + start, pre + end))
              case BadSpan(fault) => r == Err(Surface(Later(fault, pre)))
    {
      ReadInSuffix(dAtA, pre, i - pre);
      WordOfTruncated(ReadVarint(dAtA, i).raw);
      var l := |dAtA|;
      var read := DecodeVarint(dAtA, i, W64);
      if read.Overflow? {
        return Err(IntOverflow);
      }
      if read.Eof? {
        return Err(UnexpectedEof);
      }
      var iNdEx: int64 := i + read.n;
      var byteLen := Signed64(read.raw);
      if byteLen < 0 {
        return Err(InvalidLength);
      }
      WrapAddIsExactOrNegative(iNdEx, byteLen);
      var postIndex := WrapAdd(iNdEx, byteLen);
      if postIndex < 0 {
        return Err(InvalidLength);
      }
      if postIndex > l {
        return Err(UnexpectedEof);
      }
      return Ok((iNdEx, postIndex));
    }

    /** `m.F = 0` and the loop that ors the groups into it. */
    static method DecodeNumber(kind: Kind, dAtA: bytes, ghost pre: nat, i: nat) returns (v: Value, next: nat, err: Option<Error>)
      requires pre <= i <= |dAtA| <= MAX_INT && kind.IsNumber()
      ensures match ParseNumber(kind, dAtA[pre..], i - pre)
              case FieldOk(v', n) => v == v' && err == None && next == pre + n
              case FieldErr(v', fault) => v == v' && err == Some(Surface(Later(fault, pre)))
    {
      ReadInSuffix(dAtA, pre, i - pre);
      NumberOfTruncated(kind, ReadVarint(dAtA, i).raw);
      var read := DecodeVarint(dAtA, i, WidthOf(kind));
      v, next := Num(FromRaw(kind, read.raw)), i;
      match read
      case Overflow(_) => err := Some(IntOverflow);
      case Eof(_) => err := Some(UnexpectedEof);
      case Done(_, n) => next, err := i + n, None;
    }

    /** The `case num:` block of the field switch; `i` is the index after the tag. */
    method UnmarshalField(num: nat, wireType: nat, dAtA: bytes, ghost pre: nat, i: nat) returns (next: nat, err: Option<Error>)
      requires Valid() && 0 < num <= |schema| && pre < i <= |dAtA| <= MAX_INT
      modifies this
      ensures Valid()
      ensures match StoreField(schema, num, wireType, dAtA[pre..], i - pre, old(Contents()))
              case Next(m, n) => Contents() == m && err == None && next == pre + n
              case Fail(m, fault) => Contents() == m && err == Some(Surface(Later(fault, pre)))
      decreases |dAtA|, 0, 0
    {
      next := i;
      var kind := schema[num - 1];
      ghost var rest := dAtA[pre..];
      if wireType != (if kind.IsNumber() then 0 else 2) {
        assert fields[num - 1 := fields[num - 1]] == fields;
        return i, Some(WrongWireType(wireType, num));
      }
      if kind.IsNumber() {
        var v;
        v, next, err := DecodeNumber(kind, dAtA, pre, i);
        fields := fields[num - 1 := v];
        return;
      }
      var span := DecodeSpan(dAtA, pre, i);
      if span.Err? {
        assert fields[num - 1 := fields[num - 1]] == fields;
        return i, Some(span.error);
      }
      var (start, end) := span.value;
      SliceOfSuffix(dAtA, pre, start, end);
      next := end;
      err := StorePayload(num, dAtA[start..end], rest, start - pre, end - pre);
    }

    /** Bytes are overwritten, elements appended; a nested element is appended first and then filled. */
    method StorePayload(num: nat, payload: bytes, ghost rest: bytes, ghost start: nat, ghost end: nat) returns (err: Option<Error>)
      requires Valid() && 0 < num <= |schema| && !schema[num - 1].IsNumber() && |payload| <= MAX_INT
      requires 0 < start <= end <= |rest| && payload == rest[start..end]
      modifies this
      ensures Valid()
      ensures var r := ParseSpan(schema[num - 1], rest, start, end, old(fields)[num - 1]);
              && fields == old(fields)[num - 1 := r.v]
              && err == if r.FieldOk? then None else Some(Surface(r.fault))
      decreases |payload|, 2
    {
      err := None;
      var was := fields[num - 1];
      assert FitsValue(schema[num - 1], Contents().fields[num - 1]);
      FitsAfterUpdate(schema, Contents(), num - 1, ParseSpan(schema[num - 1], rest, start, end, was).v);
      match schema[num - 1]
      case Bytes =>
        fields := fields[num - 1 := Blob(payload)];
      case RepBytes =>
        fields := fields[num - 1 := Blobs(was.bs + [payload])];
      case RepMsg(sub) =>
        var element := new Message(sub);
        err := element.Unmarshal(payload);
        fields := fields[num - 1 := Msgs(was.ms + [Msg(element.fields)])];
      case _ =>
        assert false;
    }

    /** The `default:` block: the unknown field at `i` is skipped whole. */
    static method UnmarshalUnknown(dAtA: bytes, i: nat, ghost m: Msg) returns (next: nat, err: Option<Error>)
      requires i < |dAtA| <= MAX_INT
      ensures match SkipUnknown(dAtA[i..], m)
              case Next(_, n) => err == None && next == i + n
              case Fail(_, fault) => err == Some(Surface(Later(fault, i)))
    {
      var l := |dAtA|;
      var skipped := SkipField(dAtA[i..]);
      if skipped.SkipErr? {
        return i, Some(skipped.error);
      }
      var skippy := skipped.n;
      WrapAddIsExactOrNegative(i, skippy);
      if skippy < 0 {
        return i, Some(InvalidLength);
      }
      if WrapAdd(i, skippy) < 0 {
        return i, Some(InvalidLength);
      }
      if WrapAdd(i, skippy) > l {
        return i, Some(UnexpectedEof);
      }
      return i + skippy, None;
    }

    /**
     * `Unmarshal`: terminates on every input, never reads outside it, and leaves the message and
     * returns the error that parsing record by record defines; success means that all of it was read.
     */
    method Unmarshal(dAtA: bytes) returns (err: Option<Error>)
      requires Valid() && |dAtA| <= MAX_INT
      modifies this
      ensures Valid()
      ensures (Contents(), err) == Wire.Unmarshal(schema, dAtA, old(Contents()))
      decreases |dAtA|, 1
    {
      var l := |dAtA|;
      var iNdEx := 0;
      ghost var whole := Parse(schema, dAtA, Contents());
      assert dAtA[0..] == dAtA;
      while iNdEx < l
        invariant 0 <= iNdEx <= l && Valid()
        invariant whole == Delay(Parse(schema, dAtA[iNdEx..], Contents()), iNdEx)
        decreases l - iNdEx
      {
        var preIndex := iNdEx;
        ghost var m := Contents();
        ghost var step := ParseOne(schema, dAtA[preIndex..], m);
        iNdEx, err := UnmarshalRecord(dAtA, preIndex);
        if err.Some? {
          return;
        }
        assert dAtA[preIndex..][step.n..] == dAtA[iNdEx..];
        DelayTwice(Parse(schema, dAtA[iNdEx..], Contents()), step.n, preIndex);
      }
      assert dAtA[iNdEx..] == [];
      return None;
    }

    /** One turn of the loop: the tag at `preIndex`, then the switch on its field number. */
    method UnmarshalRecord(dAtA: bytes, preIndex: nat) returns (next: nat, err: Option<Error>)
      requires Valid() && preIndex < |dAtA| <= MAX_INT
      modifies this
      ensures Valid()
      ensures match ParseOne(schema, dAtA[preIndex..], old(Contents()))
              case Next(m, n) => Contents() == m && err == None && next == preIndex + n
              case Fail(m, fault) => Contents() == m && err == Some(Surface(Later(fault, preIndex)))
      decreases |dAtA|, 0, 1
    {
      ReadInSuffix(dAtA, preIndex, 0);
      var read := DecodeVarint(dAtA, preIndex, W64);
      TruncateIsRemainder(ReadVarint(dAtA, preIndex).raw, W64);
      if read.Overflow? {
        return preIndex, Some(IntOverflow);
      }
      if read.Eof? {
        return preIndex, Some(UnexpectedEof);
      }
      var wire := read.raw;
      var fieldNum, wireType := Signed32(wire / 8), wire % 8;
      if wireType == 4 {
        return preIndex, Some(EndGroupForNonGroup);
      }
      if fieldNum <= 0 {
        return preIndex, Some(IllegalTag(fieldNum, wire));
      }
      if fieldNum <= |schema| {
        next, err := UnmarshalField(fieldNum, wireType, dAtA, preIndex, preIndex + read.n);
      } else {
        next, err := UnmarshalUnknown(dAtA, preIndex, Contents());
      }
    }
  }
}
