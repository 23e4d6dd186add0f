/** Parsing a concatenation is parsing its parts one after the other. */
module Merging {
  import opened Words
  import opened Varints
  import opened Skipping
  import opened FieldGrammar
  import opened Wire

  lemma {:induction false} ReadPrefix(a: bytes, b: bytes, k: nat)
    requires k <= |a| && ReadVarint(a, k).Done?
    ensures ReadVarint(a + b, k) == ReadVarint(a, k)
  {
    ReadAt(a, k, a + b, 0, 10);
  }

  lemma {:induction false} ReadSpanPrefix(a: bytes, b: bytes, k: nat)
    requires k <= |a| && ReadSpan(a, k).Span?
    ensures ReadSpan(a + b, k) == ReadSpan(a, k)
  {
    ReadPrefix(a, b, k);
  }

  lemma {:induction false} SliceOfPrefix(a: bytes, b: bytes, start: nat, end: nat)
    requires start <= end <= |a|
    ensures (a + b)[start..end] == a[start..end]
  {
    assert (a + b)[..end] == a[..end];
    assert (a + b)[start..end] == (a + b)[..end][start..];
  }

  lemma {:induction false} ParseFieldPrefix(kind: Kind, num: nat, wireType: nat, a: bytes, b: bytes, k: nat, v: Value)
    requires 0 < k <= |a| && FitsValue(kind, v) && ParseField(kind, num, wireType, a, k, v).FieldOk?
    ensures ParseField(kind, num, wireType, a + b, k, v) == ParseField(kind, num, wireType, a, k, v)
  {
    if kind.IsNumber() {
      ReadPrefix(a, b, k);
    } else {
      ReadSpanPrefix(a, b, k);
      var span := ReadSpan(a, k);
      SliceOfPrefix(a, b, span.start, span.end);
    }
  }

  lemma {:induction false} StoreFieldPrefix(schema: Schema, num: nat, wireType: nat, a: bytes, b: bytes, k: nat, m: Msg)
    requires 0 < k <= |a| && 0 < num <= |schema| && Fits(schema, m)
    requires StoreField(schema, num, wireType, a, k, m).Next?
    ensures StoreField(schema, num, wireType, a + b, k, m) == StoreField(schema, num, wireType, a, k, m)
  {
    ParseFieldPrefix(schema[num - 1], num, wireType, a, b, k, m.fields[num - 1]);
  }

  /** A complete record is parsed the same whatever follows it. */
  lemma {:induction false} RecordIgnoresSuffix(schema: Schema, a: bytes, b: bytes, m: Msg)
    requires a != [] && Fits(schema, m) && |a| + |b| <= MAX_INT && ParseOne(schema, a, m).Next?
    ensures ParseOne(schema, a + b, m) == ParseOne(schema, a, m)
  {
    ReadPrefix(a, b, 0);
    var tag := ReadVarint(a, 0);
    var wire := Low64(tag.raw);
    var num := Signed32(wire / 8);
    if num <= |schema| {
      StoreFieldPrefix(schema, num, wire % 8, a, b, tag.n, m);
    } else {
      SkipIgnoresSuffix(a, b);
    }
  }

  /** When `a` parses, parsing `a + b` is parsing `b` into the result; a fault in `b` is the same fault, |a| bytes later. */
  lemma {:induction false} ParseConcat(schema: Schema, a: bytes, b: bytes, m: Msg)
    requires Fits(schema, m) && |a| + |b| <= MAX_INT && Parse(schema, a, m).fault.None?
    ensures Parse(schema, a + b, m) == Delay(Parse(schema, b, Parse(schema, a, m).m), |a|)
    decreases |a|
  {
    if a == [] {
      assert a + b == b;
    } else {
      var step := ParseOne(schema, a, m);
      RecordIgnoresSuffix(schema, a, b, m);
      var rest := a[step.n..];
      assert (a + b)[step.n..] == rest + b;
      ParseConcat(schema, rest, b, step.m);
      DelayAdds(Parse(schema, b, Parse(schema, rest, step.m).m), |rest|, step.n);
    }
  }

  lemma {:induction false} DelayAdds(o: Outcome, n: nat, k: nat)
    ensures Delay(Delay(o, n), k) == Delay(o, n + k)
  {
  }

  lemma {:induction false} OneRecord(schema: Schema, data: bytes, m: Msg)
    requires data != [] && Fits(schema, m)
    requires ParseOne(schema, data, m).Next? && ParseOne(schema, data, m).n == |data|
    ensures Parse(schema, data, m) == Outcome(ParseOne(schema, data, m).m, None)
  {
    assert data[|data|..] == [];
  }

  // ---------- records that ask for more than there is ----------

  /** The end that the record at the start of `data` asks for: of a length-delimited known field, or of an unknown one. */
  function RecordEnd(schema: Schema, data: bytes): Option<nat> {
    match ReadVarint(data, 0)
    case Done(raw, k) =>
      var wire := Low64(raw);
      var num, wireType := Signed32(wire / 8), wire % 8;
      if wireType == 4 || num <= 0 then None
      else if num > |schema| then SkippedTo(Skip(data, 0, 0))
      else if schema[num - 1].IsNumber() || wireType != 2 then None
      else SpanEnd(data, k)
    case _ => None
  }

  function SkippedTo(r: SkipResult): Option<nat> {
    if r.SkipTo? then Some(r.n) else None
  }

  function SpanEnd(data: bytes, k: nat): Option<nat>
    requires k <= |data|
  {
    match ReadVarint(data, k)
    case Done(raw, n) => if Signed64(raw) < 0 then None else Some(k + n + Signed64(raw))
    case _ => None
  }

  /** A record overruns the input exactly when the end it asks for lies past it, whatever the message. */
  lemma {:induction false} OverrunIsPastEnd(schema: Schema, data: bytes, m: Msg, end: nat)
    requires data != [] && Fits(schema, m)
    ensures Overruns(ParseOne(schema, data, m), end) <==> RecordEnd(schema, data) == Some(end) && end > |data|
  {
    var tag := ReadVarint(data, 0);
    if tag.Done? {
      var wire := Low64(tag.raw);
      var num, wireType := Signed32(wire / 8), wire % 8;
      if wireType == 4 || num <= 0 {
        assert RecordEnd(schema, data).None?;
      } else if num <= |schema| {
        FieldOverrun(schema[num - 1], num, wireType, data, tag.n, m.fields[num - 1], end);
        assert ParseOne(schema, data, m) == StoreField(schema, num, wireType, data, tag.n, m);
      } else {
        assert ParseOne(schema, data, m) == SkipUnknown(data, m);
      }
    }
  }

  predicate Overruns(step: Step, end: nat) {
    step.Fail? && step.fault == Overrun(end)
  }

  lemma {:induction false} FieldOverrun(kind: Kind, num: nat, wireType: nat, data: bytes, k: nat, v: Value, end: nat)
    requires 0 < k <= |data| && FitsValue(kind, v)
    ensures var r := ParseField(kind, num, wireType, data, k, v);
            r.FieldErr? && r.fault == Overrun(end) <==>
            !kind.IsNumber() && wireType == 2 && SpanEnd(data, k) == Some(end) && end > |data|
  {
    if !kind.IsNumber() && wireType == 2 {
      match ReadSpan(data, k)
      case BadSpan(fault) =>
      case Span(start, last) =>
        assert ParseField(kind, num, wireType, data, k, v) == ParseSpan(kind, data, start, last, v);
    }
  }

  /** Behind an accepted prefix of i bytes stands a record that asks for the index `end`. */
  ghost predicate AsksFor(schema: Schema, data: bytes, m: Msg, i: nat, end: nat)
    requires Fits(schema, m)
  {
    && i < |data| && i <= end
    && Parse(schema, data[..i], m).fault.None?
    && RecordEnd(schema, data[i..]) == Some(end - i)
  }

  /** An accepted record is accepted when nothing follows it. */
  lemma {:induction false} RecordStandsAlone(schema: Schema, data: bytes, m: Msg)
    requires data != [] && |data| <= MAX_INT && Fits(schema, m) && ParseOne(schema, data, m).Next?
    ensures ParseOne(schema, data[..ParseOne(schema, data, m).n], m).Next?
    ensures ParseOne(schema, data[..ParseOne(schema, data, m).n], m) == ParseOne(schema, data, m)
  {
    var tag := ReadVarint(data, 0);
    if Signed32(Low64(tag.raw) / 8) <= |schema| {
      KnownStandsAlone(schema, data, m, ParseOne(schema, data, m));
    } else {
      UnknownStandsAlone(schema, data, m, ParseOne(schema, data, m));
    }
  }

  lemma {:induction false} KnownStandsAlone(schema: Schema, data: bytes, m: Msg, step: Step)
    requires data != [] && Fits(schema, m) && step == ParseOne(schema, data, m) && step.Next?
    requires Signed32(Low64(ReadVarint(data, 0).raw) / 8) <= |schema|
    ensures ParseOne(schema, data[..step.n], m) == step
  {
    var (a, tag) := (data[..step.n], ReadVarint(data, 0));
    var wire := Low64(tag.raw);
    var num := Signed32(wire / 8);
    FieldStandsAlone(schema[num - 1], num, wire % 8, data, tag.n, m.fields[num - 1]);
    ReadStandsAlone(data, 0, step.n);
    assert ParseOne(schema, a, m) == StoreField(schema, num, wire % 8, a, tag.n, m);
  }

  lemma {:induction false} UnknownStandsAlone(schema: Schema, data: bytes, m: Msg, step: Step)
    requires data != [] && |data| <= MAX_INT && Fits(schema, m) && step == ParseOne(schema, data, m) && step.Next?
    requires Signed32(Low64(ReadVarint(data, 0).raw) / 8) > |schema|
    ensures ParseOne(schema, data[..step.n], m) == step
  {
    var a := data[..step.n];
    AtSlice(data, 0, step.n);
    SkippedStandsAlone(data, step.n);
    ReadTagAlone(data, step.n);
    assert ParseOne(schema, a, m) == SkipUnknown(a, m);
  }

  /** A skipped field has its tag in it. */
  lemma {:induction false} ReadTagAlone(data: bytes, n: nat)
    requires 0 < n <= |data| <= MAX_INT && Skip(data[..n], 0, 0) == SkipTo(n)
    ensures ReadVarint(data[..n], 0) == ReadVarint(data, 0)
  {
    AtSlice(data, 0, n);
    ReadAt(data[..n], 0, data, 0, 10);
  }

  lemma {:induction false} SkippedStandsAlone(data: bytes, n: nat)
    requires n <= |data| <= MAX_INT && Skip(data, 0, 0) == SkipTo(n)
    ensures Skip(data[..n], 0, 0) == SkipTo(n)
  {
    SkipRecognizesFields(data, n);
    assert data[..n][..n] == data[..n];
    SkipRecognizesFields(data[..n], n);
  }

  lemma {:induction false} ReadStandsAlone(data: bytes, k: nat, n: nat)
    requires k <= n <= |data| && ReadVarint(data, k).Done? && k + ReadVarint(data, k).n <= n
    ensures ReadVarint(data[..n], k) == ReadVarint(data, k)
  {
    AtSlice(data, 0, n);
    ReadAt(data[..n], k, data, 0, 10);
  }

  lemma {:induction false} FieldStandsAlone(kind: Kind, num: nat, wireType: nat, data: bytes, k: nat, v: Value)
    requires 0 < k <= |data| && FitsValue(kind, v) && ParseField(kind, num, wireType, data, k, v).FieldOk?
    ensures ParseField(kind, num, wireType, data[..ParseField(kind, num, wireType, data, k, v).n], k, v) ==
            ParseField(kind, num, wireType, data, k, v)
  {
    var n := ParseField(kind, num, wireType, data, k, v).n;
    ReadStandsAlone(data, k, n);
    if !kind.IsNumber() {
      SpanStandsAlone(kind, data, k, n, v);
    }
  }

  lemma {:induction false} SpanStandsAlone(kind: Kind, data: bytes, k: nat, n: nat, v: Value)
    requires 0 < k <= n <= |data| && FitsValue(kind, v) && !kind.IsNumber() && ReadSpan(data, k).Span? && ReadSpan(data, k).end == n
    ensures var span := ReadSpan(data, k);
            && ReadSpan(data[..n], k) == span
            && ParseSpan(kind, data[..n], span.start, n, v) == ParseSpan(kind, data, span.start, n, v)
  {
    ReadStandsAlone(data, k, n);
    assert data[..n][ReadSpan(data, k).start..n] == data[ReadSpan(data, k).start..n];
  }

  /** An overrun comes from one record, behind a prefix that is accepted. */
  lemma {:induction false} OverrunIsAskedFor(schema: Schema, data: bytes, m: Msg, end: nat) returns (i: nat)
    requires |data| <= MAX_INT && Fits(schema, m) && Parse(schema, data, m).fault == Some(Overrun(end))
    ensures AsksFor(schema, data, m, i, end)
    decreases |data|
  {
    var step := ParseOne(schema, data, m);
    if step.Fail? {
      i := 0;
      OverrunIsPastEnd(schema, data, m, end);
      assert data[..0] == [] && data[0..] == data;
    } else {
      var rest := data[step.n..];
      var o := Parse(schema, rest, step.m);
      assert o.fault.Some? && o.fault.value == Overrun(end - step.n);
      var j := OverrunIsAskedFor(schema, rest, step.m, end - step.n);
      i := step.n + j;
      AskedForLater(schema, data, m, j, step, end);
    }
  }

  lemma {:induction false} AskedForLater(schema: Schema, data: bytes, m: Msg, j: nat, step: Step, end: nat)
    requires data != [] && |data| <= MAX_INT && Fits(schema, m) && step == ParseOne(schema, data, m) && step.Next?
    requires end >= step.n && AsksFor(schema, data[step.n..], step.m, j, end - step.n)
    ensures AsksFor(schema, data, m, step.n + j, end)
  {
    PrefixIsAccepted(schema, data, m, j, step);
    DropTwice(data, step.n, j);
  }

  lemma {:induction false} DropTwice(data: bytes, n: nat, j: nat)
    requires n + j <= |data|
    ensures data[n..][j..] == data[n + j..]
  {
  }

  /** A record and an accepted input behind it are accepted together. */
  lemma {:induction false} PrefixIsAccepted(schema: Schema, data: bytes, m: Msg, j: nat, step: Step)
    requires data != [] && |data| <= MAX_INT && Fits(schema, m) && step == ParseOne(schema, data, m) && step.Next?
    requires step.n + j <= |data| && Parse(schema, data[step.n..][..j], step.m).fault.None?
    ensures Parse(schema, data[..step.n + j], m).fault.None?
  {
    RecordStandsAlone(schema, data, m);
    OneRecord(schema, data[..step.n], m);
    SplitSlice(data, step.n, j);
    ParseConcat(schema, data[..step.n], data[step.n..][..j], m);
  }

  lemma {:induction false} SplitSlice(data: bytes, n: nat, j: nat)
    requires n + j <= |data|
    ensures data[..n] + data[n..][..j] == data[..n + j]
  {
  }

  lemma {:induction false} SplitParse(schema: Schema, data: bytes, i: nat, m: Msg, first: Outcome)
    requires i <= |data| <= MAX_INT && Fits(schema, m) && first == Parse(schema, data[..i], m) && first.fault.None?
    ensures Parse(schema, data, m) == Delay(Parse(schema, data[i..], first.m), i)
  {
    assert data[..i] + data[i..] == data;
    ParseConcat(schema, data[..i], data[i..], m);
  }

  lemma {:induction false} AskingForMoreOverruns(schema: Schema, data: bytes, m: Msg, i: nat, end: nat)
    requires |data| <= MAX_INT && Fits(schema, m) && AsksFor(schema, data, m, i, end) && end > |data|
    ensures Parse(schema, data, m).fault == Some(Overrun(end))
  {
    var first := Parse(schema, data[..i], m);
    SplitParse(schema, data, i, m, first);
    FirstRecordOverruns(schema, data[i..], first.m, end - i);
  }

  lemma {:induction false} FirstRecordOverruns(schema: Schema, data: bytes, m: Msg, end: nat)
    requires data != [] && Fits(schema, m) && RecordEnd(schema, data) == Some(end) && end > |data|
    ensures Parse(schema, data, m).fault == Some(Overrun(end))
  {
    OverrunIsPastEnd(schema, data, m, end);
  }

  // ---------- concatenation ----------

  /** Some record of `b`, behind an accepted prefix, asks for an end that is an `int` in `b` but no longer one n bytes later. */
  ghost predicate WrapsOnlyBehind(n: nat, schema: Schema, b: bytes, m: Msg)
    requires Fits(schema, m)
  {
    exists i: nat, end: nat :: AsksFor(schema, b, m, i, end) && MAX_INT - n < end <= MAX_INT
  }

  /**
   * Concatenation is merge: if `a` is accepted, unmarshalling `a + b` leaves the message that
   * unmarshalling `b` into the first result leaves, and succeeds exactly when that does. The error
   * can differ in one case only: a record of `b` asks for an end that is still an `int` on its own but
   * wraps around behind `a`, so that "unexpected EOF" becomes "negative length".
   */
  lemma {:induction false} ConcatenationIsMerge(schema: Schema, a: bytes, b: bytes, m: Msg)
    requires Fits(schema, m) && |a| + |b| <= MAX_INT && Unmarshal(schema, a, m).1.None?
    ensures var m' := Unmarshal(schema, a, m).0;
            var joined, apart := Unmarshal(schema, a + b, m), Unmarshal(schema, b, m');
            && joined.0 == apart.0
            && (joined.1.None? <==> apart.1.None?)
            && (joined == apart <==> !WrapsOnlyBehind(|a|, schema, b, m'))
            && (joined != apart ==> apart.1 == Some(UnexpectedEof) && joined.1 == Some(InvalidLength))
  {
    var m' := Unmarshal(schema, a, m).0;
    JoinedErrors(schema, a, b, m, m');
    WrappingFault(|a|, schema, b, m', Parse(schema, b, m').fault);
  }

  lemma {:induction false} JoinedErrors(schema: Schema, a: bytes, b: bytes, m: Msg, m': Msg)
    requires Fits(schema, m) && |a| + |b| <= MAX_INT && Unmarshal(schema, a, m) == (m', None)
    ensures var joined, apart := Unmarshal(schema, a + b, m), Unmarshal(schema, b, m');
            && joined.0 == apart.0
            && (joined.1.None? <==> apart.1.None?)
            && (joined == apart <==> !Wraps(Parse(schema, b, m').fault, |a|))
            && (joined != apart ==> apart.1 == Some(UnexpectedEof) && joined.1 == Some(InvalidLength))
  {
    ParseConcat(schema, a, b, m);
  }

  predicate Wraps(fault: Option<Fault>, n: nat) {
    fault.Some? && fault.value.Overrun? && fault.value.end <= MAX_INT < fault.value.end + n
  }

  lemma {:induction false} WrappingFault(n: nat, schema: Schema, b: bytes, m: Msg, fault: Option<Fault>)
    requires Fits(schema, m) && n + |b| <= MAX_INT && fault == Parse(schema, b, m).fault
    ensures WrapsOnlyBehind(n, schema, b, m) <==> Wraps(fault, n)
  {
    if Wraps(fault, n) {
      var i := OverrunIsAskedFor(schema, b, m, fault.value.end);
    }
    if WrapsOnlyBehind(n, schema, b, m) {
      var i: nat, end: nat :| AsksFor(schema, b, m, i, end) && MAX_INT - n < end <= MAX_INT;
      AskingForMoreOverruns(schema, b, m, i, end);
    }
  }

  // ---------- unknown fields ----------

  /** One well-nested field whose number the schema does not have. */
  ghost predicate IsUnknownField(schema: Schema, u: bytes) {
    && StartsWithField(u, |u|)
    && ReadVarint(u, 0).Done?
    && Signed32(Low64(ReadVarint(u, 0).raw) / 8) > |schema|
  }

  lemma {:induction false} UnknownFieldIsSkipped(schema: Schema, u: bytes, m: Msg)
    requires Fits(schema, m) && |u| <= MAX_INT && IsUnknownField(schema, u)
    ensures Parse(schema, u, m) == Outcome(m, None)
  {
    SkipRecognizesFields(u, |u|);
    var tag := ReadVarint(u, 0);
    WireTypeOfTag(tag.raw);
    assert ReadToken(u, 0).Token?;
    assert ParseOne(schema, u, m) == Next(m, |u|);
    OneRecord(schema, u, m);
  }

  lemma {:induction false} WireTypeOfTag(raw: nat)
    ensures Low64(raw) % 8 == raw % 8
  {
    Low64KeepsLowBits(raw);
  }

  /** An unknown field standing between any accepted input and the rest changes nothing in the message or in acceptance. */
  lemma {:induction false} UnknownFieldsChangeNothing(schema: Schema, a: bytes, u: bytes, b: bytes, m: Msg)
    requires Fits(schema, m) && |a| + |u| + |b| <= MAX_INT
    requires Unmarshal(schema, a, m).1.None? && IsUnknownField(schema, u)
    ensures Unmarshal(schema, a + u + b, m).0 == Unmarshal(schema, a + b, m).0
    ensures Unmarshal(schema, a + u + b, m).1.None? <==> Unmarshal(schema, a + b, m).1.None?
  {
    var m' := Parse(schema, a, m).m;
    UnknownFieldIsSkipped(schema, u, m');
    ParseConcat(schema, a, u, m);
    SameSoFar(schema, a + u, a, b, m);
  }

  lemma {:induction false} SameSoFar(schema: Schema, x: bytes, y: bytes, b: bytes, m: Msg)
    requires Fits(schema, m) && |x| + |b| <= MAX_INT && |y| + |b| <= MAX_INT
    requires Parse(schema, x, m) == Parse(schema, y, m) && Parse(schema, x, m).fault.None?
    ensures Parse(schema, x + b, m).m == Parse(schema, y + b, m).m
    ensures Parse(schema, x + b, m).fault.None? <==> Parse(schema, y + b, m).fault.None?
  {
    ParseConcat(schema, x, b, m);
    ParseConcat(schema, y, b, m);
  }
}
