/** Skipping one unknown field: the depth-counter loop, and the grammar of fields with nested groups that it recognizes. */
module Skipping {
  import opened Words
  import opened Varints

  datatype Error =
    | IntOverflow
    | UnexpectedEof
    | InvalidLength
    | UnexpectedEndOfGroup
    | IllegalWireType(wireType: int)
    | EndGroupForNonGroup
    | IllegalTag(fieldNum: int, wire: int)
    | WrongWireType(wireType: int, fieldNum: int)

  /** What one turn of the loop reads: a wire type and the index after its payload, before any wrap-around. */
  datatype Token = Token(wireType: nat, next: nat) | BadToken(error: Error)

  function ReadToken(data: bytes, i: nat): (t: Token)
    requires i <= |data|
    ensures t.Token? ==> t.wireType < 6 && t.next > i
    ensures t.Token? && t.wireType in {3, 4} ==> t.next <= |data|
  {
    match ReadVarint(data, i)
    case Overflow(_) => BadToken(IntOverflow)
    case Eof(_) => BadToken(UnexpectedEof)
    case Done(raw, n) => ReadPayload(data, i + n, raw % 8)
  }

  function ReadPayload(data: bytes, i: nat, wireType: nat): (t: Token)
    requires i <= |data| && wireType < 8
    ensures t.Token? ==> t.wireType == wireType < 6 && t.next >= i
    ensures t.Token? && wireType in {3, 4} ==> t.next == i
  {
    if wireType == 1 then Token(wireType, i + 8)
    else if wireType == 5 then Token(wireType, i + 4)
    else if wireType == 3 || wireType == 4 then Token(wireType, i)
    else if wireType > 5 then BadToken(IllegalWireType(wireType))
    else
      match ReadVarint(data, i)
      case Overflow(_) => BadToken(IntOverflow)
      case Eof(_) => BadToken(UnexpectedEof)
      case Done(raw, n) =>
        if wireType == 0 then Token(wireType, i + n)
        else if Signed64(raw) < 0 then BadToken(InvalidLength)
        else Token(wireType, i + n + Signed64(raw))
  }

  datatype SkipResult = SkipTo(n: nat) | SkipErr(error: Error)

  /** The loop at index `i` with `depth` groups open; an index past MAX_INT has wrapped to a negative one. */
  function Skip(data: bytes, i: nat, depth: nat): (r: SkipResult)
    ensures r.SkipTo? ==> i < r.n <= MAX_INT
    decreases |data| - i, 0
  {
    if i >= |data| then SkipErr(UnexpectedEof)
    else
      match ReadToken(data, i)
      case BadToken(e) => SkipErr(e)
      case Token(wireType, next) =>
        if wireType == 4 && depth == 0 then SkipErr(UnexpectedEndOfGroup)
        else
          var depth' := if wireType == 3 then depth + 1 else if wireType == 4 then depth - 1 else depth;
          if next > MAX_INT then SkipErr(InvalidLength)
          else Continue(data, next, depth')
  }

  /** The end of a loop turn: return when no group is open, go on otherwise. */
  function Continue(data: bytes, i: nat, depth: nat): (r: SkipResult)
    requires i <= MAX_INT
    ensures r.SkipTo? ==> i <= r.n <= MAX_INT
    decreases |data| - i, 1
  {
    if depth == 0 then SkipTo(i) else Skip(data, i, depth)
  }

  /** The skipping loop on the generated code's `int` indices. */
  method SkipField(dAtA: bytes) returns (r: SkipResult)
    requires |dAtA| <= MAX_INT
    ensures r == Skip(dAtA, 0, 0)
  {
    var l := |dAtA|;
    var iNdEx: int64, depth: nat := 0, 0;
    while iNdEx < l
      invariant 0 <= iNdEx
      invariant Skip(dAtA, 0, 0) == Skip(dAtA, iNdEx, depth)
      decreases l - iNdEx
    {
      var wire := DecodeVarint(dAtA, iNdEx, W64);
      WordOfTruncated(ReadVarint(dAtA, iNdEx).raw);
      if wire.Overflow? {
        return SkipErr(IntOverflow);
      }
      if wire.Eof? {
        return SkipErr(UnexpectedEof);
      }
      var start := iNdEx + wire.n;
      var wireType := wire.raw % 8;
      var payload := SkipPayload(dAtA, start, wireType);
      if payload.Err? {
        return SkipErr(payload.error);
      }
      iNdEx := payload.value;
      if wireType == 3 {
        depth := depth + 1;
      } else if wireType == 4 {
        if depth == 0 {
          return SkipErr(UnexpectedEndOfGroup);
        }
        depth := depth - 1;
      }
      if iNdEx < 0 {
        return SkipErr(InvalidLength);
      }
      if depth == 0 {
        return SkipTo(iNdEx);
      }
    }
    return SkipErr(UnexpectedEof);
  }

  /** The `switch wireType` of the loop: the new index, wrapped around. */
  method SkipPayload(dAtA: bytes, start: nat, wireType: nat) returns (r: Result<int64, Error>)
    requires start <= |dAtA| <= MAX_INT && wireType < 8
    ensures match ReadPayload(dAtA, start, wireType)
            case BadToken(e) => r == Err(e)
            case Token(_, next) => r == Ok(Signed64(next)) && (r.value < 0 <==> next > MAX_INT) && (r.value >= 0 ==> r.value == next)
  {
    var iNdEx: int64 := start;
    if wireType == 1 {
      WrapAddIsExactOrNegative(iNdEx, 8);
      iNdEx := WrapAdd(iNdEx, 8);
    } else if wireType == 5 {
      WrapAddIsExactOrNegative(iNdEx, 4);
      iNdEx := WrapAdd(iNdEx, 4);
    } else if wireType == 0 || wireType == 2 {
      var read := DecodeVarint(dAtA, start, W64);
      WordOfTruncated(ReadVarint(dAtA, start).raw);
      if read.Overflow? {
        return Err(IntOverflow);
      }
      if read.Eof? {
        return Err(UnexpectedEof);
      }
      iNdEx := iNdEx + read.n;
      if wireType == 2 {
        var length := Signed64(read.raw);
        if length < 0 {
          return Err(InvalidLength);
        }
        WrapAddIsExactOrNegative(iNdEx, length);
        iNdEx := WrapAdd(iNdEx, length);
      }
    } else if wireType > 5 {
      return Err(IllegalWireType(wireType));
    }
    return Ok(iNdEx);
  }
}

/** One field on the wire as the encoding defines it, groups nested to any depth. */
module FieldGrammar {
  import opened Words
  import opened Varints
  import opened Skipping

  datatype Field = Leaf(bs: bytes) | Group(open: bytes, body: Fields, close: bytes)
  datatype Fields = Nil | Cons(head: Field, tail: Fields)

  function Spell(f: Field): bytes {
    match f
    case Leaf(bs) => bs
    case Group(open, body, close) => open + SpellAll(body) + close
  }

  function SpellAll(fs: Fields): bytes {
    match fs
    case Nil => []
    case Cons(f, rest) => Spell(f) + SpellAll(rest)
  }

  predicate IsTag(bs: bytes, wireType: nat) {
    var tag := ReadVarint(bs, 0);
    tag.Done? && tag.n == |bs| && tag.raw % 8 == wireType
  }

  /** A tag and its payload. */
  predicate IsLeaf(bs: bytes) {
    var tag := ReadVarint(bs, 0);
    tag.Done? && IsPayload(bs, tag.n, tag.raw % 8)
  }

  /** From `k` to the end: a varint, 8 bytes, a length and that many bytes, or 4 bytes. */
  predicate IsPayload(bs: bytes, k: nat, wireType: nat)
    requires k <= |bs|
  {
    if wireType == 0 then
      var v := ReadVarint(bs, k);
      v.Done? && |bs| == k + v.n
    else if wireType == 2 then
      var v := ReadVarint(bs, k);
      v.Done? && Signed64(v.raw) >= 0 && |bs| == k + v.n + Signed64(v.raw)
    else
      (wireType == 1 && |bs| == k + 8) || (wireType == 5 && |bs| == k + 4)
  }

  /** The field number of a group's closing tag is not compared with the opening one. */
  predicate ValidField(f: Field) {
    match f
    case Leaf(bs) => IsLeaf(bs)
    case Group(open, body, close) => IsTag(open, 3) && ValidFields(body) && IsTag(close, 4)
  }

  predicate ValidFields(fs: Fields) {
    match fs
    case Nil => true
    case Cons(f, rest) => ValidField(f) && ValidFields(rest)
  }

  /** `bs` stands in `data` at `i`. */
  predicate At(data: bytes, i: nat, bs: bytes) {
    i + |bs| <= |data| && forall k :: 0 <= k < |bs| ==> bs[k] == data[i + k]
  }

  lemma AtSlice(data: bytes, i: nat, j: nat)
    requires i <= j <= |data|
    ensures At(data, i, data[i..j])
  {
  }

  lemma AtSplits(data: bytes, i: nat, a: bytes, b: bytes)
    requires At(data, i, a + b)
    ensures At(data, i, a) && At(data, i + |a|, b)
  {
    forall k | 0 <= k < |a|
      ensures a[k] == data[i + k]
    {
      assert a[k] == (a + b)[k];
    }
    forall k | 0 <= k < |b|
      ensures b[k] == data[i + |a| + k]
    {
      assert b[k] == (a + b)[|a| + k] == data[i + (|a| + k)];
    }
  }

  /** A varint standing in `data` is read there as it is on its own. */
  lemma {:induction false} ReadAt(bs: bytes, k: nat, data: bytes, i: nat, groups: nat)
    requires k <= |bs| && At(data, i, bs)
    requires ReadGroups(bs, k, groups).Done? || (ReadGroups(data, i + k, groups).Done? && k + ReadGroups(data, i + k, groups).n <= |bs|)
    ensures ReadGroups(data, i + k, groups) == ReadGroups(bs, k, groups)
    decreases groups
  {
    if groups > 0 && k < |bs| {
      assert bs[k] == data[i + k];
      if bs[k] >= 128 {
        ReadAt(bs, k + 1, data, i, groups - 1);
      }
    }
  }

  lemma {:induction false} TokenIsTagOrLeaf(data: bytes, i: nat)
    requires i < |data| && ReadToken(data, i).Token? && ReadToken(data, i).next <= |data|
    ensures var t := ReadToken(data, i);
            var bs := data[i..t.next];
            if t.wireType == 3 || t.wireType == 4 then IsTag(bs, t.wireType) else IsLeaf(bs)
  {
    var t := ReadToken(data, i);
    var tag := ReadVarint(data, i);
    var bs := data[i..t.next];
    AtSlice(data, i, t.next);
    ReadAt(bs, 0, data, i, 10);
    if t.wireType == 0 || t.wireType == 2 {
      ReadAt(bs, tag.n, data, i, 10);
    }
  }

  lemma TagIsToken(bs: bytes, wireType: nat, data: bytes, i: nat)
    requires IsTag(bs, wireType) && (wireType == 3 || wireType == 4) && At(data, i, bs)
    ensures ReadToken(data, i) == Token(wireType, i + |bs|)
  {
    ReadAt(bs, 0, data, i, 10);
  }

  lemma {:induction false} LeafIsToken(bs: bytes, data: bytes, i: nat)
    requires IsLeaf(bs) && At(data, i, bs)
    ensures ReadToken(data, i).Token? && ReadToken(data, i).next == i + |bs|
    ensures ReadToken(data, i).wireType != 3 && ReadToken(data, i).wireType != 4
  {
    ReadAt(bs, 0, data, i, 10);
    var tag := ReadVarint(bs, 0);
    if tag.raw % 8 == 0 || tag.raw % 8 == 2 {
      ReadAt(bs, tag.n, data, i, 10);
    }
  }

  /** What is left to read with groups open, innermost first. */
  datatype Closing = Closed | Close(body: Fields, close: bytes, outer: Closing)

  function SpellClosing(c: Closing): bytes {
    if c.Closed? then [] else SpellAll(c.body) + c.close + SpellClosing(c.outer)
  }

  predicate ValidClosing(c: Closing, depth: nat) {
    if c.Closed? then depth == 0
    else depth > 0 && ValidFields(c.body) && IsTag(c.close, 4) && ValidClosing(c.outer, depth - 1)
  }

  /** One more token in front of what is left to read. */
  function PutTag(bs: bytes, wireType: nat, c: Closing): Closing
    requires wireType == 3 ==> c.Close? && c.outer.Close?
    requires wireType != 3 && wireType != 4 ==> c.Close?
  {
    if wireType == 3 then Close(Cons(Group(bs, c.body, c.close), c.outer.body), c.outer.close, c.outer.outer)
    else if wireType == 4 then Close(Nil, bs, c)
    else Close(Cons(Leaf(bs), c.body), c.close, c.outer)
  }

  lemma Regroup(a: bytes, b: bytes, c: bytes, d: bytes, e: bytes, f: bytes)
    ensures a + b + c + d + e + f == a + (b + c + (d + e + f))
  {
    assert a + b + c + d + e + f == a + (b + c + d + e + f);
    assert b + c + d + e + f == b + c + (d + e + f);
  }

  lemma PutTagSpells(bs: bytes, wireType: nat, c: Closing)
    requires wireType == 3 ==> c.Close? && c.outer.Close?
    requires wireType != 3 && wireType != 4 ==> c.Close?
    ensures SpellClosing(PutTag(bs, wireType, c)) == bs + SpellClosing(c)
  {
    if wireType == 3 {
      PutOpenSpells(bs, c.body, c.close, c.outer.body, c.outer.close, c.outer.outer);
    } else if wireType == 4 {
      assert SpellAll(Nil) + bs == bs;
    } else {
      PutLeafSpells(bs, c.body, c.close, c.outer);
    }
  }

  lemma PutLeafSpells(bs: bytes, body: Fields, close: bytes, outer: Closing)
    ensures SpellClosing(Close(Cons(Leaf(bs), body), close, outer)) == bs + SpellClosing(Close(body, close, outer))
  {
    var b, c := SpellAll(body), SpellClosing(outer);
    assert SpellAll(Cons(Leaf(bs), body)) == bs + b;
    assert (bs + b) + close + c == bs + (b + close + c);
  }

  lemma PutOpenSpells(bs: bytes, body: Fields, close: bytes, body': Fields, close': bytes, outer: Closing)
    ensures SpellClosing(Close(Cons(Group(bs, body, close), body'), close', outer)) ==
            bs + SpellClosing(Close(body, close, Close(body', close', outer)))
  {
    assert Spell(Group(bs, body, close)) == bs + SpellAll(body) + close;
    Regroup(bs, SpellAll(body), close, SpellAll(body'), close', SpellClosing(outer));
  }

  lemma AtJoins(data: bytes, i: nat, j: nat, k: nat)
    requires i <= j <= k <= |data|
    ensures data[i..j] + data[j..k] == data[i..k]
  {
  }

  /** A successful run with groups open has read fields and closing tags, one for each open group. */
  lemma {:induction false} RunClosesGroups(data: bytes, i: nat, depth: nat) returns (c: Closing)
    requires i <= MAX_INT
    requires Continue(data, i, depth).SkipTo? && Continue(data, i, depth).n <= |data|
    ensures ValidClosing(c, depth)
    ensures SpellClosing(c) == data[i..Continue(data, i, depth).n]
    decreases |data| - i
  {
    if depth == 0 {
      return Closed;
    }
    var t := ReadToken(data, i);
    var bs := data[i..t.next];
    TokenIsTagOrLeaf(data, i);
    var depth' := if t.wireType == 3 then depth + 1 else if t.wireType == 4 then depth - 1 else depth;
    var rest := RunClosesGroups(data, t.next, depth');
    PutTagSpells(bs, t.wireType, rest);
    AtJoins(data, i, t.next, Continue(data, i, depth).n);
    c := PutTag(bs, t.wireType, rest);
  }

  lemma SkippedIsField(data: bytes) returns (f: Field)
    requires Skip(data, 0, 0).SkipTo? && Skip(data, 0, 0).n <= |data|
    ensures ValidField(f) && Spell(f) == data[..Skip(data, 0, 0).n]
  {
    var n := Skip(data, 0, 0).n;
    var t := ReadToken(data, 0);
    TokenIsTagOrLeaf(data, 0);
    if t.wireType == 3 {
      var c := RunClosesGroups(data, t.next, 1);
      f := Group(data[..t.next], c.body, c.close);
      assert SpellClosing(c.outer) == [];
      AtJoins(data, 0, t.next, n);
    } else {
      f := Leaf(data[..n]);
    }
  }

  /** A well-nested field takes the loop to its end, with the same groups open as before. */
  lemma {:induction false} FieldIsSkipped(f: Field, data: bytes, i: nat, depth: nat)
    requires ValidField(f) && |data| <= MAX_INT && At(data, i, Spell(f))
    ensures Skip(data, i, depth) == Continue(data, i + |Spell(f)|, depth)
    decreases f
  {
    match f
    case Leaf(bs) =>
      assert Spell(f) == bs;
      LeafIsToken(bs, data, i);
      TokenTurn(data, i, depth);
    case Group(open, body, close) =>
      GroupStands(open, SpellAll(body), close, data, i);
      var j := i + |open|;
      FieldsAreSkipped(body, data, j, depth + 1);
      GroupTurns(data, i, j, j + |SpellAll(body)|, i + |Spell(f)|, depth);
  }

  /** The turns over an opening and a closing tag, given those between them. */
  lemma {:induction false} GroupTurns(data: bytes, i: nat, j: nat, m: nat, end: nat, depth: nat)
    requires i <= |data| && m <= |data| && end <= |data| <= MAX_INT
    requires ReadToken(data, i) == Token(3, j) && ReadToken(data, m) == Token(4, end)
    requires Skip(data, j, depth + 1) == Skip(data, m, depth + 1)
    ensures Skip(data, i, depth) == Continue(data, end, depth)
  {
    TokenTurn(data, i, depth);
    TokenTurn(data, m, depth + 1);
  }

  /** One turn of the loop over a token that is wholly there. */
  lemma {:induction false} TokenTurn(data: bytes, i: nat, depth: nat)
    requires i <= |data| <= MAX_INT && ReadToken(data, i).Token? && ReadToken(data, i).next <= |data|
    requires ReadToken(data, i).wireType == 4 ==> depth > 0
    ensures var t := ReadToken(data, i);
            Skip(data, i, depth) ==
            Continue(data, t.next, if t.wireType == 3 then depth + 1 else if t.wireType == 4 then depth - 1 else depth)
  {
  }

  lemma GroupStands(open: bytes, body: bytes, close: bytes, data: bytes, i: nat)
    requires IsTag(open, 3) && IsTag(close, 4) && At(data, i, open + body + close)
    ensures At(data, i + |open|, body)
    ensures ReadToken(data, i) == Token(3, i + |open|)
    ensures ReadToken(data, i + |open| + |body|) == Token(4, i + |open + body + close|)
  {
    AtSplits(data, i, open + body, close);
    AtSplits(data, i, open, body);
    TagIsToken(open, 3, data, i);
    TagIsToken(close, 4, data, i + |open| + |body|);
  }

  lemma {:induction false} FieldsAreSkipped(fs: Fields, data: bytes, i: nat, depth: nat)
    requires ValidFields(fs) && |data| <= MAX_INT && At(data, i, SpellAll(fs)) && depth > 0
    ensures Skip(data, i, depth) == Skip(data, i + |SpellAll(fs)|, depth)
    decreases fs
  {
    match fs
    case Nil =>
    case Cons(f, rest) =>
      AtSplits(data, i, Spell(f), SpellAll(rest));
      var j := i + |Spell(f)|;
      FieldIsSkipped(f, data, i, depth);
      assert Skip(data, i, depth) == Skip(data, j, depth);
      FieldsAreSkipped(rest, data, j, depth);
      assert j + |SpellAll(rest)| == i + |SpellAll(fs)|;
  }

  ghost predicate StartsWithField(data: bytes, n: nat)
    requires n <= |data|
  {
    exists f :: ValidField(f) && Spell(f) == data[..n]
  }

  lemma FieldIsSkippedWhole(f: Field, data: bytes, n: nat)
    requires n <= |data| <= MAX_INT && ValidField(f) && Spell(f) == data[..n]
    ensures Continue(data, n, 0) == Skip(data, 0, 0)
  {
    var start, depth := 0, 0;
    assert At(data, start, Spell(f));
    FieldIsSkipped(f, data, start, depth);
  }

  /** The depth counter recognizes the grammar: it consumes n bytes within the input exactly when they are one well-nested field. */
  lemma {:induction false} SkipRecognizesFields(data: bytes, n: nat)
    requires n <= |data| <= MAX_INT
    ensures Skip(data, 0, 0) == SkipTo(n) <==> StartsWithField(data, n)
  {
    if StartsWithField(data, n) {
      var f :| ValidField(f) && Spell(f) == data[..n];
      FieldIsSkippedWhole(f, data, n);
    } else if Skip(data, 0, 0) == SkipTo(n) {
      var f := SkippedIsField(data);
    }
  }

  /** Hence a skipped field does not depend on what follows it. */
  lemma SkipIgnoresSuffix(data: bytes, rest: bytes)
    requires |data| + |rest| <= MAX_INT
    requires Skip(data, 0, 0).SkipTo? && Skip(data, 0, 0).n <= |data|
    ensures Skip(data + rest, 0, 0) == Skip(data, 0, 0)
  {
    var n := Skip(data, 0, 0).n;
    SkipRecognizesFields(data, n);
    assert (data + rest)[..n] == data[..n];
    SkipRecognizesFields(data + rest, n);
  }
}
