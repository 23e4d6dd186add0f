/** Base 128 varints: the encoder writing in place, the decoding loop, and the two byte counts. */
module Varints {
  import opened Words

  /** 128^k, the weight of the k-th 7-bit group. */
  function Pow128(k: nat): (p: nat)
    ensures p > 0
  {
    if k == 0 then 1 else 128 * Pow128(k - 1)
  }

  /** The encoding: 7-bit groups, least significant first, every byte but the last with its top bit set. */
  function Varint(v: nat): (bs: bytes)
    ensures |bs| >= 1
  {
    if v < 128 then [v] else [128 + v % 128] + Varint(v / 128)
  }

  /** `bits.Len64`. */
  function BitLen(v: nat): nat {
    if v == 0 then 0 else 1 + BitLen(v / 2)
  }

  /** `v | 1`. */
  function SetLowBit(v: nat): nat {
    if v % 2 == 0 then v + 1 else v
  }

  /** The size the generated code computes for a varint, `(Len64(v|1)+6)/7`. */
  function Sov(v: uint64): nat {
    (BitLen(SetLowBit(v)) + 6) / 7
  }

  lemma {:induction false} BitLenPerGroup(v: nat)
    requires v >= 128
    ensures BitLen(v) == 7 + BitLen(v / 128)
  {
    assert BitLen(v) == 1 + BitLen(v / 2);
    assert BitLen(v / 2) == 1 + BitLen(v / 2 / 2);
    assert v / 2 / 2 == v / 4;
    assert BitLen(v / 4) == 1 + BitLen(v / 4 / 2);
    assert v / 4 / 2 == v / 8;
    assert BitLen(v / 8) == 1 + BitLen(v / 8 / 2);
    assert v / 8 / 2 == v / 16;
    assert BitLen(v / 16) == 1 + BitLen(v / 16 / 2);
    assert v / 16 / 2 == v / 32;
    assert BitLen(v / 32) == 1 + BitLen(v / 32 / 2);
    assert v / 32 / 2 == v / 64;
    assert BitLen(v / 64) == 1 + BitLen(v / 64 / 2);
    assert v / 64 / 2 == v / 128;
  }

  lemma {:induction false} BitLenBelowGroup(v: nat)
    requires 1 <= v < 128
    ensures 1 <= BitLen(v) <= 7
  {
    assert BitLen(v) == 1 + BitLen(v / 2);
    if v >= 2 {
      assert BitLen(v / 2) == 1 + BitLen(v / 2 / 2);
      if v >= 4 {
        assert BitLen(v / 4) == 1 + BitLen(v / 4 / 2) && v / 2 / 2 == v / 4;
        if v >= 8 {
          assert BitLen(v / 8) == 1 + BitLen(v / 8 / 2) && v / 4 / 2 == v / 8;
          if v >= 16 {
            assert BitLen(v / 16) == 1 + BitLen(v / 16 / 2) && v / 8 / 2 == v / 16;
            if v >= 32 {
              assert BitLen(v / 32) == 1 + BitLen(v / 32 / 2) && v / 16 / 2 == v / 32;
              if v >= 64 {
                assert v / 32 / 2 == v / 64 == 1 && BitLen(1) == 1 + BitLen(0);
              }
            }
          }
        }
      }
    }
  }

  /** The bit-length formula counts exactly the bytes that the encoding loop writes. */
  lemma {:induction false} SovIsExact(v: uint64)
    ensures Sov(v) == |Varint(v)|
  {
    var w := SetLowBit(v);
    if v < 128 {
      BitLenBelowGroup(w);
    } else {
      BitLenPerGroup(w);
      assert w / 128 == v / 128 || (w / 128 == v / 128 + 1 && w % 128 == 0);
      SameGroups(v);
      SovIsExact(v / 128);
    }
  }

  /** Setting the lowest bit does not change the count of groups above it. */
  lemma SameGroups(v: nat)
    requires v >= 128
    ensures BitLen(SetLowBit(v) / 128) == BitLen(SetLowBit(v / 128))
  {
    var u := v / 128;
    assert SetLowBit(v) / 128 == u;
    if u % 2 == 0 {
      assert (u + 1) / 2 == u / 2;
    }
  }

  /** What the decoding loop ends with: a value before truncation and a byte count, or why it stopped. */
  datatype VarintRead = Done(raw: nat, n: nat) | Overflow(raw: nat) | Eof(raw: nat)

  /** The decoding loop from `i` with `k` groups still allowed: the overflow test comes before the end-of-input test. */
  function ReadGroups(data: bytes, i: nat, k: nat): (r: VarintRead)
    requires i <= |data|
    ensures r.Done? ==> 1 <= r.n <= k && i + r.n <= |data|
    decreases |data| - i
  {
    if k == 0 then Overflow(0)
    else if i == |data| then Eof(0)
    else if data[i] < 128 then Done(data[i], 1)
    else
      match ReadGroups(data, i + 1, k - 1)
      case Done(raw, n) => Done(data[i] - 128 + 128 * raw, n + 1)
      case Overflow(raw) => Overflow(data[i] - 128 + 128 * raw)
      case Eof(raw) => Eof(data[i] - 128 + 128 * raw)
  }

  /** `shift` runs 0, 7, .., 63: ten groups. */
  function ReadVarint(data: bytes, i: nat): (r: VarintRead)
    requires i <= |data|
    ensures r.Done? ==> 1 <= r.n <= 10 && i + r.n <= |data|
  {
    ReadGroups(data, i, 10)
  }

  lemma {:induction false} ReadBack(v: nat, k: nat, before: bytes, rest: bytes)
    requires k >= 1 && v < Pow128(k)
    ensures ReadGroups(before + Varint(v) + rest, |before|, k) == Done(v, |Varint(v)|)
  {
    if v >= 128 {
      assert k >= 2 by { assert Pow128(1) == 128; }
      var b := 128 + v % 128;
      ReadBack(v / 128, k - 1, before + [b], rest);
      assert before + Varint(v) + rest == before + [b] + Varint(v / 128) + rest;
    }
  }

  lemma Pow128Table()
    ensures Pow128(9) == 0x8000_0000_0000_0000
    ensures Pow128(10) == 128 * 0x8000_0000_0000_0000
  {
    assert Pow128(1) == 0x80;
    assert Pow128(2) == 0x4000;
    assert Pow128(3) == 0x20_0000;
    assert Pow128(4) == 0x1000_0000;
    assert Pow128(5) == 0x8_0000_0000;
    assert Pow128(6) == 0x400_0000_0000;
    assert Pow128(7) == 0x2_0000_0000_0000;
    assert Pow128(8) == 0x100_0000_0000_0000;
  }

  /** Varint exactness: every uint64 is read back whole, wherever it stands, from 1 to 10 bytes. */
  lemma VarintRoundTrip(v: uint64, before: bytes, rest: bytes)
    ensures ReadVarint(before + Varint(v) + rest, |before|) == Done(v, |Varint(v)|)
    ensures 1 <= |Varint(v)| == Sov(v) <= 10
  {
    Pow128Table();
    ReadBack(v, 10, before, rest);
    SovIsExact(v);
  }

  /** A shorter value never needs more bytes. */
  lemma {:induction false} VarintLenBound(v: nat, n: nat)
    requires n >= 1 && v < Pow128(n)
    ensures |Varint(v)| <= n
  {
    if v >= 128 {
      assert n >= 2 by { assert Pow128(1) == 128; }
      VarintLenBound(v / 128, n - 1);
    }
  }

  /** A value of more than 7n bits needs more than n bytes. */
  lemma {:induction false} VarintLenAtLeast(v: nat, n: nat)
    requires v >= Pow128(n)
    ensures |Varint(v)| > n
  {
    if n > 0 {
      assert v >= 128;
      VarintLenAtLeast(v / 128, n - 1);
    }
  }

  /** n bytes read carry 7n bits. */
  lemma {:induction false} ReadBound(data: bytes, i: nat, k: nat)
    requires i <= |data| && ReadGroups(data, i, k).Done?
    ensures ReadGroups(data, i, k).raw < Pow128(ReadGroups(data, i, k).n)
    decreases k
  {
    if data[i] >= 128 {
      ReadBound(data, i + 1, k - 1);
    } else {
      assert Pow128(1) == 128;
    }
  }

  /** Truncation never makes the varint longer than the bytes it was read from. */
  lemma ReadNeverShorterThanWritten(data: bytes, i: nat, v: nat)
    requires i <= |data| && ReadVarint(data, i).Done? && v <= ReadVarint(data, i).raw
    ensures |Varint(v)| <= ReadVarint(data, i).n
  {
    ReadBound(data, i, 10);
    VarintLenBound(v, ReadVarint(data, i).n);
  }

  /** `x << shift`, for a shift that is a multiple of 7. */
  function Shl(x: nat, shift: nat): nat {
    if shift < 7 then x else 128 * Shl(x, shift - 7)
  }

  lemma {:induction false} ShlSplits(group: nat, raw: nat, shift: nat)
    ensures Shl(group + 128 * raw, shift) == Shl(group, shift) + Shl(raw, shift + 7)
    ensures Shl(0, shift) == 0
  {
    if shift >= 7 {
      ShlSplits(group, raw, shift - 7);
    } else {
      assert Shl(raw, shift + 7) == 128 * Shl(raw, shift);
    }
  }

  /** `x | y`, bit by bit. */
  function Or(x: nat, y: nat): nat
    decreases x
  {
    if x == 0 then y else (if x % 2 == 1 || y % 2 == 1 then 1 else 0) + 2 * Or(x / 2, y / 2)
  }

  /** `value |= T(b&0x7F) << shift` in a variable of width `w`: a group shifted past the width is 0. */
  function OrGroup(value: nat, group: nat, shift: nat, w: Width): nat {
    Or(value, Truncate(Shl(group, shift), w))
  }

  lemma {:induction false} OrHalf(x: nat, y: nat)
    ensures Or(x, 2 * y) == x % 2 + 2 * Or(x / 2, y)
  {
  }

  /** `m << s` for any s. */
  function Doubled(m: nat, s: nat): nat {
    if s == 0 then m else 2 * Doubled(m, s - 1)
  }

  lemma {:induction false} ShlIsDoubled(m: nat, shift: nat)
    requires shift % 7 == 0
    ensures Shl(m, shift) == Doubled(m, shift)
  {
    if shift >= 7 {
      ShlIsDoubled(m, shift - 7);
      assert Doubled(m, shift - 6) == 2 * Doubled(m, shift - 7);
      assert Doubled(m, shift - 5) == 2 * Doubled(m, shift - 6);
      assert Doubled(m, shift - 4) == 2 * Doubled(m, shift - 5);
      assert Doubled(m, shift - 3) == 2 * Doubled(m, shift - 4);
      assert Doubled(m, shift - 2) == 2 * Doubled(m, shift - 3);
      assert Doubled(m, shift - 1) == 2 * Doubled(m, shift - 2);
    }
  }

  /** Above the bits of x, `|` adds. */
  lemma {:induction false} OrAboveIsSum(x: nat, m: nat, s: nat)
    requires x < Doubled(1, s)
    ensures Or(x, Doubled(m, s)) == x + Doubled(m, s)
  {
    if s > 0 {
      OrHalf(x, Doubled(m, s - 1));
      OrAboveIsSum(x / 2, m, s - 1);
    }
  }

  /** The bits of the group are still clear in `value`, so that `|` adds them. */
  lemma OrAddsClearBits(x: nat, m: nat, shift: nat)
    requires x < Shl(1, shift) && shift % 7 == 0
    ensures Or(x, Shl(m, shift)) == x + Shl(m, shift)
  {
    ShlIsDoubled(1, shift);
    ShlIsDoubled(m, shift);
    OrAboveIsSum(x, m, shift);
  }

  lemma {:induction false} OrNothing(x: nat)
    ensures Or(x, 0) == x
  {
    if x > 0 {
      OrNothing(x / 2);
    }
  }

  lemma {:induction false} ShlTable(x: nat)
    ensures Shl(x, 7) == 0x80 * x && Shl(x, 14) == 0x4000 * x && Shl(x, 21) == 0x20_0000 * x
    ensures Shl(x, 28) == 0x1000_0000 * x && Shl(x, 35) == 0x8_0000_0000 * x && Shl(x, 42) == 0x400_0000_0000 * x
    ensures Shl(x, 49) == 0x2_0000_0000_0000 * x && Shl(x, 56) == 0x100_0000_0000_0000 * x && Shl(x, 63) == 0x8000_0000_0000_0000 * x
  {
  }

  /** What is left of a group in the variable: the part of it that is inside the width. */
  function Inside(group: nat, shift: nat, w: Width): nat {
    if w.W32? then (if shift < 28 then group else if shift == 28 then group % 16 else 0)
    else if shift < 63 then group else group % 2
  }

  /** Groups that are wholly inside the variable. */
  lemma {:induction false} WholeGroup(group: nat, shift: nat, w: Width)
    requires group < 128 && shift % 7 == 0 && shift < if w.W32? then 28 else 63
    ensures Shl(1, shift) + Shl(group, shift) <= w.Size()
  {
    ShlTable(group);
    ShlTable(1);
  }

  /** The group that the end of the variable cuts. */
  lemma {:induction false} CutGroup32(group: nat, above: nat, below: nat)
    requires group == 16 * above + below && below < 16
    ensures Truncate(Shl(group, 28), W32) == Shl(below, 28) && Shl(1, 28) + Shl(below, 28) <= W32.Size()
  {
    ShlTable(group);
    ShlTable(1);
    ShlTable(below);
    TruncateDrops(Shl(below, 28), above, W32);
  }

  lemma {:induction false} CutGroup64(group: nat, above: nat, below: nat)
    requires group == 2 * above + below && below < 2
    ensures Truncate(Shl(group, 63), W64) == Shl(below, 63) && Shl(1, 63) + Shl(below, 63) <= W64.Size()
  {
    ShlTable(group);
    ShlTable(1);
    ShlTable(below);
    TruncateDrops(Shl(below, 63), above, W64);
  }

  lemma {:induction false} TruncateDrops(x: nat, k: nat, w: Width)
    requires x < w.Size()
    ensures Truncate(w.Size() * k + x, w) == x
  {
    if k > 0 {
      assert w.Size() * k == w.Size() * (k - 1) + w.Size();
      TruncateDrops(x, k - 1, w);
    }
  }

  lemma {:induction false} PastTheWidth(group: nat, shift: nat)
    requires shift % 7 == 0 && 28 < shift < 70
    ensures Truncate(Shl(group, shift), W32) == 0
  {
    ShlTable(group);
    assert shift == 35 || shift == 42 || shift == 49 || shift == 56 || shift == 63;
    var above := if shift == 35 then 0x8 else if shift == 42 then 0x400 else if shift == 49 then 0x2_0000
                 else if shift == 56 then 0x100_0000 else 0x8000_0000;
    TruncateDrops(0, above * group, W32);
  }

  lemma {:induction false} ShiftedGroup(group: nat, shift: nat, w: Width)
    requires group < 128 && shift % 7 == 0 && shift < 70
    ensures var m := Inside(group, shift, w);
            && Truncate(Shl(group, shift), w) == Shl(m, shift)
            && (m > 0 ==> Shl(1, shift) + Shl(m, shift) <= w.Size())
  {
    if shift < if w.W32? then 28 else 63 {
      WholeGroup(group, shift, w);
      ShlPositive(shift);
    } else if w.W32? && shift > 28 {
      PastTheWidth(group, shift);
      ShlSplits(0, 0, shift);
    } else {
      CutGroup32(group, group / 16, group % 16);
      CutGroup64(group, group / 2, group % 2);
    }
  }

  lemma {:induction false} ShlPositive(shift: nat)
    ensures Shl(1, shift) > 0
  {
    if shift >= 7 {
      ShlPositive(shift - 7);
    }
  }

  /** So or-ing the shifted group into the variable is adding it to the whole number, cut to the width. */
  lemma {:induction false} OrGroupAdds(acc: nat, group: nat, shift: nat, w: Width)
    requires acc < Shl(1, shift) && group < 128 && shift % 7 == 0 && shift < 70
    ensures OrGroup(Truncate(acc, w), group, shift, w) == Truncate(acc + Shl(group, shift), w)
  {
    var m := Inside(group, shift, w);
    ShiftedGroup(group, shift, w);
    TruncateOnce(acc, Shl(group, shift), w);
    if m == 0 {
      ShlSplits(0, 0, shift);
      OrNothing(Truncate(acc, w));
    } else {
      OrAddsClearBits(acc, m, shift);
    }
  }

  /** `b & 0x7F`. */
  function Group(b: byte): nat {
    if b < 0x80 then b else b - 0x80
  }

  /** The decoding loop as written: `value` is accumulated from the low bits up, within its width. */
  function Accumulate(data: bytes, i: nat, shift: nat, value: nat, w: Width): VarintRead
    requires i <= |data|
    decreases |data| - i
  {
    if shift >= 64 then Overflow(value)
    else if i == |data| then Eof(value)
    else if data[i] < 0x80 then Done(OrGroup(value, Group(data[i]), shift, w), i + 1)
    else Accumulate(data, i + 1, shift + 7, OrGroup(value, Group(data[i]), shift, w), w)
  }

  /** A read from `i` on, seen from the loop: the bits below `shift` added in, the value cut to the width. */
  function Resumed(r: VarintRead, i: nat, shift: nat, acc: nat, w: Width): VarintRead {
    match r
    case Done(raw, n) => Done(Truncate(acc + Shl(raw, shift), w), i + n)
    case Overflow(raw) => Overflow(Truncate(acc + Shl(raw, shift), w))
    case Eof(raw) => Eof(Truncate(acc + Shl(raw, shift), w))
  }

  /** Accumulating within the width is the same as reading the whole number and cutting it at the end. */
  lemma {:induction false} AccumulateReads(data: bytes, i: nat, left: nat, shift: nat, acc: nat, w: Width)
    requires i <= |data| && shift + 7 * left == 70 && acc < Shl(1, shift)
    ensures Accumulate(data, i, shift, Truncate(acc, w), w) == Resumed(ReadGroups(data, i, left), i, shift, acc, w)
    decreases left
  {
    if left == 0 || i == |data| {
      StopsHere(data, i, left, shift, acc, w);
    } else {
      ShiftOfTurn(shift, left);
      var group := Group(data[i]);
      OrGroupAdds(acc, group, shift, w);
      AccumulateOnce(data, i, shift, Truncate(acc, w), w);
      if data[i] >= 128 {
        ShlGrows(group, shift);
        AccumulateReads(data, i + 1, left - 1, shift + 7, acc + Shl(group, shift), w);
        ResumeOneEarlier(data, i, left, shift, acc, w);
      }
    }
  }

  lemma {:induction false} StopsHere(data: bytes, i: nat, left: nat, shift: nat, acc: nat, w: Width)
    requires i <= |data| && shift + 7 * left == 70 && (left == 0 || i == |data|)
    ensures Accumulate(data, i, shift, Truncate(acc, w), w) == Resumed(ReadGroups(data, i, left), i, shift, acc, w)
  {
    ShlSplits(0, 0, shift);
  }

  lemma {:induction false} AccumulateOnce(data: bytes, i: nat, shift: nat, value: nat, w: Width)
    requires i < |data| && shift < 64
    ensures var value' := OrGroup(value, Group(data[i]), shift, w);
            Accumulate(data, i, shift, value, w) ==
            if data[i] < 128 then Done(value', i + 1) else Accumulate(data, i + 1, shift + 7, value', w)
  {
  }

  lemma {:induction false} ShiftOfTurn(shift: nat, left: nat)
    requires shift + 7 * left == 70 && left > 0
    ensures shift % 7 == 0 && shift < 64
  {
  }

  lemma {:induction false} ShlGrows(group: nat, shift: nat)
    requires group < 128
    ensures Shl(1, shift) + Shl(group, shift) <= Shl(1, shift + 7)
  {
    if shift >= 7 {
      ShlGrows(group, shift - 7);
      assert Shl(1, shift + 7) == 128 * Shl(1, shift);
    }
  }

  lemma {:induction false} ResumeOneEarlier(data: bytes, i: nat, left: nat, shift: nat, acc: nat, w: Width)
    requires i < |data| && left > 0 && data[i] >= 128
    ensures Resumed(ReadGroups(data, i, left), i, shift, acc, w) ==
            Resumed(ReadGroups(data, i + 1, left - 1), i + 1, shift + 7, acc + Shl(Group(data[i]), shift), w)
  {
    ShlSplits(Group(data[i]), ReadGroups(data, i + 1, left - 1).raw, shift);
  }

  /** A read into a variable of width `w`. */
  function Cut(r: VarintRead, w: Width): VarintRead {
    r.(raw := Truncate(r.raw, w))
  }

  /** The decoding loop. */
  method DecodeVarint(dAtA: bytes, start: nat, w: Width) returns (r: VarintRead)
    requires start <= |dAtA|
    ensures r == Cut(ReadVarint(dAtA, start), w)
  {
    AccumulateReads(dAtA, start, 10, 0, 0, w);
    var value, iNdEx, shift := 0, start, 0;
    while true
      invariant 0 <= shift <= 70 && start <= iNdEx <= |dAtA|
      invariant Accumulate(dAtA, start, 0, 0, w) == Accumulate(dAtA, iNdEx, shift, value, w)
      decreases 70 - shift
    {
      if shift >= 64 {
        return Overflow(value);
      }
      if iNdEx >= |dAtA| {
        return Eof(value);
      }
      var b := dAtA[iNdEx];
      iNdEx := iNdEx + 1;
      value := OrGroup(value, Group(b), shift, w);
      if b < 0x80 {
        return Done(value, iNdEx - start);
      }
      shift := shift + 7;
    }
  }

  /** Writes `v` so that it ends at `offset`; nothing else in the buffer changes. */
  method EncodeVarint(dAtA: array<byte>, offset: nat, v: uint64) returns (base: nat)
    requires Sov(v) <= offset <= dAtA.Length
    modifies dAtA
    ensures base == offset - Sov(v)
    ensures dAtA[base..offset] == Varint(v)
    ensures dAtA[..base] == old(dAtA[..base]) && dAtA[offset..] == old(dAtA[offset..])
  {
    SovIsExact(v);
    base := offset - Sov(v);
    var at, rest := base, v;
    ghost var written: bytes := [];
    while rest >= 0x80
      invariant base <= at < offset && 0 <= rest
      invariant at + |Varint(rest)| == offset
      invariant dAtA[base..at] == written && written + Varint(rest) == Varint(v)
      invariant dAtA[..base] == old(dAtA[..base]) && dAtA[offset..] == old(dAtA[offset..])
      decreases rest
    {
      ghost var next := written + [128 + rest % 128];
      assert next + Varint(rest / 128) == written + Varint(rest);
      dAtA[at] := rest % 128 + 128;
      assert dAtA[base..at + 1] == next;
      written := next;
      rest := rest / 128;
      at := at + 1;
    }
    dAtA[at] := rest;
    assert dAtA[base..offset] == written + [rest];
  }
}
