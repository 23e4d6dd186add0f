/** Machine words of the 64-bit target: the ranges, the truncating conversions and the wrap-around of `int`. */
module Words {
  type byte = x: int | 0 <= x < 0x100
  type bytes = seq<byte>

  type uint32 = x: int | 0 <= x < 0x1_0000_0000
  type uint64 = x: int | 0 <= x < 0x1_0000_0000_0000_0000
  type int32 = x: int | -0x8000_0000 <= x < 0x8000_0000
  type int64 = x: int | -0x8000_0000_0000_0000 <= x < 0x8000_0000_0000_0000

  /** The largest `int`; no slice is longer. */
  const MAX_INT: int := 0x7FFF_FFFF_FFFF_FFFF

  function Low32(x: int): uint32 {
    x % 0x1_0000_0000
  }

  function Low64(x: int): uint64 {
    x % 0x1_0000_0000_0000_0000
  }

  /** The width of an unsigned variable, and the count of its values. */
  datatype Width = W32 | W64 {
    function Size(): nat {
      if W32? then 0x1_0000_0000 else 0x1_0000_0000_0000_0000
    }
  }

  /** `x` cut to a variable of width `w`: the carry out of the variable is dropped until the rest fits. */
  function Truncate(x: nat, w: Width): (r: nat)
    ensures r < w.Size()
  {
    if x < w.Size() then x else Truncate(x - w.Size(), w)
  }

  lemma {:induction false} TruncateIsRemainder(x: nat, w: Width)
    ensures Truncate(x, w) == if w.W32? then Low32(x) else Low64(x)
  {
    if x >= w.Size() {
      TruncateIsRemainder(x - w.Size(), w);
    }
  }

  /** The variable still holds the low bits: a wire type and a length can be taken from it. */
  lemma WordOfTruncated(x: nat)
    ensures Truncate(x, W64) % 8 == x % 8
    ensures Signed64(Truncate(x, W64)) == Signed64(x)
  {
    TruncateIsRemainder(x, W64);
    Low64KeepsLowBits(x);
    assert Low64(Low64(x)) == Low64(x);
    TruncateIsRemainder(Low64(x), W64);
  }

  lemma RemainderOf8(x: int, q: int, r: int)
    requires x == 8 * q + r && 0 <= r < 8
    ensures x % 8 == r
  {
  }

  lemma Low64KeepsLowBits(x: nat)
    ensures Low64(x) % 8 == x % 8
  {
    var q, r := x / 0x1_0000_0000_0000_0000, Low64(x);
    RemainderOf8(x, 0x2000_0000_0000_0000 * q + r / 8, r % 8);
  }

  /** Cutting the summands first changes nothing. */
  lemma {:induction false} TruncateOnce(x: nat, y: nat, w: Width)
    ensures Truncate(Truncate(x, w) + Truncate(y, w), w) == Truncate(x + y, w)
  {
    if x >= w.Size() {
      TruncateOnce(x - w.Size(), y, w);
    } else if y >= w.Size() {
      TruncateOnce(x, y - w.Size(), w);
    }
  }

  /** `int32(x)`: the low 32 bits, read as two's complement. */
  function Signed32(x: int): int32 {
    var u := Low32(x);
    if u < 0x8000_0000 then u else u - 0x1_0000_0000
  }

  /** `int64(x)` (and `int(x)`): the low 64 bits, read as two's complement. */
  function Signed64(x: int): int64 {
    var u := Low64(x);
    if u < 0x8000_0000_0000_0000 then u else u - 0x1_0000_0000_0000_0000
  }

  /** `a + b` on `int`: the sum wraps around. */
  function WrapAdd(a: int64, b: int64): int64 {
    Signed64(a + b)
  }

  lemma WrapAddIsExactOrNegative(a: int64, b: int64)
    requires 0 <= a && 0 <= b
    ensures WrapAdd(a, b) >= 0 <==> a + b <= MAX_INT
    ensures a + b <= MAX_INT ==> WrapAdd(a, b) == a + b
  {
  }

  datatype Option<+T> = None | Some(value: T)
  datatype Result<+T, +E> = Ok(value: T) | Err(error: E)

  /** Of the keys of a map, read in any order: those done and those still to come. */
  ghost predicate Splits<T>(all: set<T>, done: set<T>, rest: set<T>) {
    done !! rest && done + rest == all
  }

  lemma OneMoreDone<T>(all: set<T>, done: set<T>, rest: set<T>, x: T)
    requires Splits(all, done, rest) && x in rest
    ensures Splits(all, done + {x}, rest - {x}) && x !in done && x in all
  {
  }
}
