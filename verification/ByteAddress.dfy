/**
 Network addresses as big-endian byte strings, and the three routines of the
 address pool that compute on them: `memcmp`, `inc_address` and `diff_address`.

 The C code computes in 32-bit unsigned integers; every wrap-around is written
 out here, so that the lemmas can say exactly when it does no harm.
 */
module ByteAddress {

  type byte = b: int | 0 <= b < 256

  const U32 := 0x1_0000_0000
  const U24 := 0x100_0000

  type uint32 = n: int | 0 <= n < U32

  /** C's conversion to guint. */
  function Wrap(n: int): (r: uint32)
    ensures 0 <= n < U32 ==> r == n
  {
    n % 0x1_0000_0000
  }

  /** `n & 0xff`. */
  function Low(n: uint32): byte { n % 256 }

  /** `n >> 8`. */
  function High(n: uint32): uint32 { n / 256 }

  /** The number that a big-endian byte string denotes. */
  ghost function Num(b: seq<byte>): nat {
    if b == [] then 0 else 256 * Num(b[..|b| - 1]) + b[|b| - 1]
  }

  /** Num, one byte further to the right. */
  lemma NumSnoc(b: seq<byte>, i: nat)
    requires i < |b|
    ensures Num(b[..i + 1]) == 256 * Num(b[..i]) + b[i]
  {
    assert b[..i + 1][..i] == b[..i];
  }

  lemma NumAppend(b: seq<byte>, last: byte)
    ensures Num(b + [last]) == 256 * Num(b) + last
  {
    assert (b + [last])[..|b|] == b;
  }

  lemma {:induction false} NumInjective(a: seq<byte>, b: seq<byte>)
    requires |a| == |b| && Num(a) == Num(b)
    ensures a == b
  {
    if a != [] {
      NumInjective(a[..|a| - 1], b[..|b| - 1]);
      assert a == a[..|a| - 1] + [a[|a| - 1]];
      assert b == b[..|b| - 1] + [b[|b| - 1]];
    }
  }

  // ---------------------------------------------------------------- memcmp

  /** `memcmp`: the difference at the first byte where the strings differ, else 0. */
  function Memcmp(a: seq<byte>, b: seq<byte>): int
    requires |a| == |b|
  {
    MemcmpFrom(a, b, 0)
  }

  function MemcmpFrom(a: seq<byte>, b: seq<byte>, i: nat): int
    requires i <= |a| == |b|
    decreases |a| - i
  {
    if i == |a| then 0
    else if a[i] != b[i] then a[i] - b[i]
    else MemcmpFrom(a, b, i + 1)
  }

  /** Byte order is numeric order. */
  lemma MemcmpIsNumeric(a: seq<byte>, b: seq<byte>)
    requires |a| == |b|
    ensures Memcmp(a, b) < 0 <==> Num(a) < Num(b)
    ensures Memcmp(a, b) == 0 <==> Num(a) == Num(b)
    ensures Memcmp(a, b) == 0 <==> a == b
  {
    MemcmpFromIsNumeric(a, b, 0);
  }

  lemma {:induction false} MemcmpFromIsNumeric(a: seq<byte>, b: seq<byte>, i: nat)
    requires i <= |a| == |b| && a[..i] == b[..i]
    ensures MemcmpFrom(a, b, i) < 0 <==> Num(a) < Num(b)
    ensures MemcmpFrom(a, b, i) == 0 <==> Num(a) == Num(b)
    ensures MemcmpFrom(a, b, i) == 0 <==> a == b
    decreases |a| - i
  {
    assert a[..|a|] == a && b[..|a|] == b;
    if i < |a| {
      NumSnoc(a, i);
      NumSnoc(b, i);
      if a[i] == b[i] {
        assert a[..i + 1] == a[..i] + [a[i]];
        assert b[..i + 1] == b[..i] + [b[i]];
        MemcmpFromIsNumeric(a, b, i + 1);
      } else if a[i] < b[i] {
        PrefixOrder(a, b, i + 1, |a|);
      } else {
        PrefixOrder(b, a, i + 1, |a|);
      }
    }
  }

  /** A prefix that is smaller stays smaller, however the strings go on. */
  lemma {:induction false} PrefixOrder(a: seq<byte>, b: seq<byte>, i: nat, j: nat)
    requires i <= j <= |a| == |b| && Num(a[..i]) < Num(b[..i])
    ensures Num(a[..j]) < Num(b[..j])
    decreases j - i
  {
    if i < j {
      NumSnoc(a, i);
      NumSnoc(b, i);
      PrefixOrder(a, b, i + 1, j);
    }
  }

  // ----------------------------------------------------------- inc_address

  /** What `inc_address` leaves in the buffer: add with carry from the last byte,
      the carry being a 32-bit register. */
  function Inc(b: seq<byte>, carry: uint32): (r: seq<byte>)
    ensures |r| == |b|
  {
    if carry == 0 || b == [] then b
    else
      var sum := Wrap(carry + b[|b| - 1]);
      Inc(b[..|b| - 1], High(sum)) + [Low(sum)]
  }

  /** The buffer when the loop stands before byte `i` and still has `carry` to add. */
  ghost function Pending(s: seq<byte>, i: nat, carry: uint32): seq<byte>
    requires i <= |s|
  {
    Inc(s[..i], carry) + s[i..]
  }

  /** One round of the carry loop, on the whole buffer. */
  lemma IncLoopStep(s: seq<byte>, i: nat, carry: uint32)
    requires i < |s| && carry != 0
    ensures var sum := Wrap(carry + s[i]);
            Pending(s[i := Low(sum)], i, High(sum)) == Pending(s, i + 1, carry)
  {
    var sum := Wrap(carry + s[i]);
    var next := s[i := Low(sum)];
    assert s[..i + 1][..i] == s[..i] == next[..i];
    assert next[i..] == [Low(sum)] + s[i + 1..];
    assert Inc(s[..i + 1], carry) == Inc(s[..i], High(sum)) + [Low(sum)];
  }

  /** Nothing is pending before the first byte, or without a carry. */
  lemma IncLoopDone(s: seq<byte>, i: nat, carry: uint32)
    requires i <= |s| && (i == 0 || carry == 0)
    ensures Pending(s, i, carry) == s
  {
  }

  lemma IncLoopStart(s: seq<byte>, carry: uint32)
    ensures Pending(s, |s|, carry) == Inc(s, carry)
  {
    assert s[..|s|] == s;
  }

  /** One byte of the carry loop. */
  method AddByte(bytes: array<byte>, i: nat, count: uint32) returns (carry: uint32)
    requires i < bytes.Length
    modifies bytes
    ensures bytes[..] == old(bytes[..])[i := Low(Wrap(count + old(bytes[i])))]
    ensures carry == High(Wrap(count + old(bytes[i])))
  {
    carry := Wrap(count + bytes[i]);
    bytes[i] := Low(carry);
    carry := High(carry);
  }

  /** `inc_address`: the carry loop, in place. */
  method IncAddress(bytes: array<byte>, count: uint32)
    modifies bytes
    ensures bytes[..] == Inc(old(bytes[..]), count)
  {
    var carry: uint32 := count;
    var i := bytes.Length - 1;
    ghost var start, now := bytes[..], bytes[..];
    IncLoopStart(start, count);
    while i >= 0 && carry > 0
      invariant -1 <= i < bytes.Length
      invariant bytes[..] == now && |now| == |start|
      invariant Pending(now, i + 1, carry) == Pending(start, |start|, count)
    {
      IncLoopStep(now, i, carry);
      now := now[i := Low(Wrap(carry + now[i]))];
      carry := AddByte(bytes, i, carry);
      i := i - 1;
    }
    IncLoopDone(now, i + 1, carry);
  }

  /** Adding never overshoots, with or without a wrap-around. */
  lemma {:induction false} IncUpper(b: seq<byte>, carry: uint32)
    ensures Num(Inc(b, carry)) <= Num(b) + carry
  {
    if carry != 0 && b != [] {
      var sum := Wrap(carry + b[|b| - 1]);
      IncUpper(b[..|b| - 1], High(sum));
      NumAppend(Inc(b[..|b| - 1], High(sum)), Low(sum));
    }
  }

  /** One round of the carry loop, when the register does not wrap. */
  lemma IncRound(b: seq<byte>, carry: uint32)
    requires b != [] && carry > 0 && carry + b[|b| - 1] < U32
    ensures var sum := carry + b[|b| - 1];
            && Inc(b, carry) == Inc(b[..|b| - 1], High(sum)) + [Low(sum)]
            && sum == 256 * High(sum) + Low(sum)
  {
  }

  /** `inc_address` adds exactly when the 32-bit register does not wrap at the last
      byte and the sum still fits below some address `top` of the same size. */
  lemma {:induction false} IncExact(b: seq<byte>, carry: uint32, top: seq<byte>)
    requires |b| == |top| > 0
    requires carry + b[|b| - 1] < U32
    requires Num(b) + carry <= Num(top)
    ensures Num(Inc(b, carry)) == Num(b) + carry
  {
    if carry != 0 {
      var n := |b| - 1;
      var sum := carry + b[n];
      var high, low := High(sum), Low(sum);
      IncRound(b, carry);
      NumAppend(Inc(b[..n], high), low);
      assert Num(b) + carry == 256 * (Num(b[..n]) + high) + low;
      assert Num(top) == 256 * Num(top[..n]) + top[n];
      if n == 0 {
        assert b[..n] == [] && top[..n] == [];
      } else {
        IncExact(b[..n], high, top[..n]);
      }
    }
  }

  /** When the register wraps, the carry is lost: only the last byte changes. */
  lemma IncWrapped(b: seq<byte>, carry: uint32)
    requires b != [] && carry + b[|b| - 1] >= U32
    ensures Inc(b, carry) == b[..|b| - 1] + [carry + b[|b| - 1] - U32]
  {
    var sum := Wrap(carry + b[|b| - 1]);
    assert sum == carry + b[|b| - 1] - U32;
    assert High(sum) == 0 && Low(sum) == sum;
    assert Inc(b, carry) == Inc(b[..|b| - 1], 0) + [Low(sum)];
  }

  // ---------------------------------------------------------- diff_address

  /** What `diff_address` returns, from byte `i` on, with `result` accumulated: the
      guard before each byte leaves the loop early once 24 bits are used up. */
  function DiffFrom(max: seq<byte>, min: seq<byte>, i: nat, result: uint32): uint32
    requires i <= |max| == |min|
    decreases |max| - i
  {
    if i == |max| || result >= U24 then result
    else DiffFrom(max, min, i + 1, Wrap(result * 256 + max[i] - min[i]))
  }

  /** `diff_address`, with the g_return_val_if_fail guards as early returns. */
  method DiffAddress(max: array<byte>, min: array<byte>) returns (result: uint32)
    ensures result ==
            if max.Length != min.Length then 0 else DiffFrom(max[..], min[..], 0, 0)
  {
    result := 0;
    if max.Length != min.Length {
      return 0;
    }
    for i := 0 to min.Length
      invariant DiffFrom(max[..], min[..], i, result) == DiffFrom(max[..], min[..], 0, 0)
    {
      if result >= U24 {
        return;
      }
      result := Wrap(result * 256 + max[i] - min[i]);
    }
  }

  /** The distance between the first `i` bytes of two addresses. */
  ghost function PrefixDistance(max: seq<byte>, min: seq<byte>, i: nat): int
    requires i <= |max| == |min|
  {
    Num(max[..i]) - Num(min[..i])
  }

  /** Two addresses are near when their distance, leaving out the last byte, fits
      in 24 bits. IPv4 addresses always are. */
  ghost predicate Near(max: seq<byte>, min: seq<byte>)
    requires |max| == |min| > 0
  {
    PrefixDistance(max, min, |max| - 1) < U24
  }

  lemma {:induction false} NumBound3(b: seq<byte>)
    requires |b| == 3
    ensures Num(b) < U24
  {
    NumSnoc(b, 0);
    NumSnoc(b, 1);
    NumSnoc(b, 2);
    assert b[..3] == b && b[..0] == [];
  }

  lemma Ipv4IsNear(max: seq<byte>, min: seq<byte>)
    requires |max| == |min| == 4
    ensures Near(max, min)
  {
    NumBound3(max[..3]);
  }

  /** Partial sums of diff_address are the distances of the prefixes, and never
      negative, although single byte differences may be. */
  lemma PrefixDistanceGrows(max: seq<byte>, min: seq<byte>, i: nat)
    requires i <= |max| == |min| && Num(min) <= Num(max)
    ensures PrefixDistance(max, min, i) >= 0
    ensures i < |max| ==>
              PrefixDistance(max, min, i + 1) == 256 * PrefixDistance(max, min, i) + max[i] - min[i]
  {
    assert max[..|max|] == max && min[..|max|] == min;
    if PrefixDistance(max, min, i) < 0 {
      PrefixOrder(max, min, i, |max|);
    }
    if i < |max| {
      NumSnoc(max, i);
      NumSnoc(min, i);
    }
  }

  /** Where diff_address stops: at the end, or after the first prefix (from byte
      `i` on) whose distance needs more than 24 bits. */
  ghost function StopsAt(max: seq<byte>, min: seq<byte>, i: nat): (k: nat)
    requires i <= |max| == |min|
    ensures i <= k <= |max|
    ensures k == |max| || PrefixDistance(max, min, k) >= U24
    ensures forall j :: i <= j < k ==> PrefixDistance(max, min, j) < U24
    decreases |max| - i
  {
    if i == |max| || PrefixDistance(max, min, i) >= U24 then i
    else StopsAt(max, min, i + 1)
  }

  /** diff_address returns the distance of the prefix where it stops. */
  lemma {:induction false} DiffFromMeaning(max: seq<byte>, min: seq<byte>, i: nat)
    requires i <= |max| == |min| && Num(min) <= Num(max)
    requires 0 <= PrefixDistance(max, min, i) < U32
    ensures 0 <= PrefixDistance(max, min, StopsAt(max, min, i)) < U32
    ensures DiffFrom(max, min, i, PrefixDistance(max, min, i))
         == PrefixDistance(max, min, StopsAt(max, min, i))
    decreases |max| - i
  {
    var d := PrefixDistance(max, min, i);
    if i < |max| && d < U24 {
      PrefixDistanceGrows(max, min, i);
      PrefixDistanceGrows(max, min, i + 1);
      var next := d * 256 + max[i] - min[i];
      assert next == PrefixDistance(max, min, i + 1);
      assert 0 <= next < U32;
      DiffFromMeaning(max, min, i + 1);
    }
  }

  /** Prefixes only get further apart once 24 bits are used up. */
  lemma {:induction false} WideStaysWide(max: seq<byte>, min: seq<byte>, i: nat, j: nat)
    requires i <= j <= |max| == |min| && Num(min) <= Num(max)
    requires PrefixDistance(max, min, i) >= U24
    ensures PrefixDistance(max, min, j) >= PrefixDistance(max, min, i)
    ensures i < j ==> PrefixDistance(max, min, j) > PrefixDistance(max, min, i)
    decreases j - i
  {
    if i < j {
      PrefixDistanceGrows(max, min, i);
      WideStaysWide(max, min, i + 1, j);
    }
  }

  /** diff_address reaches the last byte exactly for near addresses. */
  lemma NearReachesTheEnd(max: seq<byte>, min: seq<byte>)
    requires |max| == |min| > 0 && Num(min) <= Num(max)
    ensures Near(max, min) <==> StopsAt(max, min, 0) == |max|
  {
    var k := StopsAt(max, min, 0);
    if k < |max| {
      WideStaysWide(max, min, k, |max| - 1);
    }
  }

  /** `diff_address` computes the distance exactly if the addresses are near. */
  lemma DiffIsDistance(max: seq<byte>, min: seq<byte>)
    requires |max| == |min| > 0 && Num(min) <= Num(max)
    ensures Near(max, min) ==>
              Num(max) - Num(min) < U32 && DiffFrom(max, min, 0, 0) == Num(max) - Num(min)
    ensures !Near(max, min) ==> DiffFrom(max, min, 0, 0) < Num(max) - Num(min)
  {
    NearReachesTheEnd(max, min);
    var k := StopsAt(max, min, 0);
    assert max[..|max|] == max && min[..|min|] == min;
    assert PrefixDistance(max, min, |max|) == Num(max) - Num(min);
    assert DiffFrom(max, min, 0, 0) == PrefixDistance(max, min, k) < U32 by {
      assert max[..0] == [] && min[..0] == [];
      DiffFromMeaning(max, min, 0);
    }
    if k < |max| {
      WideStaysWide(max, min, k, |max|);
    }
  }

  /**
   The address arithmetic of the pool is exact, and inc_address undoes
   diff_address, if and only if the two addresses are near.
   */
  lemma IncUndoesDiff(max: seq<byte>, min: seq<byte>)
    requires |max| == |min| > 0 && Num(min) <= Num(max)
    ensures Inc(min, DiffFrom(max, min, 0, 0)) == max <==> Near(max, min)
  {
    var n := |max|;
    var d := DiffFrom(max, min, 0, 0);
    DiffIsDistance(max, min);
    if Near(max, min) {
      NearDoesNotWrap(max, min);
      IncExact(min, d, max);
      NumInjective(Inc(min, d), max);
    } else {
      IncUpper(min, d);
    }
  }

  /** For near addresses the 32-bit register of inc_address does not wrap. */
  lemma NearDoesNotWrap(max: seq<byte>, min: seq<byte>)
    requires |max| == |min| > 0 && Near(max, min)
    ensures Num(max) - Num(min) + min[|min| - 1] < U32
  {
  }

  /** Two IPv6 addresses 2^32 apart, with equal leading bytes: diff_address stops
      early and inc_address then misses. */
  lemma FarAddressIsMissed(max: seq<byte>, min: seq<byte>)
    requires |max| == |min| == 16
    requires max[..11] == min[..11]
    requires max[11..] == [1, 0, 0, 0, 0] && min[11..] == [0, 0, 0, 0, 0]
    ensures Num(max) == Num(min) + U32
    ensures Inc(min, DiffFrom(max, min, 0, 0)) != max
  {
    assert max[..16] == max && min[..16] == min;
    assert max[11] == 1 && max[12] == 0 && max[13] == 0 && max[14] == 0 && max[15] == 0;
    assert min[11] == 0 && min[12] == 0 && min[13] == 0 && min[14] == 0 && min[15] == 0;
    forall i | 11 <= i < 16
      ensures Num(max[..i + 1]) == 256 * Num(max[..i]) + max[i]
      ensures Num(min[..i + 1]) == 256 * Num(min[..i]) + min[i]
    {
      NumSnoc(max, i);
      NumSnoc(min, i);
    }
    assert Num(max[..12]) == Num(min[..12]) + 1;
    assert Num(max[..13]) == Num(min[..13]) + 256;
    assert Num(max[..14]) == Num(min[..14]) + 0x1_0000;
    assert PrefixDistance(max, min, 15) == U24;
    IncUndoesDiff(max, min);
  }

  /** Worse, the two errors together can step below the address they start from. */
  lemma FarAddressUnderflows(max: seq<byte>, min: seq<byte>)
    requires |max| == |min| == 16
    requires max[..8] == min[..8]
    requires max[8..12] == [255, 255, 255, 255] && min[8..] == [0, 0, 0, 0, 0, 0, 0, 1]
    requires Num(min) <= Num(max)
    ensures Num(Inc(min, DiffFrom(max, min, 0, 0))) == Num(min) - 1
  {
    FarSkip(max, min);
    LastByteBorrows(min);
  }

  lemma FarSkip(max: seq<byte>, min: seq<byte>)
    requires |max| == |min| == 16
    requires max[..8] == min[..8]
    requires max[8..12] == [255, 255, 255, 255] && min[8..] == [0, 0, 0, 0, 0, 0, 0, 1]
    requires Num(min) <= Num(max)
    ensures DiffFrom(max, min, 0, 0) == 0xFFFF_FFFF && min[15] == 1
  {
    FarPrefixes(max, min);
    DiffFromMeaning(max, min, 0);
    assert StopsAt(max, min, 0) == 12;
    assert max[..0] == [] && min[..0] == [];
  }

  lemma FarPrefixes(max: seq<byte>, min: seq<byte>)
    requires |max| == |min| == 16
    requires max[..8] == min[..8]
    requires max[8..12] == [255, 255, 255, 255] && min[8..] == [0, 0, 0, 0, 0, 0, 0, 1]
    requires Num(min) <= Num(max)
    ensures forall j :: 0 <= j < 12 ==> PrefixDistance(max, min, j) < U24
    ensures PrefixDistance(max, min, 12) == 0xFFFF_FFFF
  {
    forall j | 0 <= j <= 8 ensures PrefixDistance(max, min, j) == 0 {
      EqualPrefixes(max, min, 8, j);
    }
    FarByte(max, min, 8);
    FarByte(max, min, 9);
    FarByte(max, min, 10);
    FarByte(max, min, 11);
  }

  lemma FarByte(max: seq<byte>, min: seq<byte>, j: nat)
    requires |max| == |min| == 16 && Num(min) <= Num(max) && 8 <= j < 12
    requires max[8..12] == [255, 255, 255, 255] && min[8..] == [0, 0, 0, 0, 0, 0, 0, 1]
    ensures PrefixDistance(max, min, j + 1) == 256 * PrefixDistance(max, min, j) + 255
  {
    assert max[j] == max[8..12][j - 8] && min[j] == min[8..][j - 8];
    PrefixDistanceGrows(max, min, j);
  }

  lemma EqualPrefixes(max: seq<byte>, min: seq<byte>, k: nat, j: nat)
    requires j <= k <= |max| == |min| && max[..k] == min[..k]
    ensures PrefixDistance(max, min, j) == 0
  {
    assert max[..j] == max[..k][..j] == min[..k][..j] == min[..j];
  }

  lemma LastByteBorrows(min: seq<byte>)
    requires |min| == 16 && min[15] == 1
    ensures Num(Inc(min, 0xFFFF_FFFF)) == Num(min) - 1
  {
    IncWrapped(min, 0xFFFF_FFFF);
    assert Inc(min, 0xFFFF_FFFF) == min[..15] + [0];
    NumAppend(min[..15], 0);
  }
}
