/**
 Positional numerals: a digit sequence in a given base, most significant digit first.
 On sequences of equal length the lexicographic order is the numeric order.
 */
module Numerals {

  ghost predicate Digits(ds: seq<int>, base: int) {
    forall i :: 0 <= i < |ds| ==> 0 <= ds[i] < base
  }

  function Num(ds: seq<int>, base: int): int {
    if ds == [] then 0 else Num(ds[..|ds| - 1], base) * base + ds[|ds| - 1]
  }

  /** Strictly smaller in dictionary order, for sequences of the same length. */
  ghost predicate LexLess(a: seq<int>, b: seq<int>) {
    |a| == |b| && exists k :: FirstDifference(a, b, k) && a[k] < b[k]
  }

  ghost predicate FirstDifference(a: seq<int>, b: seq<int>, k: int) {
    0 <= k < |a| == |b| && a[..k] == b[..k] && a[k] != b[k]
  }

  lemma NumAppend(ds: seq<int>, d: int, base: int)
    ensures Num(ds + [d], base) == Num(ds, base) * base + d
  {
    assert (ds + [d])[..|ds|] == ds;
  }

  lemma HigherPartDecides(x: int, y: int, d: int, e: int, base: int)
    requires 0 <= d < base && 0 <= e < base && x < y
    ensures x * base + d < y * base + e
  {
    assert y * base == x * base + base + (y - x - 1) * base;
    assert (y - x - 1) * base >= 0;
  }

  lemma LexLessAppend(a: seq<int>, b: seq<int>, d: int, e: int)
    requires |a| == |b|
    ensures LexLess(a + [d], b + [e]) <==> LexLess(a, b) || (a == b && d < e)
  {
    var n := |a|;
    if LexLess(a, b) {
      var k :| FirstDifference(a, b, k) && a[k] < b[k];
      assert (a + [d])[..k] == a[..k] && (b + [e])[..k] == b[..k];
      assert FirstDifference(a + [d], b + [e], k);
    }
    if LexLess(a + [d], b + [e]) {
      var k :| FirstDifference(a + [d], b + [e], k) && (a + [d])[k] < (b + [e])[k];
      assert (a + [d])[..k] == a[..k] && (b + [e])[..k] == b[..k];
      assert k < n ==> FirstDifference(a, b, k);
      assert k == n ==> a == a[..k] && b == b[..k];
    }
    if a == b && d < e {
      assert (a + [d])[..n] == a && (b + [e])[..n] == b;
      assert FirstDifference(a + [d], b + [e], n);
    }
  }

  lemma LexLessExtends(a: seq<int>, b: seq<int>, e: seq<int>, f: seq<int>)
    requires LexLess(a, b) && |e| == |f|
    ensures LexLess(a + e, b + f)
  {
    var k :| FirstDifference(a, b, k) && a[k] < b[k];
    assert (a + e)[..k] == a[..k] && (b + f)[..k] == b[..k];
    assert FirstDifference(a + e, b + f, k);
  }

  /** Numerals are unique, and they compare like words. */
  lemma {:induction false} Compare(a: seq<int>, b: seq<int>, base: int)
    requires |a| == |b| && Digits(a, base) && Digits(b, base)
    ensures Num(a, base) == Num(b, base) <==> a == b
    ensures Num(a, base) < Num(b, base) <==> LexLess(a, b)
  {
    if a != [] {
      var n := |a| - 1;
      var a', b', d, e := a[..n], b[..n], a[n], b[n];
      Compare(a', b', base);
      assert a == a' + [d] && b == b' + [e];
      LexLessAppend(a', b', d, e);
      var x, y := Num(a', base), Num(b', base);
      if x < y {
        HigherPartDecides(x, y, d, e, base);
      } else if y < x {
        HigherPartDecides(y, x, e, d, base);
      }
    }
  }
}

/**
 The 26-character Crockford Base32 identifiers of internal/gateway/reference.go and of
 the TypeScript client. The meaning of the encoding is the grouping of section 6 of
 RFC 4648: write the bytes as one bit string, pad it with zero bits on the right, cut it
 into groups of five.
 */
module Crockford {
  import opened Numerals

  type byte = x: int | 0 <= x < 256

  const ALPHABET: string := "0123456789ABCDEFGHJKMNPQRSTVWXYZ"

  /** The eight bits of a byte, most significant first. */
  function ByteBits(x: byte): seq<int> {
    [x / 128, x / 64 % 2, x / 32 % 2, x / 16 % 2, x / 8 % 2, x / 4 % 2, x / 2 % 2, x % 2]
  }

  function Bits(bs: seq<byte>): (bits: seq<int>)
    ensures |bits| == 8 * |bs|
  {
    if bs == [] then [] else Bits(bs[..|bs| - 1]) + ByteBits(bs[|bs| - 1])
  }

  /** A bit string read five bits at a time. */
  function Groups(bits: seq<int>): (groups: seq<int>)
    requires |bits| % 5 == 0
    ensures |groups| == |bits| / 5
  {
    if bits == [] then []
    else Groups(bits[..|bits| - 5]) + [Num(bits[|bits| - 5..], 2)]
  }

  /** Sixteen bytes are 128 bits; two zero bits fill the twenty-sixth group. */
  function Symbols(bs: seq<byte>): (symbols: seq<int>)
    requires |bs| == 16
    ensures |symbols| == 26
  {
    Groups(Bits(bs) + [0, 0])
  }

  function Letter(d: int): char
    requires 0 <= d < 32
  {
    ALPHABET[d]
  }

  function Letters(symbols: seq<int>): string
    requires Digits(symbols, 32)
  {
    seq(|symbols|, i requires 0 <= i < |symbols| => Letter(symbols[i]))
  }

  ghost function Encode(bs: seq<byte>): string
    requires |bs| == 16
  {
    SymbolsValue(bs);
    Letters(Symbols(bs))
  }

  // ---------------------------------------------------------------- the value of an encoding

  lemma NumOfFive(hi: seq<int>, a: int, b: int, c: int, d: int, e: int)
    ensures Num(hi + [a, b, c, d, e], 2) == Num(hi, 2) * 32 + 16 * a + 8 * b + 4 * c + 2 * d + e
  {
    NumAppend(hi, a, 2);
    NumAppend(hi + [a], b, 2);
    NumAppend(hi + [a] + [b], c, 2);
    NumAppend(hi + [a] + [b] + [c], d, 2);
    NumAppend(hi + [a] + [b] + [c] + [d], e, 2);
    assert hi + [a, b, c, d, e] == hi + [a] + [b] + [c] + [d] + [e];
  }

  lemma NumOfEight(hi: seq<int>, t: seq<int>)
    requires |t| == 8
    ensures Num(hi + t, 2)
         == Num(hi, 2) * 256 + 128 * t[0] + 64 * t[1] + 32 * t[2] + 16 * t[3] + 8 * t[4] + 4 * t[5] + 2 * t[6] + t[7]
  {
    hide *;
    NumOfFive(hi, t[0], t[1], t[2], t[3], t[4]);
    var five := hi + [t[0], t[1], t[2], t[3], t[4]];
    NumAppend(five, t[5], 2);
    NumAppend(five + [t[5]], t[6], 2);
    NumAppend(five + [t[5]] + [t[6]], t[7], 2);
    assert hi + t == five + [t[5]] + [t[6]] + [t[7]];
  }

  lemma ByteBitsSum(x: byte)
    ensures var t := ByteBits(x);
            x == 128 * t[0] + 64 * t[1] + 32 * t[2] + 16 * t[3] + 8 * t[4] + 4 * t[5] + 2 * t[6] + t[7]
  {
    assert x / 64 == 2 * (x / 128) + x / 64 % 2;
    assert x / 32 == 2 * (x / 64) + x / 32 % 2;
    assert x / 16 == 2 * (x / 32) + x / 16 % 2;
    assert x / 8 == 2 * (x / 16) + x / 8 % 2;
    assert x / 4 == 2 * (x / 8) + x / 4 % 2;
    assert x / 2 == 2 * (x / 4) + x / 2 % 2;
  }

  lemma {:induction false} BitsValue(bs: seq<byte>)
    ensures Num(Bits(bs), 2) == Num(bs, 256) && Digits(Bits(bs), 2)
  {
    if bs != [] {
      BitsValue(bs[..|bs| - 1]);
      NumOfEight(Bits(bs[..|bs| - 1]), ByteBits(bs[|bs| - 1]));
      ByteBitsSum(bs[|bs| - 1]);
    }
  }

  lemma FiveBits(hi: seq<int>, lo: seq<int>)
    requires |lo| == 5 && Digits(lo, 2)
    ensures Num(hi + lo, 2) == Num(hi, 2) * 32 + Num(lo, 2) && 0 <= Num(lo, 2) < 32
  {
    assert lo == [] + lo == [lo[0], lo[1], lo[2], lo[3], lo[4]];
    NumOfFive(hi, lo[0], lo[1], lo[2], lo[3], lo[4]);
    NumOfFive([], lo[0], lo[1], lo[2], lo[3], lo[4]);
  }

  lemma {:induction false} GroupsValue(bits: seq<int>)
    requires |bits| % 5 == 0 && Digits(bits, 2)
    ensures Num(Groups(bits), 32) == Num(bits, 2) && Digits(Groups(bits), 32)
  {
    if bits != [] {
      var hi, lo := bits[..|bits| - 5], bits[|bits| - 5..];
      assert bits == hi + lo;
      GroupsValue(hi);
      LastGroup(hi, lo);
    }
  }

  lemma LastGroup(hi: seq<int>, lo: seq<int>)
    requires |hi| % 5 == 0 && |lo| == 5 && Digits(lo, 2)
    requires Num(Groups(hi), 32) == Num(hi, 2) && Digits(Groups(hi), 32)
    ensures Num(Groups(hi + lo), 32) == Num(hi + lo, 2) && Digits(Groups(hi + lo), 32)
  {
    FiveBits(hi, lo);
    assert (hi + lo)[..|hi|] == hi && (hi + lo)[|hi|..] == lo;
    NumAppend(Groups(hi), Num(lo, 2), 32);
  }

  /** As a base-32 number an encoding is four times the bytes read as a base-256 number. */
  lemma SymbolsValue(bs: seq<byte>)
    requires |bs| == 16
    ensures Digits(Symbols(bs), 32)
    ensures Num(Symbols(bs), 32) == 4 * Num(bs, 256)
  {
    BitsValue(bs);
    NumAppend(Bits(bs), 0, 2);
    NumAppend(Bits(bs) + [0], 0, 2);
    assert Bits(bs) + [0, 0] == Bits(bs) + [0] + [0];
    GroupsValue(Bits(bs) + [0, 0]);
  }

  // ---------------------------------------------------------------- the two loops

  /** Arithmetic shift right, as `>>` on Go's unsigned and JavaScript's signed integers. */
  function Shr(x: int, n: nat): int
    decreases n
  {
    if n == 0 then x else Shr(x / 2, n - 1)
  }

  function Shl(x: int, n: nat): int
    decreases n
  {
    if n == 0 then x else Shl(2 * x, n - 1)
  }

  /** The number `n` followed by the low `k` bits of `x`. */
  ghost function Append(n: int, x: int, k: nat): int
    decreases k
  {
    if k == 0 then n else 2 * Append(n, x / 2, k - 1) + x % 2
  }

  /** What a 16-bit accumulator keeps of an integer. */
  function Uint16(x: int): int {
    x % 0x1_0000
  }

  /** What JavaScript's bitwise operators keep of an integer: 32 bits, read as signed. */
  function Int32(x: int): int {
    (x + 0x8000_0000) % 0x1_0000_0000 - 0x8000_0000
  }

  /** `x` and `y` differ by a multiple of 2^m. */
  ghost predicate AgreeBelow(x: int, y: int, m: nat) {
    exists t: int :: x - y == Shl(t, m)
  }

  lemma {:induction false} ShlDoubles(t: int, m: nat)
    ensures Shl(2 * t, m) == 2 * Shl(t, m)
    decreases m
  {
    if m != 0 {
      ShlDoubles(2 * t, m - 1);
    }
  }

  lemma {:induction false} AppendAgrees(n: int, x: int, y: int, k: nat, m: nat)
    requires k <= m && AgreeBelow(x, y, m)
    ensures Append(n, x, k) == Append(n, y, k)
    decreases k
  {
    if k != 0 {
      var t :| x - y == Shl(t, m);
      ShlDoubles(t, m - 1);
      assert x / 2 - y / 2 == Shl(t, m - 1);
      AppendAgrees(n, x / 2, y / 2, k - 1, m - 1);
    }
  }

  lemma AppendByte(n: int, x: int, k: nat, y: byte)
    ensures Append(n, 256 * x + y, k + 8) == 256 * Append(n, x, k) + y
  {
    ByteBitsSum(y);
    var t := ByteBits(y);
    AppendNibble(n, x, k, t[0], t[1], t[2], t[3]);
    var high := 16 * x + 8 * t[0] + 4 * t[1] + 2 * t[2] + t[3];
    AppendNibble(n, high, k + 4, t[4], t[5], t[6], t[7]);
  }

  lemma AppendNibble(n: int, x: int, k: nat, a: int, b: int, c: int, d: int)
    requires 0 <= a < 2 && 0 <= b < 2 && 0 <= c < 2 && 0 <= d < 2
    ensures Append(n, 16 * x + 8 * a + 4 * b + 2 * c + d, k + 4)
         == 16 * Append(n, x, k) + 8 * a + 4 * b + 2 * c + d
  {
    AppendBit(n, x, k, a);
    AppendBit(n, 2 * x + a, k + 1, b);
    AppendBit(n, 2 * (2 * x + a) + b, k + 2, c);
    AppendBit(n, 2 * (2 * (2 * x + a) + b) + c, k + 3, d);
    assert 2 * (2 * (2 * (2 * x + a) + b) + c) + d == 16 * x + 8 * a + 4 * b + 2 * c + d;
  }

  lemma AppendBit(n: int, x: int, k: nat, bit: int)
    requires 0 <= bit < 2
    ensures Append(n, 2 * x + bit, k + 1) == 2 * Append(n, x, k) + bit
  {
  }

  lemma {:induction false} AppendSplits(n: int, x: int, k: nat)
    ensures Append(n, x, k + 5) == Append(32 * n + Shr(x, k) % 32, x, k)
    decreases k
  {
    if k == 0 {
      LowBits(n, x);
    } else {
      AppendSplits(n, x / 2, k - 1);
    }
  }

  lemma LowBits(n: int, x: int)
    ensures Append(n, x, 3) == 8 * n + x % 8
    ensures Append(n, x, 5) == 32 * n + x % 32
  {
    var a, b, c, d, e := x / 16 % 2, x / 8 % 2, x / 4 % 2, x / 2 % 2, x % 2;
    BinaryDigits(x);
    LowFive(n, x / 32, a, b, c, d, e);
    LowThree(n, x / 8, c, d, e);
  }

  lemma BinaryDigits(x: int)
    ensures x % 8 == 4 * (x / 4 % 2) + 2 * (x / 2 % 2) + x % 2
    ensures x % 32 == 16 * (x / 16 % 2) + 8 * (x / 8 % 2) + x % 8
  {
    Halve(x);
    Halve(x / 2);
    Halve(x / 4);
    Halve(x / 8);
    Halve(x / 16);
    assert x / 2 / 2 == x / 4 && x / 4 / 2 == x / 8 && x / 8 / 2 == x / 16 && x / 16 / 2 == x / 32;
  }

  lemma Halve(x: int)
    ensures x == 2 * (x / 2) + x % 2
  {
  }

  lemma LowThree(n: int, h: int, a: int, b: int, c: int)
    requires 0 <= a < 2 && 0 <= b < 2 && 0 <= c < 2
    ensures Append(n, 8 * h + 4 * a + 2 * b + c, 3) == 8 * n + 4 * a + 2 * b + c
  {
    AppendBit(n, h, 0, a);
    AppendBit(n, 2 * h + a, 1, b);
    AppendBit(n, 2 * (2 * h + a) + b, 2, c);
  }

  lemma LowFive(n: int, h: int, a: int, b: int, c: int, d: int, e: int)
    requires 0 <= a < 2 && 0 <= b < 2 && 0 <= c < 2 && 0 <= d < 2 && 0 <= e < 2
    ensures Append(n, 32 * h + 16 * a + 8 * b + 4 * c + 2 * d + e, 5) == 32 * n + 16 * a + 8 * b + 4 * c + 2 * d + e
  {
    AppendBit(n, h, 0, a);
    AppendNibble(n, 2 * h + a, 1, b, c, d, e);
  }

  /** Symbols emitted so far, and the pending bits, together are the bytes consumed. */
  ghost predicate Packed(symbols: seq<int>, buffer: int, left: nat, bs: seq<byte>) {
    && Digits(symbols, 32)
    && 8 * |bs| == 5 * |symbols| + left
    && Append(Num(symbols, 32), buffer, left) == Num(bs, 256)
  }

  /** Sixteen bits are enough: the truncated accumulator keeps every pending bit. */
  lemma PackByte(symbols: seq<int>, buffer: int, left: nat, bs: seq<byte>, x: byte)
    requires left <= 8 && Packed(symbols, buffer, left, bs)
    ensures Packed(symbols, Uint16(256 * buffer + x), left + 8, bs + [x])
    ensures Packed(symbols, Int32(256 * buffer + x), left + 8, bs + [x])
  {
    NumAppend(bs, x, 256);
    Truncations(256 * buffer + x);
    ShiftIn(Num(symbols, 32), buffer, left, x, Uint16(256 * buffer + x), 16);
    ShiftIn(Num(symbols, 32), buffer, left, x, Int32(256 * buffer + x), 32);
  }

  lemma ShiftIn(n: int, buffer: int, left: nat, x: byte, kept: int, m: nat)
    requires left + 8 <= m && AgreeBelow(256 * buffer + x, kept, m)
    ensures Append(n, kept, left + 8) == 256 * Append(n, buffer, left) + x
  {
    AppendByte(n, buffer, left, x);
    AppendAgrees(n, 256 * buffer + x, kept, left + 8, m);
  }

  lemma Truncations(y: int)
    ensures AgreeBelow(y, Uint16(y), 16) && AgreeBelow(y, Int32(y), 32)
  {
    var q, r := y / 0x1_0000, (y + 0x8000_0000) / 0x1_0000_0000;
    Shl16(q);
    assert y - Uint16(y) == Shl(q, 16);
    ShlAdd(r, 16, 16);
    Shl16(r);
    Shl16(0x1_0000 * r);
    assert y - Int32(y) == Shl(r, 32);
  }

  lemma Shl16(t: int)
    ensures Shl(t, 16) == 0x1_0000 * t
  {
    ShlAdd(t, 8, 8);
    Shl8(t);
    Shl8(256 * t);
  }

  lemma Shl8(t: int)
    ensures Shl(t, 8) == 256 * t
  {
    assert Shl(64 * t, 2) == 256 * t;
    assert Shl(16 * t, 4) == Shl(64 * t, 2);
    assert Shl(4 * t, 6) == Shl(16 * t, 4);
  }

  lemma {:induction false} ShlAdd(t: int, m: nat, k: nat)
    ensures Shl(t, m + k) == Shl(Shl(t, m), k)
    decreases m
  {
    if m != 0 {
      ShlAdd(2 * t, m - 1, k);
    }
  }

  lemma EmitSymbol(symbols: seq<int>, buffer: int, left: nat, bs: seq<byte>)
    requires left >= 5 && Packed(symbols, buffer, left, bs)
    ensures Packed(symbols + [Shr(buffer, left - 5) % 32], buffer, left - 5, bs)
  {
    AppendSplits(Num(symbols, 32), buffer, left - 5);
    NumAppend(symbols, Shr(buffer, left - 5) % 32, 32);
  }

  lemma PadTail(buffer: int)
    ensures Uint16(Shl(buffer, 2)) % 32 == buffer % 8 * 4
    ensures Int32(Shl(buffer, 2)) % 32 == buffer % 8 * 4
  {
    var q, r, x := buffer / 8, buffer % 8, 4 * buffer;
    assert Shl(buffer, 2) == Shl(2 * buffer, 1) == x;
    Remainder32(q - 2048 * (x / 0x1_0000), 4 * r);
    assert Uint16(x) == 32 * (q - 2048 * (x / 0x1_0000)) + 4 * r;
    var k := (x + 0x8000_0000) / 0x1_0000_0000;
    Remainder32(q - 0x800_0000 * k, 4 * r);
    assert Int32(x) == 32 * (q - 0x800_0000 * k) + 4 * r;
  }

  lemma Remainder32(q: int, r: int)
    requires 0 <= r < 32
    ensures (32 * q + r) % 32 == r
  {
  }

  /** The last three bits, padded with two zeros, complete the encoding. */
  lemma EmitTail(symbols: seq<int>, buffer: int, bs: seq<byte>)
    requires |bs| == 16 && |symbols| == 25 && Packed(symbols, buffer, 3, bs)
    ensures symbols + [Uint16(Shl(buffer, 2)) % 32] == Symbols(bs)
    ensures symbols + [Int32(Shl(buffer, 2)) % 32] == Symbols(bs)
  {
    var d := buffer % 8 * 4;
    PadTail(buffer);
    LowBits(Num(symbols, 32), buffer);
    NumAppend(symbols, d, 32);
    SymbolsValue(bs);
    Compare(symbols + [d], Symbols(bs), 32);
  }

  ghost predicate Spells(out: string, symbols: seq<int>) {
    |symbols| <= |out| && forall k :: 0 <= k < |symbols| ==> 0 <= symbols[k] < 32 && out[k] == Letter(symbols[k])
  }

  /** The loop invariant: `idx` letters are out, `left` bits are pending, `bs` is consumed. */
  ghost predicate Progress(out: string, idx: nat, buffer: int, left: nat, bs: seq<byte>) {
    exists symbols: seq<int> :: |symbols| == idx && Packed(symbols, buffer, left, bs) && Spells(out, symbols)
  }

  lemma Start(out: string, b: seq<byte>)
    ensures Progress(out, 0, 0, 0, b[..0])
  {
    assert Packed([], 0, 0, b[..0]) && Spells(out, []);
  }

  lemma TakeByte(out: string, idx: nat, buffer: int, left: nat, b: seq<byte>, i: nat)
    requires i < |b| && left <= 8 && Progress(out, idx, buffer, left, b[..i])
    ensures Progress(out, idx, Uint16(256 * buffer + b[i]), left + 8, b[..i + 1])
    ensures Progress(out, idx, Int32(256 * buffer + b[i]), left + 8, b[..i + 1])
  {
    hide Packed, Spells, Uint16, Int32;
    var symbols: seq<int> :| |symbols| == idx && Packed(symbols, buffer, left, b[..i]) && Spells(out, symbols);
    PackByte(symbols, buffer, left, b[..i], b[i]);
    assert b[..i + 1] == b[..i] + [b[i]];
  }

  lemma Emit(out: string, idx: nat, buffer: int, left: nat, bs: seq<byte>)
    requires left >= 5 && idx < |out| && Progress(out, idx, buffer, left, bs)
    ensures Progress(out[idx := Letter(Shr(buffer, left - 5) % 32)], idx + 1, buffer, left - 5, bs)
  {
    var symbols: seq<int> :| |symbols| == idx && Packed(symbols, buffer, left, bs) && Spells(out, symbols);
    EmitSymbol(symbols, buffer, left, bs);
    assert Spells(out[idx := Letter(Shr(buffer, left - 5) % 32)], symbols + [Shr(buffer, left - 5) % 32]);
  }

  lemma Finish(out: string, idx: nat, buffer: int, left: nat, b: seq<byte>)
    requires |out| == 26 && |b| == 16 && left < 5 && Progress(out, idx, buffer, left, b)
    ensures idx == 25 && left == 3
    ensures out[25 := Letter(Uint16(Shl(buffer, 2)) % 32)] == Encode(b)
    ensures out[25 := Letter(Int32(Shl(buffer, 2)) % 32)] == Encode(b)
  {
    var symbols: seq<int> :| |symbols| == idx && Packed(symbols, buffer, left, b) && Spells(out, symbols);
    EmitTail(symbols, buffer, b);
    SymbolsValue(b);
  }

  lemma Room(out: string, idx: nat, buffer: int, left: nat, b: seq<byte>, i: nat)
    requires i <= |b| && |b| == 16 && Progress(out, idx, buffer, left, b[..i])
    ensures 5 * idx + left <= 128
  {
  }

  /** The Go loop: a 16-bit accumulator that overflows on every byte. */
  method EncodeCrockford(b: seq<byte>) returns (s: string)
    requires |b| == 16
    ensures s == Encode(b)
  {
    hide *;
    var out := new char[26];
    var buffer, bitsLeft, idx := 0, 0, 0;
    Start(out[..], b);
    for i := 0 to |b|
      invariant 0 <= bitsLeft < 5 && 0 <= idx && Progress(out[..], idx, buffer, bitsLeft, b[..i])
    {
      TakeByte(out[..], idx, buffer, bitsLeft, b, i);
      buffer := Uint16(256 * buffer + b[i]);
      bitsLeft := bitsLeft + 8;
      Room(out[..], idx, buffer, bitsLeft, b, i + 1);
      while bitsLeft >= 5 && idx < 26
        invariant 0 <= bitsLeft <= 12 && 0 <= idx && 5 * idx + bitsLeft <= 128
        invariant Progress(out[..], idx, buffer, bitsLeft, b[..i + 1])
      {
        Emit(out[..], idx, buffer, bitsLeft, b[..i + 1]);
        bitsLeft := bitsLeft - 5;
        ghost var next := out[..][idx := Letter(Shr(buffer, bitsLeft) % 32)];
        out[idx] := Letter(Shr(buffer, bitsLeft) % 32);
        assert out[..] == next;
        idx := idx + 1;
      }
    }
    assert b[..|b|] == b;
    Finish(out[..], idx, buffer, bitsLeft, b);
    if idx < 26 {
      out[idx] := Letter(Uint16(Shl(buffer, 5 - bitsLeft)) % 32);
    }
    s := out[..];
  }

  /** The TypeScript loop: bitwise operators on signed 32-bit integers. */
  method EncodeCrockfordTs(b: seq<byte>) returns (s: string)
    requires |b| == 16
    ensures s == Encode(b)
  {
    hide *;
    var out := new char[26];
    var buffer, bitsLeft, idx := 0, 0, 0;
    Start(out[..], b);
    for i := 0 to |b|
      invariant 0 <= bitsLeft < 5 && 0 <= idx && Progress(out[..], idx, buffer, bitsLeft, b[..i])
    {
      TakeByte(out[..], idx, buffer, bitsLeft, b, i);
      buffer := Int32(256 * buffer + b[i]);
      bitsLeft := bitsLeft + 8;
      Room(out[..], idx, buffer, bitsLeft, b, i + 1);
      while bitsLeft >= 5 && idx < 26
        invariant 0 <= bitsLeft <= 12 && 0 <= idx && 5 * idx + bitsLeft <= 128
        invariant Progress(out[..], idx, buffer, bitsLeft, b[..i + 1])
      {
        Emit(out[..], idx, buffer, bitsLeft, b[..i + 1]);
        bitsLeft := bitsLeft - 5;
        ghost var next := out[..][idx := Letter(Shr(buffer, bitsLeft) % 32)];
        out[idx] := Letter(Shr(buffer, bitsLeft) % 32);
        assert out[..] == next;
        idx := idx + 1;
      }
    }
    assert b[..|b|] == b;
    Finish(out[..], idx, buffer, bitsLeft, b);
    if idx < 26 {
      out[idx] := Letter(Int32(Shl(buffer, 5 - bitsLeft)) % 32);
    }
    s := out[..];
  }

  // ---------------------------------------------------------------- order and uniqueness

  function Codes(s: string): seq<int> {
    seq(|s|, i requires 0 <= i < |s| => s[i] as int)
  }

  /** Go's `<` on strings of the same length. */
  ghost predicate StringLess(s: string, t: string) {
    LexLess(Codes(s), Codes(t))
  }

  lemma AlphabetAscends(d: int, e: int)
    requires 0 <= d < 32 && 0 <= e < 32
    ensures d < e <==> ALPHABET[d] < ALPHABET[e]
  {
  }

  lemma LettersCompare(a: seq<int>, b: seq<int>)
    requires |a| == |b| && Digits(a, 32) && Digits(b, 32)
    ensures StringLess(Letters(a), Letters(b)) <==> LexLess(a, b)
    ensures Letters(a) == Letters(b) <==> a == b
  {
    var s, t := Codes(Letters(a)), Codes(Letters(b));
    forall i | 0 <= i < |a|
      ensures (a[i] < b[i] <==> s[i] < t[i]) && (a[i] == b[i] <==> s[i] == t[i])
      ensures s[i] == Letters(a)[i] as int && t[i] == Letters(b)[i] as int
    {
      AlphabetAscends(a[i], b[i]);
      AlphabetAscends(b[i], a[i]);
    }
    SamePrefixes(a, b, s, t);
    if Letters(a) == Letters(b) {
      assert s == t;
    }
  }

  lemma SamePrefixes(a: seq<int>, b: seq<int>, s: seq<int>, t: seq<int>)
    requires |a| == |b| == |s| == |t|
    requires forall i :: 0 <= i < |a| ==> (a[i] < b[i] <==> s[i] < t[i]) && (a[i] == b[i] <==> s[i] == t[i])
    ensures LexLess(a, b) <==> LexLess(s, t)
    ensures a == b <==> s == t
  {
    forall k | 0 <= k < |a| ensures FirstDifference(a, b, k) <==> FirstDifference(s, t, k) {
      assert a[..k] == b[..k] <==> forall i :: 0 <= i < k ==> a[i] == b[i];
      assert s[..k] == t[..k] <==> forall i :: 0 <= i < k ==> s[i] == t[i];
    }
  }

  /** Encoding loses nothing and sorts as the bytes do. */
  lemma EncodePreservesOrder(a: seq<byte>, b: seq<byte>)
    requires |a| == |b| == 16
    ensures Encode(a) == Encode(b) <==> a == b
    ensures StringLess(Encode(a), Encode(b)) <==> LexLess(a, b)
  {
    SymbolsValue(a);
    SymbolsValue(b);
    Compare(a, b, 256);
    Compare(Symbols(a), Symbols(b), 32);
    LettersCompare(Symbols(a), Symbols(b));
  }

  // ---------------------------------------------------------------- identifiers with a timestamp

  const TWO40: int := 0x100_0000_0000
  const TWO48: int := 0x1_0000_0000_0000

  /** Six bytes, big-endian. */
  function TimeBytes(t: int): (bs: seq<byte>)
    requires 0 <= t < TWO48
  {
    [t / TWO40, t / 0x1_0000_0000 % 256, t / 0x100_0000 % 256, t / 0x1_0000 % 256, t / 0x100 % 256, t % 256]
  }

  /** The Go layout masks the clock to 40 bits and stores it in the first 48. */
  ghost function GoUlid(unixMilli: int, entropy: seq<byte>): string
    requires |entropy| == 10
  {
    Encode(TimeBytes(unixMilli % TWO40) + entropy)
  }

  ghost function TsUlid(unixMilli: int, entropy: seq<byte>): string
    requires |entropy| == 10
  {
    Encode(TimeBytes(unixMilli % TWO48) + entropy)
  }

  /** Go's copy(id[6:], entropy) and the typed array's set(entropy, 6). */
  method CopyEntropy(id: array<byte>, entropy: seq<byte>)
    requires id.Length == 16 && |entropy| == 10
    modifies id
    ensures id[..] == old(id[..6]) + entropy
  {
    forall i | 0 <= i < 10 {
      id[6 + i] := entropy[i];
    }
  }

  method NewULID(unixMilli: int, entropy: seq<byte>) returns (s: string)
    requires |entropy| == 10
    ensures s == GoUlid(unixMilli, entropy)
  {
    var ms := unixMilli % 0x100_0000_0000;
    var id := new byte[16];
    var hi, lo := ms / 0x1_0000_0000 % 0x1_0000, ms % 0x1_0000_0000;
    id[0], id[1] := hi / 256, hi % 256;
    id[2], id[3], id[4], id[5] := lo / 0x100_0000, lo / 0x1_0000 % 256, lo / 0x100 % 256, lo % 256;
    BigEndianWords(ms);
    assert id[..6] == TimeBytes(ms);
    CopyEntropy(id, entropy);
    s := EncodeCrockford(id[..]);
  }

  method NewULIDTs(unixMilli: nat, entropy: seq<byte>) returns (s: string)
    requires |entropy| == 10
    ensures s == TsUlid(unixMilli, entropy)
  {
    var ms := unixMilli % 0x1_0000_0000_0000;
    var id := new byte[16];
    id[0] := Int32(ms / 0x100_0000_0000) % 256;
    id[1] := Int32(ms / 0x1_0000_0000) % 256;
    id[2] := Int32(ms / 0x100_0000) % 256;
    id[3] := Int32(ms / 0x1_0000) % 256;
    id[4] := Int32(ms / 0x100) % 256;
    id[5] := Int32(ms) % 256;
    FlooredBytes(ms);
    assert id[..6] == TimeBytes(ms);
    CopyEntropy(id, entropy);
    s := EncodeCrockfordTs(id[..]);
  }

  lemma BigEndianWords(ms: int)
    requires 0 <= ms < TWO40
    ensures TimeBytes(ms)
         == WordBytes(ms / 0x1_0000_0000 % 0x1_0000, ms % 0x1_0000_0000)
  {
    var hi, lo := ms / 0x1_0000_0000, ms % 0x1_0000_0000;
    DivideShifted(ms, 0x100 * hi, lo, 0x100_0000);
    DivideShifted(ms, 0x1_0000 * hi, lo, 0x1_0000);
    DivideShifted(ms, 0x100_0000 * hi, lo, 0x100);
    LowByteOf(hi, lo / 0x100_0000);
    LowByteOf(0x100 * hi, lo / 0x1_0000);
    LowByteOf(0x1_0000 * hi, lo / 0x100);
    LowByteOf(0x100_0000 * hi, lo);
    assert ms == 256 * (0x100_0000 * hi) + lo;
  }

  /** What PutUint16 and PutUint32 store. */
  function WordBytes(hi: int, lo: int): (bs: seq<int>) {
    [hi / 256, hi % 256, lo / 0x100_0000, lo / 0x1_0000 % 256, lo / 0x100 % 256, lo % 256]
  }

  lemma LowByteOf(q: int, r: int)
    ensures (256 * q + r) % 256 == r % 256
  {
  }

  lemma DivideShifted(x: int, q: int, r: int, p: int)
    requires p == 0x100 || p == 0x1_0000 || p == 0x100_0000
    requires x == q * p + r
    ensures x / p == q + r / p
  {
    if p == 0x100 {
    } else if p == 0x1_0000 {
    } else {
    }
  }

  lemma FlooredBytes(ms: int)
    requires 0 <= ms < TWO48
    ensures TimeBytes(ms)
         == [Int32(ms / TWO40) % 256, Int32(ms / 0x1_0000_0000) % 256, Int32(ms / 0x100_0000) % 256,
             Int32(ms / 0x1_0000) % 256, Int32(ms / 0x100) % 256, Int32(ms) % 256]
  {
    Int32LowByte(ms / TWO40);
    Int32LowByte(ms / 0x1_0000_0000);
    Int32LowByte(ms / 0x100_0000);
    Int32LowByte(ms / 0x1_0000);
    Int32LowByte(ms / 0x100);
    Int32LowByte(ms);
  }

  lemma Int32LowByte(x: int)
    ensures Int32(x) % 256 == x % 256
  {
    var k := (x + 0x8000_0000) / 0x1_0000_0000;
    assert Int32(x) == 256 * (x / 256 - 0x100_0000 * k) + x % 256;
  }

  lemma TimeBytesValue(t: int)
    requires 0 <= t < TWO48
    ensures Num(TimeBytes(t), 256) == t
  {
    var bs := TimeBytes(t);
    SixBytes(bs[0], bs[1], bs[2], bs[3], bs[4], bs[5]);
    assert t / 0x1_0000_0000 / 256 == t / TWO40;
    assert t / 0x100_0000 / 256 == t / 0x1_0000_0000;
    assert t / 0x1_0000 / 256 == t / 0x100_0000;
    assert t / 0x100 / 256 == t / 0x1_0000;
  }

  lemma SixBytes(a: int, b: int, c: int, d: int, e: int, f: int)
    ensures Num([a, b, c, d, e, f], 256) == ((((a * 256 + b) * 256 + c) * 256 + d) * 256 + e) * 256 + f
  {
    NumAppend([], a, 256);
    NumAppend([a], b, 256);
    NumAppend([a, b], c, 256);
    NumAppend([a, b, c], d, 256);
    NumAppend([a, b, c, d], e, 256);
    NumAppend([a, b, c, d, e], f, 256);
    assert [] + [a] == [a] && [a] + [b] == [a, b] && [a, b] + [c] == [a, b, c];
    assert [a, b, c] + [d] == [a, b, c, d] && [a, b, c, d] + [e] == [a, b, c, d, e];
    assert [a, b, c, d, e] + [f] == [a, b, c, d, e, f];
  }

  lemma TimeDecides(t: int, u: int, e: seq<byte>, f: seq<byte>)
    requires 0 <= t < TWO48 && 0 <= u < TWO48 && |e| == |f| == 10
    ensures t < u ==> StringLess(Encode(TimeBytes(t) + e), Encode(TimeBytes(u) + f))
    ensures u < t || (t == u && e == f) ==> !StringLess(Encode(TimeBytes(t) + e), Encode(TimeBytes(u) + f))
    ensures Encode(TimeBytes(t) + e) == Encode(TimeBytes(u) + f) <==> t == u && e == f
  {
    var a, b := TimeBytes(t), TimeBytes(u);
    TimeBytesValue(t);
    TimeBytesValue(u);
    Compare(a, b, 256);
    Compare(b, a, 256);
    EncodePreservesOrder(a + e, b + f);
    Compare(a + e, b + f, 256);
    Compare(b + f, a + e, 256);
    if t < u {
      LexLessExtends(a, b, e, f);
    } else if u < t {
      LexLessExtends(b, a, f, e);
    }
    if a + e == b + f {
      assert a == (a + e)[..6] && b == (b + f)[..6] && e == (a + e)[6..] && f == (b + f)[6..];
    }
  }

  ghost predicate SortsBefore(earlier: int, later: int) {
    forall e: seq<byte>, f: seq<byte> | |e| == |f| == 10 :: StringLess(GoUlid(earlier, e), GoUlid(later, f))
  }

  /**
   Identifiers sort by time whatever their entropy exactly when the clock has not crossed
   a multiple of 2^40 milliseconds in between, seen through the 40-bit mask.
   */
  lemma GoUlidSortsIff(earlier: int, later: int)
    ensures SortsBefore(earlier, later) <==> earlier % TWO40 < later % TWO40
  {
    var t, u := earlier % TWO40, later % TWO40;
    if t < u {
      forall e: seq<byte>, f: seq<byte> | |e| == |f| == 10
        ensures StringLess(GoUlid(earlier, e), GoUlid(later, f))
      {
        TimeDecides(t, u, e, f);
      }
    } else {
      var e: seq<byte> := [0, 0, 0, 0, 0, 0, 0, 0, 0, 0];
      TimeDecides(t, u, e, e);
      assert !StringLess(GoUlid(earlier, e), GoUlid(later, e));
    }
  }

  /** Inside one period of 2^40 milliseconds every later identifier is the greater one. */
  lemma GoUlidSortsWithinPeriod(earlier: int, later: int, e: seq<byte>, f: seq<byte>)
    requires |e| == |f| == 10
    requires earlier < later && earlier / TWO40 == later / TWO40
    ensures StringLess(GoUlid(earlier, e), GoUlid(later, f))
  {
    hide Encode, TimeBytes, StringLess;
    TimeDecides(earlier % TWO40, later % TWO40, e, f);
  }

  /** One millisecond later, across the boundary, the order is reversed. */
  lemma GoUlidWrapsAtBoundary(e: seq<byte>, f: seq<byte>)
    requires |e| == |f| == 10
    ensures StringLess(GoUlid(TWO40, f), GoUlid(TWO40 - 1, e))
  {
    hide Encode, TimeBytes, StringLess;
    TimeDecides(0, TWO40 - 1, f, e);
  }

  /** The two clients print the same identifier exactly when the clock fits in 40 bits. */
  lemma ClientsAgreeIff(unixMilli: int, entropy: seq<byte>)
    requires |entropy| == 10
    ensures GoUlid(unixMilli, entropy) == TsUlid(unixMilli, entropy) <==> unixMilli % TWO48 < TWO40
  {
    TimeDecides(unixMilli % TWO40, unixMilli % TWO48, entropy, entropy);
    MaskOfMask(unixMilli);
  }

  lemma MaskOfMask(x: int)
    ensures x % TWO48 % TWO40 == x % TWO40
  {
    var r := x % TWO48;
    assert x == TWO48 * (x / TWO48) + r;
    assert x == TWO40 * (256 * (x / TWO48) + r / TWO40) + r % TWO40;
  }
}
