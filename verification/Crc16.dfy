/** The checksum of socket/info/helper/Crc16.java: a table-driven CRC-16 with the
    register started at all ones, used with the generator 0x1021 of ITU-T V.41
    (section 2).  A Java `int` is its thirty-two bits in two's complement, most
    significant first; widening a signed `byte` repeats its sign, and the bits above
    the sixteenth that the table entries keep are present in the model too. */
module Crc16 {
  import opened Bytes

  type Int32 = w: seq<bool> | |w| == 32 witness seq(32, _ => false)

  /** A 16-bit register, most significant bit first. */
  type Word = w: seq<bool> | |w| == 16 witness seq(16, _ => false)

  const BYTE_BITS := 8

  /** The low `n` bits of an integer in two's complement, most significant first. */
  function IntBits(x: int, n: nat): (bits: seq<bool>)
    ensures |bits| == n
    decreases n
  {
    if n == 0 then [] else IntBits(x / 2, n - 1) + [x % 2 == 1]
  }

  lemma {:induction false} LowestBit(x: int, n: nat)
    requires n > 0
    ensures IntBits(x, n)[n - 1] == (x % 2 == 1)
  {
  }

  /** The unsigned value of a string of bits. */
  function Value(bits: seq<bool>): nat {
    if bits == [] then 0
    else 2 * Value(bits[..|bits| - 1]) + if bits[|bits| - 1] then 1 else 0
  }

  function Xor(x: seq<bool>, y: seq<bool>): (r: seq<bool>)
    requires |x| == |y|
    ensures |r| == |x|
    ensures forall i :: 0 <= i < |r| ==> r[i] == (x[i] != y[i])
  {
    seq(|x|, i requires 0 <= i < |x| => x[i] != y[i])
  }

  function Zeros(n: nat): (r: seq<bool>)
    ensures |r| == n
    ensures forall i :: 0 <= i < n ==> !r[i]
  {
    seq(n, _ => false)
  }

  function Ones(n: nat): (r: seq<bool>)
    ensures |r| == n
    ensures forall i :: 0 <= i < n ==> r[i]
  {
    seq(n, _ => true)
  }

  // ---------------------------------------------------------------------------
  // The reference: a bit-serial shift register.

  /** One clock of the register: shift in one message bit. */
  function Clock(poly: Word, reg: Word, bit: bool): Word {
    var shifted := reg[1..] + [false];
    if reg[0] != bit then Xor(shifted, poly) else shifted
  }

  function Serial(poly: Word, reg: Word, bits: seq<bool>): Word
    decreases |bits|
  {
    if bits == [] then reg else Serial(poly, Clock(poly, reg, bits[0]), bits[1..])
  }

  /** The bits of a message in the order they are clocked in. */
  function Bits(bytes: seq<Byte>): (bits: seq<bool>)
    ensures |bits| == 8 * |bytes|
  {
    if bytes == [] then [] else IntBits(bytes[0] as int, BYTE_BITS) + Bits(bytes[1..])
  }

  /** The checksum that the table-driven code must reproduce. */
  function Checksum(poly: Word, bytes: seq<Byte>): Word {
    Serial(poly, Ones(16), Bits(bytes))
  }

  // ---------------------------------------------------------------------------
  // The program, over Java's int operations.

  /** `x << n` */
  function Shl(x: Int32, n: nat): Int32
    requires n <= 32
  {
    x[n..] + Zeros(n)
  }

  /** `x >> n`, which repeats the sign bit */
  function Sar(x: Int32, n: nat): Int32
    requires n <= 32
  {
    (if x[0] then Ones(n) else Zeros(n)) + x[..32 - n]
  }

  /** `x & (2^n - 1)`: with 0xFF for n = 8 and 0xFFFF for n = 16 */
  function Mask(x: Int32, n: nat): Int32
    requires n <= 32
  {
    Zeros(32 - n) + x[32 - n..]
  }

  function Low16(x: Int32): Word {
    x[16..]
  }

  function TableIndex(crc: Int32, b: Byte): Int32 {
    Xor(Sar(crc, 8), Mask(IntBits(b as int, 32), 8))
  }

  /** Only the low half of a table entry is meaningful: it is what clocking the index
      into a clear register leaves. */
  ghost predicate Entry(poly: Word, value: Int32, index: int) {
    Low16(value) == Serial(poly, Zeros(16), IntBits(index, BYTE_BITS))
  }

  ghost predicate Entries(poly: Word, values: seq<Int32>) {
    forall i :: 0 <= i < |values| ==> Entry(poly, values[i], i)
  }

  class Crc16 {
    const poly: Int32
    const table: array<Int32>

    ghost predicate Valid()
      reads table
    {
      && table.Length == 256
      && Entries(Low16(poly), table[..])
    }

    constructor (poly: Int32)
      ensures Valid() && fresh(table) && this.poly == poly
    {
      this.poly := poly;
      var entries := new Int32[256];
      for i := 0 to 256
        invariant Entries(Low16(poly), entries[..i])
      {
        entries[i] := EntryOf(poly, i);
        assert entries[..i + 1] == entries[..i] + [entries[i]];
      }
      assert entries[..256] == entries[..];
      table := entries;
    }

    /** The body of the outer loop. */
    static method EntryOf(poly: Int32, i: int) returns (temp: Int32)
      ensures Entry(Low16(poly), temp, i)
    {
      temp := IntBits(0, 32);
      var a := Shl(IntBits(i, 32), 8);
      ghost var start := Low16(a);
      ghost var goal := Serial(Low16(poly), Zeros(16), IntBits(i, BYTE_BITS));
      TableStart(Low16(poly), i);
      XorZeros(start);
      hide Serial, Clock, Xor, Shl, IntBits;
      for j := 0 to 8
        invariant Idle(Low16(poly), Xor(Low16(temp), Low16(a)), 8 - j) == goal
        invariant Low16(a) == start[j..] + Zeros(j)
      {
        TableStep(Low16(poly), poly, temp, a, j, start);
        // the mask 0x8000 selects the bit with sixteen bits above it
        if Xor(temp, a)[16] {
          temp := Xor(Shl(temp, 1), poly);
        } else {
          temp := Shl(temp, 1);
        }
        a := Shl(a, 1);
      }
      XorZeros(Low16(temp));
    }

    method Calculate(bytes: array<Byte>) returns (crc: Int32)
      requires Valid()
      ensures crc == Zeros(16) + Checksum(Low16(poly), bytes[..])
    {
      crc := Mask(IntBits(-1, 32), 16);
      AllOnes(32);
      assert bytes[0..] == bytes[..];
      assert Low16(crc) == Ones(16);
      for k := 0 to bytes.Length
        invariant crc[..16] == Zeros(16)
        invariant Serial(Low16(poly), Low16(crc), Bits(bytes[k..])) == Checksum(Low16(poly), bytes[..])
      {
        assert bytes[k..][0] == bytes[k] && bytes[k..][1..] == bytes[k + 1..];
        IndexInRange(crc, bytes[k]);
        var index := Value(TableIndex(crc, bytes[k]));
        LookupIsByte(Low16(poly), crc, bytes[k], table[index]);
        SerialAppend(Low16(poly), Low16(crc), IntBits(bytes[k] as int, BYTE_BITS), Bits(bytes[k + 1..]));
        crc := Mask(Xor(Shl(crc, 8), table[index]), 16);
      }
      assert Bits(bytes[bytes.Length..]) == [];
    }
  }

  // ---------------------------------------------------------------------------
  // Integers and their bits.

  lemma {:induction false} BitsOfValue(bits: seq<bool>)
    ensures IntBits(Value(bits), |bits|) == bits
    ensures Value(bits) < Power2(|bits|)
    decreases |bits|
  {
    if bits != [] {
      BitsOfValue(bits[..|bits| - 1]);
    }
  }

  function Power2(n: nat): nat {
    if n == 0 then 1 else 2 * Power2(n - 1)
  }

  lemma {:induction false} ValueOfPadded(bits: seq<bool>, n: nat)
    ensures Value(Zeros(n) + bits) == Value(bits)
    decreases |bits|, n
  {
    if bits != [] {
      var padded := Zeros(n) + bits;
      assert padded[..|padded| - 1] == Zeros(n) + bits[..|bits| - 1];
      ValueOfPadded(bits[..|bits| - 1], n);
    } else if n > 0 {
      assert (Zeros(n) + bits)[..n - 1] == Zeros(n - 1) + bits;
      ValueOfPadded(bits, n - 1);
    }
  }

  /** Narrowing keeps the low bits. */
  lemma {:induction false} LowBits(x: int, n: nat, k: nat)
    requires k <= n
    ensures IntBits(x, n)[n - k..] == IntBits(x, k)
    decreases k
  {
    if k > 0 {
      LowBits(x / 2, n - 1, k - 1);
      assert IntBits(x, n)[n - k..] == IntBits(x / 2, n - 1)[n - k..] + [x % 2 == 1];
    }
  }

  lemma {:induction false} AllOnes(n: nat)
    ensures IntBits(-1, n) == Ones(n)
    decreases n
  {
    if n > 0 {
      AllOnes(n - 1);
    }
  }

  lemma {:induction false} AllZeros(n: nat)
    ensures IntBits(0, n) == Zeros(n)
    decreases n
  {
    if n > 0 {
      AllZeros(n - 1);
    }
  }

  lemma {:induction false} XorZeros(x: Word)
    ensures Xor(Zeros(16), x) == x == Xor(x, Zeros(16))
  {
  }

  lemma {:induction false} XorOnes()
    ensures Xor(Ones(16), Ones(16)) == Zeros(16)
  {
  }

  // ---------------------------------------------------------------------------
  // The table construction computes idle clocks.

  /** `n` clocks with no message bits. */
  function Idle(poly: Word, reg: Word, n: nat): Word
    decreases n
  {
    if n == 0 then reg else Idle(poly, Clock(poly, reg, false), n - 1)
  }

  lemma {:induction false} TableStart(poly: Word, i: int)
    ensures Low16(IntBits(0, 32)) == Zeros(16)
    ensures var start := Low16(Shl(IntBits(i, 32), 8));
            && start[8..] == Zeros(8)
            && forall n: nat :: n == 8 ==> Idle(poly, start, n) == Serial(poly, Zeros(16), IntBits(i, BYTE_BITS))
  {
    AllZeros(32);
    LowBits(i, 32, 8);
    var byte := IntBits(i, BYTE_BITS);
    assert Low16(Shl(IntBits(i, 32), 8)) == byte + Zeros(16 - |byte|);
    assert Xor(Zeros(16), byte + Zeros(8)) == byte + Zeros(8);
    SerialIsIdle(poly, Zeros(16), byte);
  }

  /** The body of the inner loop is one idle clock of temp ^ a. */
  lemma {:induction false} TableStep(word: Word, poly: Int32, temp: Int32, a: Int32, j: nat, start: Word)
    requires word == Low16(poly) && j < 8 && Low16(a) == start[j..] + Zeros(j)
    ensures var temp' := if Xor(temp, a)[16] then Xor(Shl(temp, 1), poly) else Shl(temp, 1);
            Clock(word, Xor(Low16(temp), Low16(a)), false) == Xor(Low16(temp'), Low16(Shl(a, 1)))
    ensures Low16(Shl(a, 1)) == start[j + 1..] + Zeros(j + 1)
  {
    ClockSplit(word, Low16(temp), Low16(a));
    assert Low16(Shl(temp, 1)) == Low16(temp)[1..] + [false];
    assert Low16(Shl(a, 1)) == Low16(a)[1..] + [false];
    assert Low16(Xor(Shl(temp, 1), poly)) == Xor(Low16(Shl(temp, 1)), word);
  }

  lemma {:induction false} ClockSplit(poly: Word, temp: Word, a: Word)
    ensures Clock(poly, Xor(temp, a), false)
         == Xor(Clock(poly, temp, a[0]), a[1..] + [false])
  {
  }

  // ---------------------------------------------------------------------------
  // One table lookup is eight clocks.

  /** The index into the table is always in range, and it is the register's high byte
      with the message byte added. */
  lemma {:induction false} IndexInRange(crc: Int32, b: Byte)
    requires crc[..16] == Zeros(16)
    ensures 0 <= Value(TableIndex(crc, b)) < 256
    ensures IntBits(Value(TableIndex(crc, b)), BYTE_BITS) == Xor(Low16(crc)[..8], IntBits(b as int, BYTE_BITS))
  {
    var byte := Xor(Low16(crc)[..8], IntBits(b as int, BYTE_BITS));
    IndexBits(crc, b, byte);
    ValueOfPadded(byte, 24);
    BitsOfValue(byte);
    assert Power2(8) == 256;
  }

  lemma {:induction false} IndexBits(crc: Int32, b: Byte, byte: seq<bool>)
    requires crc[..16] == Zeros(16)
    requires byte == Xor(Low16(crc)[..8], IntBits(b as int, BYTE_BITS))
    ensures TableIndex(crc, b) == Zeros(24) + byte
  {
    LowBits(b as int, 32, BYTE_BITS);
    var x, y := Sar(crc, 8), Mask(IntBits(b as int, 32), 8);
    assert !crc[..16][0];
    assert x == Zeros(24) + Low16(crc)[..8] by {
      assert crc[..24] == Zeros(16) + Low16(crc)[..8];
    }
    assert y == Zeros(24) + IntBits(b as int, BYTE_BITS);
  }

  lemma {:induction false} LookupIsByte(poly: Word, crc: Int32, b: Byte, entry: Int32)
    requires crc[..16] == Zeros(16)
    requires Entry(poly, entry, Value(TableIndex(crc, b)))
    ensures Low16(Mask(Xor(Shl(crc, 8), entry), 16)) == Serial(poly, Low16(crc), IntBits(b as int, BYTE_BITS))
  {
    IndexInRange(crc, b);
    var reg, byte := Low16(crc), IntBits(b as int, BYTE_BITS);
    SerialByte(poly, reg, byte);
    assert reg[8..] + Zeros(8) == Low16(Shl(crc, 8));
    assert Xor(Low16(entry), Low16(Shl(crc, 8))) == Low16(Xor(Shl(crc, 8), entry));
  }

  /** Clocking a byte in is clocking the high byte, with the byte added, into a clear
      register, and adding the low byte moved up. */
  lemma {:induction false} SerialByte(poly: Word, reg: Word, byte: seq<bool>)
    requires |byte| == 8
    ensures Serial(poly, reg, byte)
         == Xor(Serial(poly, Zeros(16), Xor(reg[..8], byte)), reg[8..] + Zeros(8))
  {
    var top := Xor(reg[..8], byte);
    var high, low := top + Zeros(8), Zeros(8) + reg[8..];
    SerialIsIdle(poly, reg, byte);
    assert Xor(reg, byte + Zeros(8)) == Xor(high, low);
    IdleLinear(poly, high, low, |byte|);
    IdleLowByte(poly, low, |byte|);
    assert low[8..] == reg[8..];
    SerialIsIdle(poly, Zeros(16), top);
    assert Xor(Zeros(16), high) == high;
  }

  /** Clocking is linear over exclusive or, in register and message bit together. */
  lemma {:induction false} ClockLinear(poly: Word, x: Word, y: Word, a: bool, b: bool)
    ensures Clock(poly, Xor(x, y), a != b) == Xor(Clock(poly, x, a), Clock(poly, y, b))
  {
  }

  lemma {:induction false} IdleLinear(poly: Word, x: Word, y: Word, n: nat)
    ensures Idle(poly, Xor(x, y), n) == Xor(Idle(poly, x, n), Idle(poly, y, n))
    decreases n
  {
    if n > 0 {
      ClockLinear(poly, x, y, false, false);
      IdleLinear(poly, Clock(poly, x, false), Clock(poly, y, false), n - 1);
    }
  }

  /** Clocks that meet only clear bits at the top feed nothing back. */
  lemma {:induction false} IdleLowByte(poly: Word, reg: Word, n: nat)
    requires n <= 16 && reg[..n] == Zeros(n)
    ensures Idle(poly, reg, n) == reg[n..] + Zeros(n)
    decreases n
  {
    if n > 0 {
      assert !reg[..n][0];
      var next := Clock(poly, reg, false);
      assert next[..n - 1] == reg[..n][1..];
      IdleLowByte(poly, next, n - 1);
      assert next[n - 1..] + Zeros(n - 1) == reg[n..] + Zeros(n);
    }
  }

  /** Clocking up to sixteen message bits in is the same as adding them to the top of
      the register and clocking it idle. */
  lemma {:induction false} SerialIsIdle(poly: Word, reg: Word, bits: seq<bool>)
    requires |bits| <= 16
    ensures Serial(poly, reg, bits) == Idle(poly, Xor(reg, bits + Zeros(16 - |bits|)), |bits|)
    decreases |bits|
  {
    if bits == [] {
      XorZeros(reg);
      assert bits + Zeros(16) == Zeros(16);
    } else {
      var rest := bits[1..];
      SerialIsIdle(poly, Clock(poly, reg, bits[0]), rest);
      ClockPadded(poly, reg, bits);
    }
  }

  lemma {:induction false} ClockPadded(poly: Word, reg: Word, bits: seq<bool>)
    requires 0 < |bits| <= 16
    ensures Clock(poly, Xor(reg, bits + Zeros(16 - |bits|)), false)
         == Xor(Clock(poly, reg, bits[0]), bits[1..] + Zeros(16 - |bits[1..]|))
  {
    var padded := bits + Zeros(16 - |bits|);
    assert padded[1..] + [false] == bits[1..] + Zeros(16 - |bits[1..]|);
    ClockSplit(poly, reg, padded);
  }

  lemma {:induction false} SerialAppend(poly: Word, reg: Word, xs: seq<bool>, ys: seq<bool>)
    ensures Serial(poly, reg, xs + ys) == Serial(poly, Serial(poly, reg, xs), ys)
    decreases |xs|
  {
    if xs == [] {
      assert xs + ys == ys;
    } else {
      assert (xs + ys)[1..] == xs[1..] + ys;
      SerialAppend(poly, Clock(poly, reg, xs[0]), xs[1..], ys);
    }
  }

  // ---------------------------------------------------------------------------
  // Burst errors.

  /** The two messages differ, and every differing bit lies in one window of sixteen
      consecutive bits, at any alignment. */
  ghost predicate Burst(x: seq<Byte>, y: seq<Byte>, start: nat) {
    && |x| == |y|
    && x != y
    && forall i :: 0 <= i < |Bits(x)| && Bits(x)[i] != Bits(y)[i] ==> start <= i < start + 16
  }

  /** An odd generator, such as 0x1021, detects every burst of up to sixteen bits. */
  lemma {:induction false} BurstDetected(poly: Word, x: seq<Byte>, y: seq<Byte>, start: nat)
    requires poly[15]
    requires Burst(x, y, start)
    ensures Checksum(poly, x) != Checksum(poly, y)
  {
    if Bits(x) == Bits(y) {
      BitsInjective(x, y);
    }
    BurstMovesRegister(poly, Bits(x), Bits(y), start);
  }

  lemma {:induction false} BurstMovesRegister(poly: Word, xs: seq<bool>, ys: seq<bool>, start: nat)
    requires poly[15]
    requires |xs| == |ys| && xs != ys
    requires forall i :: 0 <= i < |xs| && xs[i] != ys[i] ==> start <= i < start + 16
    ensures Serial(poly, Ones(16), xs) != Serial(poly, Ones(16), ys)
  {
    var k :| 0 <= k < |xs| && xs[k] != ys[k];
    var diff := Xor(xs, ys);
    assert diff[k];
    var end := if start + 16 <= |diff| then start + 16 else |diff|;
    assert start <= k < end && diff[start..end][k - start] == diff[k];
    hide Serial, Nonzero;
    BurstFromZero(poly, diff[start..end], k - start);
    BurstAmongZeros(poly, diff, start, end);
    SerialAffine(poly, Ones(16), Ones(16), xs, ys);
    XorOnes();
    DifferenceNonzero(Serial(poly, Ones(16), xs), Serial(poly, Ones(16), ys));
  }

  lemma {:induction false} DifferenceNonzero(c: Word, d: Word)
    requires Nonzero(Xor(c, d))
    ensures c != d
  {
    var i :| 0 <= i < 16 && Xor(c, d)[i];
  }

  lemma {:induction false} BurstAmongZeros(poly: Word, diff: seq<bool>, start: nat, end: nat)
    requires poly[15]
    requires start <= end <= |diff|
    requires forall i :: 0 <= i < |diff| && diff[i] ==> start <= i < end
    requires Nonzero(Serial(poly, Zeros(16), diff[start..end]))
    ensures Nonzero(Serial(poly, Zeros(16), diff))
  {
    assert diff == diff[..start] + diff[start..];
    SerialAppend(poly, Zeros(16), diff[..start], diff[start..]);
    SerialOfZeros(poly, diff[..start]);
    BurstThenZeros(poly, diff[start..end], diff[end..]);
    assert diff[start..] == diff[start..end] + diff[end..];
  }

  lemma {:induction false} BurstThenZeros(poly: Word, burst: seq<bool>, tail: seq<bool>)
    requires poly[15]
    requires forall i :: 0 <= i < |tail| ==> !tail[i]
    requires Nonzero(Serial(poly, Zeros(16), burst))
    ensures Nonzero(Serial(poly, Zeros(16), burst + tail))
  {
    SerialAppend(poly, Zeros(16), burst, tail);
    SerialOnZeros(poly, Serial(poly, Zeros(16), burst), tail);
    IdleKeepsNonzero(poly, Serial(poly, Zeros(16), burst), |tail|);
  }

  ghost predicate Nonzero(w: Word) {
    exists i :: 0 <= i < 16 && w[i]
  }

  lemma {:induction false} BurstFromZero(poly: Word, burst: seq<bool>, k: nat)
    requires poly[15] && k < |burst| <= 16 && burst[k]
    ensures Nonzero(Serial(poly, Zeros(16), burst))
  {
    var word := burst + Zeros(16 - |burst|);
    SerialIsIdle(poly, Zeros(16), burst);
    assert Xor(Zeros(16), word) == word;
    assert word[k];
    IdleKeepsNonzero(poly, word, |burst|);
  }

  /** Oddness is exactly what burst detection needs: an even generator misses a burst. */
  lemma {:induction false} EvenMissesBurst(poly: Word) returns (x: seq<Byte>, y: seq<Byte>)
    requires !poly[15]
    ensures Burst(x, y, 0)
    ensures Checksum(poly, x) == Checksum(poly, y)
  {
    var w := [true] + poly[..15];
    var high := ByteOf(w[..8]);
    var low := ByteOf(w[8..]);
    x, y := [0, 0], [high, low];
    TwoBytes(0, 0);
    TwoBytes(high, low);
    AllZeros(8);
    assert Bits(x) == Zeros(16) && Bits(y) == w;
    assert Bits(x)[0] != Bits(y)[0];
    KernelWordUnseen(poly, w);
  }

  lemma {:induction false} ByteOf(bits: seq<bool>) returns (b: Byte)
    requires |bits| == 8
    ensures IntBits(b as int, BYTE_BITS) == bits
  {
    BitsOfValue(bits);
    assert Power2(8) == 256;
    var v: int := Value(bits);
    if v < 128 {
      b := v as Byte;
    } else {
      b := (v - 256) as Byte;
      Wraps(v, 1, 8);
      assert Power2(8) == 256;
    }
  }

  lemma {:induction false} Wraps(x: int, k: int, n: nat)
    ensures IntBits(x - k * Power2(n), n) == IntBits(x, n)
    decreases n
  {
    if n > 0 {
      var half := k * Power2(n - 1);
      assert k * Power2(n) == 2 * half;
      assert (x - 2 * half) / 2 == x / 2 - half && (x - 2 * half) % 2 == x % 2;
      Wraps(x / 2, k, n - 1);
    }
  }

  lemma {:induction false} TwoBytes(a: Byte, b: Byte)
    ensures Bits([a, b]) == IntBits(a as int, BYTE_BITS) + IntBits(b as int, BYTE_BITS)
  {
    assert [a, b][1..] == [b] && [b][1..] == [];
    assert Bits([b]) == IntBits(b as int, BYTE_BITS) + Bits([]);
  }

  /** With an even generator this word is clocked to zero. */
  lemma {:induction false} KernelWordUnseen(poly: Word, w: seq<bool>)
    requires !poly[15] && w == [true] + poly[..15]
    ensures Serial(poly, Ones(16), Zeros(16)) == Serial(poly, Ones(16), w)
  {
    SerialAffine(poly, Ones(16), Ones(16), Zeros(16), w);
    XorOnes();
    XorZeros(w);
    KernelWordVanishes(poly, w);
    EqualIfDifferenceZero(Serial(poly, Ones(16), Zeros(16)), Serial(poly, Ones(16), w));
  }

  lemma {:induction false} KernelWordVanishes(poly: Word, w: seq<bool>)
    requires !poly[15] && w == [true] + poly[..15]
    ensures Serial(poly, Zeros(16), w) == Zeros(16)
  {
    SerialIsIdle(poly, Zeros(16), w);
    assert Xor(Zeros(16), w + Zeros(0)) == w;
    assert Clock(poly, w, false) == Zeros(16);
    IdleOfZeros(poly, |w| - 1);
  }

  lemma {:induction false} EqualIfDifferenceZero(c: Word, d: Word)
    requires Xor(c, d) == Zeros(16)
    ensures c == d
  {
    forall i | 0 <= i < 16
      ensures c[i] == d[i]
    {
      assert !Xor(c, d)[i];
    }
  }

  /** The checksum is affine: differing messages move it by the serial checksum, from a
      clear register, of their difference. */
  lemma {:induction false} SerialAffine(poly: Word, r: Word, s: Word, xs: seq<bool>, ys: seq<bool>)
    requires |xs| == |ys|
    ensures Xor(Serial(poly, r, xs), Serial(poly, s, ys)) == Serial(poly, Xor(r, s), Xor(xs, ys))
    decreases |xs|
  {
    if xs != [] {
      ClockLinear(poly, r, s, xs[0], ys[0]);
      SerialAffine(poly, Clock(poly, r, xs[0]), Clock(poly, s, ys[0]), xs[1..], ys[1..]);
      assert Xor(xs, ys)[1..] == Xor(xs[1..], ys[1..]);
    }
  }

  lemma {:induction false} SerialOnZeros(poly: Word, reg: Word, bits: seq<bool>)
    requires forall i :: 0 <= i < |bits| ==> !bits[i]
    ensures Serial(poly, reg, bits) == Idle(poly, reg, |bits|)
    decreases |bits|
  {
    if bits != [] {
      SerialOnZeros(poly, Clock(poly, reg, false), bits[1..]);
    }
  }

  lemma {:induction false} SerialOfZeros(poly: Word, bits: seq<bool>)
    requires forall i :: 0 <= i < |bits| ==> !bits[i]
    ensures Serial(poly, Zeros(16), bits) == Zeros(16)
  {
    SerialOnZeros(poly, Zeros(16), bits);
    IdleOfZeros(poly, |bits|);
  }

  lemma {:induction false} IdleOfZeros(poly: Word, n: nat)
    ensures Idle(poly, Zeros(16), n) == Zeros(16)
    decreases n
  {
    if n > 0 {
      assert Clock(poly, Zeros(16), false) == Zeros(16);
      IdleOfZeros(poly, n - 1);
    }
  }

  /** With an odd generator one clock has a trivial kernel, so no number of clocks can
      bring a nonzero register to zero. */
  lemma {:induction false} IdleKeepsNonzero(poly: Word, reg: Word, n: nat)
    requires poly[15]
    requires Nonzero(reg)
    ensures Nonzero(Idle(poly, reg, n))
    decreases n
  {
    if n > 0 {
      var next := Clock(poly, reg, false);
      var i :| 0 <= i < 16 && reg[i];
      assert if reg[0] then next[15] else next[i - 1];
      assert Nonzero(next);
      IdleKeepsNonzero(poly, next, n - 1);
    }
  }

  lemma {:induction false} BitsInjective(x: seq<Byte>, y: seq<Byte>)
    requires |x| == |y| && Bits(x) == Bits(y)
    ensures x == y
    decreases |x|
  {
    if x != [] {
      FirstByte(x);
      FirstByte(y);
      SameByte(x[0], y[0]);
      BitsInjective(x[1..], y[1..]);
    }
  }

  lemma {:induction false} FirstByte(x: seq<Byte>)
    requires x != []
    ensures IntBits(x[0] as int, BYTE_BITS) == Bits(x)[..8] && Bits(x[1..]) == Bits(x)[8..]
  {
  }

  lemma {:induction false} SameByte(a: Byte, b: Byte)
    requires IntBits(a as int, BYTE_BITS) == IntBits(b as int, BYTE_BITS)
    ensures a == b
  {
    var k := SameResidue(a as int, b as int, 8);
    assert Power2(8) == 256;
    assert k == 0;
  }

  /** Integers with the same low bits differ by a multiple of a power of two. */
  lemma {:induction false} SameResidue(a: int, b: int, n: nat) returns (k: int)
    requires IntBits(a, n) == IntBits(b, n)
    ensures a - b == k * Power2(n)
    decreases n
  {
    if n == 0 {
      k := a - b;
    } else {
      var x, y := IntBits(a, n), IntBits(b, n);
      assert x[..n - 1] == IntBits(a / 2, n - 1) && y[..n - 1] == IntBits(b / 2, n - 1);
      assert x[n - 1] == y[n - 1];
      k := SameResidue(a / 2, b / 2, n - 1);
      assert a - b == 2 * (a / 2 - b / 2) == 2 * (k * Power2(n - 1)) == k * Power2(n);
    }
  }
}
