/** Java's signed byte. */
module Bytes {
  newtype Byte = x: int | -128 <= x < 128
}

/** The text form of the firmware bytes: Base64 with padding, section 4 of RFC 4648. */
module Base64 {
  import opened Bytes

  const PAD := '='

  type Sextet = x: int | 0 <= x < 64

  function Symbol(v: Sextet): (c: char)
    ensures c != PAD
  {
    if v < 26 then 'A' + v as char
    else if v < 52 then 'a' + (v - 26) as char
    else if v < 62 then '0' + (v - 52) as char
    else if v == 62 then '+'
    else '/'
  }

  function Index(c: char): Sextet {
    if 'A' <= c <= 'Z' then (c - 'A') as int
    else if 'a' <= c <= 'z' then (c - 'a') as int + 26
    else if '0' <= c <= '9' then (c - '0') as int + 52
    else if c == '+' then 62
    else 63
  }

  function Unsigned(b: Byte): (u: int)
    ensures 0 <= u < 256
  {
    if b < 0 then b as int + 256 else b as int
  }

  function Signed(u: int): Byte
    requires 0 <= u < 256
  {
    if u < 128 then u as Byte else (u - 256) as Byte
  }

  /** Four symbols for the 24 bits of three bytes. */
  function Group(v: int): (text: string)
    requires 0 <= v < 0x100_0000
    ensures |text| == 4
  {
    [Symbol(v / 64 / 64 / 64), Symbol(v / 64 / 64 % 64), Symbol(v / 64 % 64), Symbol(v % 64)]
  }

  function Pack(a: Byte, b: Byte, c: Byte): (v: int)
    ensures 0 <= v < 0x100_0000
  {
    256 * (256 * Unsigned(a) + Unsigned(b)) + Unsigned(c)
  }

  function Encode(bytes: seq<Byte>): (text: string)
    decreases |bytes|
  {
    if |bytes| == 0 then ""
    else if |bytes| == 1 then Group(Pack(bytes[0], 0, 0))[..2] + [PAD, PAD]
    else if |bytes| == 2 then Group(Pack(bytes[0], bytes[1], 0))[..3] + [PAD]
    else Group(Pack(bytes[0], bytes[1], bytes[2])) + Encode(bytes[3..])
  }

  function Ungroup(text: string): (v: int)
    requires |text| == 4
    ensures 0 <= v < 0x100_0000
  {
    64 * (64 * (64 * Index(text[0]) + Index(text[1])) + Index(text[2])) + Index(text[3])
  }

  function Unpack(v: int): (bytes: seq<Byte>)
    requires 0 <= v < 0x100_0000
    ensures |bytes| == 3
  {
    [Signed(v / 256 / 256), Signed(v / 256 % 256), Signed(v % 256)]
  }

  /** The receiver's side; padding counts as clear bits and marks missing bytes. */
  function Decode(text: string): seq<Byte>
    decreases |text|
  {
    if |text| < 4 then []
    else
      var zero := Symbol(0);
      var third := if text[2] == PAD then zero else text[2];
      var fourth := if text[3] == PAD then zero else text[3];
      var v := Ungroup([text[0], text[1], third, fourth]);
      var bytes := Unpack(v);
      if text[2] == PAD then bytes[..1]
      else if text[3] == PAD then bytes[..2]
      else bytes + Decode(text[4..])
  }

  lemma {:induction false} SymbolIndex(v: Sextet)
    ensures Index(Symbol(v)) == v
  {
  }

  lemma {:induction false} GroupRoundTrip(v: int)
    requires 0 <= v < 0x100_0000
    ensures Ungroup(Group(v)) == v
  {
    var w := v / 64;
    var x := w / 64;
    SymbolIndex(x / 64);
    SymbolIndex(x % 64);
    SymbolIndex(w % 64);
    SymbolIndex(v % 64);
    assert v == 64 * w + v % 64 && w == 64 * x + w % 64 && x == 64 * (x / 64) + x % 64;
    assert Group(v) == [Symbol(x / 64), Symbol(x % 64), Symbol(w % 64), Symbol(v % 64)];
  }

  lemma {:induction false} Digit(high: int, low: int)
    requires 0 <= low < 256
    ensures (256 * high + low) / 256 == high && (256 * high + low) % 256 == low
  {
  }

  lemma {:induction false} PackRoundTrip(a: Byte, b: Byte, c: Byte)
    ensures Unpack(Pack(a, b, c)) == [a, b, c]
  {
    Digit(256 * Unsigned(a) + Unsigned(b), Unsigned(c));
    Digit(Unsigned(a), Unsigned(b));
  }

  /** Bytes that are absent leave clear sextets at the end. */
  lemma {:induction false} PaddingClear(a: Byte, b: Byte)
    ensures Pack(a, b, 0) % 64 == 0
    ensures Pack(a, 0, 0) % 64 == 0 && Pack(a, 0, 0) / 64 % 64 == 0
  {
    Multiple(4 * (256 * Unsigned(a) + Unsigned(b)));
    Multiple(64 * (16 * Unsigned(a)));
    Multiple(16 * Unsigned(a));
  }

  lemma {:induction false} Multiple(k: int)
    ensures 64 * k / 64 == k && 64 * k % 64 == 0
  {
  }

  lemma {:induction false} EncodedLength(bytes: seq<Byte>)
    ensures |Encode(bytes)| == 4 * ((|bytes| + 2) / 3)
    decreases |bytes|
  {
    hide Group, Pack;
    if |bytes| >= 3 {
      EncodedLength(bytes[3..]);
      assert (|bytes| + 2) / 3 == (|bytes[3..]| + 2) / 3 + 1;
    }
  }

  /** What was encoded is what is decoded. */
  lemma {:induction false} RoundTrip(bytes: seq<Byte>)
    ensures Decode(Encode(bytes)) == bytes
    decreases |bytes|
  {
    if |bytes| >= 3 {
      var whole := [bytes[0], bytes[1], bytes[2]] + bytes[3..];
      assert bytes == whole;
      RoundTrip(bytes[3..]);
      RoundTripFull(bytes[0], bytes[1], bytes[2], bytes[3..]);
    } else if |bytes| == 2 {
      assert bytes == [bytes[0], bytes[1]];
      RoundTripTwo(bytes[0], bytes[1]);
    } else if |bytes| == 1 {
      assert bytes == [bytes[0]];
      RoundTripOne(bytes[0]);
    } else {
      assert bytes == [];
    }
  }

  lemma {:induction false} RoundTripFull(a: Byte, b: Byte, c: Byte, rest: seq<Byte>)
    requires Decode(Encode(rest)) == rest
    ensures Decode(Encode([a, b, c] + rest)) == [a, b, c] + rest
  {
    assert ([a, b, c] + rest)[3..] == rest;
    PackRoundTrip(a, b, c);
    GroupRoundTrip(Pack(a, b, c));
    DecodeFull(Group(Pack(a, b, c)), Encode(rest));
  }

  lemma {:induction false} RoundTripTwo(a: Byte, b: Byte)
    ensures Decode(Encode([a, b])) == [a, b]
  {
    PackRoundTrip(a, b, 0);
    GroupRoundTrip(Pack(a, b, 0));
    PaddingClear(a, b);
    DecodePadded(Group(Pack(a, b, 0)), Encode([a, b]));
  }

  lemma {:induction false} RoundTripOne(a: Byte)
    ensures Decode(Encode([a])) == [a]
  {
    PackRoundTrip(a, 0, 0);
    GroupRoundTrip(Pack(a, 0, 0));
    PaddingClear(a, 0);
    DecodePadded(Group(Pack(a, 0, 0)), Encode([a]));
  }

  lemma {:induction false} DecodeFull(group: string, rest: string)
    requires |group| == 4 && PAD !in group
    ensures Decode(group + rest) == Unpack(Ungroup(group)) + Decode(rest)
  {
    var text := group + rest;
    assert text[4..] == rest && [text[0], text[1], text[2], text[3]] == group;
    assert text[2] in group && text[3] in group;
  }

  lemma {:induction false} DecodePadded(group: string, text: string)
    requires |group| == |text| == 4
    requires group[..2] == text[..2] && text[3] == PAD && group[3] == Symbol(0)
    requires if text[2] == PAD then group[2] == Symbol(0) else group[2] == text[2]
    ensures Decode(text) == if text[2] == PAD then Unpack(Ungroup(group))[..1] else Unpack(Ungroup(group))[..2]
  {
    assert text[0] == group[..2][0] && text[1] == group[..2][1];
    assert group == [text[0], text[1], if text[2] == PAD then Symbol(0) else text[2], Symbol(0)];
  }

  /** The last group is filled up with padding, and the bits that are left over in it are zero. */
  predicate EndsClear(text: string, left: nat) {
    && (left == 1 ==> |text| >= 4 && text[|text| - 2..] == [PAD, PAD] && Index(text[|text| - 3]) % 16 == 0)
    && (left == 2 ==> |text| >= 4 && text[|text| - 1] == PAD && Index(text[|text| - 2]) % 4 == 0)
  }

  lemma {:induction false} LeftoverIsZero(bytes: seq<Byte>)
    ensures EndsClear(Encode(bytes), |bytes| % 3)
    decreases |bytes|
  {
    hide Group, Pack, EndsClear;
    if |bytes| == 1 {
      OneLeft(bytes[0]);
    } else if |bytes| == 2 {
      TwoLeft(bytes[0], bytes[1]);
    } else if |bytes| >= 3 {
      LeftoverIsZero(bytes[3..]);
      EndsLater(Group(Pack(bytes[0], bytes[1], bytes[2])), Encode(bytes[3..]), |bytes| % 3);
    } else {
      NothingLeft();
    }
  }

  lemma {:induction false} NothingLeft()
    ensures EndsClear("", 0)
  {
  }

  lemma {:induction false} EndsLater(group: string, rest: string, left: nat)
    requires EndsClear(rest, left)
    ensures EndsClear(group + rest, left)
  {
    hide Index;
  }

  lemma {:induction false} OneLeft(a: Byte)
    ensures EndsClear(Group(Pack(a, 0, 0))[..2] + [PAD, PAD], 1)
  {
    var v := Pack(a, 0, 0);
    SixteenthClear(v, Unsigned(a));
    hide Pack, Unsigned, Index, Symbol;
    SymbolIndex(v / 64 / 64 % 64);
  }

  lemma {:induction false} TwoLeft(a: Byte, b: Byte)
    ensures EndsClear(Group(Pack(a, b, 0))[..3] + [PAD], 2)
  {
    var v := Pack(a, b, 0);
    QuarterClear(v, 256 * Unsigned(a) + Unsigned(b));
    hide Pack, Unsigned, Index, Symbol;
    SymbolIndex(v / 64 % 64);
  }

  lemma {:induction false} SixteenthClear(v: int, k: int)
    requires v == 256 * (256 * k)
    ensures v / 64 / 64 % 64 % 16 == 0
  {
    assert v / 64 / 64 == 16 * k;
    assert 16 * k % 64 % 16 == 0;
  }

  lemma {:induction false} QuarterClear(v: int, k: int)
    requires v == 256 * k
    ensures v / 64 % 64 % 4 == 0
  {
    assert v / 64 == 4 * k;
    assert 4 * k % 64 % 4 == 0;
  }
}
