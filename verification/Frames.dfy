/** The upload frames of the file protocol and the length of their JSON text
    (socket/info/server/file/out/Upload.java, socket/info/helper/JsonHelper.java). */
module Frames {

  const INT_MIN := -0x8000_0000
  const INT_MAX := 0x7FFF_FFFF

  type Int = x: int | INT_MIN <= x <= INT_MAX

  /** Milliseconds of the server clock: thirteen decimal digits reach the year 2286. */
  type Millis = t: int | 0 <= t < 10_000_000_000_000

  /** A random name: the hexadecimal digits of a 64-bit number. */
  type FileName = s: string | |s| <= 16

  /** Java's int arithmetic wraps around; sums of two ints and a third of them stay in the
      range given here. */
  function Wrap(x: int): (r: Int)
    requires -0x1_8000_0000 <= x < 0x1_8000_0000
  {
    if x > INT_MAX then x - 0x1_0000_0000 else if x < INT_MIN then x + 0x1_0000_0000 else x
  }

  function Decimal(n: nat): string {
    if n < 10 then ['0' + n as char] else Decimal(n / 10) + ['0' + (n % 10) as char]
  }

  /** What a text of digits stands for. */
  function ValueOf(text: string): int {
    if text == "" then 0 else 10 * ValueOf(text[..|text| - 1]) + (text[|text| - 1] as int - '0' as int)
  }

  /** A number is written in digits, without leading zeros, and reads back as itself. */
  lemma {:induction false} DecimalReads(n: nat)
    ensures ValueOf(Decimal(n)) == n
    ensures Decimal(n) != "" && forall i :: 0 <= i < |Decimal(n)| ==> '0' <= Decimal(n)[i] <= '9'
    ensures n > 0 ==> Decimal(n)[0] != '0'
  {
    if n < 10 {
      assert Decimal(n)[..0] == "";
    } else {
      DecimalReads(n / 10);
      assert Decimal(n)[..|Decimal(n)| - 1] == Decimal(n / 10);
    }
  }

  function Pow10(k: nat): (p: nat)
    ensures p >= 1
  {
    if k == 0 then 1 else 10 * Pow10(k - 1)
  }

  /** ceil(log10(n)) of a positive integer. */
  function CeilLog10(n: nat): nat
    requires n >= 1
  {
    if n == 1 then 0 else 1 + CeilLog10((n + 9) / 10)
  }

  /** It is the least exponent whose power of ten reaches `n`. */
  lemma {:induction false} CeilLog10IsLeast(n: nat)
    requires n >= 1
    ensures Pow10(CeilLog10(n)) >= n
    ensures CeilLog10(n) > 0 ==> Pow10(CeilLog10(n) - 1) < n
  {
    if n > 1 {
      CeilLog10IsLeast((n + 9) / 10);
    }
  }

  lemma {:induction false} CeilLog10Monotone(m: nat, n: nat)
    requires 1 <= m <= n
    ensures CeilLog10(m) <= CeilLog10(n)
    decreases n
  {
    if m > 1 {
      CeilLog10Monotone((m + 9) / 10, (n + 9) / 10);
    }
  }

  lemma {:induction false} CeilLog10Small(n: nat)
    requires n >= 3
    ensures CeilLog10(n) <= n - 2
  {
    if n > 20 {
      CeilLog10Small((n + 9) / 10);
    } else if n > 10 {
      assert CeilLog10((n + 9) / 10) == 1 + CeilLog10(1);
    }
  }

  /** A decimal numeral is as long as the logarithm of the successor says. */
  lemma {:induction false} DecimalLength(n: nat)
    ensures |Decimal(n)| == if n == 0 then 1 else CeilLog10(n + 1)
  {
    if n >= 10 {
      DecimalLength(n / 10);
      assert (n + 10) / 10 == n / 10 + 1;
    } else if n > 0 {
      assert (n + 10) / 10 == 1;
    }
  }

  lemma {:induction false} DecimalMonotone(m: nat, n: nat)
    requires m <= n
    ensures |Decimal(m)| <= |Decimal(n)|
  {
    DecimalLength(m);
    DecimalLength(n);
    if m > 0 {
      CeilLog10Monotone(m + 1, n + 1);
    } else if n > 0 {
      CeilLog10Monotone(2, n + 1);
      assert CeilLog10(2) == 1;
    }
  }

  // ---------------------------------------------------------------------------

  datatype Frame = Frame(time: Millis, fileName: FileName, fileSize: nat,
                         offset: nat, dataSize: nat, data: string)

  /** What the object mapper writes for a one-element list with the frame. */
  function Json(f: Frame): string {
    "[{\"code\":21,\"time\":" + Decimal(f.time)
    + ",\"args\":{\"code\":5,\"fileName\":\"" + f.fileName
    + "\",\"fileSize\":" + Decimal(f.fileSize)
    + ",\"offset\":" + Decimal(f.offset)
    + ",\"dataSize\":" + Decimal(f.dataSize)
    + ",\"data\":\"" + f.data + "\"}}]"
  }

  const PUNCTUATION := 97

  function Size(f: Frame): nat {
    PUNCTUATION + |Decimal(f.time)| + |f.fileName| + |Decimal(f.fileSize)|
    + |Decimal(f.offset)| + |Decimal(f.dataSize)| + |f.data|
  }

  lemma {:induction false} JsonSize(f: Frame)
    ensures |Json(f)| == Size(f)
  {
  }

  /** `(int) Math.ceil(Math.log10(x))`: minus infinity saturates, and NaN becomes zero. */
  function LogTerm(x: Int): Int
    ensures x > 0 ==> LogTerm(x) == CeilLog10(x)
  {
    if x > 0 then CeilLog10Bounded(x); CeilLog10(x) else if x == 0 then INT_MIN else 0
  }

  /** `(int) Math.ceil(length + Math.log10(offset + 1))`, where the length is added
      before the cast. */
  function CalculateJsonLength(length: nat, offset: Int): Int {
    var x := Wrap(offset + 1);
    if x > 0 then Saturate(length + CeilLog10(x)) else if x == 0 then INT_MIN else 0
  }

  function Saturate(x: nat): Int {
    if x <= INT_MAX then x else INT_MAX
  }

  lemma {:induction false} CeilLog10Bounded(x: nat)
    requires 1 <= x <= INT_MAX
    ensures CeilLog10(x) <= 10
  {
    CeilLog10Monotone(x, 10_000_000_000);
    CeilLog10OfPower(10);
    assert Pow10(10) == 10_000_000_000;
  }

  lemma {:induction false} CeilLog10OfPower(k: nat)
    ensures CeilLog10(Pow10(k)) == k
  {
    if k > 0 {
      CeilLog10OfPower(k - 1);
      assert (10 * Pow10(k - 1) + 9) / 10 == Pow10(k - 1);
    }
  }

  /** For an offset inside a file the helper adds the offset's own digits once more,
      except for offset zero. */
  lemma {:induction false} JsonLengthCountsOffsetAgain(length: nat, offset: Int)
    requires 0 <= offset < INT_MAX && length <= 0x4000_0000
    ensures CalculateJsonLength(length, offset)
         == length + if offset == 0 then 0 else |Decimal(offset)|
  {
    CeilLog10Bounded(offset + 1);
    DecimalLength(offset);
  }
}
