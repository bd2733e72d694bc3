/** Machine integers, byte strings and the number encodings that the replica reads and writes. */
module ByteStrings {
  type byte = x: int | 0 <= x < 0x100

  const TWO_32: int := 0x1_0000_0000

  type uint32 = x: int | 0 <= x < 0x1_0000_0000

  type Bytes = seq<byte>

  /** Go's wrapping `x += 1` on a uint32. */
  function Inc32(x: uint32): (r: uint32)
    ensures x + 1 < TWO_32 ==> r == x + 1
  {
    (x + 1) % TWO_32
  }

  function Max0(i: int): nat {
    if i < 0 then 0 else i
  }

  function Repeated(x: byte, n: nat): (b: Bytes)
    ensures |b| == n
    ensures forall i :: 0 <= i < n ==> b[i] == x
  {
    seq(n, _ => x)
  }

  function Zeros(n: nat): (z: Bytes)
    ensures |z| == n
    ensures forall i :: 0 <= i < n ==> z[i] == 0
  {
    Repeated(0, n)
  }

  // ---------------------------------------------------------------- big endian

  /** The number a byte string denotes, most significant byte first; the empty string denotes zero. */
  function Numeric(b: Bytes): nat {
    if b == [] then 0 else Numeric(b[..|b| - 1]) * 0x100 + b[|b| - 1]
  }

  lemma {:induction false} NumericOfZeros(n: nat)
    ensures Numeric(Zeros(n)) == 0
  {
    if n > 0 {
      NumericOfZeros(n - 1);
      assert Zeros(n)[..n - 1] == Zeros(n - 1);
    }
  }

  function FromBE32(b: Bytes): uint32
    requires |b| == 4
  {
    b[0] as int * 0x100_0000 + b[1] as int * 0x1_0000 + b[2] as int * 0x100 + b[3]
  }

  function ToBE32(n: uint32): (b: Bytes)
    ensures |b| == 4
  {
    [n / 0x100_0000, n / 0x1_0000 % 0x100, n / 0x100 % 0x100, n % 0x100]
  }

  lemma FromToBE32(n: uint32)
    ensures FromBE32(ToBE32(n)) == n
  {
    assert n / 0x1_0000 == n / 0x100_0000 * 0x100 + n / 0x1_0000 % 0x100;
    assert n / 0x100 == n / 0x1_0000 * 0x100 + n / 0x100 % 0x100;
  }

  lemma ToFromBE32(b: Bytes)
    requires |b| == 4
    ensures ToBE32(FromBE32(b)) == b
  {
    var n, one, two, three := FromBE32(b), b[0] as int, b[0] as int * 0x100 + b[1],
        b[0] as int * 0x1_0000 + b[1] as int * 0x100 + b[2];
    assert n / 0x100 == three && n % 0x100 == b[3];
    assert n / 0x1_0000 == two && n / 0x100_0000 == one;
    assert three % 0x100 == b[2] && two % 0x100 == b[1];
  }

  lemma FromBE32IsNumeric(b: Bytes)
    requires |b| == 4
    ensures FromBE32(b) == Numeric(b)
  {
    var b3, b2, b1 := b[..3], b[..2], b[..1];
    assert b3[..2] == b2 && b2[..1] == b1 && b1[..0] == [];
    assert Numeric(b1) == b[0];
    assert Numeric(b2) == Numeric(b1) * 0x100 + b[1];
    assert Numeric(b3) == Numeric(b2) * 0x100 + b[2];
  }

  // ---------------------------------------------------------------- little endian

  /** `binary.LittleEndian.PutUint32`. */
  function ToLE32(n: uint32): (b: Bytes)
    ensures |b| == 4
  {
    [n % 0x100, n / 0x100 % 0x100, n / 0x1_0000 % 0x100, n / 0x100_0000]
  }

  lemma LE32Injective(m: uint32, n: uint32)
    requires ToLE32(m) == ToLE32(n)
    ensures m == n
  {
    var a, b := ToLE32(m), ToLE32(n);
    FromToBE32(m);
    FromToBE32(n);
    assert ToBE32(m) == [a[3], a[2], a[1], a[0]];
    assert ToBE32(n) == [b[3], b[2], b[1], b[0]];
  }

  /** The number that four bytes denote, least significant byte first. */
  function LittleValue(b: Bytes): int
    requires |b| == 4
  {
    b[0] as int + 0x100 * b[1] as int + 0x1_0000 * b[2] as int + 0x100_0000 * b[3] as int
  }

  lemma LittleReads(n: uint32)
    ensures LittleValue(ToLE32(n)) == n
  {
    assert n / 0x100 == n / 0x1_0000 * 0x100 + n / 0x100 % 0x100;
    assert n / 0x1_0000 == n / 0x100_0000 * 0x100 + n / 0x1_0000 % 0x100;
  }

  // ---------------------------------------------------------------- reversal

  function Reversed(b: Bytes): (r: Bytes)
    ensures |r| == |b|
    ensures forall i :: 0 <= i < |b| ==> r[i] == b[|b| - 1 - i]
  {
    seq(|b|, i requires 0 <= i < |b| => b[|b| - 1 - i])
  }

  lemma ReversedInjective(a: Bytes, b: Bytes)
    requires Reversed(a) == Reversed(b)
    ensures a == b
  {
    assert |a| == |b|;
    forall i | 0 <= i < |a| ensures a[i] == b[i] {
      assert Reversed(a)[|a| - 1 - i] == Reversed(b)[|a| - 1 - i];
    }
  }

  // ---------------------------------------------------------------- decimal

  predicate IsDigit(c: byte) {
    48 <= c <= 57
  }

  /** The ASCII bytes of `fmt.Sprint(n)`. */
  function Decimal(n: nat): (d: Bytes)
    ensures d != []
    ensures forall i :: 0 <= i < |d| ==> IsDigit(d[i])
  {
    if n < 10 then [48 + n] else Decimal(n / 10) + [48 + n % 10]
  }

  /** The number that digits write, read from the left. */
  function DecimalValue(d: Bytes): int {
    if d == [] then 0 else DecimalValue(d[..|d| - 1]) * 10 + (d[|d| - 1] as int - 48)
  }

  /** The digits of a number write that number, without leading zeros. */
  lemma {:induction false} DecimalReads(n: nat)
    ensures DecimalValue(Decimal(n)) == n
    ensures n > 0 ==> Decimal(n)[0] != 48
  {
    if n < 10 {
      assert Decimal(n)[..0] == [];
    } else {
      DecimalReads(n / 10);
      assert Decimal(n)[..|Decimal(n)| - 1] == Decimal(n / 10);
    }
  }

  // ---------------------------------------------------------------- text

  /** The bytes of an ASCII text. */
  function Ascii(s: string): (b: Bytes)
    requires forall i :: 0 <= i < |s| ==> s[i] < 128 as char
    ensures |b| == |s|
  {
    seq(|s|, i requires 0 <= i < |s| => s[i] as int)
  }
}
