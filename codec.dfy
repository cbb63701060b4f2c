/** The bit-vector codec: the eight house on/off flags as a little-endian
    integer (bit i is house i) and back from the decimal text stored under the
    cache key "state". */
module Codec {
  import Decimal

  /** NUM_HOUSES: the number of houses, fixed at startup. */
  const NumHouses: nat := 8

  /** The unsigned byte that Go's uint8 conversion produces. */
  newtype uint8 = x: int | 0 <= x < 256

  function Pow2(i: nat): (p: nat)
    ensures p >= 1
  {
    if i == 0 then 1 else 2 * Pow2(i - 1)
  }

  /** boolarraytoint as a value: 2^index is added for every flag that is on,
      visiting the indices in increasing order. */
  function Encode(v: seq<bool>): (n: nat)
    ensures n < Pow2(|v|)
  {
    if v == [] then 0
    else Encode(v[..|v| - 1]) + (if v[|v| - 1] then Pow2(|v| - 1) else 0)
  }

  /** The byte Go's uint8(n) keeps of an int: its low eight bits, two's complement. */
  function LowByte(n: int): (b: uint8)
    ensures (b as int - n) % 256 == 0
  {
    (n % 256) as uint8
  }

  /** `value >> bit` on a non-negative value. */
  function ShiftRight(value: nat, bit: nat): nat {
    if bit == 0 then value else ShiftRight(value / 2, bit - 1)
  }

  /** inttobool: only 1 is true. */
  function IntToBool(x: int): bool {
    x == 1
  }

  /** bitRead: bit `bit` of the byte `value`, i.e. the parity of value / 2^bit. */
  function BitRead(value: uint8, bit: nat): (b: bool)
    ensures b <==> (value as int / Pow2(bit)) % 2 == 1
  {
    ShiftRightDiv(value as nat, bit);
    IntToBool(ShiftRight(value as nat, bit) % 2)
  }

  /** Division is unique: a quotient and remainder that rebuild n are n's. */
  lemma DivUnique(n: nat, m: nat, q: nat, r: nat)
    requires m > 0 && r < m && n == m * q + r
    ensures n / m == q
  {
    MulGap(m, n / m, q);
    MulGap(m, q, n / m);
  }

  /** A larger multiplier adds at least one more m. */
  lemma {:induction false} MulGap(m: nat, a: nat, b: nat)
    ensures a < b ==> m * a + m <= m * b
    decreases b - a
  {
    if a + 1 < b {
      MulGap(m, a, b - 1);
      assert m * b == m * (b - 1) + m;
    } else if a + 1 == b {
      assert m * b == m * a + m;
    }
  }

  /** Dividing twice is dividing by the product. */
  lemma DivDiv(n: nat, a: nat, b: nat)
    requires a > 0 && b > 0
    ensures n / a / b == n / (a * b)
  {
    var x := n / a;
    var q := x / b;
    var r := x % b;
    var r0 := n % a;
    assert x == b * q + r;
    assert n == a * x + r0;
    Distribute(a, b, q, r);
    MulGap(a, r, b);
    DivUnique(n, a * b, q, a * r + r0);
  }

  lemma Distribute(a: nat, b: nat, q: nat, r: nat)
    ensures a * (b * q + r) == (a * b) * q + a * r
  {
  }

  /** `>>` by `bit` places is division by 2^bit. */
  lemma {:induction false} ShiftRightDiv(n: nat, bit: nat)
    ensures ShiftRight(n, bit) == n / Pow2(bit)
  {
    if bit > 0 {
      ShiftRightDiv(n / 2, bit - 1);
      DivDiv(n, 2, Pow2(bit - 1));
    }
  }

  /** stringtoboolarray as a value: flag x is bit x of the low byte of the
      integer Atoi reads from `text`. Encoding the flags again gives back
      exactly that byte. */
  function Decode(text: string): (flags: seq<bool>)
    ensures |flags| == NumHouses
    ensures Encode(flags) == LowByte(Decimal.Atoi(text)) as int
  {
    var b := LowByte(Decimal.Atoi(text));
    var flags := seq(NumHouses, x requires 0 <= x < NumHouses => BitRead(b, x));
    EncodeOfBits(b as nat, NumHouses);
    assert flags == Bits(b as nat, NumHouses);
    flags
  }

  /** The first k bits of n, least significant first. */
  function Bits(n: nat, k: nat): (flags: seq<bool>)
    ensures |flags| == k
  {
    seq(k, i requires 0 <= i < k => ShiftRight(n, i) % 2 == 1)
  }

  function AllOff(): (flags: seq<bool>)
    ensures |flags| == NumHouses && forall i :: 0 <= i < NumHouses ==> !flags[i]
  {
    seq(NumHouses, _ => false)
  }

  /** The source's loop over boolarraytoint's argument. Math.Exp2 is exact for
      indices below 63 and the sum then fits a signed 64-bit int, hence the bound. */
  method BoolArrayToInt(boolArray: array<bool>) returns (out: int)
    requires boolArray.Length <= 63
    ensures out == Encode(boolArray[..])
    ensures 0 <= out < Pow2(boolArray.Length)
  {
    out := 0;
    for index := 0 to boolArray.Length
      invariant out == Encode(boolArray[..index])
    {
      assert boolArray[..index + 1][..index] == boolArray[..index];
      if boolArray[index] {
        out := out + Pow2(index);
      }
    }
    assert boolArray[..boolArray.Length] == boolArray[..];
  }

  /** The source's loop over stringtoboolarray: a fresh slice of eight falses
      whose flag x is then set from bit x of the parsed byte. */
  method StringToBoolArray(text: string) returns (output: array<bool>)
    ensures fresh(output)
    ensures output[..] == Decode(text)
  {
    var theInt := Decimal.Atoi(text);
    output := new bool[NumHouses](_ => false);
    for x := 0 to NumHouses
      invariant output.Length == NumHouses
      invariant forall j :: 0 <= j < x ==> output[j] == BitRead(LowByte(theInt), j)
    {
      output[x] := BitRead(LowByte(theInt), x);
    }
  }

  /** Encoding works on the first flag and the rest like a binary numeral. */
  lemma {:induction false} EncodeCons(b: bool, s: seq<bool>)
    ensures Encode([b] + s) == (if b then 1 else 0) + 2 * Encode(s)
  {
    if s != [] {
      var t := [b] + s;
      assert t[..|t| - 1] == [b] + s[..|s| - 1];
      EncodeCons(b, s[..|s| - 1]);
    } else {
      assert [b] + s == [b];
      assert [b][..0] == [];
    }
  }

  /** Bit i of the encoding is flag i. */
  lemma {:induction false} EncodeBit(v: seq<bool>, i: nat)
    requires i < |v|
    ensures ShiftRight(Encode(v), i) % 2 == (if v[i] then 1 else 0)
  {
    assert v == [v[0]] + v[1..];
    EncodeCons(v[0], v[1..]);
    if i > 0 {
      EncodeBit(v[1..], i - 1);
    }
  }

  /** Encoding the first k bits of a number below 2^k gives the number. */
  lemma {:induction false} EncodeOfBits(n: nat, k: nat)
    requires n < Pow2(k)
    ensures Encode(Bits(n, k)) == n
  {
    if k > 0 {
      EncodeOfBits(n / 2, k - 1);
      assert Bits(n, k) == [n % 2 == 1] + Bits(n / 2, k - 1) by {
        forall i | 0 <= i < k
          ensures Bits(n, k)[i] == ([n % 2 == 1] + Bits(n / 2, k - 1))[i]
        {
          if i > 0 {
            assert ShiftRight(n, i) == ShiftRight(n / 2, i - 1);
          }
        }
      }
      EncodeCons(n % 2 == 1, Bits(n / 2, k - 1));
    } else {
      assert Bits(n, k) == [];
    }
  }

  /** Any eight flags encode to a value in [0, 255]. */
  lemma EncodeByteRange(v: seq<bool>)
    requires |v| == NumHouses
    ensures 0 <= Encode(v) <= 255
  {
  }

  /** No flag on encodes to 0. */
  lemma {:induction false} EncodeNone(n: nat)
    ensures Encode(seq(n, _ => false)) == 0
  {
    if n > 0 {
      assert seq(n, _ => false)[..n - 1] == seq(n - 1, _ => false);
      EncodeNone(n - 1);
    }
  }

  /** Exactly flag i on encodes to 2^i (so house 0 alone is 1 and house 7
      alone is 128). */
  lemma {:induction false} EncodeSingle(n: nat, i: nat)
    requires i < n
    ensures Encode(seq(n, j => j == i)) == Pow2(i)
  {
    var v := seq(n, j => j == i);
    assert v[..n - 1] == seq(n - 1, j => j == i);
    if i < n - 1 {
      EncodeSingle(n - 1, i);
    } else {
      assert v[..n - 1] == seq(n - 1, _ => false);
      EncodeNone(n - 1);
    }
  }

  /** Flag i of a decoding is the parity of the parsed integer's low byte
      divided by 2^i. */
  lemma DecodeAt(text: string, i: nat)
    requires i < NumHouses
    ensures Decode(text)[i] <==> (LowByte(Decimal.Atoi(text)) as int / Pow2(i)) % 2 == 1
  {
    assert Decode(text)[i] == BitRead(LowByte(Decimal.Atoi(text)), i);
  }

  /** The persist/load pairing: decoding the decimal text of the encoding of
      eight flags gives the flags back. */
  lemma DecodeEncode(v: seq<bool>)
    requires |v| == NumHouses
    ensures Decode(Decimal.Itoa(Encode(v))) == v
  {
    var n := Encode(v);
    var text := Decimal.Itoa(n);
    EncodeByteRange(v);
    Decimal.AtoiItoa(n);
    assert LowByte(Decimal.Atoi(text)) as nat == n;
    forall i | 0 <= i < NumHouses ensures Decode(text)[i] == v[i] {
      DecodeAt(text, i);
      EncodeBit(v, i);
    }
  }

  /** Decoding gives all houses off exactly when the parsed integer's low byte
      is 0: for unparsable text (which Atoi reads as 0), for "0" and for "256". */
  lemma DecodeAllOff(text: string)
    ensures Decode(text) == AllOff() <==> Decimal.Atoi(text) % 256 == 0
  {
    var b := LowByte(Decimal.Atoi(text));
    if b == 0 {
      forall i | 0 <= i < NumHouses ensures Decode(text)[i] == false {
        ShiftZero(i);
      }
    }
    EncodeNone(NumHouses);
    assert AllOff() == seq(NumHouses, _ => false);
  }

  lemma {:induction false} ShiftZero(bit: nat)
    ensures ShiftRight(0, bit) == 0
  {
    if bit > 0 {
      ShiftZero(bit - 1);
    }
  }

  lemma DecodeUnparsable(text: string)
    requires Decimal.IsSyntaxError(text)
    ensures Decode(text) == AllOff()
  {
  }

  /** Text too large for an int64 is read as 2^63 - 1, whose low byte has
      every bit set: every house decodes as on. */
  lemma DecodeOverflow(text: string)
    requires Decimal.Atoi(text) == Decimal.MaxInt64
    ensures forall i :: 0 <= i < NumHouses ==> Decode(text)[i]
  {
  }

  /** Concrete decodings: "256", the empty string and text that is not a
      number all give every house off; "5" turns on houses 0 and 2. */
  lemma DecodeExamples()
    ensures Decode("256") == AllOff()
    ensures Decode("") == AllOff()
    ensures Decode("on") == AllOff()
    ensures Decode("5") == [true, false, true, false, false, false, false, false]
  {
    assert Decimal.Unsigned("256") == "256";
    assert "256"[1..] == "56" && "56"[1..] == "6" && "6"[1..] == "";
    assert Decimal.ScanDigits("256", 0) == Decimal.ScanDigits("56", 2)
        == Decimal.ScanDigits("6", 25) == Decimal.ScanDigits("", 256);
    DecodeAllOff("256");
    DecodeUnparsable("");
    DecodeUnparsable("on");
    var b := LowByte(Decimal.Atoi("5"));
    assert b == 5;
    var d := Decode("5");
    forall i | 0 <= i < NumHouses
      ensures d[i] == [true, false, true, false, false, false, false, false][i]
    {
      DecodeAt("5", i);
    }
  }
}
