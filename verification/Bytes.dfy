/**
 Bytes, numbers written in bytes, and C strings.
 */
module Bytes {

  newtype Byte = b: int | 0 <= b < 256

  type Text = seq<Byte>

  const MAX64: nat := 0xffff_ffff_ffff_ffff

  // ----- exclusive or -----

  function Pow2(k: nat): nat { if k == 0 then 1 else 2 * Pow2(k - 1) }

  /** Exclusive or of the last `k` bits. */
  function XorBits(a: nat, b: nat, k: nat): (r: nat)
    ensures r < Pow2(k)
  {
    if k == 0 then 0 else 2 * XorBits(a / 2, b / 2, k - 1) + (a % 2 + b % 2) % 2
  }

  lemma Halves(high: nat, low: nat)
    requires low < 2
    ensures (2 * high + low) / 2 == high && (2 * high + low) % 2 == low
  {
  }

  lemma BitTwice(a: nat, b: nat)
    ensures ((a % 2 + b % 2) % 2 + b % 2) % 2 == a % 2
  {
  }

  lemma {:induction false} XorBitsTwice(a: nat, b: nat, k: nat)
    requires a < Pow2(k)
    ensures XorBits(XorBits(a, b, k), b, k) == a
  {
    if k > 0 {
      Halves(XorBits(a / 2, b / 2, k - 1), (a % 2 + b % 2) % 2);
      XorBitsTwice(a / 2, b / 2, k - 1);
      BitTwice(a, b);
    }
  }

  lemma Pow2Values()
    ensures Pow2(8) == 256
  {
    assert Pow2(4) == 16;
  }

  function Xor(a: Byte, b: Byte): Byte {
    Pow2Values();
    XorBits(a as nat, b as nat, 8) as Byte
  }

  /** Bit `k` of `n`, counted from the lowest. */
  function Bit(n: nat, k: nat): nat { if k == 0 then n % 2 else Bit(n / 2, k - 1) }

  lemma {:induction false} BitsOfXorBits(a: nat, b: nat, k: nat, i: nat)
    requires i < k
    ensures Bit(XorBits(a, b, k), i) == (Bit(a, i) + Bit(b, i)) % 2
  {
    Halves(XorBits(a / 2, b / 2, k - 1), (a % 2 + b % 2) % 2);
    if i > 0 {
      BitsOfXorBits(a / 2, b / 2, k - 1, i - 1);
    }
  }

  lemma BitIsBit(n: nat, k: nat)
    ensures Bit(n, k) == 0 || Bit(n, k) == 1
  {
  }

  /** A bit of an exclusive or is set exactly if it is set in one operand and not in the other. */
  lemma XorIsExclusive(a: Byte, b: Byte, k: nat)
    requires k < 8
    ensures Bit(Xor(a, b) as nat, k) == 1 <==> Bit(a as nat, k) != Bit(b as nat, k)
  {
    Pow2Values();
    BitsOfXorBits(a as nat, b as nat, 8, k);
    BitIsBit(a as nat, k);
    BitIsBit(b as nat, k);
  }

  lemma XorTwice(a: Byte, m: Byte)
    ensures Xor(Xor(a, m), m) == a
  {
    Pow2Values();
    XorBitsTwice(a as nat, m as nat, 8);
  }

  // ----- big-endian numbers -----

  /** The number with these big-endian digits. */
  function FromBE(s: Text): nat {
    if s == [] then 0 else 256 * FromBE(s[..|s| - 1]) + s[|s| - 1] as nat
  }

  /** The last `k` big-endian digits of `n`. */
  function ToBE(n: nat, k: nat): (s: Text)
    ensures |s| == k
  {
    if k == 0 then [] else ToBE(n / 256, k - 1) + [(n % 256) as Byte]
  }

  function Pow256(k: nat): nat { if k == 0 then 1 else 256 * Pow256(k - 1) }

  lemma {:induction false} BERoundTrip(n: nat, k: nat)
    requires n < Pow256(k)
    ensures FromBE(ToBE(n, k)) == n
  {
    if k > 0 {
      BERoundTrip(n / 256, k - 1);
      var s := ToBE(n, k);
      assert s[..|s| - 1] == ToBE(n / 256, k - 1);
    }
  }

  /** The first byte counts most. */
  lemma BigEndian2(s: Text)
    requires |s| == 2
    ensures FromBE(s) == 0x100 * s[0] as nat + s[1] as nat
  {
    FromBEMore(s, 1);
    FromBEMore(s, 2);
  }

  lemma BigEndian8(s: Text)
    requires |s| == 8
    ensures FromBE(s) == 0x100_0000_0000_0000 * s[0] as nat + 0x1_0000_0000_0000 * s[1] as nat
                         + 0x100_0000_0000 * s[2] as nat + 0x1_0000_0000 * s[3] as nat
                         + 0x100_0000 * s[4] as nat + 0x1_0000 * s[5] as nat + 0x100 * s[6] as nat + s[7] as nat
  {
    forall k | 0 < k <= 8 ensures FromBE(s[..k]) == 256 * FromBE(s[..k - 1]) + s[k - 1] as nat {
      FromBEMore(s, k);
    }
    assert s[..0] == [] && s[..8] == s;
  }

  lemma FromBEMore(s: Text, k: nat)
    requires 0 < k <= |s|
    ensures FromBE(s[..k]) == 256 * FromBE(s[..k - 1]) + s[k - 1] as nat
    ensures s[..|s|] == s && FromBE(s[..0]) == 0
  {
    assert s[..k][..k - 1] == s[..k - 1];
  }

  lemma {:induction false} BEBound(s: Text)
    ensures FromBE(s) < Pow256(|s|)
  {
    if s != [] {
      BEBound(s[..|s| - 1]);
    }
  }

  lemma Pow256Values()
    ensures Pow256(2) == 0x1_0000 && Pow256(8) == 0x1_0000_0000_0000_0000
  {
    assert Pow256(4) == 0x1_0000_0000;
  }

  // ----- decimal numbers -----

  predicate IsDigit(b: Byte) { 48 <= b <= 57 }

  function Digits(n: nat): (s: Text)
    ensures s != [] && forall i :: 0 <= i < |s| ==> IsDigit(s[i])
  {
    if n < 10 then [(48 + n) as Byte] else Digits(n / 10) + [(48 + n % 10) as Byte]
  }

  function Number(s: Text): nat
    requires forall i :: 0 <= i < |s| ==> IsDigit(s[i])
  {
    if s == [] then 0 else
      assert IsDigit(s[|s| - 1]);
      10 * Number(s[..|s| - 1]) + (s[|s| - 1] as int - 48)
  }

  function Pow10(k: nat): (r: nat)
    ensures r > 0
  {
    if k == 0 then 1 else 10 * Pow10(k - 1)
  }

  /** The digits of a number are those of its decimal places, as characters, the highest first
      and without leading zeros. */
  lemma {:induction false} DigitsArePlaces(n: nat, i: nat)
    requires i < |Digits(n)|
    ensures Digits(n)[|Digits(n)| - 1 - i] as char == '0' + (n / Pow10(i) % 10) as char
    ensures n > 0 ==> Digits(n)[0] as char != '0'
  {
    if n < 10 {
      assert i == 0;
    } else {
      if i > 0 {
        DigitsArePlaces(n / 10, i - 1);
        DivTwice(n, Pow10(i - 1));
      } else {
        DigitsArePlaces(n / 10, 0);
      }
    }
  }

  lemma DivTwice(n: nat, m: nat)
    requires m > 0
    ensures n / 10 / m == n / (10 * m)
  {
    var q := n / (10 * m);
    var r := n % (10 * m);
    assert n == 10 * (m * q) + r;
    assert n / 10 == m * q + r / 10;
    assert 0 <= r / 10 < m;
    Quotient(m * q + r / 10, m, q, r / 10);
  }

  lemma Quotient(n: int, m: int, q: int, r: int)
    requires 0 <= r < m && n == m * q + r
    ensures n / m == q
  {
    var d := n / m - q;
    assert n == m * (n / m) + n % m;
    assert m * d == r - n % m;
    assert d >= 1 ==> m * d >= m;
    assert d <= -1 ==> m * d <= -m;
  }

  lemma {:induction false} NumberOfDigits(n: nat)
    ensures Number(Digits(n)) == n
  {
    var s := Digits(n);
    if n >= 10 {
      NumberOfDigits(n / 10);
      assert s[..|s| - 1] == Digits(n / 10);
    } else {
      assert s[..|s| - 1] == [];
    }
  }

  // ----- searching -----

  /** Where `b` first occurs in `s`; the length of `s` if it does not. */
  function Find(s: Text, b: Byte): (i: nat)
    ensures i <= |s| && (i < |s| ==> s[i] == b) && b !in s[..i]
  {
    if s == [] || s[0] == b then 0
    else
      assert s[..1 + Find(s[1..], b)] == [s[0]] + s[1..][..Find(s[1..], b)];
      1 + Find(s[1..], b)
  }

  lemma {:induction false} FindIs(s: Text, b: Byte, i: nat)
    requires i <= |s| && b !in s[..i] && (i < |s| ==> s[i] == b)
    ensures Find(s, b) == i
  {
    if i > 0 {
      assert s[..i] == [s[0]] + s[1..][..i - 1];
      FindIs(s[1..], b, i - 1);
    }
  }

  /** The C string that starts where `s` starts, followed by a NUL. */
  function CString(s: Text): (t: Text)
    ensures |t| <= |s| && t == s[..|t|] && 0 !in t && (|t| < |s| ==> s[|t|] == 0)
  {
    s[..Find(s, 0)]
  }

  lemma CStringWhole(s: Text)
    requires 0 !in s
    ensures CString(s) == s
  {
    FindIs(s, 0, |s|);
  }

  /** How many digits `s` starts with. */
  function DigitRun(s: Text): (n: nat)
    ensures n <= |s| && (forall i :: 0 <= i < n ==> IsDigit(s[i])) && (n < |s| ==> !IsDigit(s[n]))
  {
    if s == [] || !IsDigit(s[0]) then 0 else 1 + DigitRun(s[1..])
  }

  lemma {:induction false} DigitRunIs(s: Text, n: nat)
    requires n <= |s| && (forall i :: 0 <= i < n ==> IsDigit(s[i])) && (n < |s| ==> !IsDigit(s[n]))
    ensures DigitRun(s) == n
  {
    if n > 0 {
      DigitRunIs(s[1..], n - 1);
    }
  }

  function Concat(ss: seq<Text>): Text {
    if ss == [] then [] else ss[0] + Concat(ss[1..])
  }

  // ----- buffers -----

  /** Storing `w` at `at`. */
  function Stored(b: Text, at: nat, w: Text): (r: Text)
    requires at + |w| <= |b|
    ensures |r| == |b|
  {
    b[..at] + w + b[at + |w|..]
  }

  lemma StoredIs(b: Text, at: nat, w: Text, r: Text)
    requires at + |w| <= |b| == |r|
    requires forall k :: 0 <= k < |w| ==> w[k] == r[at + k]
    requires forall k :: 0 <= k < at || at + |w| <= k < |b| ==> b[k] == r[k]
    ensures Stored(b, at, w) == r
  {
    forall k | 0 <= k < |b| ensures Stored(b, at, w)[k] == r[k] {
      if at <= k < at + |w| {
        assert w[k - at] == r[at + (k - at)];
      }
    }
  }

  /** A text and a NUL lie in the buffer. */
  ghost predicate Holds(b: Text, at: nat, text: Text) {
    at + |text| < |b| && b[at..at + |text|] == text && b[at + |text|] == 0
  }

  lemma HoldsStored(b: Text, at: nat, text: Text)
    requires at + |text| < |b|
    ensures Holds(Stored(b, at, text + [0]), at, text)
  {
  }
}
