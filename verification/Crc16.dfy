/**
 * CRC-16/XMODEM, which routes every seat to one Redis node.
 *
 * The reference definition is polynomial division over GF(2) (Appendix A of
 * the Redis Cluster specification names the generator); the shifting loop of
 * the lock library is proved to compute exactly that remainder.
 */
module Crc16 {

  // ---------------------------------------------------------------- GF(2)[x]

  /** Coefficients over GF(2), highest degree first. */
  type Poly = seq<bool>

  function Zeros(n: nat): Poly {
    seq(n, _ => false)
  }

  function Xor(a: Poly, b: Poly): Poly
    requires |a| == |b|
  {
    seq(|a|, i requires 0 <= i < |a| => a[i] != b[i])
  }

  /** The same polynomial written with `n` coefficients. */
  function Pad(p: Poly, n: nat): Poly
    requires |p| <= n
  {
    Zeros(n - |p|) + p
  }

  /** The product q(x)g(x), by Horner's rule on q. */
  function Mul(q: Poly, g: Poly): (m: Poly)
    requires |g| > 0
    ensures |m| == |q| + |g| - 1
  {
    if q == [] then Zeros(|g| - 1)
    else
      var n := |q| - 1;
      Xor(Mul(q[..n], g) + [false], Term(q[n], g, |q|))
  }

  /** The lowest of the n summands of a product. */
  function Term(coefficient: bool, g: Poly, n: nat): (t: Poly)
    requires |g| > 0 && n > 0
    ensures |t| == n + |g| - 1
  {
    Pad(if coefficient then g else Zeros(|g|), n + |g| - 1)
  }

  /** m = q g + r with r of smaller degree than g, for the quotient q. */
  ghost predicate Divides(m: Poly, g: Poly, q: Poly, r: Poly) {
    && |g| > 0
    && |r| == |g| - 1
    && |m| == |q| + |g| - 1
    && m == Xor(Mul(q, g), Pad(r, |m|))
  }

  ghost predicate IsRemainder(m: Poly, g: Poly, r: Poly) {
    exists q: Poly :: Divides(m, g, q, r)
  }

  lemma {:induction false} MulOfZero(n: nat, g: Poly)
    requires |g| > 0
    ensures Mul(Zeros(n), g) == Zeros(n + |g| - 1)
  {
    if n > 0 {
      assert Zeros(n)[..n - 1] == Zeros(n - 1);
      MulOfZero(n - 1, g);
    }
  }

  lemma {:induction false} MulLinear(p: Poly, q: Poly, g: Poly)
    requires |g| > 0 && |p| == |q|
    ensures Mul(Xor(p, q), g) == Xor(Mul(p, g), Mul(q, g))
  {
    if p != [] {
      var n := |p| - 1;
      assert Xor(p, q)[..n] == Xor(p[..n], q[..n]);
      MulLinear(p[..n], q[..n], g);
      XorShuffle(Mul(p[..n], g) + [false], Mul(q[..n], g) + [false], Term(p[n], g, |p|), Term(q[n], g, |p|));
      TermLinear(p[n], q[n], g, |p|);
      XorExtended(Mul(p[..n], g), Mul(q[..n], g));
    }
  }

  lemma TermLinear(a: bool, b: bool, g: Poly, n: nat)
    requires |g| > 0 && n > 0
    ensures Xor(Term(a, g, n), Term(b, g, n)) == Term(a != b, g, n)
  {
  }

  lemma XorExtended(a: Poly, b: Poly)
    requires |a| == |b|
    ensures Xor(a + [false], b + [false]) == Xor(a, b) + [false]
  {
  }

  lemma XorShuffle(a: Poly, b: Poly, c: Poly, d: Poly)
    requires |a| == |b| == |c| == |d|
    ensures Xor(Xor(a, c), Xor(b, d)) == Xor(Xor(a, b), Xor(c, d))
  {
  }

  /** The leading coefficient of a product with a monic polynomial stays where q has it. */
  lemma {:induction false} LeadingCoefficient(q: Poly, g: Poly, j: nat)
    requires |g| > 0 && g[0]
    requires j < |q| && q[j] && forall i :: 0 <= i < j ==> !q[i]
    ensures Mul(q, g)[j]
  {
    var n := |q| - 1;
    if j < n {
      LeadingCoefficient(q[..n], g, j);
    } else {
      assert q[..n] == Zeros(n);
      MulOfZero(n, g);
    }
  }

  function FirstSet(q: Poly): (j: nat)
    ensures j <= |q| && (forall i :: 0 <= i < j ==> !q[i]) && (j < |q| ==> q[j])
  {
    if q == [] || q[0] then 0 else 1 + FirstSet(q[1..])
  }

  lemma TopIsZero(m: Poly, g: Poly, q1: Poly, r1: Poly, q2: Poly, r2: Poly)
    requires Divides(m, g, q1, r1) && Divides(m, g, q2, r2)
    ensures forall j :: 0 <= j < |q1| ==> !Mul(Xor(q1, q2), g)[j]
  {
    MulLinear(q1, q2, g);
    forall j | 0 <= j < |q1|
      ensures !Mul(Xor(q1, q2), g)[j]
    {
      assert !Pad(r1, |m|)[j] && !Pad(r2, |m|)[j];
      assert m[j] == (Mul(q1, g)[j] != Pad(r1, |m|)[j]);
      assert m[j] == (Mul(q2, g)[j] != Pad(r2, |m|)[j]);
    }
  }

  /** Division by a monic polynomial has one answer. */
  lemma RemainderUnique(m: Poly, g: Poly, r1: Poly, r2: Poly)
    requires IsRemainder(m, g, r1) && IsRemainder(m, g, r2)
    requires g[0]
    ensures r1 == r2
  {
    var q1: Poly :| Divides(m, g, q1, r1);
    var q2: Poly :| Divides(m, g, q2, r2);
    QuotientsAgree(m, g, q1, r1, q2, r2);
    forall i | 0 <= i < |r1|
      ensures r1[i] == r2[i]
    {
      var k := |m| - |r1| + i;
      assert Pad(r1, |m|)[k] == r1[i] && Pad(r2, |m|)[k] == r2[i];
      assert m[k] == (Mul(q1, g)[k] != Pad(r1, |m|)[k]);
      assert m[k] == (Mul(q2, g)[k] != Pad(r2, |m|)[k]);
    }
  }

  lemma QuotientsAgree(m: Poly, g: Poly, q1: Poly, r1: Poly, q2: Poly, r2: Poly)
    requires Divides(m, g, q1, r1) && Divides(m, g, q2, r2) && g[0]
    ensures Mul(q1, g) == Mul(q2, g)
  {
    var d := Xor(q1, q2);
    MulLinear(q1, q2, g);
    var j := FirstSet(d);
    TopIsZero(m, g, q1, r1, q2, r2);
    if j < |d| {
      LeadingCoefficient(d, g, j);
      assert false;
    }
    assert d == Zeros(|d|);
    MulOfZero(|d|, g);
    assert forall i :: 0 <= i < |m| ==> Xor(Mul(q1, g), Mul(q2, g))[i] == (Mul(q1, g)[i] != Mul(q2, g)[i]);
  }

  // ------------------------------------------------------------- the checksum

  /** x^16 + x^12 + x^5 + 1 */
  const GENERATOR: Poly := [true, false, false, false, true, false, false, false, false,
                            false, false, true, false, false, false, false, true]

  /** Its powers, written by the coefficients' degrees. */
  lemma GeneratorIs()
    ensures |GENERATOR| == 17
    ensures forall i :: 0 <= i < 17 ==> (GENERATOR[i] <==> 16 - i == 16 || 16 - i == 12 || 16 - i == 5 || 16 - i == 0)
  {
  }

  /** Machine words as their bits, most significant first. */
  type Word = w: Poly | |w| == 16 witness seq(16, _ => false)
  type Byte = b: Poly | |b| == 8 witness seq(8, _ => false)

  /** `w << 1` on a u16: the top bit is lost. */
  function Left(w: Word): Word {
    w[1..] + [false]
  }

  /** A byte widened to u16 and shifted to the top. */
  function High(b: Byte): Word {
    b + Zeros(8)
  }

  /** 0x1021 */
  const TAPS: Word := [false, false, false, true, false, false, false, false,
                       false, false, true, false, false, false, false, true]

  /** One turn of the inner loop. */
  function Shift(crc: Word): Word {
    if crc[0] then Xor(Left(crc), TAPS) else Left(crc)
  }

  function Shifts(crc: Word, n: nat): Word {
    if n == 0 then crc else Shift(Shifts(crc, n - 1))
  }

  function Crc(data: seq<Byte>): Word {
    if data == [] then Zeros(16)
    else Shifts(Xor(Crc(data[..|data| - 1]), High(data[|data| - 1])), 8)
  }

  /** The data as one polynomial, first bit first. */
  function Bits(data: seq<Byte>): Poly {
    if data == [] then [] else Bits(data[..|data| - 1]) + data[|data| - 1]
  }

  /** The routine of the lock library, loop for loop. */
  method Compute(data: seq<Byte>) returns (crc: Word)
    ensures crc == Crc(data)
    ensures IsRemainder(Bits(data) + Zeros(16), GENERATOR, crc)
  {
    crc := Zeros(16);
    for k := 0 to |data|
      invariant crc == Crc(data[..k])
    {
      crc := Xor(crc, High(data[k]));
      ghost var start := crc;
      for n := 0 to 8
        invariant crc == Shifts(start, n)
      {
        if crc[0] {
          crc := Xor(Left(crc), TAPS);
        } else {
          crc := Left(crc);
        }
      }
      assert data[..k + 1][..k] == data[..k];
    }
    assert data[..|data|] == data;
    CrcIsRemainder(data);
  }

  // ---------------------------------------------- one message bit at a time

  function TopBit(bit: bool): Word {
    [bit] + Zeros(15)
  }

  function Feed(crc: Word, bit: bool): Word {
    Shift(Xor(crc, TopBit(bit)))
  }

  function FeedAll(crc: Word, bits: Poly): Word {
    if bits == [] then crc else Feed(FeedAll(crc, bits[..|bits| - 1]), bits[|bits| - 1])
  }

  lemma FeedBits(crc: Word, bit: bool)
    ensures Feed(crc, bit) == Xor(Left(crc), if crc[0] != bit then GENERATOR[1..] else Zeros(16))
  {
    assert GENERATOR[1..] == TAPS;
    var x := Xor(crc, TopBit(bit));
    assert Left(x) == Left(crc);
    assert Xor(Left(crc), Zeros(16)) == Left(crc);
  }

  lemma ShiftLinear(a: Word, b: Word)
    ensures Shift(Xor(a, b)) == Xor(Shift(a), Shift(b))
  {
    assert Left(Xor(a, b)) == Xor(Left(a), Left(b));
  }

  lemma {:induction false} ShiftsLinear(a: Word, b: Word, n: nat)
    ensures Shifts(Xor(a, b), n) == Xor(Shifts(a, n), Shifts(b, n))
  {
    if n > 0 {
      ShiftsLinear(a, b, n - 1);
      ShiftLinear(Shifts(a, n - 1), Shifts(b, n - 1));
    }
  }

  /** A byte waiting in the register is absorbed one top bit per shift. */
  lemma {:induction false} PeelAll(x: Word, b: Byte, n: nat)
    requires n <= 8
    ensures Shifts(Xor(x, High(b)), n) == Xor(FeedAll(x, b[..n]), b[n..] + Zeros(8 + n))
  {
    if n == 0 {
      assert b[0..] + Zeros(8) == High(b);
    } else {
      PeelAll(x, b, n - 1);
      assert b[n - 1..] + Zeros(7 + n) == [b[n - 1]] + (b[n..] + Zeros(7 + n));
      PeelOne(FeedAll(x, b[..n - 1]), b[n - 1], b[n..] + Zeros(7 + n));
      assert b[n..] + Zeros(7 + n) + [false] == b[n..] + Zeros(8 + n);
      assert b[..n][..n - 1] == b[..n - 1];
    }
  }

  lemma PeelOne(y: Word, bit: bool, tail: Poly)
    requires |tail| == 15
    ensures Shift(Xor(y, [bit] + tail)) == Xor(Feed(y, bit), tail + [false])
  {
    var rest: Word := [false] + tail;
    assert Xor(y, [bit] + tail) == Xor(Xor(y, TopBit(bit)), rest);
    ShiftLinear(Xor(y, TopBit(bit)), rest);
    assert Left(rest) == tail + [false];
  }

  lemma {:induction false} FeedAllConcat(c: Word, p: Poly, q: Poly)
    ensures FeedAll(c, p + q) == FeedAll(FeedAll(c, p), q)
  {
    if q == [] {
      assert p + q == p;
    } else {
      var n := |q| - 1;
      assert (p + q)[..|p + q| - 1] == p + q[..n];
      FeedAllConcat(c, p, q[..n]);
    }
  }

  lemma {:induction false} CrcIsSerial(data: seq<Byte>)
    ensures Crc(data) == FeedAll(Zeros(16), Bits(data))
  {
    if data != [] {
      var n := |data| - 1;
      CrcIsSerial(data[..n]);
      var c, b := Crc(data[..n]), data[n];
      PeelAll(c, b, 8);
      assert b[..8] == b;
      assert Xor(FeedAll(c, b), b[8..] + Zeros(16)) == FeedAll(c, b);
      FeedAllConcat(Zeros(16), Bits(data[..n]), b);
    }
  }

  // ----------------------------------------------------------------- theorems

  /** One step of schoolbook long division. */
  lemma DivideStep(p: Poly, bit: bool, q: Poly, r: Word, r': Word)
    requires |q| == |p|
    requires Divides(p + Zeros(16), GENERATOR, q, r)
    requires r' == Xor(Left(r), if r[0] != bit then GENERATOR[1..] else Zeros(16))
    ensures Divides(p + [bit] + Zeros(16), GENERATOR, q + [r[0] != bit], r')
  {
    var m, m' := p + Zeros(16), p + [bit] + Zeros(16);
    var out := r[0] != bit;
    var prod := Mul(q, GENERATOR);
    var step := Pad(if out then GENERATOR else Zeros(17), |m'|);
    assert (q + [out])[..|q|] == q;
    assert Mul(q + [out], GENERATOR) == Xor(prod + [false], step);
    forall i | 0 <= i < |m'|
      ensures m'[i] == Xor(Mul(q + [out], GENERATOR), Pad(r', |m'|))[i]
    {
      assert i < |m| ==> m[i] == (prod[i] != Pad(r, |m|)[i]);
      if i > |p| {
        assert Pad(r', |m'|)[i] == r'[i - |p| - 1];
      }
    }
  }

  /** The bit-serial register is the remainder of the bits read so far, times x^16. */
  lemma {:induction false} SerialIsRemainder(bits: Poly) returns (q: Poly)
    ensures |q| == |bits|
    ensures Divides(bits + Zeros(16), GENERATOR, q, FeedAll(Zeros(16), bits))
  {
    if bits == [] {
      q := [];
      assert bits + Zeros(16) == Zeros(16);
    } else {
      var n := |bits| - 1;
      var q' := SerialIsRemainder(bits[..n]);
      var c := FeedAll(Zeros(16), bits[..n]);
      FeedBits(c, bits[n]);
      q := q' + [c[0] != bits[n]];
      DivideStep(bits[..n], bits[n], q', c, FeedAll(Zeros(16), bits));
      assert bits[..n] + [bits[n]] == bits;
    }
  }

  lemma CrcIsRemainder(data: seq<Byte>)
    ensures IsRemainder(Bits(data) + Zeros(16), GENERATOR, Crc(data))
  {
    CrcIsSerial(data);
    var q := SerialIsRemainder(Bits(data));
  }

  /** A word is the checksum exactly when it is the remainder of data(x) x^16. */
  lemma CrcCharacterised(data: seq<Byte>, crc: Word)
    ensures crc == Crc(data) <==> IsRemainder(Bits(data) + Zeros(16), GENERATOR, crc)
  {
    CrcIsRemainder(data);
    if IsRemainder(Bits(data) + Zeros(16), GENERATOR, crc) {
      RemainderUnique(Bits(data) + Zeros(16), GENERATOR, crc, Crc(data));
    }
  }

  function XorBytes(a: seq<Byte>, b: seq<Byte>): seq<Byte>
    requires |a| == |b|
  {
    seq(|a|, i requires 0 <= i < |a| => Xor(a[i], b[i]))
  }

  lemma {:induction false} CrcLinear(a: seq<Byte>, b: seq<Byte>)
    requires |a| == |b|
    ensures Crc(XorBytes(a, b)) == Xor(Crc(a), Crc(b))
  {
    if a != [] {
      var n := |a| - 1;
      assert XorBytes(a, b)[..n] == XorBytes(a[..n], b[..n]);
      CrcLinear(a[..n], b[..n]);
      var x, y := Xor(Crc(a[..n]), High(a[n])), Xor(Crc(b[..n]), High(b[n]));
      assert Xor(Crc(XorBytes(a[..n], b[..n])), High(Xor(a[n], b[n]))) == Xor(x, y);
      ShiftsLinear(x, y, 8);
    }
  }

  lemma {:induction false} ShiftsOfZero(n: nat)
    ensures Shifts(Zeros(16), n) == Zeros(16)
  {
    if n > 0 {
      ShiftsOfZero(n - 1);
      assert Left(Zeros(16)) == Zeros(16);
    }
  }

  /** Bits below the top travel up unchanged until one of them reaches it. */
  lemma {:induction false} ShiftsOfLow(b: Byte, n: nat)
    requires n <= 8
    ensures Shifts(Zeros(8) + b, n) == Zeros(8 - n) + b + Zeros(n)
  {
    if n > 0 {
      ShiftsOfLow(b, n - 1);
      assert Left(Zeros(9 - n) + b + Zeros(n - 1)) == Zeros(8 - n) + b + Zeros(n);
    } else {
      assert Zeros(8) + b + Zeros(0) == Zeros(8) + b;
    }
  }

  /** Data followed by its own checksum, high byte first, checks to zero. */
  lemma CrcOfFramed(data: seq<Byte>)
    ensures Crc(data + [Crc(data)[..8], Crc(data)[8..]]) == Zeros(16)
  {
    var c := Crc(data);
    var hi: Byte, lo: Byte := c[..8], c[8..];
    var s1: seq<Byte>, s2: seq<Byte> := data + [hi], data + [hi, lo];
    assert s1[..|data|] == data && s2[..|s1|] == s1;
    assert Xor(c, High(hi)) == Zeros(8) + lo;
    ShiftsOfLow(lo, 8);
    assert Crc(s1) == High(lo) by {
      assert Zeros(0) + lo + Zeros(8) == High(lo);
    }
    assert Xor(High(lo), High(lo)) == Zeros(16);
    ShiftsOfZero(8);
  }
}
