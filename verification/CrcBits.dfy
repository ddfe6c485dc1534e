/** The 16-bit register fed one bit at a time: it is linear, loses nothing, and tells apart any two
    messages that differ in an odd number of bits, or only within sixteen consecutive ones. */
module CrcBits {
  import opened CrcTables

  // ----- Linearity

  function Xor16(x: bv16, y: bv16): bv16 {
    x ^ y
  }

  lemma XorAssociative(x: bv16, y: bv16, z: bv16)
    ensures Xor16(Xor16(x, y), z) == Xor16(x, Xor16(y, z))
  {
  }

  lemma XorCommutes(x: bv16, y: bv16)
    ensures Xor16(x, y) == Xor16(y, x)
  {
  }

  lemma XorSelf(x: bv16)
    ensures Xor16(x, x) == 0
  {
  }

  lemma XorZero(x: bv16)
    ensures Xor16(x, 0) == x
  {
  }

  /** Adding a word twice takes it away again. */
  lemma XorUndo(x: bv16, y: bv16)
    ensures Xor16(Xor16(x, y), y) == x
  {
    hide Xor16;
    XorAssociative(x, y, y);
    XorSelf(y);
    XorZero(x);
  }

  lemma XorInjective(x: bv16, y: bv16, z: bv16)
    requires Xor16(x, z) == Xor16(y, z)
    ensures x == y
  {
    hide Xor16;
    XorUndo(x, z);
    XorUndo(y, z);
  }

  function Half16(c: bv16): bv16 {
    c >> 1
  }

  predicate IsOdd16(c: bv16) {
    c & 1 == 1
  }

  function Folded(c: bv16, odd: bool): bv16 {
    if odd then Xor16(c, 0x8408) else c
  }

  lemma BitFolds(c: bv16)
    ensures Bit16(c) == Folded(Half16(c), IsOdd16(c))
  {
  }

  lemma FoldXor(x: bv16, y: bv16, p: bool, q: bool)
    ensures Folded(Xor16(x, y), p != q) == Xor16(Folded(x, p), Folded(y, q))
  {
    hide Xor16;
    XorAssociative(x, y, 0x8408);
    XorAssociative(x, 0x8408, y);
    XorCommutes(y, 0x8408);
    XorAssociative(Xor16(x, 0x8408), y, 0x8408);
    XorAssociative(x, 0x8408, Xor16(y, 0x8408));
    XorUndo(y, 0x8408);
    XorCommutes(0x8408, Xor16(y, 0x8408));
  }

  lemma HalfXor(x: bv16, y: bv16)
    ensures Half16(Xor16(x, y)) == Xor16(Half16(x), Half16(y))
  {
  }

  lemma OddXor(x: bv16, y: bv16)
    ensures IsOdd16(Xor16(x, y)) <==> IsOdd16(x) != IsOdd16(y)
  {
  }

  lemma BitXor(x: bv16, y: bv16)
    ensures Bit16(Xor16(x, y)) == Xor16(Bit16(x), Bit16(y))
  {
    hide *;
    BitFolds(x);
    BitFolds(y);
    BitFolds(Xor16(x, y));
    HalfXor(x, y);
    OddXor(x, y);
    FoldXor(Half16(x), Half16(y), IsOdd16(x), IsOdd16(y));
  }

  /** Several steps without input. */
  function Bits16(n: nat, c: bv16): bv16 {
    if n == 0 then c else Bits16(n - 1, Bit16(c))
  }

  lemma {:induction false} BitsXor(n: nat, x: bv16, y: bv16)
    ensures Bits16(n, Xor16(x, y)) == Xor16(Bits16(n, x), Bits16(n, y))
  {
    hide Bit16, Xor16;
    if n > 0 {
      BitXor(x, y);
      BitsXor(n - 1, Bit16(x), Bit16(y));
    }
  }

  lemma FourBits(n: nat, c: bv16)
    ensures Bits16(n + 4, c) == Bits16(n, Bit16(Bit16(Bit16(Bit16(c)))))
  {
    hide Bit16;
    assert Bits16(n + 4, c) == Bits16(n + 3, Bit16(c));
    assert Bits16(n + 3, Bit16(c)) == Bits16(n + 2, Bit16(Bit16(c)));
    assert Bits16(n + 2, Bit16(Bit16(c))) == Bits16(n + 1, Bit16(Bit16(Bit16(c))));
  }

  lemma NoBits(c: bv16)
    ensures Bits16(0, c) == c
  {
  }

  lemma ShiftIsBits(c: bv16)
    ensures Shift16(c) == Bits16(8, c)
  {
    hide Bit16, Bits16;
    var middle := Bit16(Bit16(Bit16(Bit16(c))));
    FourBits(4, c);
    FourBits(0, middle);
    NoBits(Shift16(c));
  }

  lemma ShiftXor(x: bv16, y: bv16)
    ensures Shift16(Xor16(x, y)) == Xor16(Shift16(x), Shift16(y))
  {
    hide Xor16, Bits16, Shift16;
    ShiftIsBits(x);
    ShiftIsBits(y);
    ShiftIsBits(Xor16(x, y));
    BitsXor(8, x, y);
  }

  // ----- One bit at a time

  /** A step undone. */
  function Unbit16(c: bv16): bv16 {
    if c & 0x8000 == 0x8000 then ((c ^ 0x8408) << 1) | 1 else c << 1
  }

  lemma UnbitBit(c: bv16)
    ensures Unbit16(Bit16(c)) == c
  {
  }

  lemma {:induction false} BitsInjective(n: nat, x: bv16, y: bv16)
    requires Bits16(n, x) == Bits16(n, y)
    ensures x == y
  {
    hide Bit16, Unbit16;
    if n > 0 {
      BitsInjective(n - 1, Bit16(x), Bit16(y));
      UnbitBit(x);
      UnbitBit(y);
    }
  }

  function ValueOf(bit: bool): bv16 {
    if bit then 1 else 0
  }

  /** A bit enters at the low end, and is shifted through. */
  function FeedBit(c: bv16, bit: bool): bv16 {
    Bit16(Xor16(c, ValueOf(bit)))
  }

  function Serial(c: bv16, bits: seq<bool>): bv16
    decreases |bits|
  {
    if bits == [] then c else Serial(FeedBit(c, bits[0]), bits[1..])
  }

  lemma {:induction false} SerialAppend(c: bv16, front: seq<bool>, back: seq<bool>)
    ensures Serial(c, front + back) == Serial(Serial(c, front), back)
    decreases |front|
  {
    hide FeedBit;
    if front == [] {
      assert front + back == back;
    } else {
      assert (front + back)[1..] == front[1..] + back;
      SerialAppend(FeedBit(c, front[0]), front[1..], back);
    }
  }

  /** Different registers stay different while equal bits follow. */
  lemma {:induction false} SerialInjective(c: bv16, d: bv16, bits: seq<bool>)
    requires c != d
    ensures Serial(c, bits) != Serial(d, bits)
    decreases |bits|
  {
    hide Bit16, Unbit16, Xor16;
    if bits != [] {
      var x, y := Xor16(c, ValueOf(bits[0])), Xor16(d, ValueOf(bits[0]));
      UnbitBit(x);
      UnbitBit(y);
      if x == y {
        XorInjective(c, d, ValueOf(bits[0]));
      }
      SerialInjective(FeedBit(c, bits[0]), FeedBit(d, bits[0]), bits[1..]);
    }
  }

  // ----- Up to sixteen bits can be fed at once

  function Twice16(c: bv16): bv16 {
    c << 1
  }

  /** Room for one more bit at the low end. */
  predicate Roomy16(c: bv16) {
    c < 0x8000
  }

  function Double(c: bv16, bit: bool): bv16 {
    Xor16(ValueOf(bit), Twice16(c))
  }

  /** The bits of a word, the first one lowest. */
  function Pack(bits: seq<bool>): bv16
    decreases |bits|
  {
    if bits == [] then 0 else Double(Pack(bits[1..]), bits[0])
  }

  /** Only the lowest `n` bits are used. */
  predicate Below(n: nat, c: bv16) {
    if n == 0 then c == 0 else n >= 16 || Below(n - 1, Half16(c))
  }

  lemma {:induction false} BelowMore(n: nat, m: nat, c: bv16)
    requires n <= m && Below(n, c)
    ensures Below(m, c)
  {
    hide Half16;
    if n > 0 && m < 16 {
      BelowMore(n - 1, m - 1, Half16(c));
    } else if 0 < m < 16 {
      ZeroIsEven();
      BelowMore(0, m - 1, 0);
    }
  }

  lemma TwiceUndone(c: bv16)
    requires Roomy16(c)
    ensures Half16(Twice16(c)) == c && Bit16(Twice16(c)) == c && !IsOdd16(Twice16(c))
  {
  }

  lemma HalfOfValue(bit: bool)
    ensures Half16(ValueOf(bit)) == 0 && (IsOdd16(ValueOf(bit)) <==> bit)
  {
  }

  lemma HalfOfDouble(c: bv16, bit: bool)
    requires Roomy16(c)
    ensures Half16(Double(c, bit)) == c && (IsOdd16(Double(c, bit)) <==> bit)
  {
    hide Xor16, Half16, Twice16, IsOdd16, Roomy16, Bit16, ValueOf;
    TwiceUndone(c);
    HalfOfValue(bit);
    HalfXor(ValueOf(bit), Twice16(c));
    OddXor(ValueOf(bit), Twice16(c));
    XorCommutes(0, c);
    XorZero(c);
  }

  function Eighth16(c: bv16): bv16 {
    c >> 3
  }

  lemma ThreeHalves(c: bv16)
    ensures Half16(Half16(Half16(c))) == Eighth16(c)
  {
  }

  lemma BelowEighth(n: nat, c: bv16)
    requires n < 13
    ensures Below(n + 3, c) <==> Below(n, Eighth16(c))
  {
    hide Half16, Eighth16;
    ThreeHalves(c);
    assert Below(n + 3, c) == Below(n + 2, Half16(c));
    assert Below(n + 2, Half16(c)) == Below(n + 1, Half16(Half16(c)));
  }

  lemma EighthsGone(c: bv16)
    ensures Eighth16(Eighth16(Eighth16(Eighth16(Eighth16(c))))) == 0 <==> Roomy16(c)
  {
  }

  lemma BelowTopIff(c: bv16)
    ensures Below(15, c) <==> Roomy16(c)
  {
    hide Eighth16, Below, Roomy16;
    var c1 := Eighth16(c);
    var c2 := Eighth16(c1);
    var c3 := Eighth16(c2);
    var c4 := Eighth16(c3);
    BelowEighth(12, c);
    BelowEighth(9, c1);
    BelowEighth(6, c2);
    BelowEighth(3, c3);
    BelowEighth(0, c4);
    BelowNone(Eighth16(c4));
    EighthsGone(c);
  }

  lemma BelowNone(c: bv16)
    ensures Below(0, c) <==> c == 0
  {
  }

  lemma {:induction false} PackBelow(bits: seq<bool>)
    requires |bits| <= 16
    ensures Below(|bits|, Pack(bits))
    decreases |bits|, 0
  {
    hide Double, Half16, Roomy16;
    if 0 < |bits| < 16 {
      var rest := bits[1..];
      PackFits(rest);
      PackBelow(rest);
      HalfOfDouble(Pack(rest), bits[0]);
    }
  }

  lemma PackFits(bits: seq<bool>)
    requires |bits| <= 15
    ensures Roomy16(Pack(bits))
    decreases |bits|, 1
  {
    hide Below, Pack, Roomy16;
    PackBelow(bits);
    BelowMore(|bits|, 15, Pack(bits));
    BelowTopIff(Pack(bits));
  }

  lemma {:induction false} PackInjective(p: seq<bool>, q: seq<bool>)
    requires |p| == |q| <= 16 && Pack(p) == Pack(q)
    ensures p == q
    decreases |p|
  {
    hide Double, Half16, IsOdd16, Roomy16;
    if p != [] {
      PackFits(p[1..]);
      PackFits(q[1..]);
      HalfOfDouble(Pack(p[1..]), p[0]);
      HalfOfDouble(Pack(q[1..]), q[0]);
      PackInjective(p[1..], q[1..]);
      assert p == [p[0]] + p[1..] && q == [q[0]] + q[1..];
    }
  }

  lemma {:induction false} SerialPacked(c: bv16, bits: seq<bool>)
    requires |bits| <= 16
    ensures Serial(c, bits) == Bits16(|bits|, Xor16(c, Pack(bits)))
    decreases |bits|
  {
    hide Bit16, ValueOf, Xor16, Twice16, Roomy16;
    if bits == [] {
      XorZero(c);
    } else {
      var rest, w := bits[1..], Pack(bits[1..]);
      PackFits(rest);
      XorAssociative(c, ValueOf(bits[0]), Twice16(w));
      TwiceUndone(w);
      BitXor(Xor16(c, ValueOf(bits[0])), Twice16(w));
      SerialPacked(FeedBit(c, bits[0]), rest);
    }
  }

  /** Up to sixteen bits can be told from the register after them. */
  lemma WordInjective(c: bv16, p: seq<bool>, q: seq<bool>)
    requires |p| == |q| <= 16 && Serial(c, p) == Serial(c, q)
    ensures p == q
  {
    hide Bits16, Pack, Serial, Xor16;
    SerialPacked(c, p);
    SerialPacked(c, q);
    BitsInjective(|p|, Xor16(c, Pack(p)), Xor16(c, Pack(q)));
    XorCommutes(c, Pack(p));
    XorCommutes(c, Pack(q));
    XorInjective(Pack(p), Pack(q), c);
    PackInjective(p, q);
  }

  /** Messages that differ only in the bits from `i` to `j`, at most sixteen of them. */
  ghost predicate Burst(p: seq<bool>, q: seq<bool>, i: nat, j: nat) {
    && |p| == |q| && i <= j <= |p| && j - i <= 16
    && p[..i] == q[..i] && p[j..] == q[j..]
  }

  /** No burst of up to sixteen bits goes unnoticed, wherever it lies. */
  lemma BurstDetected(c: bv16, p: seq<bool>, q: seq<bool>, i: nat, j: nat)
    requires Burst(p, q, i, j) && p != q
    ensures Serial(c, p) != Serial(c, q)
  {
    hide Serial;
    assert p == p[..i] + p[i..j] + p[j..] && q == q[..i] + q[i..j] + q[j..];
    SerialAppend(c, p[..i] + p[i..j], p[j..]);
    SerialAppend(c, q[..i] + q[i..j], q[j..]);
    SerialAppend(c, p[..i], p[i..j]);
    SerialAppend(c, q[..i], q[i..j]);
    var d := Serial(c, p[..i]);
    if Serial(d, p[i..j]) == Serial(d, q[i..j]) {
      WordInjective(d, p[i..j], q[i..j]);
    }
    SerialInjective(Serial(d, p[i..j]), Serial(d, q[i..j]), p[j..]);
  }

  // ----- Parity

  /** Whether the lowest `n` bits hold an odd number of ones. */
  predicate OddOnes(n: nat, c: bv16) {
    n > 0 && IsOdd16(c) != OddOnes(n - 1, Half16(c))
  }

  predicate OddBits(bits: seq<bool>)
    decreases |bits|
  {
    bits != [] && bits[0] != OddBits(bits[1..])
  }

  lemma {:induction false} ParityXor(n: nat, x: bv16, y: bv16)
    ensures OddOnes(n, Xor16(x, y)) <==> OddOnes(n, x) != OddOnes(n, y)
  {
    hide Xor16, Half16, IsOdd16;
    if n > 0 {
      OddXor(x, y);
      HalfXor(x, y);
      ParityXor(n - 1, Half16(x), Half16(y));
    }
  }

  lemma {:induction false} ParityMore(n: nat, m: nat, c: bv16)
    requires n <= m && n < 16 && Below(n, c)
    ensures OddOnes(m, c) == OddOnes(n, c)
  {
    hide Half16, IsOdd16;
    if n > 0 {
      ParityMore(n - 1, m - 1, Half16(c));
    } else if m > 0 {
      ZeroIsEven();
      ParityMore(0, m - 1, 0);
    }
  }

  lemma ZeroIsEven()
    ensures !IsOdd16(0) && Half16(0) == 0
  {
  }

  lemma HalfBelow(c: bv16)
    ensures Below(15, Half16(c))
  {
    hide Below;
    BelowTopIff(Half16(c));
  }

  /** A step keeps the parity, as the polynomial has an even number of terms. */
  lemma StepKeepsParity(c: bv16)
    ensures OddOnes(16, Bit16(c)) == OddOnes(16, c)
  {
    hide Bit16, Xor16, Half16, IsOdd16, OddOnes, Below;
    var h := Half16(c);
    BitFolds(c);
    ParityXor(16, h, 0x8408);
    assert OddOnes(16, 0x8408) by { PolynomialParity(); }
    HalfBelow(c);
    ParityMore(15, 16, h);
    assert OddOnes(16, c) == (IsOdd16(c) != OddOnes(15, h)) by { ParityUnfold(c); }
  }

  lemma ParityUnfold(c: bv16)
    ensures OddOnes(16, c) == (IsOdd16(c) != OddOnes(15, Half16(c)))
  {
    hide Half16, IsOdd16;
  }

  lemma ParityEighth(n: nat, c: bv16)
    ensures OddOnes(n + 3, c) ==
            (IsOdd16(c) != (IsOdd16(Half16(c)) != (IsOdd16(Half16(Half16(c))) != OddOnes(n, Eighth16(c)))))
  {
    hide Half16, Eighth16, IsOdd16;
    ThreeHalves(c);
    assert OddOnes(n + 3, c) == (IsOdd16(c) != OddOnes(n + 2, Half16(c)));
    assert OddOnes(n + 2, Half16(c)) == (IsOdd16(Half16(c)) != OddOnes(n + 1, Half16(Half16(c))));
  }

  lemma PolynomialParity()
    ensures OddOnes(16, 0x8408)
  {
    hide OddOnes;
    ParityEighth(13, 0x8408);
    ParityEighth(10, 0x1081);
    ParityEighth(7, 0x0210);
    ParityEighth(4, 0x0042);
    ParityEighth(1, 0x0008);
    assert OddOnes(1, 1) by { LowestParity(); }
  }

  lemma LowestParity()
    ensures OddOnes(1, 1)
  {
  }

  lemma InputParity(c: bv16, bit: bool)
    ensures OddOnes(16, Xor16(c, ValueOf(bit))) <==> OddOnes(16, c) != bit
  {
    hide Xor16;
    ParityXor(16, c, ValueOf(bit));
    BitParity(bit);
  }

  lemma BitParity(bit: bool)
    ensures OddOnes(16, ValueOf(bit)) <==> bit
  {
    ZeroIsEven();
    ParityMore(0, 15, 0);
  }

  lemma {:induction false} SerialParity(c: bv16, bits: seq<bool>)
    ensures OddOnes(16, Serial(c, bits)) <==> OddOnes(16, c) != OddBits(bits)
    decreases |bits|
  {
    hide Bit16, Xor16, OddOnes;
    if bits != [] {
      var x := Xor16(c, ValueOf(bits[0]));
      InputParity(c, bits[0]);
      StepKeepsParity(x);
      SerialParity(FeedBit(c, bits[0]), bits[1..]);
    }
  }

  function CountDifferences(p: seq<bool>, q: seq<bool>): nat
    requires |p| == |q|
    decreases |p|
  {
    if p == [] then 0 else (if p[0] != q[0] then 1 else 0) + CountDifferences(p[1..], q[1..])
  }

  lemma {:induction false} ParityOfDifferences(p: seq<bool>, q: seq<bool>)
    requires |p| == |q|
    ensures CountDifferences(p, q) % 2 == 1 <==> OddBits(p) != OddBits(q)
    decreases |p|
  {
    if p != [] {
      ParityOfDifferences(p[1..], q[1..]);
    }
  }

  /** No odd number of altered bits goes unnoticed. */
  lemma OddDetected(c: bv16, p: seq<bool>, q: seq<bool>)
    requires |p| == |q| && CountDifferences(p, q) % 2 == 1
    ensures Serial(c, p) != Serial(c, q)
  {
    ParityOfDifferences(p, q);
    SerialParity(c, p);
    SerialParity(c, q);
  }
}
