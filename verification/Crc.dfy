/** The checksum loops, proved against the bit-by-bit registers, and what the registers detect, for
    messages of any length: every burst of at most sixteen bits, wherever it lies, and every odd number
    of altered bits. */
module Crc {
  import opened CrcBits
  import opened CrcTables

  const INITIAL_8: bv8 := 0x77
  const INITIAL_16: bv16 := 0x3692

  // ----- The reference registers

  /** One byte enters a register: it is added to the low bits and shifted through. */
  function Feed8(crc: bv8, b: bv8): bv8 {
    Shift8(crc ^ b)
  }

  function Feed16(crc: bv16, b: bv8): bv16 {
    Shift16(crc ^ b as bv16)
  }

  function Register8(crc: bv8, data: seq<bv8>): bv8
    decreases |data|
  {
    if data == [] then crc else Register8(Feed8(crc, data[0]), data[1..])
  }

  function Register16(crc: bv16, data: seq<bv8>): bv16
    decreases |data|
  {
    if data == [] then crc else Register16(Feed16(crc, data[0]), data[1..])
  }

  lemma {:induction false} Register8Append(crc: bv8, front: seq<bv8>, back: seq<bv8>)
    ensures Register8(crc, front + back) == Register8(Register8(crc, front), back)
    decreases |front|
  {
    hide Feed8;
    if front == [] {
      assert front + back == back;
    } else {
      assert (front + back)[1..] == front[1..] + back;
      Register8Append(Feed8(crc, front[0]), front[1..], back);
    }
  }

  lemma {:induction false} Register16Append(crc: bv16, front: seq<bv8>, back: seq<bv8>)
    ensures Register16(crc, front + back) == Register16(Register16(crc, front), back)
    decreases |front|
  {
    hide Feed16;
    if front == [] {
      assert front + back == back;
    } else {
      assert (front + back)[1..] == front[1..] + back;
      Register16Append(Feed16(crc, front[0]), front[1..], back);
    }
  }

  lemma Register8Next(crc: bv8, data: seq<bv8>, b: bv8)
    ensures Register8(crc, data + [b]) == Feed8(Register8(crc, data), b)
  {
    hide Feed8;
    Register8Append(crc, data, [b]);
    assert [b][1..] == [];
  }

  lemma Register16Next(crc: bv16, data: seq<bv8>, b: bv8)
    ensures Register16(crc, data + [b]) == Feed16(Register16(crc, data), b)
  {
    hide Feed16;
    Register16Append(crc, data, [b]);
    assert [b][1..] == [];
  }

  // ----- The table-driven loops

  method Crc8Calc(data: array<bv8>, length: nat) returns (crc: bv8)
    requires length <= data.Length
    ensures crc == Register8(INITIAL_8, data[..length])
  {
    hide Crc8Table, Feed8;
    crc := INITIAL_8;
    for i := 0 to length
      invariant crc == Register8(INITIAL_8, data[..i])
    {
      var c := crc ^ data[i];
      Feed8ByTable(crc, data[i], c);
      Register8Next(INITIAL_8, data[..i], data[i]);
      assert data[..i + 1] == data[..i] + [data[i]];
      crc := Crc8Table(c);
    }
  }

  method Crc16Calc(data: array<bv8>, length: nat) returns (crc: bv16)
    requires length <= data.Length
    ensures crc == Register16(INITIAL_16, data[..length])
  {
    hide Crc16Table, Feed16;
    crc := INITIAL_16;
    for i := 0 to length
      invariant crc == Register16(INITIAL_16, data[..i])
    {
      var c := crc ^ data[i] as bv16;
      var high := (crc >> 8) & 0xff;
      var low := Crc16Table((c & 0xff) as bv8);
      Feed16ByTable(crc, data[i], c, high, low, high ^ low);
      Register16Next(INITIAL_16, data[..i], data[i]);
      assert data[..i + 1] == data[..i] + [data[i]];
      crc := high ^ low;
    }
  }

  lemma Feed8ByTable(crc: bv8, b: bv8, c: bv8)
    requires c == crc ^ b
    ensures Crc8Table(c) == Feed8(crc, b)
  {
    hide Crc8Table, Shift8;
    Crc8TableIsShift(c);
  }

  lemma Feed16ByTable(crc: bv16, b: bv8, c: bv16, high: bv16, low: bv16, next: bv16)
    requires c == crc ^ b as bv16
    requires high == (crc >> 8) & 0xff
    requires low == Crc16Table((c & 0xff) as bv8)
    requires next == high ^ low
    ensures next == Feed16(crc, b)
  {
    hide Crc16Table, Shift16;
    HighByteKept(crc, b, c);
    TableOfLowByte(c);
    ShiftSplits(c, high, low, next);
  }

  lemma HighByteKept(crc: bv16, b: bv8, c: bv16)
    requires c == crc ^ b as bv16
    ensures c >> 8 == crc >> 8 == (crc >> 8) & 0xff
  {
  }

  lemma TableOfLowByte(c: bv16)
    ensures Crc16Table((c & 0xff) as bv8) == Shift16(c & 0xff)
  {
    hide Crc16Table, Shift16;
    Crc16TableIsShift((c & 0xff) as bv8);
    assert ((c & 0xff) as bv8) as bv16 == c & 0xff;
  }

  /** Shifting a byte through a 16-bit register only needs the low byte's shift. */
  lemma ShiftSplits(c: bv16, high: bv16, low: bv16, next: bv16)
    requires high == c >> 8
    requires low == Shift16(c & 0xff)
    requires next == high ^ low
    ensures next == Shift16(c)
  {
    hide Shift16, Xor16;
    assert next == Xor16(high, low) by { XorIs(high, low); }
    BytesOfWord(c);
    ShiftXor(c & 0xff00, c & 0xff);
    HighByteFalls(c);
  }

  lemma XorIs(x: bv16, y: bv16)
    ensures x ^ y == Xor16(x, y)
  {
  }

  lemma BytesOfWord(c: bv16)
    ensures Xor16(c & 0xff00, c & 0xff) == c
  {
  }

  lemma HighByteFalls(c: bv16)
    ensures Shift16(c & 0xff00) == c >> 8
  {
  }

  // ----- The shift registers lose nothing

  function Unbit8(c: bv8): bv8 {
    if c & 0x80 == 0x80 then ((c ^ 0x8c) << 1) | 1 else c << 1
  }

  function Unshift8(c: bv8): bv8 {
    Unbit8(Unbit8(Unbit8(Unbit8(Unbit8(Unbit8(Unbit8(Unbit8(c))))))))
  }

  lemma UnshiftShift8(c: bv8)
    ensures Unshift8(Shift8(c)) == c
  {
  }

  function Xor8(x: bv8, y: bv8): bv8 {
    x ^ y
  }

  lemma XorUndo8(c: bv8, b: bv8, x: bv8)
    requires x == c ^ b
    ensures c == Xor8(x, b) && b == Xor8(x, c)
  {
  }

  lemma ShiftInjective8(x: bv8, y: bv8)
    requires Shift8(x) == Shift8(y)
    ensures x == y
  {
    hide Shift8, Unshift8;
    UnshiftShift8(x);
    UnshiftShift8(y);
  }

  lemma XorDecides8(c: bv8, d: bv8, a: bv8, b: bv8, x: bv8, y: bv8)
    requires x == c ^ a && y == d ^ b
    requires x == y
    ensures c == d <==> a == b
  {
    hide Xor8;
    XorUndo8(c, a, x);
    XorUndo8(d, b, y);
  }

  /** The register before a byte, and the byte, can be told from the register after it. */
  lemma Feed8Injective(c: bv8, d: bv8, a: bv8, b: bv8)
    requires Feed8(c, a) == Feed8(d, b)
    ensures c == d <==> a == b
  {
    hide Shift8;
    var x, y := c ^ a, d ^ b;
    ShiftInjective8(x, y);
    XorDecides8(c, d, a, b, x, y);
  }

  /** Different registers stay different while equal bytes follow. */
  lemma {:induction false} Register8Injective(c: bv8, d: bv8, data: seq<bv8>)
    requires c != d
    ensures Register8(c, data) != Register8(d, data)
    decreases |data|
  {
    hide Feed8;
    if data != [] {
      if Feed8(c, data[0]) == Feed8(d, data[0]) {
        Feed8Injective(c, d, data[0], data[0]);
      }
      Register8Injective(Feed8(c, data[0]), Feed8(d, data[0]), data[1..]);
    }
  }

  // ----- Detection

  /** The 8-bit register notices every change of a single byte. */
  lemma SingleByteDetected8(crc: bv8, a: seq<bv8>, b: seq<bv8>, k: nat)
    requires k < |a| == |b| && a[k] != b[k]
    requires forall i :: 0 <= i < |a| && i != k ==> a[i] == b[i]
    ensures Register8(crc, a) != Register8(crc, b)
  {
    hide Feed8;
    var front, back := a[..k], a[k + 1..];
    assert a == front + [a[k]] + back;
    assert b == front + [b[k]] + back;
    var c := Register8(crc, front);
    if Feed8(c, a[k]) == Feed8(c, b[k]) {
      Feed8Injective(c, c, a[k], b[k]);
    }
    Register8Next(crc, front, a[k]);
    Register8Next(crc, front, b[k]);
    Register8Append(crc, front + [a[k]], back);
    Register8Append(crc, front + [b[k]], back);
    Register8Injective(Feed8(c, a[k]), Feed8(c, b[k]), back);
  }

  // ----- The 16-bit register one bit at a time

  /** The lowest `n` bits of a word, the lowest first. */
  function LowBits(n: nat, c: bv16): seq<bool> {
    if n == 0 then [] else [IsOdd16(c)] + LowBits(n - 1, Half16(c))
  }

  function Wide(b: bv8): bv16 {
    b as bv16
  }

  /** The bits of a message in the order in which they enter the register. */
  function BitsOf(data: seq<bv8>): seq<bool>
    decreases |data|
  {
    if data == [] then [] else LowBits(8, Wide(data[0])) + BitsOf(data[1..])
  }

  lemma HalvesJoin(c: bv16)
    ensures Double(Half16(c), IsOdd16(c)) == c
  {
    OddOrEven(c);
  }

  lemma OddOrEven(c: bv16)
    ensures c & 1 == 1 ==> 1 ^ ((c >> 1) << 1) == c
    ensures c & 1 != 1 ==> 0 ^ ((c >> 1) << 1) == c
  {
  }

  lemma {:induction false} PackLowBits(n: nat, c: bv16)
    requires n < 16 && Below(n, c)
    ensures |LowBits(n, c)| == n && Pack(LowBits(n, c)) == c
  {
    hide Double, Half16, IsOdd16;
    if n > 0 {
      HalvesJoin(c);
      PackLowBits(n - 1, Half16(c));
      assert LowBits(n, c)[1..] == LowBits(n - 1, Half16(c));
    }
  }

  lemma ByteBelow(b: bv8)
    ensures Below(8, Wide(b))
  {
    hide Below;
    var c := Wide(b);
    BelowEighth(5, c);
    BelowEighth(2, Eighth16(c));
    ByteGone(b);
    BelowTwo(Eighth16(Eighth16(c)));
  }

  lemma ByteGone(b: bv8)
    ensures Half16(Half16(Eighth16(Eighth16(Wide(b))))) == 0
  {
  }

  lemma BelowTwo(c: bv16)
    ensures Below(2, c) <==> Half16(Half16(c)) == 0
  {
    hide Half16;
    assert Below(2, c) == Below(1, Half16(c));
    assert Below(1, Half16(c)) == Below(0, Half16(Half16(c)));
  }

  lemma ByteBits(b: bv8)
    ensures |LowBits(8, Wide(b))| == 8 && Pack(LowBits(8, Wide(b))) == Wide(b)
  {
    hide LowBits, Pack, Below;
    ByteBelow(b);
    PackLowBits(8, Wide(b));
  }

  lemma FeedIsShift(c: bv16, b: bv8)
    ensures Feed16(c, b) == Shift16(Xor16(c, Wide(b)))
  {
    hide Shift16;
  }

  lemma FeedIsSerial(c: bv16, b: bv8)
    ensures Feed16(c, b) == Serial(c, LowBits(8, Wide(b)))
  {
    hide LowBits, Pack, Bits16, Shift16, Serial, Feed16, Wide, Xor16;
    FeedIsShift(c, b);
    ByteBits(b);
    var bits := LowBits(8, Wide(b));
    SerialPacked(c, bits);
    ShiftIsBits(Xor16(c, Wide(b)));
    assert Bits16(|bits|, Xor16(c, Pack(bits))) == Bits16(8, Xor16(c, Wide(b)));
  }

  lemma {:induction false} RegisterIsSerial(crc: bv16, data: seq<bv8>)
    ensures Register16(crc, data) == Serial(crc, BitsOf(data))
    decreases |data|
  {
    hide LowBits, Feed16;
    if data != [] {
      FeedIsSerial(crc, data[0]);
      SerialAppend(crc, LowBits(8, Wide(data[0])), BitsOf(data[1..]));
      RegisterIsSerial(Feed16(crc, data[0]), data[1..]);
    }
  }

  lemma {:induction false} BitsOfAppend(front: seq<bv8>, back: seq<bv8>)
    ensures BitsOf(front + back) == BitsOf(front) + BitsOf(back)
    decreases |front|
  {
    hide LowBits;
    if front == [] {
      assert front + back == back;
    } else {
      assert (front + back)[1..] == front[1..] + back;
      BitsOfAppend(front[1..], back);
    }
  }

  lemma {:induction false} BitsOfLength(data: seq<bv8>)
    ensures |BitsOf(data)| == 8 * |data|
    decreases |data|
  {
    hide LowBits;
    if data != [] {
      ByteBits(data[0]);
      BitsOfLength(data[1..]);
    }
  }

  lemma ByteFits(a: bv8, b: bv8)
    ensures Wide(a) == Wide(b) ==> a == b
  {
  }

  lemma ByteInjective(a: bv8, b: bv8)
    requires LowBits(8, Wide(a)) == LowBits(8, Wide(b))
    ensures a == b
  {
    hide LowBits, Pack, Wide;
    ByteBits(a);
    ByteBits(b);
    ByteFits(a, b);
  }

  lemma SplitEqual<T>(p: seq<T>, front: seq<T>, q: seq<T>, back: seq<T>)
    requires |p| == |q| && p + front == q + back
    ensures p == q && front == back
  {
    assert p == (p + front)[..|p|] && q == (q + back)[..|q|];
    assert front == (p + front)[|p|..] && back == (q + back)[|q|..];
  }

  lemma {:induction false} BitsOfInjective(a: seq<bv8>, b: seq<bv8>)
    requires |a| == |b| && BitsOf(a) == BitsOf(b)
    ensures a == b
    decreases |a|
  {
    hide LowBits, Pack, Wide;
    if a != [] {
      var p, q := LowBits(8, Wide(a[0])), LowBits(8, Wide(b[0]));
      ByteBits(a[0]);
      ByteBits(b[0]);
      SplitEqual(p, BitsOf(a[1..]), q, BitsOf(b[1..]));
      ByteInjective(a[0], b[0]);
      BitsOfInjective(a[1..], b[1..]);
      assert a == [a[0]] + a[1..] && b == [b[0]] + b[1..];
    }
  }

  lemma Register16Injective(c: bv16, d: bv16, data: seq<bv8>)
    requires c != d
    ensures Register16(c, data) != Register16(d, data)
  {
    hide Register16, Serial, BitsOf;
    RegisterIsSerial(c, data);
    RegisterIsSerial(d, data);
    SerialInjective(c, d, BitsOf(data));
  }

  /** The 16-bit register notices every change confined to sixteen consecutive bits, also when they
      straddle three bytes. */
  lemma BitBurstDetected16(crc: bv16, a: seq<bv8>, b: seq<bv8>, i: nat, j: nat)
    requires |a| == |b| && a != b && Burst(BitsOf(a), BitsOf(b), i, j)
    ensures Register16(crc, a) != Register16(crc, b)
  {
    hide Register16, Serial, BitsOf, Burst;
    RegisterIsSerial(crc, a);
    RegisterIsSerial(crc, b);
    if BitsOf(a) == BitsOf(b) {
      BitsOfInjective(a, b);
    }
    BurstDetected(crc, BitsOf(a), BitsOf(b), i, j);
  }

  ghost predicate WithinSixteenBits(a: seq<bv8>, b: seq<bv8>) {
    exists i: nat, j: nat :: Burst(BitsOf(a), BitsOf(b), i, j)
  }

  /** The number of bits in which two messages differ. */
  function CountAltered(a: seq<bv8>, b: seq<bv8>): nat
    requires |a| == |b|
  {
    BitsOfLength(a);
    BitsOfLength(b);
    CountDifferences(BitsOf(a), BitsOf(b))
  }

  /** It notices every change of an odd number of bits, wherever they lie. */
  lemma OddChangeDetected16(crc: bv16, a: seq<bv8>, b: seq<bv8>)
    requires |a| == |b| && CountAltered(a, b) % 2 == 1
    ensures Register16(crc, a) != Register16(crc, b)
  {
    hide Register16, Serial, BitsOf;
    RegisterIsSerial(crc, a);
    RegisterIsSerial(crc, b);
    BitsOfLength(a);
    BitsOfLength(b);
    OddDetected(crc, BitsOf(a), BitsOf(b));
  }

  /** In particular every change confined to one byte or two neighbouring ones. */
  lemma BurstDetected16(crc: bv16, a: seq<bv8>, b: seq<bv8>, k: nat)
    requires k + 1 < |a| == |b| && a != b
    requires forall i :: 0 <= i < |a| && i != k && i != k + 1 ==> a[i] == b[i]
    ensures Register16(crc, a) != Register16(crc, b)
  {
    hide Register16, BitsOf, Burst;
    var front, back := a[..k], a[k + 2..];
    assert front == b[..k] && back == b[k + 2..];
    assert a == front + (a[k..k + 2] + back) && b == front + (b[k..k + 2] + back);
    BitsOfAppend(front, a[k..k + 2] + back);
    BitsOfAppend(front, b[k..k + 2] + back);
    BitsOfAppend(a[k..k + 2], back);
    BitsOfAppend(b[k..k + 2], back);
    BitsOfLength(front);
    BitsOfLength(a[k..k + 2]);
    BitsOfLength(b[k..k + 2]);
    PairBurst(BitsOf(front), BitsOf(a[k..k + 2]), BitsOf(b[k..k + 2]), BitsOf(back));
    BitBurstDetected16(crc, a, b, |BitsOf(front)|, |BitsOf(front)| + 16);
  }

  lemma PairBurst(front: seq<bool>, p: seq<bool>, q: seq<bool>, back: seq<bool>)
    requires |p| == |q| == 16
    ensures Burst(front + (p + back), front + (q + back), |front|, |front| + 16)
  {
    var x, y := front + (p + back), front + (q + back);
    assert x[..|front|] == front == y[..|front|];
    assert x[|front| + 16..] == back == y[|front| + 16..];
  }

  // ----- The appended checksum

  /** A checksum as the two bytes that travel, low byte first. */
  function LittleEndian(crc: bv16): seq<bv8> {
    [LowByte(crc), HighByte(crc)]
  }

  function LowByte(crc: bv16): bv8 {
    (crc & 0xff) as bv8
  }

  function HighByte(crc: bv16): bv8 {
    (crc >> 8) as bv8
  }

  lemma OwnBytesCancel(c: bv16, low: bv8, high: bv8, s: bv16)
    requires low == (c & 0xff) as bv8
    requires high == (c >> 8) as bv8
    requires s == Shift16(c ^ low as bv16)
    ensures Shift16(s ^ high as bv16) == 0
  {
  }

  /** Two bytes in a row: different pairs leave different registers. */
  lemma PairInjective16(c: bv16, a: bv8, b: bv8, a': bv8, b': bv8)
    requires Feed16(Feed16(c, a), b) == Feed16(Feed16(c, a'), b')
    ensures a == a' && b == b'
  {
    hide Feed16;
    assert [a, b][1..] == [b] && [a', b'][1..] == [b'] && [b][1..] == [] && [b'][1..] == [];
    assert Register16(c, [a, b]) == Register16(c, [a', b']);
    if [a, b] != [a', b'] {
      BurstDetected16(c, [a, b], [a', b'], 0);
    }
  }

  /** A message followed by two bytes leaves an empty register exactly when they are its checksum. */
  lemma ResidueIsZero(crc: bv16, data: seq<bv8>, low: bv8, high: bv8)
    ensures Register16(crc, data + [low, high]) == 0 <==> [low, high] == LittleEndian(Register16(crc, data))
  {
    hide Feed16, LowByte, HighByte;
    var c := Register16(crc, data);
    assert data + [low, high] == data + [low] + [high];
    Register16Next(crc, data, low);
    Register16Next(crc, data + [low], high);
    OwnBytesFeedToZero(c);
    if Feed16(Feed16(c, low), high) == 0 {
      PairInjective16(c, low, high, LowByte(c), HighByte(c));
    }
  }

  lemma OwnBytesFeedToZero(c: bv16)
    ensures Feed16(Feed16(c, LowByte(c)), HighByte(c)) == 0
  {
    hide Shift16;
    OwnBytesCancel(c, LowByte(c), HighByte(c), Feed16(c, LowByte(c)));
  }
}
