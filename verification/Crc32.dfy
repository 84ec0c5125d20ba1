// The CRC of PNG chunks in lib.js (inside noisePng): a table of 256 words and one lookup per byte,
// against division of the message polynomial bit by bit.
//
// JavaScript's bitwise operators work on 32-bit patterns, so a pattern is a bv32 here; `>>> 0` only
// chooses how the last one is read.

module Crc32 {
  import opened ZeroBits

  const POLY: bv32 := 0xedb88320

  // The operators of the source, named so that a proof can leave their bits alone.
  function Xor(c: bv32, d: bv32): bv32 { c ^ d }
  predicate Odd(c: bv32) { c & 1 == 1 }
  function Half(c: bv32): bv32 { c >> 1 }
  function Low(c: bv32): bv32 { c & 255 }
  function High(c: bv32): bv32 { c >> 8 }
  function Wide(x: bv8): bv32 { x as bv32 }

  // One step of the table's inner loop.
  function Step(c: bv32): bv32 {
    if Odd(c) then Xor(POLY, Half(c)) else Half(c)
  }

  function Steps(c: bv32, k: nat): bv32
    decreases k
  {
    if k == 0 then c else Steps(Step(c), k - 1)
  }

  function TableWord(n: bv32): bv32 {
    Steps(n, 8)
  }

  // One turn of the byte loop.
  function Update(c: bv32, x: bv8): bv32 {
    Xor(TableWord(Low(Xor(c, Wide(x)))), High(c))
  }

  function Register(c: bv32, b: seq<bv8>): bv32
    decreases |b|
  {
    if b == [] then c else Register(Update(c, b[0]), b[1..])
  }

  function Crc(b: seq<bv8>): bv32 {
    Xor(Register(0xffffffff, b), 0xffffffff)
  }

  // ------------------------------------------------------------------ the program

  lemma {:induction false} StepIs(c: bv32)
    ensures Step(c) == if c & 1 == 1 then 0xedb88320 ^ (c >> 1) else c >> 1
  {
  }

  // The inner loop of the table.
  method Word(n: bv32) returns (c: bv32)
    ensures c == TableWord(n)
  {
    hide Step;
    c := n;
    for k := 0 to 8
      invariant Steps(c, 8 - k) == TableWord(n)
    {
      StepIs(c);
      c := if c & 1 == 1 then 0xedb88320 ^ (c >> 1) else c >> 1;
    }
  }

  method BuildTable() returns (table: array<bv32>)
    ensures fresh(table) && table.Length == 256
    ensures forall n :: 0 <= n < 256 ==> table[n] == TableWord(n as bv32)
  {
    hide TableWord;
    table := new bv32[256];
    for n := 0 to 256
      invariant forall m :: 0 <= m < n ==> table[m] == TableWord(m as bv32)
    {
      var w := Word(n as bv32);
      table[n] := w;
    }
  }

  lemma {:induction false} LowByte(c: bv32)
    ensures 0 <= Low(c) as int < 256 && (Low(c) as int) as bv32 == Low(c)
  {
    assert Low(c) <= 255;
  }

  method Lookup(table: array<bv32>, c: bv32) returns (w: bv32)
    requires table.Length == 256
    requires forall n :: 0 <= n < 256 ==> table[n] == TableWord(n as bv32)
    ensures w == TableWord(Low(c))
  {
    hide TableWord, Low;
    LowByte(c);
    w := table[Low(c) as int];
  }

  // crcTable[(c ^ x) & 255] ^ (c >>> 8) for each byte.
  method ComputeCrc(table: array<bv32>, b: seq<bv8>) returns (r: bv32)
    requires table.Length == 256
    requires forall n :: 0 <= n < 256 ==> table[n] == TableWord(n as bv32)
    ensures r == Crc(b)
  {
    hide TableWord, Xor, High, Low, Wide;
    var c: bv32 := 0xffffffff;
    assert b[0..] == b;
    for i := 0 to |b|
      invariant Register(c, b[i..]) == Register(0xffffffff, b)
    {
      assert b[i..][0] == b[i] && b[i..][1..] == b[i + 1..];
      var w := Lookup(table, Xor(c, Wide(b[i])));
      c := Xor(w, High(c));
    }
    r := Xor(c, 0xffffffff);
  }

  // crc() of the source, table included.
  method PngCrc(b: seq<bv8>) returns (r: bv32)
    ensures r == Crc(b)
  {
    var table := BuildTable();
    r := ComputeCrc(table, b);
  }

  // ------------------------------------------------------------------ facts about bits

  lemma {:induction false} XorHalves(c: bv32, d: bv32)
    ensures Half(Xor(c, d)) == Xor(Half(c), Half(d))
    ensures Odd(Xor(c, d)) == (Odd(c) != Odd(d))
  {
    assert (c ^ d) & 1 == (c & 1) ^ (d & 1);
  }

  lemma {:induction false} XorLeft(p: bv32, a: bv32, b: bv32)
    ensures Xor(Xor(p, a), b) == Xor(p, Xor(a, b))
  {
  }

  lemma {:induction false} XorRight(p: bv32, a: bv32, b: bv32)
    ensures Xor(a, Xor(p, b)) == Xor(p, Xor(a, b))
  {
  }

  lemma {:induction false} XorUndo(p: bv32, v: bv32)
    ensures Xor(p, Xor(p, v)) == v
  {
  }

  lemma {:induction false} XorSame(p: bv32, a: bv32, b: bv32)
    ensures Xor(Xor(p, a), Xor(p, b)) == Xor(a, b)
  {
    hide Xor;
    XorLeft(p, a, Xor(p, b));
    XorRight(p, a, b);
    XorUndo(p, Xor(a, b));
  }

  lemma {:induction false} XorCancels(p: bv32, a: bv32, b: bv32)
    requires Xor(p, a) == Xor(p, b) || Xor(a, p) == Xor(b, p)
    ensures a == b
  {
    assert p ^ (p ^ a) == a && p ^ (p ^ b) == b;
  }

  predicate Clear(c: bv32, mask: bv32) { c & mask == 0 }
  function Drop3(c: bv32): bv32 { c >> 3 }
  function Drop6(c: bv32): bv32 { c >> 6 }

  lemma {:induction false} ClearByte(c: bv32)
    requires Clear(c, 255)
    ensures !Odd(c) && !Odd(Half(c)) && Clear(Half(Half(c)), 63) && High(c) == Drop6(Half(Half(c)))
  {
  }

  lemma {:induction false} ClearSix(c: bv32)
    requires Clear(c, 63)
    ensures !Odd(c) && !Odd(Half(c)) && !Odd(Half(Half(c)))
    ensures Clear(Half(Half(Half(c))), 7) && Drop6(c) == Drop3(Half(Half(Half(c))))
  {
  }

  lemma {:induction false} ClearThree(c: bv32)
    requires Clear(c, 7)
    ensures !Odd(c) && !Odd(Half(c)) && !Odd(Half(Half(c))) && Drop3(c) == Half(Half(Half(c)))
  {
  }

  lemma {:induction false} SplitByte(c: bv32)
    ensures var high := c & 0xffffff00;
      c == Xor(Low(c), high) && Clear(high, 255) && High(high) == High(c)
  {
  }

  lemma {:induction false} HighOfByte(c: bv32, x: bv8)
    ensures High(Xor(c, Wide(x))) == High(c)
  {
  }

  // ------------------------------------------------------------------ the table against single steps

  lemma {:induction false} EightSteps(c: bv32)
    ensures Steps(c, 8) == Step(Step(Step(Step(Step(Step(Step(Step(c))))))))
  {
    hide Step;
    var c1 := Step(c);
    var c2 := Step(c1);
    var c3 := Step(c2);
    var c4 := Step(c3);
    var c5 := Step(c4);
    var c6 := Step(c5);
    var c7 := Step(c6);
    assert Steps(c, 8) == Steps(c1, 7) == Steps(c2, 6);
    assert Steps(c2, 6) == Steps(c3, 5) == Steps(c4, 4);
    assert Steps(c4, 4) == Steps(c5, 3) == Steps(c6, 2);
    assert Steps(c6, 2) == Steps(c7, 1) == Steps(Step(c7), 0);
  }

  // A step is linear over exclusive or.
  lemma {:induction false} StepXor(c: bv32, d: bv32)
    ensures Step(Xor(c, d)) == Xor(Step(c), Step(d))
  {
    hide Odd, Half, Xor;
    XorHalves(c, d);
    XorSame(POLY, Half(c), Half(d));
    XorLeft(POLY, Half(c), Half(d));
    XorRight(POLY, Half(c), Half(d));
  }

  lemma {:induction false} StepsXor(c: bv32, d: bv32, k: nat)
    ensures Steps(Xor(c, d), k) == Xor(Steps(c, k), Steps(d, k))
    decreases k
  {
    hide Step, Xor;
    if k > 0 {
      StepXor(c, d);
      StepsXor(Step(c), Step(d), k - 1);
    }
  }

  lemma {:induction false} EvenStep(c: bv32)
    requires !Odd(c)
    ensures Step(c) == Half(c)
  {
  }

  lemma {:induction false} ThreeEven(c: bv32)
    requires !Odd(c) && !Odd(Half(c)) && !Odd(Half(Half(c)))
    ensures Step(Step(Step(c))) == Half(Half(Half(c)))
  {
    hide Step, Odd, Half;
    EvenStep(c);
    EvenStep(Half(c));
    EvenStep(Half(Half(c)));
  }

  // Steps of a pattern with a clear low byte only shift.
  lemma {:induction false} HighStepsShift(c: bv32)
    requires Clear(c, 255)
    ensures Steps(c, 8) == High(c)
  {
    hide Step, Steps, Odd, Half, High, Clear, Drop3, Drop6;
    EightSteps(c);
    ClearByte(c);
    EvenStep(c);
    EvenStep(Half(c));
    var d := Half(Half(c));
    ClearSix(d);
    ThreeEven(d);
    var e := Half(Half(Half(d)));
    ClearThree(e);
    ThreeEven(e);
  }

  // Eight single steps are one lookup of the low byte, exclusive or the rest shifted down.
  lemma {:induction false} EightStepsAreOneLookup(c: bv32)
    ensures Steps(c, 8) == Xor(TableWord(Low(c)), High(c))
  {
    hide Steps, Xor, High, Low;
    var high := c & 0xffffff00;
    SplitByte(c);
    StepsXor(Low(c), high, 8);
    HighStepsShift(high);
  }

  // ------------------------------------------------------------------ one bit at a time

  // The lowest k bits of a byte, lowest first.
  function Bits(x: bv8, k: nat): (m: seq<bool>)
    ensures |m| == k
    decreases k
  {
    if k == 0 then [] else [x & 1 == 1] + Bits(x >> 1, k - 1)
  }

  function Stream(b: seq<bv8>): seq<bool> {
    if b == [] then [] else Bits(b[0], 8) + Stream(b[1..])
  }

  // The division register after one message bit.
  function Feed(c: bv32, bit: bool): bv32 {
    if Odd(c) != bit then Xor(POLY, Half(c)) else Half(c)
  }

  function FeedAll(c: bv32, m: seq<bool>): bv32
    decreases |m|
  {
    if m == [] then c else FeedAll(Feed(c, m[0]), m[1..])
  }

  lemma {:induction false} FeedAppend(c: bv32, a: seq<bool>, b: seq<bool>)
    ensures FeedAll(c, a + b) == FeedAll(FeedAll(c, a), b)
    decreases |a|
  {
    hide Feed;
    if a == [] {
      assert a + b == b;
    } else {
      assert (a + b)[1..] == a[1..] + b;
      FeedAppend(Feed(c, a[0]), a[1..], b);
    }
  }

  // Putting a whole pattern in and stepping is feeding its lowest bit and keeping the rest for later.
  lemma {:induction false} FeedIsStep(c: bv32, y: bv32)
    ensures Xor(Feed(c, Odd(y)), Half(y)) == Step(Xor(c, y))
  {
    hide Odd, Half, Xor;
    XorHalves(c, y);
    XorLeft(POLY, Half(c), Half(y));
    XorSame(POLY, Half(c), Half(y));
    XorRight(POLY, Half(c), Half(y));
  }

  lemma {:induction false} WideHalf(x: bv8)
    ensures Wide(x >> 1) == Half(Wide(x)) && (x & 1 == 1) == Odd(Wide(x))
  {
  }

  // What is left of a byte after k bits have been taken off.
  function Left(x: bv8, k: nat): bv8
    decreases k
  {
    if k == 0 then x else Left(x >> 1, k - 1)
  }

  // Feeding k bits of a byte one by one is k steps of the register with the byte put in at once.
  lemma {:induction false} FeedByte(c: bv32, x: bv8, k: nat)
    ensures Xor(FeedAll(c, Bits(x, k)), Wide(Left(x, k))) == Steps(Xor(c, Wide(x)), k)
    decreases k
  {
    hide Feed, Step, Xor, Odd, Half, Wide;
    if k > 0 {
      assert Bits(x, k)[1..] == Bits(x >> 1, k - 1);
      WideHalf(x);
      FeedIsStep(c, Wide(x));
      FeedByte(Feed(c, Odd(Wide(x))), x >> 1, k - 1);
    }
  }

  lemma {:induction false} EightShifts(x: bv8)
    ensures x >> 1 >> 1 >> 1 >> 1 >> 1 >> 1 >> 1 >> 1 == 0
  {
  }

  lemma {:induction false} NothingLeft(x: bv8)
    ensures Left(x, 8) == 0
  {
    var a := x >> 1;
    var b := a >> 1;
    var c := b >> 1;
    var d := c >> 1;
    assert Left(x, 8) == Left(a, 7) == Left(b, 6) == Left(c, 5) == Left(d, 4);
    assert Left(d, 4) == Left(d >> 1, 3) == Left(d >> 1 >> 1, 2);
    assert Left(d >> 1 >> 1, 2) == Left(d >> 1 >> 1 >> 1, 1) == Left(d >> 1 >> 1 >> 1 >> 1, 0);
    EightShifts(x);
  }

  lemma {:induction false} XorZero(v: bv32)
    ensures Xor(v, Wide(0)) == v
  {
  }

  lemma {:induction false} UpdateFeedsByte(c: bv32, x: bv8)
    ensures Update(c, x) == FeedAll(c, Bits(x, 8))
  {
    hide FeedAll, Steps, TableWord, Xor, Bits, High, Low, Wide;
    FeedByte(c, x, 8);
    NothingLeft(x);
    EightStepsAreOneLookup(Xor(c, Wide(x)));
    HighOfByte(c, x);
    XorZero(FeedAll(c, Bits(x, 8)));
  }

  // The table-driven register is the bit-serial one, on every message.
  lemma {:induction false} RegisterFeedsBits(c: bv32, b: seq<bv8>)
    ensures Register(c, b) == FeedAll(c, Stream(b))
    decreases |b|
  {
    hide Update, Bits, Feed;
    if b != [] {
      UpdateFeedsByte(c, b[0]);
      FeedAppend(c, Bits(b[0], 8), Stream(b[1..]));
      RegisterFeedsBits(Update(c, b[0]), b[1..]);
    }
  }

  // ------------------------------------------------------------------ polynomial division

  // Bit i of a pattern.
  predicate BitAt(c: bv32, i: nat)
    decreases i
  {
    if i == 0 then Odd(c) else BitAt(Half(c), i - 1)
  }

  // A pattern as coefficients, the lowest bit being the highest power.
  function Coefficients(c: bv32): (p: seq<bool>)
    ensures |p| == 32
  {
    seq(32, i requires 0 <= i < 32 => BitAt(c, i))
  }

  function Plus(p: seq<bool>, q: seq<bool>): (r: seq<bool>)
    requires |p| == |q|
    ensures |r| == |p|
  {
    seq(|p|, i requires 0 <= i < |p| => p[i] != q[i])
  }

  // Long division over two-valued coefficients by x^32 + POLY, highest power first: the remainder.
  function Remainder(p: seq<bool>): (r: seq<bool>)
    requires |p| >= 32
    ensures |r| == 32
    decreases |p|
  {
    if |p| == 32 then p
    else if p[0] then Remainder(Plus(p[1..33], Coefficients(POLY)) + p[33..])
    else Remainder(p[1..])
  }

  // A message followed by 32 zeros, with a register added onto its first 32 coefficients.
  function Pending(c: bv32, m: seq<bool>): (p: seq<bool>)
    ensures |p| == |m| + 32
  {
    var d := m + Zeros(32);
    Plus(d[..32], Coefficients(c)) + d[32..]
  }

  lemma {:induction false} BitOfXor(c: bv32, d: bv32, i: nat)
    ensures BitAt(Xor(c, d), i) == (BitAt(c, i) != BitAt(d, i))
    decreases i
  {
    hide Xor, Odd, Half;
    XorHalves(c, d);
    if i > 0 {
      BitOfXor(Half(c), Half(d), i - 1);
    }
  }

  lemma {:induction false} EightHalves(c: bv32, i: nat)
    ensures BitAt(c, i + 8) == BitAt(High(c), i)
  {
    var c2 := Half(Half(c));
    var c5 := Half(Half(Half(c2)));
    assert BitAt(c, i + 8) == BitAt(Half(c), i + 7) == BitAt(c2, i + 6);
    assert BitAt(c2, i + 6) == BitAt(Half(c2), i + 5) == BitAt(Half(Half(c2)), i + 4) == BitAt(c5, i + 3);
    assert BitAt(c5, i + 3) == BitAt(Half(c5), i + 2) == BitAt(Half(Half(c5)), i + 1) == BitAt(Half(Half(Half(c5))), i);
    HalvesAreHigh(c);
  }

  lemma {:induction false} HalvesAreHigh(c: bv32)
    ensures Half(Half(Half(Half(Half(Half(Half(Half(c)))))))) == High(c)
  {
  }

  lemma {:induction false} FourHighs(c: bv32)
    ensures High(High(High(High(c)))) == 0
  {
  }

  lemma {:induction false} NoBit32(c: bv32)
    ensures !BitAt(c, 32)
  {
    hide High;
    EightHalves(c, 24);
    EightHalves(High(c), 16);
    EightHalves(High(High(c)), 8);
    EightHalves(High(High(High(c))), 0);
    FourHighs(c);
  }

  lemma {:induction false} FeedBits(c: bv32, bit: bool, i: nat)
    ensures BitAt(Feed(c, bit), i) == if Odd(c) != bit then BitAt(POLY, i) != BitAt(c, i + 1) else BitAt(c, i + 1)
  {
    hide Xor, Odd, Half;
    BitOfXor(POLY, Half(c), i);
    assert BitAt(c, i + 1) == BitAt(Half(c), i);
  }

  lemma {:induction false} PendingAt(c: bv32, m: seq<bool>, i: nat)
    requires i < |m| + 32
    ensures var d := m + Zeros(32);
      Pending(c, m)[i] == if i < 32 then d[i] != BitAt(c, i) else d[i]
  {
  }

  // A polynomial after one step of long division.
  function Divided(p: seq<bool>): (r: seq<bool>)
    requires |p| > 32
    ensures |r| == |p| - 1
  {
    if p[0] then Plus(p[1..33], Coefficients(POLY)) + p[33..] else p[1..]
  }

  lemma {:induction false} DividedAt(p: seq<bool>, i: nat)
    requires |p| > 32 && i < |p| - 1
    ensures Divided(p)[i] == if p[0] && i < 32 then p[i + 1] != BitAt(POLY, i) else p[i + 1]
  {
  }

  lemma {:induction false} DividedIsFed(c: bv32, m: seq<bool>, i: nat)
    requires m != [] && i < |m| + 31
    ensures Divided(Pending(c, m))[i] == Pending(Feed(c, m[0]), m[1..])[i]
  {
    hide Feed, Odd, Half, BitAt, Remainder, Pending, Divided;
    var d := m + Zeros(32);
    assert d[1..] == m[1..] + Zeros(32);
    FirstBit(c, m);
    DividedAt(Pending(c, m), i);
    PendingAt(c, m, i + 1);
    PendingAt(Feed(c, m[0]), m[1..], i);
    if i < 32 {
      FeedBits(c, m[0], i);
      NoBit32(c);
    }
  }

  // One step of long division is one turn of the register.
  lemma {:induction false} DivideOnce(c: bv32, m: seq<bool>)
    requires m != []
    ensures Remainder(Pending(c, m)) == Remainder(Pending(Feed(c, m[0]), m[1..]))
  {
    hide Feed, Remainder, Pending, Divided;
    var p, q := Pending(c, m), Pending(Feed(c, m[0]), m[1..]);
    forall i | 0 <= i < |q|
      ensures Divided(p)[i] == q[i]
    {
      DividedIsFed(c, m, i);
    }
    assert Divided(p) == q;
    DivisionStep(p);
  }

  lemma {:induction false} FirstBit(c: bv32, m: seq<bool>)
    requires m != []
    ensures Pending(c, m)[0] == (Odd(c) != m[0])
  {
    assert BitAt(c, 0) == Odd(c);
  }

  lemma {:induction false} DivisionStep(p: seq<bool>)
    requires |p| > 32
    ensures Remainder(p) == Remainder(Divided(p))
  {
    hide Coefficients, Plus;
  }

  lemma {:induction false} RegisterDivides(c: bv32, m: seq<bool>)
    ensures Coefficients(FeedAll(c, m)) == Remainder(Pending(c, m))
    decreases |m|
  {
    hide Feed;
    if m == [] {
      assert [] + Zeros(32) == Zeros(32);
      assert Pending(c, m) == Coefficients(c);
    } else {
      hide Pending, Remainder, Coefficients;
      DivideOnce(c, m);
      RegisterDivides(Feed(c, m[0]), m[1..]);
    }
  }

  // The CRC of PNG (section 5.5 and Annex D of its specification) is the complement of a remainder:
  // that of the message, its first 32 bits complemented and 32 zeros appended, divided by the
  // generator. This is what the table computes on every byte sequence.
  lemma {:induction false} CrcIsARemainder(b: seq<bv8>)
    ensures Coefficients(Xor(Crc(b), 0xffffffff)) == Remainder(Pending(0xffffffff, Stream(b)))
  {
    hide Xor, Register, FeedAll, Remainder, Pending, Coefficients;
    RegisterFeedsBits(0xffffffff, b);
    RegisterDivides(0xffffffff, Stream(b));
    XorTwice(Register(0xffffffff, b), 0xffffffff);
  }

  lemma {:induction false} XorTwice(v: bv32, p: bv32)
    ensures Xor(Xor(v, p), p) == v
  {
  }

  // ------------------------------------------------------------------ detection

  lemma {:induction false} StepInjective(c: bv32, d: bv32)
    requires Step(c) == Step(d)
    ensures c == d
  {
    TopBit(c);
    TopBit(d);
    assert Odd(c) == Odd(d);
    if Odd(c) {
      XorCancels(POLY, Half(c), Half(d));
    }
    HalfAndOdd(c, d);
  }

  lemma {:induction false} TopBit(c: bv32)
    ensures Step(c) & 0x80000000 != 0 <==> Odd(c)
  {
  }

  lemma {:induction false} HalfAndOdd(c: bv32, d: bv32)
    requires Half(c) == Half(d) && Odd(c) == Odd(d)
    ensures c == d
  {
  }

  lemma {:induction false} StepsInjective(c: bv32, d: bv32, k: nat)
    requires Steps(c, k) == Steps(d, k)
    ensures c == d
    decreases k
  {
    hide Step;
    if k > 0 {
      StepsInjective(Step(c), Step(d), k - 1);
      StepInjective(c, d);
    }
  }

  lemma {:induction false} UpdateInjective(c: bv32, d: bv32, x: bv8, y: bv8)
    requires Update(c, x) == Update(d, y)
    ensures Xor(c, Wide(x)) == Xor(d, Wide(y))
  {
    hide Steps, Xor, High, Low, Wide;
    EightStepsAreOneLookup(Xor(c, Wide(x)));
    EightStepsAreOneLookup(Xor(d, Wide(y)));
    HighOfByte(c, x);
    HighOfByte(d, y);
    StepsInjective(Xor(c, Wide(x)), Xor(d, Wide(y)), 8);
  }

  lemma {:induction false} RegisterInjective(c: bv32, d: bv32, b: seq<bv8>)
    requires Register(c, b) == Register(d, b)
    ensures c == d
    decreases |b|
  {
    hide Update, Xor;
    if b != [] {
      RegisterInjective(Update(c, b[0]), Update(d, b[0]), b[1..]);
      UpdateInjective(c, d, b[0], b[0]);
      XorCancels(Wide(b[0]), c, d);
    }
  }

  lemma {:induction false} RegisterAppend(c: bv32, a: seq<bv8>, b: seq<bv8>)
    ensures Register(c, a + b) == Register(Register(c, a), b)
    decreases |a|
  {
    hide Update;
    if a == [] {
      assert a + b == b;
    } else {
      assert (a + b)[1..] == a[1..] + b;
      RegisterAppend(Update(c, a[0]), a[1..], b);
    }
  }

  lemma {:induction false} WideInjective(x: bv8, y: bv8)
    requires Wide(x) == Wide(y)
    ensures x == y
  {
  }

  // Changing one byte of a message always changes its CRC.
  lemma {:induction false} OneByteIsDetected(a: seq<bv8>, x: bv8, y: bv8, b: seq<bv8>)
    requires Crc(a + [x] + b) == Crc(a + [y] + b)
    ensures x == y
  {
    hide Update, Xor, Wide;
    var c := Register(0xffffffff, a);
    RegisterAppend(0xffffffff, a + [x], b);
    RegisterAppend(0xffffffff, a + [y], b);
    RegisterAppend(0xffffffff, a, [x]);
    RegisterAppend(0xffffffff, a, [y]);
    assert [x][1..] == [] && [y][1..] == [];
    assert Register(c, [x]) == Register(Update(c, x), []) == Update(c, x);
    assert Register(c, [y]) == Register(Update(c, y), []) == Update(c, y);
    XorCancels(0xffffffff, Register(Update(c, x), b), Register(Update(c, y), b));
    RegisterInjective(Update(c, x), Update(c, y), b);
    UpdateInjective(c, c, x, y);
    XorCancels(c, Wide(x), Wide(y));
    WideInjective(x, y);
  }
}
