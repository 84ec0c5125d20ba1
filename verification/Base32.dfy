// base32Decode() of totp.ts: an accumulator that is shifted and never masked.
//
// The accumulator is a 32-bit pattern, read as a number below 2^32. `(value << 5) | idx` drops what
// leaves the 32 bits and fills the five free places with idx; `(value >>> k) & 0xff` is a quotient.

module Base32 {
  import opened Options
  import opened ZeroBits

  type Byte = n: int | 0 <= n < 256
  type Five = n: int | 0 <= n < 32

  const WORD: nat := 0x1_0000_0000

  // ------------------------------------------------------------------ bits

  // The lowest n bits of v, highest first.
  function Bits(v: nat, n: nat): (b: seq<bool>)
    ensures |b| == n
    decreases n
  {
    if n == 0 then [] else Bits(v / 2, n - 1) + [v % 2 == 1]
  }

  function Value(b: seq<bool>): nat {
    if b == [] then 0 else 2 * Value(b[..|b| - 1]) + if b[|b| - 1] then 1 else 0
  }

  function Shr(v: nat, k: nat): nat
    decreases k
  {
    if k == 0 then v else Shr(v / 2, k - 1)
  }

  // The bit stream of bytes, and of five-bit symbols.
  function OfBytes(b: seq<Byte>): (s: seq<bool>)
    ensures |s| == 8 * |b|
  {
    if b == [] then [] else OfBytes(b[..|b| - 1]) + Bits(b[|b| - 1], 8)
  }

  function OfSymbols(s: seq<Five>): (r: seq<bool>)
    ensures |r| == 5 * |s|
  {
    if s == [] then [] else OfSymbols(s[..|s| - 1]) + Bits(s[|s| - 1], 5)
  }

  lemma {:induction false} BitsSplit(v: nat, a: nat, b: nat)
    ensures Bits(v, a + b) == Bits(Shr(v, b), a) + Bits(v, b)
    decreases b
  {
    if b > 0 {
      BitsSplit(v / 2, a, b - 1);
    }
  }

  // Bits do not see multiples of 2^n added.
  lemma {:induction false} BitsIgnoreHigh(v: nat, high: nat, n: nat)
    ensures Bits(v + high * Pow2(n), n) == Bits(v, n)
    decreases n
  {
    if n > 0 {
      var p := Pow2(n - 1);
      assert high * Pow2(n) == 2 * (high * p);
      assert (v + 2 * (high * p)) / 2 == v / 2 + high * p && (v + 2 * (high * p)) % 2 == v % 2;
      BitsIgnoreHigh(v / 2, high, n - 1);
    }
  }

  function Pow2(n: nat): (p: nat)
    ensures p > 0
  {
    if n == 0 then 1 else 2 * Pow2(n - 1)
  }

  lemma {:induction false} ValueOfBits(v: nat, n: nat)
    requires v < Pow2(n)
    ensures Value(Bits(v, n)) == v
    decreases n
  {
    if n > 0 {
      ValueOfBits(v / 2, n - 1);
      assert Bits(v, n)[..n - 1] == Bits(v / 2, n - 1);
    }
  }

  lemma {:induction false} BitsOfValue(b: seq<bool>)
    ensures Bits(Value(b), |b|) == b && Value(b) < Pow2(|b|)
  {
    if b != [] {
      BitsOfValue(b[..|b| - 1]);
      assert b == b[..|b| - 1] + [b[|b| - 1]];
    }
  }

  // ------------------------------------------------------------------ the accumulator

  function Push(value: nat, idx: Five): nat {
    value * 32 % WORD + idx
  }

  function Emitted(value: nat, k: nat): Byte {
    Shr(value, k) % 256
  }

  lemma {:induction false} ShrFive(v: nat)
    ensures Shr(v, 5) == v / 32
  {
    assert Shr(v, 5) == Shr(v / 2, 4) == Shr(v / 2 / 2, 3) == Shr(v / 2 / 2 / 2, 2);
    assert Shr(v / 2 / 2 / 2, 2) == Shr(v / 2 / 2 / 2 / 2, 1) == Shr(v / 2 / 2 / 2 / 2 / 2, 0);
  }

  lemma {:induction false} Pow27()
    ensures Pow2(27) == 0x800_0000
  {
    assert Pow2(3) == 8;
    assert Pow2(6) == 8 * Pow2(3);
    assert Pow2(9) == 8 * Pow2(6);
    assert Pow2(12) == 8 * Pow2(9);
    assert Pow2(15) == 8 * Pow2(12);
    assert Pow2(18) == 8 * Pow2(15);
    assert Pow2(21) == 8 * Pow2(18);
    assert Pow2(24) == 8 * Pow2(21);
  }

  lemma {:induction false} PowSplit(a: nat, b: nat)
    ensures Pow2(a + b) == Pow2(a) * Pow2(b)
    decreases b
  {
    if b > 0 {
      PowSplit(a, b - 1);
    }
  }

  lemma {:induction false} PushShifts(value: nat, idx: Five)
    ensures Push(value, idx) == 32 * (value % 0x800_0000) + idx
  {
    var high, low := value / 0x800_0000, value % 0x800_0000;
    assert value * 32 == high * WORD + low * 32;
    assert 0 <= low * 32 < WORD;
  }

  lemma {:induction false} BitsModulo(value: nat, n: nat, m: nat)
    requires n <= m
    ensures Bits(value % Pow2(m), n) == Bits(value, n)
  {
    hide Bits, Pow2;
    PowSplit(m - n, n);
    var p, q := Pow2(m - n), Pow2(n);
    assert m - n + n == m;
    var high, low := value / Pow2(m), value % Pow2(m);
    assert value == low + high * Pow2(m);
    assert high * (p * q) == (high * p) * q;
    BitsIgnoreHigh(low, high * p, n);
  }

  // A pushed symbol goes below the pending bits; what the 32-bit word drops is above them.
  lemma {:induction false} PushBits(value: nat, n: nat, idx: Five)
    requires n <= 27
    ensures Bits(Push(value, idx), n + 5) == Bits(value, n) + Bits(idx, 5)
  {
    hide Bits, Push, Shr;
    var low := value % 0x800_0000;
    PushShifts(value, idx);
    var w := Push(value, idx);
    assert w / 32 == low;
    BitsSplit(w, n, 5);
    ShrFive(w);
    assert Pow2(5) == 2 * Pow2(4) == 32;
    assert w == idx + low * Pow2(5);
    BitsIgnoreHigh(idx, low, 5);
    Pow27();
    BitsModulo(value, n, 27);
  }

  // An emitted byte is the eight highest pending bits, and the others stay pending.
  lemma {:induction false} EmitBits(value: nat, k: nat)
    ensures Bits(value, 8 + k) == Bits(Emitted(value, k), 8) + Bits(value, k)
  {
    BitsSplit(value, 8, k);
    var v := Shr(value, k);
    assert Pow2(8) == 256 by {
      assert Pow2(4) == 16;
      PowSplit(4, 4);
    }
    assert v == v % 256 + (v / 256) * 256;
    BitsIgnoreHigh(v % 256, v / 256, 8);
  }

  // The decoding loop: the bytes out are the whole bytes of the symbols' bit stream.
  method DecodeSymbols(s: seq<Five>) returns (out: seq<Byte>)
    ensures |out| == 5 * |s| / 8 && OfBytes(out) == OfSymbols(s)[..8 * |out|]
  {
    hide Bits, Push, Emitted;
    var bits, value := 0, 0;
    out := [];
    assert s[..0] == [];
    for i := 0 to |s|
      invariant bits < 8 && OfBytes(out) + Bits(value, bits) == OfSymbols(s[..i])
    {
      assert s[..i + 1][..i] == s[..i];
      PushBits(value, bits, s[i]);
      ghost var before := OfBytes(out);
      assert before + (Bits(value, bits) + Bits(s[i], 5)) == before + Bits(value, bits) + Bits(s[i], 5);
      value := Push(value, s[i]);
      bits := bits + 5;
      if bits >= 8 {
        var b := Emitted(value, bits - 8);
        EmitBits(value, bits - 8);
        assert before + (Bits(b, 8) + Bits(value, bits - 8)) == before + Bits(b, 8) + Bits(value, bits - 8);
        assert (out + [b])[..|out|] == out;
        out := out + [b];
        bits := bits - 8;
      }
    }
    assert s[..|s|] == s;
    assert OfSymbols(s)[..8 * |out|] == OfBytes(out);
  }

  // ------------------------------------------------------------------ text

  const ALPHABET := "ABCDEFGHIJKLMNOPQRSTUVWXYZ234567"

  // alphabet.indexOf(c)
  function IndexOf(c: char): (r: Option<Five>) {
    if 'A' <= c <= 'Z' then Some(c as int - 'A' as int)
    else if '2' <= c <= '7' then Some(c as int - '2' as int + 26) else None
  }

  function SymbolChar(i: Five): (c: char)
    ensures IndexOf(c) == Some(i)
  {
    if i < 26 then ('A' as int + i) as char else ('2' as int + i - 26) as char
  }

  lemma {:induction false} AlphabetInOrder(i: Five)
    ensures |ALPHABET| == 32 && ALPHABET[i] == SymbolChar(i)
  {
  }

  // What the search finds is the one place of c in the alphabet, if c has one.
  lemma {:induction false} IndexOfFinds(c: char)
    ensures match IndexOf(c)
            case Some(i) => i < |ALPHABET| && ALPHABET[i] == c
            case None => c !in ALPHABET
  {
    hide ALPHABET;
    AlphabetInOrder(0);
    forall i: Five {
      AlphabetInOrder(i);
    }
    if c in ALPHABET {
      var j :| 0 <= j < |ALPHABET| && ALPHABET[j] == c;
      AlphabetInOrder(j);
    }
  }

  predicate IsSpace(c: char) {
    var n := c as int;
    9 <= n <= 13 || n == 32 || n == 160
  }

  function Upper(c: char): char {
    if 'a' <= c <= 'z' then (c as int - 32) as char else c
  }

  // replace(/=+$/g, '')
  function Unpad(s: string): string {
    if s != "" && s[|s| - 1] == '=' then Unpad(s[..|s| - 1]) else s
  }

  // replace(/\s+/g, '').toUpperCase()
  function Squeeze(s: string): string {
    if s == "" then "" else (if IsSpace(s[0]) then "" else [Upper(s[0])]) + Squeeze(s[1..])
  }

  // The symbols of a clean text; None at the first character outside the alphabet, where the source throws.
  function Symbols(s: string): Option<seq<Five>> {
    if s == "" then Some([])
    else
      var i, rest := IndexOf(s[0]), Symbols(s[1..]);
      if i.Some? && rest.Some? then Some([i.value] + rest.value) else None
  }

  function SymbolsOf(input: string): Option<seq<Five>> {
    Symbols(Squeeze(Unpad(input)))
  }

  // What base32Decode() returns, if anything: the whole bytes of the symbols' bit stream.
  predicate Decodes(input: string, out: Option<seq<Byte>>) {
    var s := SymbolsOf(input);
    if s.None? then out.None?
    else out.Some? && |out.value| == 5 * |s.value| / 8 && OfBytes(out.value) == OfSymbols(s.value)[..8 * |out.value|]
  }

  function Prepend(front: seq<Five>, rest: Option<seq<Five>>): Option<seq<Five>> {
    if rest.Some? then Some(front + rest.value) else None
  }

  lemma {:induction false} SymbolsStep(clean: string, i: nat, front: seq<Five>)
    requires i < |clean|
    ensures var idx := IndexOf(clean[i]);
            Prepend(front, Symbols(clean[i..])) ==
            if idx.Some? then Prepend(front + [idx.value], Symbols(clean[i + 1..])) else None
  {
    assert clean[i..][1..] == clean[i + 1..];
    var idx, rest := IndexOf(clean[i]), Symbols(clean[i + 1..]);
    if idx.Some? && rest.Some? {
      assert front + ([idx.value] + rest.value) == front + [idx.value] + rest.value;
    }
  }

  method Base32Decode(input: string) returns (out: Option<seq<Byte>>)
    ensures Decodes(input, out)
  {
    hide Symbols, IndexOf, Unpad, Squeeze, OfSymbols, OfBytes;
    var clean := Squeeze(Unpad(input));
    var symbols: seq<Five> := [];
    assert clean[0..] == clean;
    assert Symbols(clean).Some? ==> [] + Symbols(clean).value == Symbols(clean).value;
    for i := 0 to |clean|
      invariant Symbols(clean) == Prepend(symbols, Symbols(clean[i..]))
    {
      SymbolsStep(clean, i, symbols);
      var idx := IndexOf(clean[i]);
      if idx.None? {
        return None;
      }
      symbols := symbols + [idx.value];
    }
    assert clean[|clean|..] == "" && Symbols("") == Some([]) by {
      BlankSqueezes("");
    }
    assert symbols + [] == symbols;
    var bytes := DecodeSymbols(symbols);
    out := Some(bytes);
  }

  // ------------------------------------------------------------------ the encoding (section 6 of RFC 4648)

  // Groups of five bits, the last one filled up with zeros.
  function Group(b: seq<bool>): seq<Five>
    decreases |b|
  {
    if b == [] then []
    else if |b| < 5 then [FiveOf(b + Zeros(5 - |b|))]
    else [FiveOf(b[..5])] + Group(b[5..])
  }

  function FiveOf(b: seq<bool>): (v: Five)
    requires |b| == 5
    ensures Bits(v, 5) == b
  {
    BitsOfValue(b);
    assert Pow2(5) == 32;
    Value(b)
  }

  function Encode(b: seq<Byte>): seq<Five> {
    Group(OfBytes(b))
  }

  lemma {:induction false} SymbolsFront(s: seq<Five>, v: Five)
    ensures OfSymbols([v] + s) == Bits(v, 5) + OfSymbols(s)
    decreases |s|
  {
    hide Bits;
    if s == [] {
      assert [v] + s == [v] && [v][..0] == [];
      assert OfSymbols([v]) == OfSymbols([]) + Bits(v, 5);
    } else {
      var n := |s|;
      SymbolsFront(s[..n - 1], v);
      assert ([v] + s)[..n] == [v] + s[..n - 1];
    }
  }

  lemma {:induction false} GroupKeepsBits(b: seq<bool>)
    ensures var pad := 5 * |Group(b)| - |b|; 0 <= pad < 5 && OfSymbols(Group(b)) == b + Zeros(pad)
    decreases |b|
  {
    hide Bits, OfSymbols;
    if b == [] {
      assert OfSymbols([]) == [] && Zeros(0) == [];
    } else if |b| < 5 {
      SymbolsFront([], FiveOf(b + Zeros(5 - |b|)));
      assert [FiveOf(b + Zeros(5 - |b|))] + [] == Group(b);
      assert OfSymbols([]) == [];
    } else {
      GroupKeepsBits(b[5..]);
      SymbolsFront(Group(b[5..]), FiveOf(b[..5]));
    }
  }

  lemma {:induction false} ByteFromBits(x: Byte, y: Byte)
    requires Bits(x, 8) == Bits(y, 8)
    ensures x == y
  {
    hide Bits;
    assert Pow2(8) == 256 by {
      assert Pow2(4) == 16;
      PowSplit(4, 4);
    }
    ValueOfBits(x, 8);
    ValueOfBits(y, 8);
  }

  lemma {:induction false} OfBytesSplit(a: seq<Byte>, n: nat)
    requires |a| == n + 1
    ensures OfBytes(a[..n]) == OfBytes(a)[..8 * n] && Bits(a[n], 8) == OfBytes(a)[8 * n..]
  {
    hide Bits;
  }

  lemma {:induction false} BytesFromBits(a: seq<Byte>, b: seq<Byte>)
    requires OfBytes(a) == OfBytes(b)
    ensures a == b
    decreases |a|
  {
    hide Bits, OfBytes;
    assert |b| == |a|;
    if a != [] {
      var n := |a| - 1;
      OfBytesSplit(a, n);
      OfBytesSplit(b, n);
      ByteFromBits(a[n], b[n]);
      BytesFromBits(a[..n], b[..n]);
      assert a == a[..n] + [a[n]] && b == b[..n] + [b[n]];
    }
  }

  // Decoding the symbols of an encoding gives back the bytes.
  lemma {:induction false} EncodedBytes(b: seq<Byte>, out: seq<Byte>)
    requires var s := Encode(b); |out| == 5 * |s| / 8 && OfBytes(out) == OfSymbols(s)[..8 * |out|]
    ensures out == b
  {
    hide OfSymbols, OfBytes, Group;
    GroupKeepsBits(OfBytes(b));
    var s := Encode(b);
    assert 5 * |s| - 8 * |b| < 5;
    assert |out| == |b|;
    assert OfSymbols(s)[..8 * |b|] == OfBytes(b);
    BytesFromBits(out, b);
  }

  // A text that spells symbols in either case, with white space anywhere between them.
  predicate Spells(t: string, s: seq<Five>) {
    if t == "" then s == []
    else if IsSpace(t[0]) then Spells(t[1..], s)
    else s != [] && Upper(t[0]) == SymbolChar(s[0]) && Spells(t[1..], s[1..])
  }

  lemma {:induction false} SpelledSymbols(t: string, s: seq<Five>)
    requires Spells(t, s)
    ensures Symbols(Squeeze(t)) == Some(s) && '=' !in t
    decreases |t|
  {
    if t != "" {
      if IsSpace(t[0]) {
        SpelledSymbols(t[1..], s);
        assert "" + Squeeze(t[1..]) == Squeeze(t[1..]);
      } else {
        SpelledSymbols(t[1..], s[1..]);
        assert ([Upper(t[0])] + Squeeze(t[1..]))[1..] == Squeeze(t[1..]);
        assert s == [s[0]] + s[1..];
        assert t[0] != '=';
      }
      assert t == [t[0]] + t[1..];
    }
  }

  function Padding(n: nat): string {
    if n == 0 then "" else Padding(n - 1) + "="
  }

  lemma {:induction false} UnpadPadding(t: string, n: nat)
    requires '=' !in t
    ensures Unpad(t + Padding(n)) == t
  {
    if n == 0 {
      assert t + Padding(0) == t;
    } else {
      assert (t + Padding(n))[..|t + Padding(n)| - 1] == t + Padding(n - 1);
      UnpadPadding(t, n - 1);
    }
  }

  lemma {:induction false} PaddedSymbols(t: string, s: seq<Five>, pad: nat)
    requires Spells(t, s)
    ensures SymbolsOf(t + Padding(pad)) == Some(s)
  {
    SpelledSymbols(t, s);
    UnpadPadding(t, pad);
  }

  // Decoding any spelling of the encoding of any bytes, padded or not, gives the bytes back.
  lemma {:induction false} RoundTrip(b: seq<Byte>, t: string, pad: nat, out: Option<seq<Byte>>)
    requires Spells(t, Encode(b)) && Decodes(t + Padding(pad), out)
    ensures out == Some(b)
  {
    hide Encode, OfSymbols, OfBytes;
    PaddedSymbols(t, Encode(b), pad);
    EncodedBytes(b, out.value);
  }

  predicate Blank(w: string) {
    forall i :: 0 <= i < |w| ==> IsSpace(w[i])
  }

  lemma {:induction false} SymbolsAppend(a: string, b: string)
    ensures var x, y := Symbols(a), Symbols(b);
      Symbols(a + b) == if x.Some? && y.Some? then Some(x.value + y.value) else None
  {
    if a == "" {
      assert a + b == b;
      assert Symbols(b).Some? ==> [] + Symbols(b).value == Symbols(b).value;
    } else {
      assert (a + b)[1..] == a[1..] + b;
      SymbolsAppend(a[1..], b);
      if IndexOf(a[0]).Some? && Symbols(a[1..]).Some? && Symbols(b).Some? {
        var i, x, y := IndexOf(a[0]).value, Symbols(a[1..]).value, Symbols(b).value;
        assert [i] + (x + y) == [i] + x + y;
      }
    }
  }

  lemma {:induction false} SqueezeAppend(a: string, b: string)
    ensures Squeeze(a + b) == Squeeze(a) + Squeeze(b)
  {
    if a == "" {
      assert a + b == b;
    } else {
      assert (a + b)[1..] == a[1..] + b;
      SqueezeAppend(a[1..], b);
    }
  }

  lemma {:induction false} BlankSqueezes(w: string)
    requires Blank(w)
    ensures Squeeze(w) == "" && Symbols("") == Some([])
  {
    if w != "" {
      BlankSqueezes(w[1..]);
    }
  }

  // White space at the end of a text is dropped too late to uncover the padding before it: such a text
  // decodes exactly when it has no padding or no white space there.
  lemma {:induction false} BlankAfterPadding(t: string, s: seq<Five>, pad: nat, w: string)
    requires Spells(t, s) && Blank(w)
    ensures SymbolsOf(t + Padding(pad) + w).Some? <==> pad == 0 || w == ""
  {
    SpelledSymbols(t, s);
    UnpadPadding(t, pad);
    var all := t + Padding(pad) + w;
    if w == "" {
      assert all == t + Padding(pad);
    } else {
      assert all[|all| - 1] == w[|w| - 1];
      assert Unpad(all) == all;
      SqueezeAppend(t + Padding(pad), w);
      BlankSqueezes(w);
      SqueezeAppend(t, Padding(pad));
      if pad == 0 {
        assert Squeeze(all) == Squeeze(t);
      } else {
        var p := Padding(pad - 1);
        SqueezeAppend(p, "=");
        assert Squeeze("=") == "=";
        SymbolsAppend(Squeeze(t) + Squeeze(p), "=");
        assert Squeeze(all) == Squeeze(t) + Squeeze(p) + "=";
        assert Symbols("=") == None;
      }
    }
  }

  // An input: one byte with its padding, and the same with a blank after it.
  lemma {:induction false} BlankAfterAByte()
    ensures SymbolsOf("MY======") == Some([12, 24]) && SymbolsOf("MY====== ") == None
  {
    hide SymbolsOf, Spells, Padding, Blank;
    SpelledByte();
    SixPads();
    assert "MY======" == "MY" + Padding(6) && "MY====== " == "MY" + Padding(6) + " ";
    BlankAfterPadding("MY", [12, 24], 6, " ");
    PaddedSymbols("MY", [12, 24], 6);
  }

  lemma {:induction false} SpelledByte()
    ensures Spells("MY", [12, 24]) && Blank(" ")
  {
    var t, s: seq<Five> := "MY", [12, 24];
    assert t[1..][1..] == "" && s[1..][1..] == [];
  }

  lemma {:induction false} SixPads()
    ensures Padding(6) == "======"
  {
    assert Padding(3) == "===";
  }
}
