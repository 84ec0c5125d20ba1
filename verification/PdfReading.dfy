// Reading back what section 7.3 of ISO 32000-1 lets one write: the lexer turns every written form
// into the value it denotes and stops just after it.

module PdfReading {
  import opened Options
  import opened Decimals
  import opened PdfValues
  import opened PdfLexer
  import opened PdfGrammar

  // The text t stands at position p of s.
  predicate At(s: string, p: nat, t: string) {
    p + |t| <= |s| && forall i :: 0 <= i < |t| ==> s[p + i] == t[i]
  }

  predicate EndsToken(s: string, p: nat) {
    p >= |s| || !IsRegular(s[p])
  }

  lemma {:induction false} AtSplit(s: string, p: nat, a: string, b: string)
    requires At(s, p, a + b)
    ensures At(s, p, a) && At(s, p + |a|, b)
    ensures b != "" ==> s[p + |a|] == b[0]
  {
    assert forall i :: 0 <= i < |a| ==> a[i] == (a + b)[i];
    assert forall i :: 0 <= i < |b| ==> b[i] == (a + b)[|a| + i];
  }

  lemma {:induction false} AtSplit3(s: string, p: nat, a: string, b: string, c: string)
    requires At(s, p, a + b + c)
    ensures At(s, p, a) && At(s, p + |a|, b) && At(s, p + |a| + |b|, c)
    ensures At(s, p, a + b) && At(s, p + |a|, b + c)
    ensures b != "" ==> s[p + |a|] == b[0]
    ensures c != "" ==> s[p + |a| + |b|] == c[0]
  {
    assert a + b + c == a + (b + c);
    AtSplit(s, p, a, b + c);
    AtSplit(s, p, a + b, c);
    AtSplit(s, p + |a|, b, c);
  }

  lemma {:induction false} AtRest(s: string, p: nat, t: string)
    requires t != "" && At(s, p, t)
    ensures s[p] == t[0] && At(s, p + 1, t[1..])
  {
    assert forall i :: 0 <= i < |t| - 1 ==> t[1..][i] == t[1 + i];
  }

  // ------------------------------------------------------------------ white space

  lemma {:induction false} LineEndAt(s: string, p: nat, t: string)
    requires At(s, p, t) && p + |t| < |s| && IsEol(s[p + |t|])
    requires forall k :: 0 <= k < |t| ==> !IsEol(t[k])
    ensures LineEnd(s, p) == p + |t|
    decreases |t|
  {
    if t != "" {
      AtRest(s, p, t);
      LineEndAt(s, p + 1, t[1..]);
    }
  }

  lemma {:induction false} SkipComment(s: string, p: nat, t: string, e: char)
    requires At(s, p, ['%'] + t + [e]) && IsEol(e) && forall k :: 0 <= k < |t| ==> !IsEol(t[k])
    ensures SkipAt(s, p) == SkipAt(s, p + |t| + 2)
  {
    AtSplit3(s, p, ['%'], t, [e]);
    assert s[p] == ['%'][0] && s[p + 1 + |t|] == [e][0];
    LineEndAt(s, p + 1, t);
    var q := LineEnd(s, p);
    assert q == p + 1 + |t|;
    assert SkipAt(s, q) == SkipAt(s, q + 1);
  }

  lemma {:induction false} SkipPart(s: string, p: nat, x: Fill)
    requires At(s, p, FillPart(x)) && FillPartOk(x)
    ensures SkipAt(s, p) == SkipAt(s, p + |FillPart(x)|)
  {
    match x {
      case Blank(c) => assert s[p] == [c][0];
      case Comment(t, e) => SkipComment(s, p, t, e);
    }
  }

  lemma {:induction false} SkipFill(s: string, p: nat, f: seq<Fill>)
    requires At(s, p, FillText(f)) && FillOk(f)
    ensures SkipAt(s, p) == SkipAt(s, p + |FillText(f)|)
    decreases |f|
  {
    hide SkipAt, FillPart, FillPartOk, At;
    if f != [] {
      AtSplit(s, p, FillPart(f[0]), FillText(f[1..]));
      SkipPart(s, p, f[0]);
      assert FillOk(f[1..]);
      SkipFill(s, p + |FillPart(f[0])|, f[1..]);
    }
  }

  // White space before a token does not change what raw() reads.
  lemma {:induction false} RawAfterFill(s: string, p: nat, f: seq<Fill>)
    requires At(s, p, FillText(f)) && FillOk(f)
    ensures RawAt(s, p) == RawAt(s, p + |FillText(f)|)
  {
    SkipFill(s, p, f);
  }

  lemma {:induction false} RawHere(s: string, p: nat)
    requires p < |s| && !IsWhite(s[p]) && s[p] != '%'
    ensures RawAt(s, p) == TokenAt(s, p)
  {
  }

  // ------------------------------------------------------------------ words and names

  lemma {:induction false} RegularRun(s: string, p: nat, w: string)
    requires At(s, p, w) && EndsToken(s, p + |w|)
    requires forall i :: 0 <= i < |w| ==> IsRegular(w[i])
    ensures RegularEnd(s, p) == p + |w|
    decreases |w|
  {
    if w != "" {
      AtRest(s, p, w);
      RegularRun(s, p + 1, w[1..]);
    }
  }

  lemma {:induction false} ReadWord(s: string, p: nat, w: string)
    requires At(s, p, w) && WordOk(w) && EndsToken(s, p + |w|)
    ensures RawAt(s, p) == (Val(WordValue(w)), p + |w|)
  {
    hide WordValue;
    assert s[p] == w[0];
    RawHere(s, p);
    RegularRun(s, p, w);
    assert s[p..p + |w|] == w;
    assert WordAt(s, p) == (WordValue(w), p + |w|);
  }

  lemma {:induction false} UnescapeParts(ps: seq<NamePart>)
    requires NameOk(ps)
    ensures Unescape(NameText(ps)) == NameMeaning(ps)
    ensures forall i :: 0 <= i < |NameText(ps)| ==> IsRegular(NameText(ps)[i])
  {
    if ps != [] {
      UnescapeParts(ps[1..]);
      var w := NameText(ps);
      match ps[0] {
        case Same(c) => assert w[1..] == NameText(ps[1..]);
        case Coded(hi, lo) => assert w[3..] == NameText(ps[1..]);
      }
    }
  }

  lemma {:induction false} ReadName(s: string, p: nat, ps: seq<NamePart>)
    requires At(s, p, "/" + NameText(ps)) && NameOk(ps) && EndsToken(s, p + 1 + |NameText(ps)|)
    ensures RawAt(s, p) == (Val(Name(NameMeaning(ps))), p + 1 + |NameText(ps)|)
  {
    hide NameOk, NameMeaning, NameText, Unescape, RegularEnd, RawAt;
    var w := NameText(ps);
    AtSplit(s, p, "/", w);
    assert s[p] == "/"[0];
    RawHere(s, p);
    UnescapeParts(ps);
    RegularRun(s, p + 1, w);
    assert s[p + 1..p + 1 + |w|] == w;
    assert WordAt(s, p) == (Name(NameMeaning(ps)), p + 1 + |w|);
  }

  // ------------------------------------------------------------------ numbers and keywords

  lemma {:induction false} DotAt(u: string, k: nat, p: nat)
    requires p <= k <= |u| && (k < |u| ==> u[k] == '.')
    requires forall i :: p <= i < k ==> u[i] != '.'
    ensures IndexOf(u, '.', p) == k
    decreases k - p
  {
    if p < k {
      DotAt(u, k, p + 1);
    }
  }

  lemma {:induction false} UnsignedText(n: Numeral)
    requires NumOk(n)
    ensures Unsigned(NumText(n)) == n.whole + if n.dot then "." + n.frac else ""
  {
    var w, u := NumText(n), n.whole + if n.dot then "." + n.frac else "";
    assert w == n.sign + u;
    assert u[0] == '.' || IsDigit(u[0]);
    if n.sign == "" {
      assert w == u;
    } else {
      assert w[1..] == u;
    }
  }

  lemma {:induction false} UnsignedSplit(n: Numeral)
    requires NumOk(n)
    ensures var u := Unsigned(NumText(n)); var dot := IndexOf(u, '.', 0);
      dot == |n.whole| && u[..dot] == n.whole && (if dot < |u| then u[dot + 1..] else []) == n.frac
  {
    var u := n.whole + if n.dot then "." + n.frac else "";
    UnsignedText(n);
    DotAt(u, |n.whole|, 0);
  }

  lemma {:induction false} NumberRead(n: Numeral)
    requires NumOk(n)
    ensures WordNumber(NumText(n)) == Some(NumMeaning(n))
  {
    hide Unsigned, IndexOf, Dec, Pow10;
    UnsignedSplit(n);
    assert NumText(n)[0] == '-' <==> n.sign == "-";
  }

  lemma {:induction false} NumberWord(n: Numeral)
    requires NumOk(n)
    ensures WordOk(NumText(n))
  {
    var w := NumText(n);
    forall i | 0 <= i < |w| ensures IsRegular(w[i]) {
      assert w[i] == '+' || w[i] == '-' || w[i] == '.' || IsDigit(w[i]);
    }
  }

  lemma {:induction false} KeywordsAreNotNumbers(w: string)
    requires w == "true" || w == "false" || w == "null" || w == "R" || w == "ID"
    ensures WordNumber(w) == None && WordOk(w)
  {
    hide WordNumber;
    NotANumber(w);
  }

  lemma {:induction false} NotANumber(w: string)
    requires w != "" && '.' !in w && !IsDigit(w[0]) && w[0] != '+' && w[0] != '-'
    ensures WordNumber(w) == None
  {
    assert Unsigned(w) == w;
    DotAt(w, |w|, 0);
    assert w[..|w|] == w;
  }

  lemma {:induction false} RIsAnOperator()
    ensures WordOk("R") && WordValue("R") == Op("R")
  {
    hide WordNumber;
    KeywordsAreNotNumbers("R");
  }

  // The word of a token that is one, and what it says.
  lemma {:induction false} WordRead(t: Tree)
    requires Formed(t) && (t.TNum? || t.TBool? || t.TNull? || t.TOp?)
    ensures WordOk(Text(t)) && WordValue(Text(t)) == Read(t)
  {
    match t {
      case TNum(n) => NumberRead(n); NumberWord(n);
      case TBool(b) => KeywordsAreNotNumbers(if b then "true" else "false");
      case TNull => KeywordsAreNotNumbers("null");
      case TOp(w) =>
    }
  }

  // ------------------------------------------------------------------ literal strings

  lemma {:induction false} OctalEndAt(s: string, p: nat, d: string, most: nat)
    requires At(s, p, d) && |d| <= most
    requires forall i :: 0 <= i < |d| ==> IsOctal(d[i])
    requires |d| < most ==> p + |d| == |s| || !IsOctal(s[p + |d|])
    ensures OctalEnd(s, p, most) == p + |d|
    decreases most
  {
    if d != "" {
      AtRest(s, p, d);
      OctalEndAt(s, p + 1, d[1..], most - 1);
    }
  }

  lemma {:induction false} ReadOctal(s: string, p: nat, d: string)
    requires At(s, p, "\\" + d) && 1 <= |d| <= 3 && forall i :: 0 <= i < |d| ==> IsOctal(d[i])
    requires |d| < 3 ==> p + 1 + |d| < |s| && !IsOctal(s[p + 1 + |d|])
    ensures s[p] == '\\' && EscapeAt(s, p + 1) == ([Oct(d) % 256], p + 1 + |d|)
  {
    AtSplit(s, p, "\\", d);
    assert s[p] == "\\"[0];
    AtRest(s, p + 1, d);
    OctalEndAt(s, p + 2, d[1..], 2);
    assert IsOctal(d[0]) && ShortEscape(d[0]) == None;
    assert s[p + 1..p + 1 + |d|] == d;
  }

  lemma {:induction false} ReadEscape(s: string, p: nat, part: LitPart)
    requires At(s, p, LitPartText(part)) && LitPartOk(part) && !part.Plain?
    requires part.Octal? && |part.digits| < 3 ==> p + |LitPartText(part)| < |s| && !IsOctal(s[p + |LitPartText(part)|])
    requires part == Wrap("\r") ==> p + 2 < |s| && s[p + 2] != '\n'
    ensures s[p] == '\\' && EscapeAt(s, p + 1) == (LitPartRead(part), p + |LitPartText(part)|)
  {
    hide Oct, OctalEnd;
    var w := LitPartText(part);
    assert s[p] == w[0] && s[p + 1] == w[1];
    match part {
      case Short(b) =>
      case Octal(d) => ReadOctal(s, p, d);
      case Wrap(e) =>
        assert |e| == 2 ==> s[p + 2] == w[2];
      case Needless(c) =>
    }
  }

  function DepthAfter(part: LitPart, depth: nat): nat
    requires depth > 0
  {
    if part == Plain('(') then depth + 1 else if part == Plain(')') then depth - 1 else depth
  }

  // One piece of a string, up to the text after it.
  lemma {:induction false} ReadLitPart(s: string, p: nat, part: LitPart, depth: nat, out: seq<Byte>, next: char)
    requires depth > 0 && LitPartOk(part) && At(s, p, LitPartText(part))
    requires p + |LitPartText(part)| < |s| && s[p + |LitPartText(part)|] == next
    requires part.Octal? && |part.digits| < 3 ==> !IsOctal(next)
    requires part == Wrap("\r") ==> next != '\n'
    requires part == Plain(')') ==> depth > 1
    ensures LiteralAt(s, p, depth, out) ==
      LiteralAt(s, p + |LitPartText(part)|, DepthAfter(part, depth), out + LitPartRead(part))
  {
    hide At, EscapeAt;
    if part.Plain? {
      AtFirst(s, p, LitPartText(part));
    } else {
      ReadEscape(s, p, part);
    }
  }

  lemma {:induction false} AtFirst(s: string, p: nat, t: string)
    requires t != "" && At(s, p, t)
    ensures p < |s| && s[p] == t[0]
  {
  }

  lemma {:induction false} LitSplit(s: string, p: nat, ps: seq<LitPart>)
    requires ps != [] && At(s, p, LitText(ps) + ")")
    ensures var q := p + |LitPartText(ps[0])|;
      && At(s, p, LitPartText(ps[0])) && At(s, q, LitText(ps[1..]) + ")")
      && q < |s| && s[q] == (LitText(ps[1..]) + ")")[0]
    ensures |LitText(ps)| == |LitPartText(ps[0])| + |LitText(ps[1..])|
  {
    hide LitPartText;
    var w, rest := LitPartText(ps[0]), LitText(ps[1..]) + ")";
    assert LitText(ps) + ")" == w + rest;
    AtSplit(s, p, w, rest);
  }

  lemma {:induction false} LitOkStep(ps: seq<LitPart>, depth: nat)
    requires depth > 0 && ps != [] && LitOk(ps, depth)
    ensures var next := (LitText(ps[1..]) + ")")[0];
      && (ps[0].Octal? && |ps[0].digits| < 3 ==> !IsOctal(next))
      && (ps[0] == Wrap("\r") ==> next != '\n')
      && (ps[0] == Plain(')') ==> depth > 1)
    ensures DepthAfter(ps[0], depth) > 0 && LitOk(ps[1..], DepthAfter(ps[0], depth))
  {
    hide LitText, IsOctal;
  }

  lemma {:induction false} ReadLiteral(s: string, p: nat, ps: seq<LitPart>, depth: nat, out: seq<Byte>)
    requires depth > 0 && At(s, p, LitText(ps) + ")") && LitOk(ps, depth) && LitPartsOk(ps)
    ensures LiteralAt(s, p, depth, out) == (out + LitRead(ps), p + |LitText(ps)| + 1)
    decreases |ps|
  {
    hide At, LiteralAt, LitText, LitPartText, LitPartRead, LitOk, IsOctal, EscapeAt;
    if ps == [] {
      ReadClosing(s, p, depth, out);
    } else {
      var more, depth' := LitPartRead(ps[0]), DepthAfter(ps[0], depth);
      LitOkStep(ps, depth);
      LitSplit(s, p, ps);
      ReadLitPart(s, p, ps[0], depth, out, (LitText(ps[1..]) + ")")[0]);
      ReadLiteral(s, p + |LitPartText(ps[0])|, ps[1..], depth', out + more);
      assert out + more + LitRead(ps[1..]) == out + LitRead(ps);
    }
  }

  lemma {:induction false} ReadClosing(s: string, p: nat, depth: nat, out: seq<Byte>)
    requires depth > 0 && At(s, p, LitText([]) + ")") && LitOk([], depth)
    ensures LiteralAt(s, p, depth, out) == (out + LitRead([]), p + |LitText([])| + 1)
  {
    assert LitText([]) + ")" == ")";
    assert s[p] == ")"[0];
    assert out + LitRead([]) == out;
  }

  lemma {:induction false} ReadString(s: string, p: nat, ps: seq<LitPart>)
    requires At(s, p, "(" + LitText(ps) + ")") && LitOk(ps, 1) && LitPartsOk(ps)
    ensures RawAt(s, p) == (Val(Str(LitRead(ps), false)), p + |LitText(ps)| + 2)
  {
    hide LitText, LitRead, LitOk, LitPartsOk, LiteralAt;
    AtSplit3(s, p, "(", LitText(ps), ")");
    assert s[p] == "("[0];
    RawHere(s, p);
    ReadLiteral(s, p + 1, ps, 1, []);
    assert [] + LitRead(ps) == LitRead(ps);
  }

  // ------------------------------------------------------------------ hexadecimal strings

  lemma {:induction false} DigitsOfJunk(junk: string, w: string)
    requires NotHex(junk)
    ensures HexDigits(junk + w) == HexDigits(w)
  {
    if junk == "" {
      assert junk + w == w;
    } else {
      assert (junk + w)[1..] == junk[1..] + w;
      DigitsOfJunk(junk[1..], w);
    }
  }

  lemma {:induction false} FirstDigit(c: char, w: string)
    requires IsHex(c)
    ensures HexDigits([c] + w) == [c] + HexDigits(w)
  {
    assert ([c] + w)[1..] == w;
  }

  lemma {:induction false} NoDigits()
    ensures HexDigits("") == ""
  {
  }

  lemma {:induction false} DigitsOfCells(cells: seq<HexCell>, tail: string)
    requires CellsOk(cells) && NotHex(tail)
    ensures HexDigits(CellsText(cells) + tail) == CellDigits(cells)
    ensures forall i :: 0 <= i < |CellsText(cells) + tail| ==> (CellsText(cells) + tail)[i] != '>'
  {
    hide HexDigits;
    if cells == [] {
      NoDigits();
      DigitsOfJunk(tail, "");
      assert CellsText(cells) + tail == tail + "";
    } else {
      DigitsOfCells(cells[1..], tail);
      var rest := CellsText(cells[1..]) + tail;
      assert CellsText(cells) + tail == cells[0].junk + ([cells[0].digit] + rest);
      DigitsOfJunk(cells[0].junk, [cells[0].digit] + rest);
      FirstDigit(cells[0].digit, rest);
    }
  }

  lemma {:induction false} PairedDigits(d: string)
    requires forall i :: 0 <= i < |d| ==> IsHex(d[i])
    ensures HexPairs(if |d| % 2 == 1 then d + ['0'] else d) == HexMeaning(d)
    decreases |d|
  {
    if |d| == 1 {
      assert (d + ['0'])[2..] == "";
    } else if |d| > 1 {
      PairedDigits(d[2..]);
      assert |d| % 2 == 1 ==> (d + ['0'])[2..] == d[2..] + ['0'];
    }
  }

  lemma {:induction false} GtAt(s: string, k: nat, p: nat)
    requires p <= k < |s| && s[k] == '>' && forall i :: p <= i < k ==> s[i] != '>'
    ensures IndexOf(s, '>', p) == k
    decreases k - p
  {
    if p < k {
      GtAt(s, k, p + 1);
    }
  }

  lemma {:induction false} ReadHex(s: string, p: nat, cells: seq<HexCell>, tail: string)
    requires HexOk(cells, tail) && At(s, p, "<" + CellsText(cells) + tail + ">")
    ensures RawAt(s, p) == (Val(Str(HexMeaning(CellDigits(cells)), true)), p + |CellsText(cells) + tail| + 2)
  {
    hide HexDigits, HexPairs, HexMeaning, CellDigits, CellsText;
    var w := CellsText(cells) + tail;
    var k := p + 1 + |w|;
    assert "<" + CellsText(cells) + tail + ">" == "<" + w + ">";
    AtSplit3(s, p, "<", w, ">");
    assert s[p] == "<"[0] && s[k] == ">"[0];
    assert w != "" ==> s[p + 1] == w[0];
    RawHere(s, p);
    DigitsOfCells(cells, tail);
    PairedDigits(CellDigits(cells));
    forall i | p <= i < k ensures s[i] != '>' {
      assert i > p ==> s[i] == w[i - p - 1];
    }
    GtAt(s, k, p);
    assert s[p + 1..k] == w;
  }

  // ------------------------------------------------------------------ references

  lemma {:induction false} DigitsWord(d: string)
    requires d != "" && AllDigits(d)
    ensures WordOk(d) && WordValue(d) == Num(Dec(d) as real)
  {
    hide WordNumber, WordOk, NumText, NumMeaning, NumOk;
    var n := Numeral("", d, false, "");
    WholeNumeral(d);
    NumberRead(n);
    NumberWord(n);
  }

  lemma {:induction false} WholeNumeral(d: string)
    requires d != "" && AllDigits(d)
    ensures var n := Numeral("", d, false, ""); NumOk(n) && NumText(n) == d && NumMeaning(n) == Dec(d) as real
  {
    assert Dec("") == 0 && Pow10(0) == 1;
    assert "" + d + "" == d;
  }

  lemma {:induction false} GapEndsToken(s: string, p: nat, f: seq<Fill>)
    requires At(s, p, FillText(f)) && FillOk(f) && f != []
    ensures EndsToken(s, p)
  {
    assert s[p] == FillText(f)[0];
  }

  lemma {:induction false} RefSplit(s: string, p: nat, r: RefText)
    requires RefOk(r) && At(s, p, RefTextOf(r))
    ensures var p1 := p + |r.num|; var p2 := p1 + |FillText(r.gap1)| + |r.gen|;
      && At(s, p, r.num) && EndsToken(s, p1) && At(s, p1, FillText(r.gap1))
      && At(s, p1 + |FillText(r.gap1)|, r.gen) && EndsToken(s, p2) && At(s, p2, FillText(r.gap2))
      && At(s, p2 + |FillText(r.gap2)|, "R")
    ensures |RefTextOf(r)| == |r.num| + |FillText(r.gap1)| + |r.gen| + |FillText(r.gap2)| + 1
  {
    hide FillText;
    var f1, f2 := FillText(r.gap1), FillText(r.gap2);
    var p1 := p + |r.num|;
    var p2 := p1 + |f1| + |r.gen|;
    assert RefTextOf(r) == (r.num + f1 + r.gen) + (f2 + "R");
    AtSplit(s, p, r.num + f1 + r.gen, f2 + "R");
    AtSplit3(s, p, r.num, f1, r.gen);
    AtSplit(s, p2, f2, "R");
    GapEndsToken(s, p1, r.gap1);
    GapEndsToken(s, p2, r.gap2);
  }

  // A number, then a generation number, then R, with white space after the first two.
  lemma {:induction false} ReadRef(s: string, p: nat, r: RefText)
    requires RefOk(r) && At(s, p, RefTextOf(r)) && EndsToken(s, p + |RefTextOf(r)|)
    ensures var p1 := p + |r.num|; var p2 := p1 + |FillText(r.gap1)| + |r.gen|;
      && RawAt(s, p) == (Val(Num(Dec(r.num) as real)), p1)
      && RawAt(s, p1) == (Val(Num(Dec(r.gen) as real)), p2)
      && RawAt(s, p2) == (Val(Op("R")), p + |RefTextOf(r)|)
  {
    hide FillText, At, RawAt, EndsToken, RefTextOf, Dec, FillOk, WordOk, WordValue, WordNumber, AllDigits;
    var p1 := p + |r.num|;
    var p2 := p1 + |FillText(r.gap1)| + |r.gen|;
    RefSplit(s, p, r);
    DigitsWord(r.num);
    DigitsWord(r.gen);
    RIsAnOperator();
    ReadWord(s, p, r.num);
    RawAfterFill(s, p1, r.gap1);
    ReadWord(s, p1 + |FillText(r.gap1)|, r.gen);
    RawAfterFill(s, p2, r.gap2);
    ReadWord(s, p2 + |FillText(r.gap2)|, "R");
  }

  // ------------------------------------------------------------------ values

  // No generation number and R follow at p, so an integer before p stands for itself.
  predicate NoFold(s: string, p: nat) {
    var (g, q) := RawAt(s, p);
    IsInteger(g) ==> RawAt(s, q).0 != Val(Op("R"))
  }

  // The first token of a tree: the object number for a reference, the whole value otherwise.
  function FirstToken(t: Tree): Value
    requires Formed(t)
  {
    if t.TRef? then Num(Dec(t.ref.num) as real) else Read(t)
  }

  function FirstLength(t: Tree): nat {
    if t.TRef? then |t.ref.num| else |Text(t)|
  }

  // The tree t stands at p after the white space gap, and its last token ends there.
  predicate Stands(s: string, p: nat, gap: seq<Fill>, t: Tree) {
    Formed(t) && FillOk(gap) && At(s, p, FillText(gap)) && At(s, p + |FillText(gap)|, Text(t)) &&
    (NeedsEnd(t) ==> EndsToken(s, p + |FillText(gap)| + |Text(t)|))
  }

  // The first token of any written value.
  lemma {:induction false} ReadRaw(s: string, p: nat, gap: seq<Fill>, t: Tree)
    requires Stands(s, p, gap, t)
    ensures RawAt(s, p) == (Val(FirstToken(t)), p + |FillText(gap)| + FirstLength(t))
    decreases t, 1
  {
    hide Formed, Text, At, EndsToken, RawAt, FirstToken, FirstLength, FillText, FillOk;
    RawAfterFill(s, p, gap);
    ReadBare(s, p + |FillText(gap)|, t);
  }

  lemma {:induction false} ReadBare(s: string, p: nat, t: Tree)
    requires Formed(t) && At(s, p, Text(t)) && (NeedsEnd(t) ==> EndsToken(s, p + |Text(t)|))
    ensures RawAt(s, p) == (Val(FirstToken(t)), p + FirstLength(t))
    decreases t, 0
  {
    hide At, EndsToken, RawAt, ItemsText, ItemsApart, PairsText, PairsApart, FillText, FillOk;
    match t {
      case TArr(items, end) => ReadArray(s, p, items, end);
      case TDict(pairs, end) => ReadDict(s, p, pairs, end);
      case _ => ReadAtom(s, p, t);
    }
  }

  // Everything but arrays and dictionaries.
  lemma {:induction false} ReadAtom(s: string, p: nat, t: Tree)
    requires Formed(t) && At(s, p, Text(t)) && (NeedsEnd(t) ==> EndsToken(s, p + |Text(t)|))
    requires !t.TArr? && !t.TDict?
    ensures RawAt(s, p) == (Val(FirstToken(t)), p + FirstLength(t))
  {
    hide At, EndsToken, RawAt, FillText, FillOk, NameOk, RefOk, LitPartsOk, LitOk, HexOk, NumOk, OpOk;
    hide NameMeaning, LitRead, HexMeaning, NumMeaning, NameText, LitText, CellsText, NumText;
    match t {
      case TName(ps) => ReadName(s, p, ps);
      case TRef(r) => ReadRef(s, p, r);
      case TLit(_) => ReadStringTree(s, p, t);
      case THex(_, _) => ReadStringTree(s, p, t);
      case _ => ReadKeyword(s, p, t);
    }
  }

  lemma {:induction false} ReadStringTree(s: string, p: nat, t: Tree)
    requires Formed(t) && At(s, p, Text(t)) && (t.TLit? || t.THex?)
    ensures RawAt(s, p) == (Val(Read(t)), p + |Text(t)|)
  {
    hide At, RawAt, FillText, FillOk;
    match t {
      case TLit(ps) => ReadString(s, p, ps);
      case THex(cells, tail) => ReadHex(s, p, cells, tail);
    }
  }

  lemma {:induction false} ReadKeyword(s: string, p: nat, t: Tree)
    requires Formed(t) && (t.TNum? || t.TBool? || t.TNull? || t.TOp?)
    requires At(s, p, Text(t)) && EndsToken(s, p + |Text(t)|)
    ensures RawAt(s, p) == (Val(Read(t)), p + |Text(t)|)
  {
    hide At, EndsToken, RawAt, Text, Read, WordOk, WordValue, FillText, FillOk;
    WordRead(t);
    ReadWord(s, p, Text(t));
  }

  lemma {:induction false} ReadRefTree(s: string, p: nat, gap: seq<Fill>, t: Tree)
    requires Stands(s, p, gap, t) && t.TRef?
    ensures var (v, q) := RawAt(s, p); var (g, q1) := RawAt(s, q);
      && v == Val(Num(Dec(t.ref.num) as real)) && IsInteger(g)
      && RawAt(s, q1) == (Val(Op("R")), p + |FillText(gap)| + |Text(t)|)
  {
    hide FillText, At, RawAt, EndsToken, RefTextOf, Dec, FillOk, RefOk;
    RawAfterFill(s, p, gap);
    ReadRef(s, p + |FillText(gap)|, t.ref);
  }

  // A written value where no reference can be read into it.
  lemma {:induction false} ReadValue(s: string, p: nat, gap: seq<Fill>, t: Tree)
    requires Stands(s, p, gap, t)
    requires t.TNum? ==> NoFold(s, p + |FillText(gap)| + |Text(t)|)
    ensures ValueAt(s, p) == (Val(Read(t)), p + |FillText(gap)| + |Text(t)|)
    decreases t, 2
  {
    hide Formed, Text, At, EndsToken, RawAt, FillText, FillOk;
    ReadRaw(s, p, gap, t);
    if t.TRef? {
      ReadRefTree(s, p, gap, t);
    }
  }

  // ------------------------------------------------------------------ arrays

  lemma {:induction false} ReadArrayEnd(s: string, p: nat, end: seq<Fill>)
    requires FillOk(end) && At(s, p, FillText(end) + "]")
    ensures RawAt(s, p) == ValueAt(s, p) == (ArrayEnd, p + |FillText(end)| + 1)
  {
    hide FillText, FillOk;
    AtSplit(s, p, FillText(end), "]");
    RawAfterFill(s, p, end);
    assert s[p + |FillText(end)|] == "]"[0];
    RawHere(s, p + |FillText(end)|);
  }

  lemma {:induction false} ItemsSplit(s: string, p: nat, items: seq<Item>, after: string)
    requires items != [] && At(s, p, ItemsText(items) + after) && after != ""
    requires ItemsOk(items) && ItemsApart(items, after)
    ensures Stands(s, p, items[0].gap, items[0].tree)
    ensures At(s, p + |ItemText(items[0])|, ItemsText(items[1..]) + after)
  {
    hide FillText, FillOk, Text;
    var f, w, rest := FillText(items[0].gap), Text(items[0].tree), ItemsText(items[1..]) + after;
    assert ItemsText(items) + after == f + w + rest;
    AtSplit3(s, p, f, w, rest);
    assert s[p + |f| + |w|] == rest[0];
  }

  // What follows an item of an array never reads as a generation number and R.
  lemma {:induction false} ItemsNoFold(s: string, p: nat, items: seq<Item>, end: seq<Fill>)
    requires ItemsOk(items) && FillOk(end) && At(s, p, ItemsText(items) + (FillText(end) + "]"))
    requires ItemsApart(items, FillText(end) + "]")
    ensures NoFold(s, p)
    decreases items, 0
  {
    hide At, RawAt, Formed, Text, FillText, FillOk;
    var after := FillText(end) + "]";
    if items == [] {
      assert ItemsText(items) + after == after;
      ReadArrayEnd(s, p, end);
    } else {
      var gap, t := items[0].gap, items[0].tree;
      ItemsSplit(s, p, items, after);
      ReadRaw(s, p, gap, t);
      if t.TRef? {
        ReadRefTree(s, p, gap, t);
      } else {
        ItemsNotR(s, p + |ItemText(items[0])|, items[1..], end);
      }
    }
  }

  lemma {:induction false} ItemsNotR(s: string, p: nat, items: seq<Item>, end: seq<Fill>)
    requires ItemsOk(items) && FillOk(end) && At(s, p, ItemsText(items) + (FillText(end) + "]"))
    requires ItemsApart(items, FillText(end) + "]")
    ensures RawAt(s, p).0 != Val(Op("R"))
    decreases items, 0
  {
    var after := FillText(end) + "]";
    if items == [] {
      assert ItemsText(items) + after == after;
      ReadArrayEnd(s, p, end);
    } else {
      ItemsSplit(s, p, items, after);
      ReadRaw(s, p, items[0].gap, items[0].tree);
    }
  }

  lemma {:induction false} ReadItem(s: string, p: nat, items: seq<Item>, end: seq<Fill>)
    requires ItemsOk(items) && FillOk(end) && At(s, p, ItemsText(items) + (FillText(end) + "]"))
    requires ItemsApart(items, FillText(end) + "]") && items != []
    ensures ValueAt(s, p) == (Val(Read(items[0].tree)), p + |ItemText(items[0])|)
    ensures At(s, p + |ItemText(items[0])|, ItemsText(items[1..]) + (FillText(end) + "]"))
    ensures |ItemsText(items)| == |ItemText(items[0])| + |ItemsText(items[1..])|
    decreases items, 0
  {
    hide At, RawAt, Formed, Text, FillOk, NoFold, Stands, FillText;
    ItemsSplit(s, p, items, FillText(end) + "]");
    ItemsNoFold(s, p + |ItemText(items[0])|, items[1..], end);
    ReadValue(s, p, items[0].gap, items[0].tree);
  }

  lemma {:induction false} ReadItems(s: string, p: nat, items: seq<Item>, end: seq<Fill>, acc: seq<Value>)
    requires ItemsOk(items) && FillOk(end) && At(s, p, ItemsText(items) + (FillText(end) + "]"))
    requires ItemsApart(items, FillText(end) + "]")
    ensures ItemsAt(s, p, acc) == (acc + ItemsRead(items), p + |ItemsText(items)| + |FillText(end)| + 1)
    decreases items, 1
  {
    hide At, ValueAt, RawAt, Formed, Text, FillOk, ItemText, FillText;
    if items == [] {
      assert ItemsText(items) + (FillText(end) + "]") == FillText(end) + "]";
      assert acc + ItemsRead(items) == acc;
      ReadArrayEnd(s, p, end);
    } else {
      var v, q := Read(items[0].tree), p + |ItemText(items[0])|;
      ReadItem(s, p, items, end);
      ReadItems(s, q, items[1..], end, acc + [v]);
      assert ItemsAt(s, p, acc) == ItemsAt(s, q, acc + [v]);
      assert acc + [v] + ItemsRead(items[1..]) == acc + ItemsRead(items);
    }
  }

  lemma {:induction false} ReadArray(s: string, p: nat, items: seq<Item>, end: seq<Fill>)
    requires ItemsOk(items) && FillOk(end) && ItemsApart(items, FillText(end) + "]")
    requires At(s, p, "[" + ItemsText(items) + FillText(end) + "]")
    ensures RawAt(s, p) == (Val(Arr(ItemsRead(items))), p + |ItemsText(items)| + |FillText(end)| + 2)
    decreases items, 2
  {
    hide ItemsRead, FillOk, ItemsOk, ItemsApart, ItemsAt, FillText;
    assert "[" + ItemsText(items) + FillText(end) + "]" == "[" + (ItemsText(items) + (FillText(end) + "]"));
    AtSplit(s, p, "[", ItemsText(items) + (FillText(end) + "]"));
    assert s[p] == "["[0];
    RawHere(s, p);
    ReadItems(s, p + 1, items, end, []);
    assert [] + ItemsRead(items) == ItemsRead(items);
  }

  // ------------------------------------------------------------------ dictionaries

  lemma {:induction false} ReadDictEnd(s: string, p: nat, end: seq<Fill>)
    requires FillOk(end) && At(s, p, FillText(end) + ">>")
    ensures RawAt(s, p) == ValueAt(s, p) == (DictEnd, p + |FillText(end)| + 2)
  {
    hide FillText, FillOk, EntriesAt, ItemsAt, LiteralAt, HexAt, WordAt;
    AtSplit(s, p, FillText(end), ">>");
    RawAfterFill(s, p, end);
    var q := p + |FillText(end)|;
    assert s[q] == ">>"[0] && s[q + 1] == ">>"[1];
    RawHere(s, q);
  }

  lemma {:induction false} TextNotEmpty(t: Tree)
    requires Formed(t)
    ensures Text(t) != ""
  {
  }

  lemma {:induction false} PairsTextSplit(pairs: seq<Pair>, after: string)
    requires pairs != []
    ensures PairsText(pairs) + after == KeyText(pairs[0]) + ItemText(pairs[0].value) + (PairsText(pairs[1..]) + after)
  {
    hide KeyText, ItemText;
  }

  lemma {:induction false} PairsSplit(s: string, p: nat, pairs: seq<Pair>, after: string)
    requires pairs != [] && At(s, p, PairsText(pairs) + after) && after != ""
    requires PairsOk(pairs) && PairsApart(pairs, after)
    ensures var q := p + |KeyText(pairs[0])|; var v := pairs[0].value;
      && At(s, p, KeyText(pairs[0])) && EndsToken(s, q)
      && At(s, q, ItemText(v)) && (NeedsEnd(v.tree) ==> EndsToken(s, q + |ItemText(v)|))
      && At(s, q + |ItemText(v)|, PairsText(pairs[1..]) + after)
  {
    hide PairsText, KeyText, At, IsRegular, Formed;
    var v := pairs[0].value;
    var item, rest := ItemText(v), PairsText(pairs[1..]) + after;
    PairsTextSplit(pairs, after);
    AtSplit3(s, p, KeyText(pairs[0]), item, rest);
    TextNotEmpty(v.tree);
    assert item != "" && (item + "/")[0] == item[0];
  }

  lemma {:induction false} PairStands(s: string, p: nat, pairs: seq<Pair>, after: string)
    requires pairs != [] && At(s, p, PairsText(pairs) + after) && after != ""
    requires PairsOk(pairs) && PairsApart(pairs, after)
    ensures var q := p + |KeyText(pairs[0])|; var v := pairs[0].value;
      && Stands(s, p, pairs[0].gap, TName(pairs[0].key)) && Stands(s, q, v.gap, v.tree)
      && At(s, q + |ItemText(v)|, PairsText(pairs[1..]) + after)
  {
    hide PairsText, PairsApart, At, EndsToken, FillText, FillOk, NameText, NameOk;
    var v := pairs[0].value;
    PairsSplit(s, p, pairs, after);
    AtSplit(s, p, FillText(pairs[0].gap), "/" + NameText(pairs[0].key));
    AtSplit(s, p + |KeyText(pairs[0])|, FillText(v.gap), Text(v.tree));
  }

  // What follows a value of a dictionary is a name or the end, so it never reads as a generation number.
  lemma {:induction false} PairsNoFold(s: string, p: nat, pairs: seq<Pair>, end: seq<Fill>)
    requires PairsOk(pairs) && FillOk(end) && At(s, p, PairsText(pairs) + (FillText(end) + ">>"))
    requires PairsApart(pairs, FillText(end) + ">>")
    ensures NoFold(s, p)
    decreases pairs, 0
  {
    var after := FillText(end) + ">>";
    if pairs == [] {
      assert PairsText(pairs) + after == after;
      ReadDictEnd(s, p, end);
    } else {
      PairStands(s, p, pairs, after);
      ReadRawName(s, p, pairs[0].gap, pairs[0].key);
    }
  }

  lemma {:induction false} ReadRawName(s: string, p: nat, gap: seq<Fill>, ps: seq<NamePart>)
    requires Stands(s, p, gap, TName(ps))
    ensures RawAt(s, p) == ValueAt(s, p) == (Val(Name(NameMeaning(ps))), p + |FillText(gap)| + 1 + |NameText(ps)|)
  {
    hide At, RawAt, FillOk, EndsToken, FillText;
    RawAfterFill(s, p, gap);
    ReadName(s, p + |FillText(gap)|, ps);
  }

  lemma {:induction false} ReadPair(s: string, p: nat, pairs: seq<Pair>, end: seq<Fill>)
    requires PairsOk(pairs) && FillOk(end) && At(s, p, PairsText(pairs) + (FillText(end) + ">>"))
    requires PairsApart(pairs, FillText(end) + ">>") && pairs != []
    ensures var q := p + |KeyText(pairs[0])|; var q1 := q + |ItemText(pairs[0].value)|;
      && ValueAt(s, p) == (Val(Name(NameMeaning(pairs[0].key))), q)
      && ValueAt(s, q) == (Val(Read(pairs[0].value.tree)), q1)
      && At(s, q1, PairsText(pairs[1..]) + (FillText(end) + ">>"))
    ensures PairsOk(pairs[1..]) && PairsApart(pairs[1..], FillText(end) + ">>")
    ensures |PairsText(pairs)| == |KeyText(pairs[0])| + |ItemText(pairs[0].value)| + |PairsText(pairs[1..])|
    decreases pairs, 0
  {
    hide At, RawAt, ValueAt, Formed, Text, FillOk, NoFold, Stands, NameMeaning, FillText;
    var v := pairs[0].value;
    PairStands(s, p, pairs, FillText(end) + ">>");
    ReadRawName(s, p, pairs[0].gap, pairs[0].key);
    PairsNoFold(s, p + |KeyText(pairs[0])| + |ItemText(v)|, pairs[1..], end);
    ReadValue(s, p + |KeyText(pairs[0])|, v.gap, v.tree);
  }

  lemma {:induction false} OnePair(s: string, p: nat, q: nat, q1: nat, k: string, v: Value, acc: seq<Entry>)
    requires ValueAt(s, p) == (Val(Name(k)), q) && ValueAt(s, q) == (Val(v), q1)
    ensures EntriesAt(s, p, acc) == EntriesAt(s, q1, MapSet(acc, k, v))
  {
    hide ValueAt, MapSet;
  }

  lemma {:induction false} NoPair(s: string, p: nat, q: nat, acc: seq<Entry>)
    requires ValueAt(s, p) == (DictEnd, q)
    ensures EntriesAt(s, p, acc) == (acc, q)
  {
    hide ValueAt;
  }

  lemma {:induction false} ReadPairs(s: string, p: nat, pairs: seq<Pair>, end: seq<Fill>, acc: seq<Entry>)
    requires PairsOk(pairs) && FillOk(end) && At(s, p, PairsText(pairs) + (FillText(end) + ">>"))
    requires PairsApart(pairs, FillText(end) + ">>")
    ensures EntriesAt(s, p, acc) == (PairsRead(pairs, acc), p + |PairsText(pairs)| + |FillText(end)| + 2)
    decreases pairs, 1
  {
    hide At, ValueAt, RawAt, EntriesAt, FillOk, ItemText, KeyText, FillText, NameMeaning, Read, MapSet, PairsApart;
    hide NameOk, Formed;
    if pairs == [] {
      assert PairsText(pairs) + (FillText(end) + ">>") == FillText(end) + ">>";
      ReadDictEnd(s, p, end);
      NoPair(s, p, p + |FillText(end)| + 2, acc);
    } else {
      var q := p + |KeyText(pairs[0])| + |ItemText(pairs[0].value)|;
      ReadPair(s, p, pairs, end);
      var acc' := MapSet(acc, NameMeaning(pairs[0].key), Read(pairs[0].value.tree));
      ReadPairs(s, q, pairs[1..], end, acc');
      var v := Read(pairs[0].value.tree);
      OnePair(s, p, p + |KeyText(pairs[0])|, q, NameMeaning(pairs[0].key), v, acc);
    }
  }

  lemma {:induction false} ReadDict(s: string, p: nat, pairs: seq<Pair>, end: seq<Fill>)
    requires PairsOk(pairs) && FillOk(end) && PairsApart(pairs, FillText(end) + ">>")
    requires At(s, p, "<<" + PairsText(pairs) + FillText(end) + ">>")
    ensures RawAt(s, p) == (Val(Dict(PairsRead(pairs, []))), p + |PairsText(pairs)| + |FillText(end)| + 4)
    decreases pairs, 2
  {
    hide PairsRead, FillOk, PairsOk, PairsApart, EntriesAt, FillText;
    assert "<<" + PairsText(pairs) + FillText(end) + ">>" == "<<" + (PairsText(pairs) + (FillText(end) + ">>"));
    AtSplit(s, p, "<<", PairsText(pairs) + (FillText(end) + ">>"));
    assert s[p] == "<<"[0] && s[p + 1] == "<<"[1];
    RawHere(s, p);
    ReadPairs(s, p + 2, pairs, end, []);
  }
}
