// Printing a PDF value and reading it back.

module PdfRoundTrip {
  import opened Options
  import opened Decimals
  import opened PdfValues
  import opened PdfLexer
  import opened PdfGrammar
  import opened PdfMeaning
  import opened PdfReading

  // parseValue(): the first value of a text; a stray array or dictionary end, or an empty text, is none.
  method ParseValue(text: string) returns (v: Option<Value>)
    ensures v == var t := ValueAt(text, 0).0; if t.Val? then Some(t.v) else None
  {
    var lexer := new Lexer(text);
    var t := lexer.Value();
    v := if t.Val? then Some(t.v) else None;
  }

  lemma {:induction false} ReadEnd(s: string, p: nat, end: seq<Fill>)
    requires FillOk(end) && At(s, p, FillText(end)) && p + |FillText(end)| == |s|
    ensures RawAt(s, p) == (Eof, |s|)
  {
    RawAfterFill(s, p, end);
  }

  lemma {:induction false} AtStart(a: string, b: string, c: string)
    ensures var s := a + b + c; At(s, 0, a) && At(s, |a|, b) && At(s, |a| + |b|, c)
    ensures At(a + b + c, 0, a + b + c)
  {
  }

  lemma {:induction false} ReadWhole(s: string, gap: seq<Fill>, t: Tree, end: seq<Fill>)
    requires FillOk(gap) && Formed(t) && FillOk(end)
    requires At(s, 0, FillText(gap)) && At(s, |FillText(gap)|, Text(t))
    requires At(s, |FillText(gap)| + |Text(t)|, FillText(end))
    requires |s| == |FillText(gap)| + |Text(t)| + |FillText(end)|
    ensures ValueAt(s, 0) == (Val(Read(t)), |FillText(gap)| + |Text(t)|)
  {
    hide At, RawAt, ValueAt, Formed, Text, Read, FillText, FillOk;
    assert 0 + |FillText(gap)| == |FillText(gap)|;
    ReadEnd(s, |FillText(gap)| + |Text(t)|, end);
    FillEndsToken(s, |FillText(gap)| + |Text(t)|, end);
    ReadValue(s, 0, gap, t);
  }

  // Every written form of a value is read to its end and no further. What is read stands for the object the form
  // denotes, exactly unless a literal string in it that counts holds a carriage return without a backslash; and it
  // keeps entries that are null, which are none of the object's, exactly where such entries are written.
  lemma {:induction false} WrittenFormReadsBack(gap: seq<Fill>, t: Tree, end: seq<Fill>)
    requires FillOk(gap) && Formed(t) && FillOk(end)
    ensures var (v, p) := ValueAt(FillText(gap) + Text(t) + FillText(end), 0);
      && p == |FillText(gap)| + |Text(t)| && v == Val(Read(t))
      && (Of(v.v) == Meaning(t) <==> !HasBareCr(t))
      && (KeepsNull(v.v) <==> HasNullEntry(t))
  {
    hide At, RawAt, ValueAt, Formed, Text, Read, FillText, FillOk, Of, Meaning, HasBareCr, KeepsNull, HasNullEntry;
    AtStart(FillText(gap), Text(t), FillText(end));
    ReadWhole(FillText(gap) + Text(t) + FillText(end), gap, t, end);
    ValueMeansWhatIsRead(t);
    NullEntriesAreKept(t);
  }

  lemma {:induction false} FillEndsToken(s: string, p: nat, end: seq<Fill>)
    requires FillOk(end) && At(s, p, FillText(end)) && p + |FillText(end)| == |s|
    ensures EndsToken(s, p)
  {
    if end != [] {
      GapEndsToken(s, p, end);
    }
  }

  lemma {:induction false} ReadNumber(s: string, p: nat, n: Numeral, gap: seq<Fill>)
    requires NumOk(n) && FillOk(gap) && gap != []
    requires At(s, p, NumText(n)) && At(s, p + |NumText(n)|, FillText(gap))
    ensures RawAt(s, p) == (Val(Num(NumMeaning(n))), p + |NumText(n)|)
    ensures RawAt(s, p + |NumText(n)|) == RawAt(s, p + |NumText(n)| + |FillText(gap)|)
  {
    hide At, RawAt, NumText, NumMeaning, FillText, FillOk, WordNumber, WordOk, NumOk, EndsToken;
    GapEndsToken(s, p + |NumText(n)|, gap);
    NumberRead(n);
    NumberWord(n);
    ReadWord(s, p, NumText(n));
    RawAfterFill(s, p + |NumText(n)|, gap);
  }

  lemma {:induction false} FoldAt(s: string, n: Numeral, gap1: seq<Fill>, g: Numeral, gap2: seq<Fill>)
    requires NumOk(n) && NumOk(g) && FillOk(gap1) && FillOk(gap2) && gap1 != [] && gap2 != []
    requires var p1 := |NumText(n)| + |FillText(gap1)|; var p2 := p1 + |NumText(g)| + |FillText(gap2)|;
      && At(s, 0, NumText(n)) && At(s, |NumText(n)|, FillText(gap1)) && At(s, p1, NumText(g))
      && At(s, p1 + |NumText(g)|, FillText(gap2)) && At(s, p2, "R") && |s| == p2 + 1
    ensures ValueAt(s, 0) ==
      if IsIntegral(NumMeaning(n)) && IsIntegral(NumMeaning(g)) then (Val(Ref(NumMeaning(n).Floor)), |s|)
      else (Val(Num(NumMeaning(n))), |NumText(n)|)
  {
    hide At, RawAt, ValueAt, NumText, NumMeaning, FillText, FillOk, WordNumber, WordValue, WordOk, NumOk;
    var p1 := |NumText(n)| + |FillText(gap1)|;
    assert 0 + |NumText(n)| == |NumText(n)|;
    ReadNumber(s, 0, n, gap1);
    ReadNumber(s, p1, g, gap2);
    RIsAnOperator();
    var p2 := p1 + |NumText(g)| + |FillText(gap2)|;
    ReadWord(s, p2, "R");
    FoldsWhole(s, 0, |NumText(n)|, p1 + |NumText(g)|, p2 + 1, NumMeaning(n), NumMeaning(g));
  }

  lemma {:induction false} FoldsWhole(s: string, p: nat, q: nat, q1: nat, q2: nat, n: real, g: real)
    requires RawAt(s, p) == (Val(Num(n)), q) && RawAt(s, q) == (Val(Num(g)), q1) && RawAt(s, q1) == (Val(Op("R")), q2)
    ensures ValueAt(s, p) ==
      if IsIntegral(n) && IsIntegral(g) then (Val(Ref(n.Floor)), q2) else (Val(Num(n)), q)
  {
    hide RawAt, IsIntegral;
  }

  // Two numerals and R read as a reference exactly when both numbers are whole, whatever their form:
  // 7.0 names object 7 as well as 7 does.
  lemma {:induction false} WholeNumeralsFold(n: Numeral, gap1: seq<Fill>, g: Numeral, gap2: seq<Fill>)
    requires NumOk(n) && NumOk(g) && FillOk(gap1) && FillOk(gap2) && gap1 != [] && gap2 != []
    ensures var s := NumText(n) + FillText(gap1) + (NumText(g) + FillText(gap2) + "R");
      ValueAt(s, 0) ==
        if IsIntegral(NumMeaning(n)) && IsIntegral(NumMeaning(g)) then (Val(Ref(NumMeaning(n).Floor)), |s|)
        else (Val(Num(NumMeaning(n))), |NumText(n)|)
  {
    hide At, ValueAt, NumText, NumMeaning, FillText, FillOk, NumOk;
    var w1, f1, w2, f2 := NumText(n), FillText(gap1), NumText(g), FillText(gap2);
    var s := w1 + f1 + (w2 + f2 + "R");
    AtStart(w1, f1, w2 + f2 + "R");
    AtSplit3(s, |w1| + |f1|, w2, f2, "R");
    FoldAt(s, n, gap1, g, gap2);
  }

  // An input: 7.0 0 R is a reference to object 7.
  lemma {:induction false} PointZeroIsFolded()
    ensures ValueAt("7.0 0 R", 0) == (Val(Ref(7)), 7)
  {
    var n, g := Numeral("", "7", true, "0"), Numeral("", "0", false, "");
    SpaceText();
    PointZeroNumbers();
    assert NumText(n) == "7.0" && NumText(g) == "0";
    assert "7.0" + " " + ("0" + " " + "R") == "7.0 0 R";
    WholeNumeralsFold(n, Space, g, Space);
  }

  lemma {:induction false} PointZeroNumbers()
    ensures var n := Numeral("", "7", true, "0"); NumOk(n) && NumMeaning(n) == 7.0
    ensures var g := Numeral("", "0", false, ""); NumOk(g) && NumMeaning(g) == 0.0
  {
  }

  // ------------------------------------------------------------------ a printer

  // The values a document holds outside content streams: whole numbers, no operators, one entry per key.
  predicate Printable(v: Value) {
    match v
    case Num(r) => IsIntegral(r)
    case Bool(_) => true
    case Null => true
    case Name(n) => NameFits(n)
    case Ref(id) => id >= 0
    case Str(_, _) => true
    case Dict(es) => KeysOnce(es) && forall i :: 0 <= i < |es| ==> NameFits(es[i].key) && Printable(es[i].value)
    case Arr(items) => forall i :: 0 <= i < |items| ==> Printable(items[i])
    case Op(_) => false
  }

  // The characters #xx can write.
  predicate NameFits(n: string) {
    forall i :: 0 <= i < |n| ==> n[i] as int < 256
  }

  predicate KeysOnce(es: seq<Entry>) {
    forall i, j :: 0 <= i < j < |es| ==> es[i].key != es[j].key
  }

  function HexDigit(n: nat): (c: char)
    requires n < 16
    ensures IsHex(c) && HexValue(c) == n
  {
    if n < 10 then ('0' as int + n) as char else ('A' as int + n - 10) as char
  }

  const Space: seq<Fill> := [Blank(' ')]

  function NumTree(n: int): Numeral {
    Numeral(if n < 0 then "-" else "", Decimals.Numeral(if n < 0 then -n else n), false, "")
  }

  function NameParts(n: string): (ps: seq<NamePart>)
    requires NameFits(n)
    ensures NameOk(ps) && NameMeaning(ps) == n
  {
    if n == "" then []
    else
      var c := n[0] as int;
      assert c == 16 * (c / 16) + c % 16;
      [if IsRegular(n[0]) && n[0] != '#' then Same(n[0]) else Coded(HexDigit(c / 16), HexDigit(c % 16))]
      + NameParts(n[1..])
  }

  function LitParts(b: seq<Byte>): (ps: seq<LitPart>)
    ensures LitPartsOk(ps) && LitRead(ps) == b && LitOk(ps, 1)
    ensures Plain('\r') !in ps
  {
    if b == [] then []
    else [if b[0] in {10, 13, 9, 8, 12, 40, 41, 92} then Short(b[0]) else Plain(b[0] as char)] + LitParts(b[1..])
  }

  lemma {:induction false} TwoCells(hi: char, lo: char, rest: seq<HexCell>)
    requires IsHex(hi) && IsHex(lo) && CellsOk(rest)
    ensures var cells := [HexCell("", hi), HexCell("", lo)] + rest;
      && CellsOk(cells) && CellDigits(cells) == [hi, lo] + CellDigits(rest)
      && CellsText(cells) != "" && CellsText(cells)[0] == hi
  {
    var a, b := HexCell("", hi), HexCell("", lo);
    var cells := [a, b] + rest;
    assert cells[1..] == [b] + rest && ([b] + rest)[1..] == rest;
    assert CellDigits(cells) == [hi] + CellDigits([b] + rest);
    assert CellDigits([b] + rest) == [lo] + CellDigits(rest);
  }

  lemma {:induction false} TwoDigits(hi: char, lo: char, d: string)
    requires IsHex(hi) && IsHex(lo) && forall i :: 0 <= i < |d| ==> IsHex(d[i])
    ensures HexMeaning([hi, lo] + d) == [16 * HexValue(hi) + HexValue(lo)] + HexMeaning(d)
  {
    hide HexValue;
    assert ([hi, lo] + d)[2..] == d;
  }

  function HexCells(b: seq<Byte>): (cells: seq<HexCell>)
    ensures CellsOk(cells)
    ensures HexMeaning(CellDigits(cells)) == b
    ensures CellsText(cells) != "" ==> IsHex(CellsText(cells)[0])
  {
    if b == [] then []
    else
      var rest := HexCells(b[1..]);
      var hi, lo := HexDigit(b[0] / 16), HexDigit(b[0] % 16);
      TwoCells(hi, lo, rest);
      TwoDigits(hi, lo, CellDigits(rest));
      assert 16 * HexValue(hi) + HexValue(lo) == b[0];
      [HexCell("", hi), HexCell("", lo)] + rest
  }

  // One written form of a printable value.
  function Written(v: Value): (t: Tree)
    requires Printable(v)
    decreases v
  {
    match v
    case Num(r) => TNum(NumTree(r.Floor))
    case Bool(b) => TBool(b)
    case Null => TNull
    case Name(n) => TName(NameParts(n))
    case Ref(id) => TRef(RefText(Decimals.Numeral(id), Space, "0", Space))
    case Str(b, hex) => if hex then THex(HexCells(b), "") else TLit(LitParts(b))
    case Dict(es) => TDict(WrittenPairs(es), [])
    case Arr(items) => TArr(WrittenItems(items), [])
  }

  function WrittenItems(vs: seq<Value>): (items: seq<Item>)
    requires forall i :: 0 <= i < |vs| ==> Printable(vs[i])
    decreases vs
  {
    if vs == [] then [] else [Item(Space, Written(vs[0]))] + WrittenItems(vs[1..])
  }

  function WrittenPairs(es: seq<Entry>): (pairs: seq<Pair>)
    requires forall i :: 0 <= i < |es| ==> NameFits(es[i].key) && Printable(es[i].value)
    decreases es
  {
    if es == [] then []
    else [Pair(Space, NameParts(es[0].key), Item(Space, Written(es[0].value)))] + WrittenPairs(es[1..])
  }

  lemma {:induction false} SpaceText()
    ensures FillText(Space) == " " && FillOk(Space)
  {
    assert FillText(Space[1..]) == "";
  }

  lemma {:induction false} NumTreeMeaning(n: int)
    ensures NumOk(NumTree(n)) && NumMeaning(NumTree(n)) == n as real
  {
  }

  lemma {:induction false} WrittenMeans(v: Value)
    requires Printable(v)
    ensures Formed(Written(v)) && Read(Written(v)) == v
    decreases v, 0
  {
    match v {
      case Num(r) => NumTreeMeaning(r.Floor);
      case Ref(id) => SpaceText();
      case Str(b, hex) =>
        assert HexCells(b) == HexCells(b);
        assert CellsText(HexCells(b)) + "" == CellsText(HexCells(b));
      case Arr(items) => WrittenItemsMean(items);
      case Dict(es) => WrittenPairsMean(es, []); WrittenPairsApart(es); assert [] + es == es;
      case _ =>
    }
  }

  lemma {:induction false} WrittenItemsMean(vs: seq<Value>)
    requires forall i :: 0 <= i < |vs| ==> Printable(vs[i])
    ensures ItemsOk(WrittenItems(vs)) && ItemsRead(WrittenItems(vs)) == vs
    ensures ItemsApart(WrittenItems(vs), FillText([]) + "]")
    ensures var w := ItemsText(WrittenItems(vs)) + (FillText([]) + "]"); w[0] == ' ' || w[0] == ']'
    decreases vs, 1
  {
    hide Text, Read, Formed, FillOk, Written;
    SpaceText();
    if vs != [] {
      WrittenMeans(vs[0]);
      WrittenItemsMean(vs[1..]);
      assert WrittenItems(vs)[1..] == WrittenItems(vs[1..]);
    }
  }

  // The printed form has no carriage return without a backslash.
  lemma {:induction false} WrittenHasNoBareCr(v: Value)
    requires Printable(v) && Formed(Written(v))
    ensures !HasBareCr(Written(v))
    decreases v, 0
  {
    match v {
      case Arr(items) => WrittenItemsHaveNoBareCr(items);
      case Dict(es) => WrittenPairsHaveNoBareCr(es);
      case _ =>
    }
  }

  lemma {:induction false} WrittenItemsHaveNoBareCr(vs: seq<Value>)
    requires forall i :: 0 <= i < |vs| ==> Printable(vs[i])
    requires ItemsOk(WrittenItems(vs))
    ensures !ItemsHaveBareCr(WrittenItems(vs))
    decreases vs, 1
  {
    hide HasBareCr;
    if vs != [] {
      assert WrittenItems(vs)[0].tree == Written(vs[0]);
      WrittenHasNoBareCr(vs[0]);
      assert WrittenItems(vs)[1..] == WrittenItems(vs[1..]);
      WrittenItemsHaveNoBareCr(vs[1..]);
      forall i | 0 <= i < |WrittenItems(vs)|
        ensures !HasBareCr(WrittenItems(vs)[i].tree)
      {
        if i > 0 { assert WrittenItems(vs)[i] == WrittenItems(vs[1..])[i - 1]; }
      }
    }
  }

  lemma {:induction false} WrittenPairsHaveNoBareCr(es: seq<Entry>)
    requires forall i :: 0 <= i < |es| ==> NameFits(es[i].key) && Printable(es[i].value)
    requires PairsOk(WrittenPairs(es))
    ensures forall i :: 0 <= i < |WrittenPairs(es)| ==> !HasBareCr(WrittenPairs(es)[i].value.tree)
    decreases es, 1
  {
    hide HasBareCr, NameOk, NameText;
    if es != [] {
      assert WrittenPairs(es)[0].value.tree == Written(es[0].value);
      WrittenHasNoBareCr(es[0].value);
      assert WrittenPairs(es)[1..] == WrittenPairs(es[1..]);
      WrittenPairsHaveNoBareCr(es[1..]);
      forall i | 0 <= i < |WrittenPairs(es)|
        ensures !HasBareCr(WrittenPairs(es)[i].value.tree)
      {
        if i > 0 { assert WrittenPairs(es)[i] == WrittenPairs(es[1..])[i - 1]; }
      }
    }
  }

  lemma {:induction false} MapSetNew(es: seq<Entry>, k: string, v: Value)
    requires forall i :: 0 <= i < |es| ==> es[i].key != k
    ensures MapSet(es, k, v) == es + [Entry(k, v)]
  {
    if es != [] {
      MapSetNew(es[1..], k, v);
    }
  }

  lemma {:induction false} WrittenPairsMean(es: seq<Entry>, acc: seq<Entry>)
    requires forall i :: 0 <= i < |es| ==> NameFits(es[i].key) && Printable(es[i].value)
    requires KeysOnce(acc + es)
    ensures PairsOk(WrittenPairs(es)) && PairsRead(WrittenPairs(es), acc) == acc + es
    decreases es, 1
  {
    hide Text, NameText, IsRegular, NameOk;
    SpaceText();
    if es != [] {
      var k, v := es[0].key, es[0].value;
      WrittenMeans(v);
      forall i | 0 <= i < |acc| ensures acc[i].key != k {
        assert (acc + es)[i].key != (acc + es)[|acc|].key;
      }
      MapSetNew(acc, k, v);
      assert acc + [Entry(k, v)] + es[1..] == acc + es;
      WrittenPairsMean(es[1..], acc + [Entry(k, v)]);
      assert WrittenPairs(es)[1..] == WrittenPairs(es[1..]);
    }
  }

  lemma {:induction false} WrittenPairsApart(es: seq<Entry>)
    requires forall i :: 0 <= i < |es| ==> NameFits(es[i].key) && Printable(es[i].value)
    ensures PairsApart(WrittenPairs(es), FillText([]) + ">>")
    ensures var w := PairsText(WrittenPairs(es)) + (FillText([]) + ">>"); w[0] == ' ' || w[0] == '>'
  {
    hide Text, NameText, Printable, NameFits;
    SpaceText();
    if es != [] {
      WrittenPairsApart(es[1..]);
      assert WrittenPairs(es)[1..] == WrittenPairs(es[1..]);
    }
  }

  // Printing a value gives a text that denotes its object, and reading that text gives the value back and stops at
  // its end.
  lemma {:induction false} PrintThenRead(v: Value)
    requires Printable(v)
    ensures Formed(Written(v)) && Meaning(Written(v)) == Of(v)
    ensures ValueAt(Text(Written(v)), 0) == (Val(v), |Text(Written(v))|)
  {
    hide Read, Of, Meaning, HasBareCr, KeepsNull, HasNullEntry, ValueAt, Text, Formed, Written;
    WrittenMeans(v);
    WrittenHasNoBareCr(v);
    WrittenFormReadsBack([], Written(v), []);
    assert FillText([]) + Text(Written(v)) + FillText([]) == Text(Written(v));
  }
}
