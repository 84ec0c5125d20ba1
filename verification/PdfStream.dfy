// A written content stream: the operands and operators scanContent() meets are the ones written.

module PdfStream {
  import opened PdfValues
  import opened PdfLexer
  import opened PdfGrammar
  import opened PdfMeaning
  import opened PdfReading
  import opened PdfContent

  lemma {:induction false} ReadStreamEnd(s: string, p: nat, end: seq<Fill>)
    requires FillOk(end) && At(s, p, FillText(end)) && p + |FillText(end)| == |s|
    ensures RawAt(s, p) == ValueAt(s, p) == (Eof, |s|)
  {
    hide At, FillOk, FillText, TokenAt;
    RawAfterFill(s, p, end);
  }

  // ------------------------------------------------------------------ written streams

  // A value or operator, or the ID of an inline image with its data: everything up to the white space before EI.
  datatype Part = Token(item: Item) | Inline(gap: seq<Fill>, data: string, space: char)

  function DataText(data: string, space: char): string {
    data + [space] + "EI"
  }

  function PartText(part: Part): string {
    match part
    case Token(item) => ItemText(item)
    case Inline(gap, data, space) => FillText(gap) + "ID" + DataText(data, space)
  }

  function PartsText(parts: seq<Part>): string {
    if parts == [] then "" else PartText(parts[0]) + PartsText(parts[1..])
  }

  // What a part is to the interpreter.
  function Met(part: Part): Item {
    match part
    case Token(item) => item
    case Inline(gap, _, _) => Item(gap, TOp("ID"))
  }

  function AllMet(parts: seq<Part>): seq<Item> {
    seq(|parts|, i requires 0 <= i < |parts| => Met(parts[i]))
  }

  // White space, EI and a character that ends it occur in the data.
  predicate HoldsAnEnd(data: string, space: char) {
    exists k :: 0 <= k < |data| && ImageEndsAt(DataText(data, space), k)
  }

  predicate PartOk(part: Part) {
    match part
    case Token(item) => FillOk(item.gap) && Formed(item.tree) && item.tree != TOp("ID")
    case Inline(gap, data, space) =>
      FillOk(gap) && IsSpace(space) && !IsRegular(DataText(data, space)[0]) && !HoldsAnEnd(data, space)
  }

  predicate PartsOk(parts: seq<Part>) {
    forall i :: 0 <= i < |parts| ==> PartOk(parts[i])
  }

  // No part runs on into the next one.
  predicate PartsApart(parts: seq<Part>, after: string) {
    parts != [] ==>
      var rest := PartsText(parts[1..]) + after;
      && (match parts[0]
          case Token(item) => Apart(item.tree, rest)
          case Inline(_, _, _) => rest == "" || EndsData(rest[0]))
      && PartsApart(parts[1..], after)
  }

  // The parts stand at p, white space follows them, and then the text ends.
  predicate StreamStands(s: string, p: nat, parts: seq<Part>, end: seq<Fill>) {
    PartsOk(parts) && FillOk(end) && PartsApart(parts, FillText(end)) &&
    At(s, p, PartsText(parts) + FillText(end)) && p + |PartsText(parts) + FillText(end)| == |s|
  }

  // ------------------------------------------------------------------ inline images

  lemma {:induction false} MatchInData(data: string, space: char, after: string, k: nat)
    requires k < |data|
    ensures ImageEndsAt(DataText(data, space) + after, k) <==> ImageEndsAt(DataText(data, space), k)
  {
    var d := DataText(data, space);
    assert forall i :: k <= i <= k + 3 ==> (d + after)[i] == d[i];
  }

  // The data of an inline image is skipped to the EI that is written after it exactly when the data itself
  // holds no such end, and what follows ends the EI.
  lemma {:induction false} DataIsSkipped(data: string, space: char, after: string)
    requires IsSpace(space)
    ensures ImageEnd(DataText(data, space) + after, 0) == |data| + 3 <==>
      !HoldsAnEnd(data, space) && (after == "" || EndsData(after[0]))
  {
    hide ImageEndsAt;
    var d := DataText(data, space);
    var s := d + after;
    var q := ImageEnd(s, 0);
    MatchAfterData(data, space, after);
    forall k | 0 <= k < |data|
      ensures ImageEndsAt(s, k) <==> ImageEndsAt(d, k)
    {
      MatchInData(data, space, after, k);
    }
  }

  // An input: lexing goes on in the middle of data that holds an end.
  lemma {:induction false} DataEndsEarly()
    ensures DataText(" a EI b", ' ') == " a EI b EI" && ImageEnd(" a EI b EI", 0) == 5
  {
    var s := " a EI b EI";
    assert DataText(" a EI b", ' ') == s;
    assert !ImageEndsAt(s, 0) && !ImageEndsAt(s, 1) && ImageEndsAt(s, 2);
  }

  lemma {:induction false} MatchAfterData(data: string, space: char, after: string)
    requires IsSpace(space)
    ensures ImageEndsAt(DataText(data, space) + after, |data|) <==> after == "" || EndsData(after[0])
  {
    var d, n := DataText(data, space), |data|;
    var s := d + after;
    assert s[n] == d[n] == space && s[n + 1] == d[n + 1] == 'E' && s[n + 2] == d[n + 2] == 'I';
    assert after != "" ==> s[n + 3] == after[0];
  }

  lemma {:induction false} EndOfRest(s: string, p: nat)
    requires p <= |s|
    ensures ImageEnd(s, p) == p + ImageEnd(s[p..], 0)
  {
    var t := s[p..];
    forall k | 0 <= k <= |t|
      ensures ImageEndsAt(t, k) <==> ImageEndsAt(s, p + k)
    {
    }
    var q, r := ImageEnd(s, p), ImageEnd(t, 0);
    assert q == |s| || ImageEndsAt(t, q - 3 - p);
    assert r == |t| || ImageEndsAt(s, p + (r - 3));
  }

  // ------------------------------------------------------------------ reading a stream

  lemma {:induction false} IdIsAnOperator()
    ensures Formed(TOp("ID")) && Text(TOp("ID")) == "ID" && NeedsEnd(TOp("ID"))
  {
    KeywordsAreNotNumbers("ID");
  }

  lemma {:induction false} PartsTextSplit(parts: seq<Part>, after: string)
    requires parts != []
    ensures PartsText(parts) + after == PartText(parts[0]) + (PartsText(parts[1..]) + after)
  {
    hide PartText;
  }

  lemma {:induction false} PartStands(s: string, p: nat, part: Part, rest: string)
    requires PartOk(part) && At(s, p, PartText(part) + rest) && p + |PartText(part) + rest| == |s|
    requires part.Token? ==> Apart(part.item.tree, rest)
    ensures Stands(s, p, Met(part).gap, Met(part).tree)
  {
    hide At, Formed, FillOk, IsRegular, FillText, Text, HoldsAnEnd;
    var f, w := FillText(Met(part).gap), Text(Met(part).tree);
    match part {
      case Token(item) =>
        AtSplit3(s, p, f, w, rest);
        AtStarts(s, p + |f| + |w|, rest);
      case Inline(gap, data, space) =>
        IdIsAnOperator();
        assert PartText(part) + rest == f + "ID" + (DataText(data, space) + rest);
        AtSplit3(s, p, f, "ID", DataText(data, space) + rest);
        AtStarts(s, p + |f| + 2, DataText(data, space) + rest);
        assert (DataText(data, space) + rest)[0] == DataText(data, space)[0];
    }
  }

  lemma {:induction false} AtStarts(s: string, p: nat, t: string)
    requires At(s, p, t)
    ensures t != "" ==> p < |s| && s[p] == t[0]
  {
  }

  lemma {:induction false} StreamSplit(s: string, p: nat, parts: seq<Part>, end: seq<Fill>)
    requires parts != [] && StreamStands(s, p, parts, end)
    ensures Stands(s, p, Met(parts[0]).gap, Met(parts[0]).tree)
    ensures StreamStands(s, p + |PartText(parts[0])|, parts[1..], end)
  {
    hide At, Formed, FillOk, IsRegular, FillText, Text, PartText, PartOk, Stands;
    var rest := PartsText(parts[1..]) + FillText(end);
    PartsTextSplit(parts, FillText(end));
    AtSplit(s, p, PartText(parts[0]), rest);
    PartStands(s, p, parts[0], rest);
  }

  lemma {:induction false} StreamEnds(s: string, p: nat, end: seq<Fill>)
    requires StreamStands(s, p, [], end)
    ensures RawAt(s, p) == ValueAt(s, p) == (Eof, |s|) && Tokens(s, p) == []
  {
    hide ValueAt, RawAt, At;
    assert PartsText([]) + FillText(end) == FillText(end);
    ReadStreamEnd(s, p, end);
  }

  lemma {:induction false} StreamNotR(s: string, p: nat, parts: seq<Part>, end: seq<Fill>)
    requires StreamStands(s, p, parts, end)
    ensures RawAt(s, p).0 != Val(Op("R"))
  {
    hide At, FillOk, FillText, Text, PartsText, RawAt, StreamStands;
    if parts == [] {
      StreamEnds(s, p, end);
    } else {
      StreamSplit(s, p, parts, end);
      ReadRaw(s, p, Met(parts[0]).gap, Met(parts[0]).tree);
      FirstIsNotR(Met(parts[0]).tree);
    }
  }

  lemma {:induction false} FirstIsNotR(t: Tree)
    requires Formed(t)
    ensures FirstToken(t) != Op("R")
  {
  }

  lemma {:induction false} StreamNoFold(s: string, p: nat, parts: seq<Part>, end: seq<Fill>)
    requires StreamStands(s, p, parts, end)
    ensures NoFold(s, p)
  {
    hide At, FillOk, FillText, Text, PartsText, RawAt, StreamStands, Formed;
    if parts == [] {
      StreamEnds(s, p, end);
    } else {
      var gap, t := Met(parts[0]).gap, Met(parts[0]).tree;
      StreamSplit(s, p, parts, end);
      ReadRaw(s, p, gap, t);
      if t.TRef? {
        ReadRefTree(s, p, gap, t);
      } else if parts[0].Token? {
        StreamNotR(s, p + |PartText(parts[0])|, parts[1..], end);
      }
    }
  }

  lemma {:induction false} PartNoFold(s: string, p: nat, parts: seq<Part>, end: seq<Fill>)
    requires parts != [] && StreamStands(s, p, parts, end)
    ensures Met(parts[0]).tree.TNum? ==> NoFold(s, p + |ItemText(Met(parts[0]))|)
  {
    hide At, FillOk, FillText, Text, ItemText, PartsText, StreamStands, Stands, Formed, NoFold;
    StreamSplit(s, p, parts, end);
    if parts[0].Token? {
      StreamNoFold(s, p + |PartText(parts[0])|, parts[1..], end);
    }
  }

  lemma {:induction false} ReadStreamPart(s: string, p: nat, parts: seq<Part>, end: seq<Fill>)
    requires parts != [] && StreamStands(s, p, parts, end)
    ensures Formed(Met(parts[0]).tree)
    ensures ValueAt(s, p) == (Val(Read(Met(parts[0]).tree)), p + |ItemText(Met(parts[0]))|)
    ensures StreamStands(s, p + |PartText(parts[0])|, parts[1..], end)
  {
    hide At, EndsToken, FillOk, FillText, Text, PartsText, PartText, ValueAt, StreamStands, Formed, NoFold, Read, Met;
    StreamSplit(s, p, parts, end);
    PartNoFold(s, p, parts, end);
    ReadValue(s, p, Met(parts[0]).gap, Met(parts[0]).tree);
  }

  lemma {:induction false} TokensStep(s: string, p: nat, v: Value, q: nat)
    requires p < q <= |s| && ValueAt(s, p) == (Val(v), q)
    ensures Tokens(s, p) == [v] + Tokens(s, if v == Op("ID") then ImageEnd(s, q) else q)
  {
    hide ValueAt, ImageEnd;
  }

  lemma {:induction false} PartEnds(s: string, p: nat, parts: seq<Part>, end: seq<Fill>)
    requires parts != [] && StreamStands(s, p, parts, end)
    ensures var q := p + |ItemText(Met(parts[0]))|;
      p < q <= |s| && p + |PartText(parts[0])| == if parts[0].Token? then q else ImageEnd(s, q)
  {
    hide At, FillText, FillOk, Text, PartOk, PartsText, DataText, EndsData, ImageEnd;
    var rest := PartsText(parts[1..]) + FillText(end);
    PartsTextSplit(parts, FillText(end));
    MetNotEmpty(parts[0]);
    match parts[0] {
      case Token(_) =>
      case Inline(gap, data, space) => InlineEnds(s, p, gap, data, space, rest);
    }
  }

  lemma {:induction false} MetNotEmpty(part: Part)
    requires PartOk(part)
    ensures |ItemText(Met(part))| > 0
  {
    hide FillText, Text, FillOk, HoldsAnEnd;
    IdIsAnOperator();
    TextNotEmpty(Met(part).tree);
  }

  lemma {:induction false} InlineEnds(s: string, p: nat, gap: seq<Fill>, data: string, space: char, rest: string)
    requires PartOk(Inline(gap, data, space)) && (rest == "" || EndsData(rest[0]))
    requires var w := PartText(Inline(gap, data, space)) + rest; At(s, p, w) && p + |w| == |s|
    ensures var q := p + |ItemText(Item(gap, TOp("ID")))|;
      q <= |s| && p + |PartText(Inline(gap, data, space))| == ImageEnd(s, q)
  {
    hide FillText, FillOk, HoldsAnEnd, EndsData, ImageEnd;
    var head, tail := FillText(gap) + "ID", DataText(data, space) + rest;
    assert PartText(Inline(gap, data, space)) + rest == head + tail;
    AtSplit(s, p, head, tail);
    assert s[p + |head|..] == tail;
    EndOfRest(s, p + |head|);
    DataIsSkipped(data, space, rest);
  }

  lemma {:induction false} OnlyIdIsId(part: Part)
    requires PartOk(part)
    ensures Read(Met(part).tree) == Op("ID") <==> part.Inline?
  {
  }

  lemma {:induction false} ReadStreamFrom(s: string, p: nat, parts: seq<Part>, end: seq<Fill>)
    requires StreamStands(s, p, parts, end) && ItemsOk(AllMet(parts))
    ensures Tokens(s, p) == ItemsRead(AllMet(parts))
    decreases |parts|
  {
    hide At, FillOk, FillText, Text, PartText, PartsText, ItemText, RawAt, ValueAt, Tokens, Formed, Stands, ImageEnd;
    if parts == [] {
      StreamEnds(s, p, end);
    } else {
      ReadStreamPart(s, p, parts, end);
      PartEnds(s, p, parts, end);
      OnlyIdIsId(parts[0]);
      TokensStep(s, p, Read(Met(parts[0]).tree), p + |ItemText(Met(parts[0]))|);
      assert AllMet(parts)[1..] == AllMet(parts[1..]);
      ReadStreamFrom(s, p + |PartText(parts[0])|, parts[1..], end);
    }
  }

  lemma {:induction false} MetOk(parts: seq<Part>)
    requires PartsOk(parts)
    ensures ItemsOk(AllMet(parts))
  {
    IdIsAnOperator();
    forall i | 0 <= i < |parts|
      ensures FillOk(Met(parts[i]).gap) && Formed(Met(parts[i]).tree)
    {
    }
  }

  // A content stream written as operands and operators is interpreted as exactly those operands and operators,
  // without the data of its inline images. They stand for the objects written, exactly unless a literal string
  // that counts holds a carriage return without a backslash.
  lemma {:induction false} WrittenStreamTokens(parts: seq<Part>, end: seq<Fill>)
    requires PartsOk(parts) && FillOk(end) && PartsApart(parts, FillText(end))
    ensures ItemsOk(AllMet(parts))
    ensures var tokens := Tokens(PartsText(parts) + FillText(end), 0); var items := AllMet(parts);
      tokens == ItemsRead(items) && (OfItems(tokens) == ItemsMeaning(items) <==> !ItemsHaveBareCr(items))
  {
    hide FillText, PartsText, ItemsRead, Tokens, Formed, FillOk;
    MetOk(parts);
    var s := PartsText(parts) + FillText(end);
    assert At(s, 0, s);
    ReadStreamFrom(s, 0, parts, end);
    ItemsMeanWhatIsRead(AllMet(parts));
  }

  // Of any text whatever no more values are read than it has characters.
  lemma {:induction false} NoMoreTokensThanText(s: string, p: nat)
    requires p <= |s| + 1
    ensures |Tokens(s, p)| <= if p <= |s| then |s| - p else 0
    decreases |s| + 1 - p
  {
    hide RawAt, ImageEnd;
    var (t, q) := ValueAt(s, p);
    if t != Eof {
      AnyValueMoves(s, p);
      NoMoreTokensThanText(s, if t == Val(Op("ID")) then if q <= |s| then ImageEnd(s, q) else |s| else q);
    }
  }

  lemma {:induction false} AnyValueMoves(s: string, p: nat)
    requires ValueAt(s, p).0 != Eof
    ensures p < |s| && p < ValueAt(s, p).1
  {
    hide RawAt, ValueAt;
  }
}
