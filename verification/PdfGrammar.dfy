// The written forms of PDF values (section 7.3 of ISO 32000-1) as concrete syntax trees, and the values
// the lexer takes them for. PdfMeaning has the values they denote.

module PdfGrammar {
  import opened Options
  import opened Decimals
  import opened PdfValues
  import opened PdfLexer

  // ------------------------------------------------------------------ concrete syntax

  // White space between tokens; a comment runs to an end of line.
  datatype Fill = Blank(c: char) | Comment(text: string, eol: char)

  // A name character as itself or as #xx (section 7.3.5).
  datatype NamePart = Same(c: char) | Coded(hi: char, lo: char)

  // A piece of a literal string (section 7.3.4.2). Parentheses are plain where they balance.
  datatype LitPart =
    | Plain(c: char)
    | Short(means: Byte)
    | Octal(digits: string)
    | Wrap(eol: string)
    | Needless(c: char)

  datatype HexCell = HexCell(junk: string, digit: char)

  datatype Item = Item(gap: seq<Fill>, tree: Tree)
  datatype Pair = Pair(gap: seq<Fill>, key: seq<NamePart>, value: Item)

  datatype Numeral = Numeral(sign: string, whole: string, dot: bool, frac: string)
  datatype RefText = RefText(num: string, gap1: seq<Fill>, gen: string, gap2: seq<Fill>)

  datatype Tree =
    | TNum(n: Numeral)
    | TBool(b: bool)
    | TNull
    | TName(parts: seq<NamePart>)
    | TRef(ref: RefText)
    | TLit(lit: seq<LitPart>)
    | THex(cells: seq<HexCell>, tail: string)
    | TArr(items: seq<Item>, end: seq<Fill>)
    | TDict(pairs: seq<Pair>, end: seq<Fill>)
    | TOp(word: string)

  // ------------------------------------------------------------------ text

  function FillPart(x: Fill): string {
    match x
    case Blank(c) => [c]
    case Comment(t, e) => "%" + t + [e]
  }

  function FillText(f: seq<Fill>): string {
    if f == [] then "" else FillPart(f[0]) + FillText(f[1..])
  }

  function NameText(ps: seq<NamePart>): string {
    if ps == [] then ""
    else (match ps[0] case Same(c) => [c] case Coded(hi, lo) => ['#', hi, lo]) + NameText(ps[1..])
  }

  // The letter that stands for a byte after a backslash (Table 3 of ISO 32000-1).
  function Letter(b: Byte): char {
    match b
    case 10 => 'n' case 13 => 'r' case 9 => 't' case 8 => 'b' case 12 => 'f' case _ => b as char
  }

  function LitPartText(part: LitPart): string {
    match part
    case Plain(c) => [c]
    case Short(b) => ['\\', Letter(b)]
    case Octal(d) => "\\" + d
    case Wrap(e) => "\\" + e
    case Needless(c) => ['\\', c]
  }

  function LitText(ps: seq<LitPart>): string {
    if ps == [] then "" else LitPartText(ps[0]) + LitText(ps[1..])
  }

  function CellsText(cells: seq<HexCell>): string {
    if cells == [] then "" else cells[0].junk + [cells[0].digit] + CellsText(cells[1..])
  }

  function NumText(n: Numeral): string {
    n.sign + n.whole + if n.dot then "." + n.frac else ""
  }

  function RefTextOf(r: RefText): string {
    r.num + FillText(r.gap1) + r.gen + FillText(r.gap2) + "R"
  }

  function Text(t: Tree): string {
    match t
    case TNum(n) => NumText(n)
    case TBool(b) => if b then "true" else "false"
    case TNull => "null"
    case TName(ps) => "/" + NameText(ps)
    case TRef(r) => RefTextOf(r)
    case TLit(ps) => "(" + LitText(ps) + ")"
    case THex(cells, tail) => "<" + CellsText(cells) + tail + ">"
    case TArr(items, end) => "[" + ItemsText(items) + FillText(end) + "]"
    case TDict(pairs, end) => "<<" + PairsText(pairs) + FillText(end) + ">>"
    case TOp(w) => w
  }

  function ItemText(i: Item): string {
    FillText(i.gap) + Text(i.tree)
  }

  function ItemsText(items: seq<Item>): string {
    if items == [] then "" else ItemText(items[0]) + ItemsText(items[1..])
  }

  function KeyText(p: Pair): string {
    FillText(p.gap) + ("/" + NameText(p.key))
  }

  function PairsText(pairs: seq<Pair>): string {
    if pairs == [] then "" else KeyText(pairs[0]) + ItemText(pairs[0].value) + PairsText(pairs[1..])
  }

  // ------------------------------------------------------------------ what is read

  function NameMeaning(ps: seq<NamePart>): string
    requires NameOk(ps)
  {
    if ps == [] then ""
    else
      [match ps[0] case Same(c) => c case Coded(hi, lo) => (16 * HexValue(hi) + HexValue(lo)) as char]
      + NameMeaning(ps[1..])
  }

  function LitPartRead(part: LitPart): seq<Byte>
    requires LitPartOk(part)
  {
    match part
    case Plain(c) => [c as int % 256]
    case Short(b) => [b]
    case Octal(d) => [Oct(d) % 256]
    case Wrap(_) => []
    case Needless(c) => [c as int % 256]
  }

  function LitRead(ps: seq<LitPart>): seq<Byte>
    requires LitPartsOk(ps)
  {
    if ps == [] then [] else LitPartRead(ps[0]) + LitRead(ps[1..])
  }

  function CellDigits(cells: seq<HexCell>): (d: string)
    requires CellsOk(cells)
    ensures forall i :: 0 <= i < |d| ==> IsHex(d[i])
  {
    if cells == [] then "" else [cells[0].digit] + CellDigits(cells[1..])
  }

  // Pairs of digits; a last odd digit counts as followed by 0 (section 7.3.4.3).
  function HexMeaning(d: string): seq<Byte>
    requires forall i :: 0 <= i < |d| ==> IsHex(d[i])
  {
    if d == [] then [] else if |d| == 1 then [16 * HexValue(d[0])]
    else [16 * HexValue(d[0]) + HexValue(d[1])] + HexMeaning(d[2..])
  }

  function NumMeaning(n: Numeral): real
    requires NumOk(n)
  {
    var size := Dec(n.whole) as real + Dec(n.frac) as real / Pow10(|n.frac|) as real;
    if n.sign == "-" then -size else size
  }

  function Read(t: Tree): Value
    requires Formed(t)
  {
    match t
    case TNum(n) => Num(NumMeaning(n))
    case TBool(b) => Bool(b)
    case TNull => Null
    case TName(ps) => Name(NameMeaning(ps))
    case TRef(r) => Ref(Dec(r.num))
    case TLit(ps) => Str(LitRead(ps), false)
    case THex(cells, _) => Str(HexMeaning(CellDigits(cells)), true)
    case TArr(items, _) => Arr(ItemsRead(items))
    case TDict(pairs, _) => Dict(PairsRead(pairs, []))
    case TOp(w) => Op(w)
  }

  function ItemsRead(items: seq<Item>): seq<Value>
    requires ItemsOk(items)
  {
    if items == [] then [] else [Read(items[0].tree)] + ItemsRead(items[1..])
  }

  function PairsRead(pairs: seq<Pair>, acc: seq<Entry>): seq<Entry>
    requires PairsOk(pairs)
    decreases pairs
  {
    if pairs == [] then acc
    else PairsRead(pairs[1..], MapSet(acc, NameMeaning(pairs[0].key), Read(pairs[0].value.tree)))
  }

  // ------------------------------------------------------------------ well-formedness

  predicate FillOk(f: seq<Fill>) {
    forall i :: 0 <= i < |f| ==> FillPartOk(f[i])
  }

  predicate FillPartOk(x: Fill) {
    match x
    case Blank(c) => IsWhite(c)
    case Comment(t, e) => IsEol(e) && forall k :: 0 <= k < |t| ==> !IsEol(t[k])
  }

  predicate NameOk(ps: seq<NamePart>) {
    forall i :: 0 <= i < |ps| ==>
      match ps[i]
      case Same(c) => IsRegular(c) && c != '#'
      case Coded(hi, lo) => IsHex(hi) && IsHex(lo)
  }

  predicate LitPartOk(part: LitPart) {
    match part
    case Plain(c) => c != '\\'
    case Short(b) => b in {10, 13, 9, 8, 12, 40, 41, 92}
    case Octal(d) => 1 <= |d| <= 3 && forall i :: 0 <= i < |d| ==> IsOctal(d[i])
    case Wrap(e) => e == "\n" || e == "\r" || e == "\r\n"
    case Needless(c) => ShortEscape(c) == None && !IsOctal(c) && !IsEol(c)
  }

  predicate LitPartsOk(ps: seq<LitPart>) {
    forall i :: 0 <= i < |ps| ==> LitPartOk(ps[i])
  }

  // No piece is read on into the next one, and plain parentheses balance.
  predicate LitOk(ps: seq<LitPart>, depth: nat)
    requires depth > 0
  {
    if ps == [] then depth == 1
    else
      var next := (LitText(ps[1..]) + ")")[0];
      (ps[0].Octal? && |ps[0].digits| < 3 ==> !IsOctal(next)) &&
      (ps[0] == Wrap("\r") ==> next != '\n') &&
      if ps[0] == Plain('(') then LitOk(ps[1..], depth + 1)
      else if ps[0] == Plain(')') then depth > 1 && LitOk(ps[1..], depth - 1)
      else LitOk(ps[1..], depth)
  }

  predicate NotHex(w: string) {
    forall i :: 0 <= i < |w| ==> !IsHex(w[i]) && w[i] != '>'
  }

  predicate CellsOk(cells: seq<HexCell>) {
    forall i :: 0 <= i < |cells| ==> IsHex(cells[i].digit) && NotHex(cells[i].junk)
  }

  predicate WordOk(w: string) {
    w != "" && forall i :: 0 <= i < |w| ==> IsRegular(w[i])
  }

  predicate NumOk(n: Numeral) {
    (n.sign == "" || n.sign == "+" || n.sign == "-") && AllDigits(n.whole) && AllDigits(n.frac) &&
    |n.whole| + |n.frac| > 0 && (!n.dot ==> n.frac == "")
  }

  predicate RefOk(r: RefText) {
    r.num != "" && AllDigits(r.num) && r.gen != "" && AllDigits(r.gen) &&
    FillOk(r.gap1) && r.gap1 != [] && FillOk(r.gap2) && r.gap2 != []
  }

  predicate HexOk(cells: seq<HexCell>, tail: string) {
    CellsOk(cells) && NotHex(tail) && (CellsText(cells) + tail != "" ==> (CellsText(cells) + tail)[0] != '<')
  }

  predicate OpOk(w: string) {
    WordOk(w) && WordNumber(w) == None && w != "true" && w != "false" && w != "null" && w != "R"
  }

  // Every construct is well-formed on its own, and no token of it runs on into the next.
  predicate Formed(t: Tree) {
    match t
    case TNum(n) => NumOk(n)
    case TBool(_) => true
    case TNull => true
    case TName(ps) => NameOk(ps)
    case TRef(r) => RefOk(r)
    case TLit(ps) => LitPartsOk(ps) && LitOk(ps, 1)
    case THex(cells, tail) => HexOk(cells, tail)
    case TArr(items, end) => FillOk(end) && ItemsOk(items) && ItemsApart(items, FillText(end) + "]")
    case TDict(pairs, end) => FillOk(end) && PairsOk(pairs) && PairsApart(pairs, FillText(end) + ">>")
    case TOp(w) => OpOk(w)
  }

  predicate ItemsOk(items: seq<Item>) {
    forall i :: 0 <= i < |items| ==> FillOk(items[i].gap) && Formed(items[i].tree)
  }

  predicate PairsOk(pairs: seq<Pair>) {
    forall i :: 0 <= i < |pairs| ==>
      FillOk(pairs[i].gap) && NameOk(pairs[i].key) && FillOk(pairs[i].value.gap) && Formed(pairs[i].value.tree)
  }

  // A token that ends in a regular character is followed by a delimiter or white space.
  predicate NeedsEnd(t: Tree) {
    !t.TLit? && !t.THex? && !t.TArr? && !t.TDict?
  }

  predicate Apart(t: Tree, after: string) {
    NeedsEnd(t) && after != "" ==> !IsRegular(after[0])
  }

  predicate ItemsApart(items: seq<Item>, after: string) {
    items != [] ==> Apart(items[0].tree, ItemsText(items[1..]) + after) && ItemsApart(items[1..], after)
  }

  predicate PairsApart(pairs: seq<Pair>, after: string) {
    pairs != [] ==>
      !IsRegular((ItemText(pairs[0].value) + "/")[0]) &&
      Apart(pairs[0].value.tree, PairsText(pairs[1..]) + after) && PairsApart(pairs[1..], after)
  }
}
