// The tokeniser and value parser of pdf-text.ts (class Lexer): the functions say what each scan
// yields at a position, and the class moves its position through the same scans.

module PdfValues {
  type Byte = n: int | 0 <= n < 256

  datatype Entry = Entry(key: string, value: Value)

  // A dictionary keeps its entries in insertion order, as a JavaScript Map does.
  datatype Value =
    | Num(value: real)
    | Bool(b: bool)
    | Null
    | Name(name: string)
    | Ref(id: int)
    | Str(bytes: seq<Byte>, hex: bool)
    | Dict(entries: seq<Entry>)
    | Arr(items: seq<Value>)
    | Op(op: string)

  datatype Token = Val(v: Value) | ArrayEnd | DictEnd | Eof

  predicate IsIntegral(r: real) {
    r == r.Floor as real
  }

  predicate IsInteger(t: Token) {
    t.Val? && t.v.Num? && IsIntegral(t.v.value)
  }

  // Map.set: an existing key keeps its place, a new one goes last.
  function MapSet(es: seq<Entry>, k: string, v: Value): (r: seq<Entry>)
  {
    if es == [] then [Entry(k, v)]
    else if es[0].key == k then [Entry(k, v)] + es[1..]
    else [es[0]] + MapSet(es[1..], k, v)
  }
}

module PdfLexer {
  import opened Options
  import opened Decimals
  import opened PdfValues

  // ------------------------------------------------------------------ character classes

  predicate IsWhite(c: char) {
    var n := c as int;
    n == 0x00 || n == 0x09 || n == 0x0a || n == 0x0c || n == 0x0d || n == 0x20
  }

  predicate IsDelimiter(c: char) {
    c == '(' || c == ')' || c == '<' || c == '>' || c == '[' || c == ']' || c == '{' || c == '}' || c == '/' || c == '%'
  }

  predicate IsRegular(c: char) {
    !IsWhite(c) && !IsDelimiter(c)
  }

  predicate IsEol(c: char) {
    c == '\n' || c == '\r'
  }

  predicate IsOctal(c: char) {
    '0' <= c <= '7'
  }

  predicate IsHex(c: char) {
    '0' <= c <= '9' || 'a' <= c <= 'f' || 'A' <= c <= 'F'
  }

  function HexValue(c: char): (d: nat)
    requires IsHex(c)
    ensures d < 16
  {
    if c <= '9' then c as int - '0' as int
    else if c <= 'F' then c as int - 'A' as int + 10
    else c as int - 'a' as int + 10
  }

  // ------------------------------------------------------------------ scans

  // First end of line at or after p.
  function LineEnd(s: string, p: nat): (q: nat)
    ensures p <= q && (p <= |s| ==> q <= |s|)
    ensures q < |s| ==> IsEol(s[q])
    ensures forall i :: p <= i < q ==> i < |s| && !IsEol(s[i])
    decreases |s| - p
  {
    if p >= |s| || IsEol(s[p]) then p else LineEnd(s, p + 1)
  }

  // First position at or after p that is neither white space nor inside a comment.
  function SkipAt(s: string, p: nat): (q: nat)
    ensures p <= q && (p <= |s| ==> q <= |s|) && (p > |s| ==> q == p)
    ensures q < |s| ==> !IsWhite(s[q]) && s[q] != '%'
    decreases |s| - p
  {
    if p >= |s| then p
    else if IsWhite(s[p]) then SkipAt(s, p + 1)
    else if s[p] == '%' then SkipAt(s, LineEnd(s, p))
    else p
  }

  // First position at or after p that does not hold a regular character.
  function RegularEnd(s: string, p: nat): (q: nat)
    ensures p <= q && (p <= |s| ==> q <= |s|)
    ensures q < |s| ==> !IsRegular(s[q])
    ensures forall i :: p <= i < q ==> i < |s| && IsRegular(s[i])
    decreases |s| - p
  {
    if p >= |s| || !IsRegular(s[p]) then p else RegularEnd(s, p + 1)
  }

  // s.indexOf(c, p), or |s| when there is none.
  function IndexOf(s: string, c: char, p: nat): (q: nat)
    requires p <= |s|
    ensures p <= q <= |s|
    ensures q < |s| ==> s[q] == c
    ensures forall i :: p <= i < q ==> s[i] != c
    decreases |s| - p
  {
    if p == |s| || s[p] == c then p else IndexOf(s, c, p + 1)
  }

  // ------------------------------------------------------------------ literal strings

  function ShortEscape(e: char): (r: Option<Byte>)
  {
    if e == 'n' then Some(10) else if e == 'r' then Some(13) else if e == 't' then Some(9)
    else if e == 'b' then Some(8) else if e == 'f' then Some(12) else if e == '(' then Some(40)
    else if e == ')' then Some(41) else if e == '\\' then Some(92) else None
  }

  // End of the octal digits from p on, at most `most` of them.
  function OctalEnd(s: string, p: nat, most: nat): (q: nat)
    requires p <= |s|
    ensures p <= q <= |s| && q <= p + most
    ensures forall i :: p <= i < q ==> IsOctal(s[i])
    ensures q < |s| && q < p + most ==> !IsOctal(s[q])
    decreases most
  {
    if most == 0 || p == |s| || !IsOctal(s[p]) then p else OctalEnd(s, p + 1, most - 1)
  }

  function Oct(s: string): (n: nat)
    requires forall i :: 0 <= i < |s| ==> IsOctal(s[i])
  {
    if s == [] then 0 else assert IsOctal(s[|s| - 1]); 8 * Oct(s[..|s| - 1]) + (s[|s| - 1] as int - '0' as int)
  }

  // What follows a backslash: the bytes it stands for and the position after it. At the end of the
  // input the position still moves, one past the end, and the missing character counts as byte 0.
  function EscapeAt(s: string, p: nat): (r: (seq<Byte>, nat))
    requires p <= |s|
    ensures p < r.1 <= |s| + 1
    ensures r.1 == |s| + 1 <==> p == |s|
  {
    if p == |s| then ([0], p + 1)
    else if ShortEscape(s[p]).Some? then ([ShortEscape(s[p]).value], p + 1)
    else if IsOctal(s[p]) then
      var q := OctalEnd(s, p + 1, 2);
      ([Oct(s[p..q]) % 256], q)
    else if s[p] == '\r' then ([], if p + 1 < |s| && s[p + 1] == '\n' then p + 2 else p + 1)
    else if s[p] == '\n' then ([], p + 1)
    else ([s[p] as int % 256], p + 1)
  }

  // The only input that can leave the position one past the end.
  predicate EndsInBackslash(s: string) {
    s != [] && s[|s| - 1] == '\\'
  }

  // The rest of a literal string from p on, inside `depth` open parentheses.
  function LiteralAt(s: string, p: nat, depth: nat, out: seq<Byte>): (r: (seq<Byte>, nat))
    requires depth > 0
    ensures p <= r.1 && (p <= |s| + 1 ==> r.1 <= |s| + 1)
    ensures p <= |s| < r.1 ==> EndsInBackslash(s)
    decreases |s| - p
  {
    if p >= |s| then (out, p)
    else if s[p] == '\\' then
      var (bytes, q) := EscapeAt(s, p + 1);
      LiteralAt(s, q, depth, out + bytes)
    else if s[p] == '(' then LiteralAt(s, p + 1, depth + 1, out + [40])
    else if s[p] == ')' then
      if depth == 1 then (out, p + 1) else LiteralAt(s, p + 1, depth - 1, out + [41])
    else LiteralAt(s, p + 1, depth, out + [s[p] as int % 256])
  }

  // ------------------------------------------------------------------ names, hex strings, words

  // replace(/#([0-9A-Fa-f]{2})/g, ...)
  function Unescape(w: string): (r: string)
  {
    if w == [] then []
    else if w[0] == '#' && |w| >= 3 && IsHex(w[1]) && IsHex(w[2]) then
      [(16 * HexValue(w[1]) + HexValue(w[2])) as char] + Unescape(w[3..])
    else [w[0]] + Unescape(w[1..])
  }

  function HexDigits(w: string): (r: string)
    ensures forall i :: 0 <= i < |r| ==> IsHex(r[i])
  {
    if w == [] then [] else (if IsHex(w[0]) then [w[0]] else []) + HexDigits(w[1..])
  }

  // Buffer.from(digits, 'hex') for an even number of digits.
  function HexPairs(d: string): (r: seq<Byte>)
    requires |d| % 2 == 0
    requires forall i :: 0 <= i < |d| ==> IsHex(d[i])
  {
    if d == [] then [] else [16 * HexValue(d[0]) + HexValue(d[1])] + HexPairs(d[2..])
  }

  function HexBytes(w: string): (r: seq<Byte>)
  {
    var d := HexDigits(w);
    HexPairs(if |d| % 2 == 1 then d + ['0'] else d)
  }

  // A hexadecimal string, up to the next `>` or the end.
  function HexAt(s: string, p: nat): (r: (seq<Byte>, nat))
    requires p < |s| && s[p] == '<'
    ensures p < r.1 <= |s|
  {
    var e := IndexOf(s, '>', p);
    (HexBytes(s[p + 1..e]), if e < |s| then e + 1 else |s|)
  }

  function Unsigned(w: string): string {
    if w != [] && (w[0] == '+' || w[0] == '-') then w[1..] else w
  }

  // /^[+-]?(\d+\.?\d*|\.\d+)$/ and Number(word), exactly.
  function WordNumber(w: string): (r: Option<real>)
  {
    var u := Unsigned(w);
    var dot := IndexOf(u, '.', 0);
    var whole, frac := u[..dot], if dot < |u| then u[dot + 1..] else [];
    if AllDigits(whole) && AllDigits(frac) && |whole| + |frac| > 0 then
      var size := Dec(whole) as real + Dec(frac) as real / Pow10(|frac|) as real;
      Some(if w[0] == '-' then -size else size)
    else None
  }

  function WordValue(w: string): (v: Value)
  {
    var n := WordNumber(w);
    if n.Some? then Num(n.value)
    else if w == "true" then Bool(true)
    else if w == "false" then Bool(false)
    else if w == "null" then Null
    else Op(w)
  }

  // A name, or else a number, a keyword or an operator. A stray delimiter such as `{` is an
  // operator of its own.
  function WordAt(s: string, p: nat): (r: (Value, nat))
    requires p < |s|
    ensures p < r.1 <= |s|
  {
    if s[p] == '/' then
      var e := RegularEnd(s, p + 1);
      (Name(Unescape(s[p + 1..e])), e)
    else
      var e := RegularEnd(s, p);
      var q := if e == p then p + 1 else e;
      (WordValue(s[p..q]), q)
  }

  // ------------------------------------------------------------------ values

  // raw(): the token at p and the position after it. Every token but the end moves the position.
  function RawAt(s: string, p: nat): (r: (Token, nat))
    ensures p <= r.1 && (p <= |s| + 1 ==> r.1 <= |s| + 1)
    ensures p <= |s| < r.1 ==> EndsInBackslash(s)
    ensures r.0 != Eof ==> p < r.1
    ensures r.0 == Eof <==> SkipAt(s, p) >= |s|
    decreases |s| - p, 1
  {
    var q := SkipAt(s, p);
    if q >= |s| then (Eof, q) else TokenAt(s, q)
  }

  // The token that starts at p.
  function TokenAt(s: string, p: nat): (r: (Token, nat))
    requires p < |s|
    ensures r.0 != Eof && p < r.1 <= |s| + 1
    ensures |s| < r.1 ==> EndsInBackslash(s)
    decreases |s| - p, 0
  {
    match s[p]
    case '(' =>
      var (bytes, q) := LiteralAt(s, p + 1, 1, []);
      (Val(Str(bytes, false)), q)
    case '<' =>
      if p + 1 < |s| && s[p + 1] == '<' then
        var (entries, q) := EntriesAt(s, p + 2, []);
        (Val(Dict(entries)), q)
      else
        var (bytes, q) := HexAt(s, p);
        (Val(Str(bytes, true)), q)
    case '[' =>
      var (items, q) := ItemsAt(s, p + 1, []);
      (Val(Arr(items)), q)
    case ']' => (ArrayEnd, p + 1)
    case _ =>
      if s[p] == '>' && p + 1 < |s| && s[p + 1] == '>' then (DictEnd, p + 2)
      else
        var (v, q) := WordAt(s, p);
        (Val(v), q)
  }

  // value(): the token at p with `n g R` folded into a reference.
  function ValueAt(s: string, p: nat): (r: (Token, nat))
    ensures p <= r.1 && (p <= |s| + 1 ==> r.1 <= |s| + 1)
    ensures p <= |s| < r.1 ==> EndsInBackslash(s)
    ensures r.0 != Eof ==> p < r.1
    ensures r.0 == Eof <==> SkipAt(s, p) >= |s|
    decreases |s| - p, 2
  {
    var (v, q) := RawAt(s, p);
    if !IsInteger(v) then (v, q)
    else
      var (g, q1) := RawAt(s, q);
      if IsInteger(g) then
        var (op, q2) := RawAt(s, q1);
        if op == Val(Op("R")) then (Val(Ref(v.v.value.Floor)), q2) else (v, q)
      else (v, q)
  }

  // The rest of an array from p on: stray dictionary ends are dropped.
  function ItemsAt(s: string, p: nat, acc: seq<Value>): (r: (seq<Value>, nat))
    ensures p <= r.1 && (p <= |s| + 1 ==> r.1 <= |s| + 1)
    ensures p <= |s| < r.1 ==> EndsInBackslash(s)
    decreases |s| - p, 3
  {
    var (v, q) := ValueAt(s, p);
    if v == ArrayEnd || v == Eof then (acc, q)
    else ItemsAt(s, q, if v.Val? then acc + [v.v] else acc)
  }

  // The rest of a dictionary from p on: keys that are not names are dropped, and so are entries
  // whose value is a stray array end.
  function EntriesAt(s: string, p: nat, acc: seq<Entry>): (r: (seq<Entry>, nat))
    ensures p <= r.1 && (p <= |s| + 1 ==> r.1 <= |s| + 1)
    ensures p <= |s| < r.1 ==> EndsInBackslash(s)
    decreases |s| - p, 3
  {
    var (k, q) := ValueAt(s, p);
    if k == DictEnd || k == Eof then (acc, q)
    else if !(k.Val? && k.v.Name?) then EntriesAt(s, q, acc)
    else
      var (v, q1) := ValueAt(s, q);
      if v == DictEnd || v == Eof then (acc, q1)
      else EntriesAt(s, q1, if v.Val? then MapSet(acc, k.v.name, v.v) else acc)
  }

  // ------------------------------------------------------------------ inline images

  // \s of a JavaScript pattern, on Latin-1 text.
  predicate IsSpace(c: char) {
    var n := c as int;
    9 <= n <= 13 || n == 32 || n == 160
  }

  predicate EndsData(c: char) {
    IsSpace(c) || c in {'/', '[', '<', '(', '%'}
  }

  // /\sEI(?=[\s/[<(%]|$)/ matches at p.
  predicate ImageEndsAt(s: string, p: nat) {
    p + 3 <= |s| && IsSpace(s[p]) && s[p + 1] == 'E' && s[p + 2] == 'I' && (p + 3 == |s| || EndsData(s[p + 3]))
  }

  // Where lexing goes on after the data of an inline image: after the first match from p on, or at the end.
  function ImageEnd(s: string, p: nat): (q: nat)
    ensures q <= |s| && (p <= |s| ==> p <= q)
    ensures q == |s| || (p + 3 <= q && ImageEndsAt(s, q - 3))
    ensures forall k :: p <= k < q && ImageEndsAt(s, k) ==> k + 3 == q
    decreases |s| - p
  {
    if p >= |s| then |s| else if ImageEndsAt(s, p) then p + 3 else ImageEnd(s, p + 1)
  }

  // ------------------------------------------------------------------ the class

  class Lexer {
    const s: string
    var pos: nat

    constructor (text: string)
      ensures s == text && pos == 0
    {
      s := text;
      pos := 0;
    }

    method SkipSpace()
      modifies this
      ensures pos == SkipAt(s, old(pos))
    {
      while pos < |s|
        invariant SkipAt(s, pos) == SkipAt(s, old(pos))
        decreases |s| - pos
      {
        if IsWhite(s[pos]) {
          pos := pos + 1;
        } else if s[pos] == '%' {
          ghost var start := pos;
          while pos < |s| && !IsEol(s[pos])
            invariant start <= pos <= |s|
            invariant pos == start ==> pos < |s| && !IsEol(s[pos])
            invariant LineEnd(s, pos) == LineEnd(s, start)
          {
            pos := pos + 1;
          }
        } else {
          break;
        }
      }
    }

    // The octal digits at pos, at most three.
    method OctalDigits() returns (oct: string)
      requires pos < |s| && IsOctal(s[pos])
      modifies this
      ensures pos == OctalEnd(s, old(pos) + 1, 2) && oct == s[old(pos)..pos]
    {
      var at := pos;
      oct := [s[pos]];
      pos := pos + 1;
      while |oct| < 3 && pos < |s| && IsOctal(s[pos])
        invariant at < pos <= |s| && |oct| == pos - at <= 3
        invariant oct == s[at..pos]
        invariant OctalEnd(s, pos, 3 - |oct|) == OctalEnd(s, at + 1, 2)
      {
        oct := oct + [s[pos]];
        pos := pos + 1;
      }
    }

    // The byte or bytes of one escape; pos stands after the backslash.
    method Escape() returns (bytes: seq<Byte>)
      requires pos <= |s|
      modifies this
      ensures (bytes, pos) == EscapeAt(s, old(pos))
    {
      var at := pos;
      pos := pos + 1;
      if at == |s| {
        return [0];
      }
      var e := s[at];
      if ShortEscape(e).Some? {
        return [ShortEscape(e).value];
      }
      if IsOctal(e) {
        pos := at;
        var oct := OctalDigits();
        return [Oct(oct) % 256];
      }
      if e == '\r' {
        if pos < |s| && s[pos] == '\n' {
          pos := pos + 1;
        }
        return [];
      }
      return if e == '\n' then [] else [e as int % 256];
    }

    method Literal() returns (bytes: seq<Byte>)
      requires pos < |s|
      modifies this
      ensures (bytes, pos) == LiteralAt(s, old(pos) + 1, 1, [])
    {
      bytes := [];
      var depth := 1;
      pos := pos + 1;
      while pos < |s|
        invariant depth > 0 && pos <= |s| + 1
        invariant LiteralAt(s, pos, depth, bytes) == LiteralAt(s, old(pos) + 1, 1, [])
        decreases |s| - pos
      {
        var ch := s[pos];
        pos := pos + 1;
        if ch == '\\' {
          var more := Escape();
          bytes := bytes + more;
        } else {
          if ch == '(' {
            depth := depth + 1;
          } else if ch == ')' {
            depth := depth - 1;
            if depth == 0 {
              break;
            }
          }
          bytes := bytes + [ch as int % 256];
        }
      }
    }

    // A hexadecimal string.
    method Hex() returns (bytes: seq<Byte>)
      requires pos < |s| && s[pos] == '<'
      modifies this
      ensures (bytes, pos) == HexAt(s, old(pos))
    {
      var end := IndexOf(s, '>', pos);
      bytes := HexBytes(s[pos + 1..end]);
      pos := if end < |s| then end + 1 else |s|;
    }

    // A name or a word: number, keyword or operator.
    method Word() returns (v: PdfValues.Value)
      requires pos < |s|
      modifies this
      ensures (v, pos) == WordAt(s, old(pos))
    {
      var start := if s[pos] == '/' then pos + 1 else pos;
      var end := start;
      while end < |s| && IsRegular(s[end])
        invariant start <= end <= |s|
        invariant RegularEnd(s, end) == RegularEnd(s, start)
      {
        end := end + 1;
      }
      if s[pos] != '/' && end == pos {
        end := end + 1;
      }
      v := if s[pos] == '/' then Name(Unescape(s[start..end])) else WordValue(s[start..end]);
      pos := end;
    }

    method Raw() returns (t: Token)
      requires pos <= |s| + 1
      modifies this
      ensures (t, pos) == RawAt(s, old(pos))
      decreases |s| - pos, 0
    {
      SkipSpace();
      if pos >= |s| {
        return Eof;
      }
      var c := s[pos];
      if c == '(' {
        var bytes := Literal();
        return Val(Str(bytes, false));
      }
      if c == '<' {
        if pos + 1 < |s| && s[pos + 1] == '<' {
          pos := pos + 2;
          var entries := Entries();
          return Val(Dict(entries));
        }
        var bytes := Hex();
        return Val(Str(bytes, true));
      }
      if c == '>' && pos + 1 < |s| && s[pos + 1] == '>' {
        pos := pos + 2;
        return DictEnd;
      }
      if c == '[' {
        pos := pos + 1;
        var items := Items();
        return Val(Arr(items));
      }
      if c == ']' {
        pos := pos + 1;
        return ArrayEnd;
      }
      var v := Word();
      return Val(v);
    }

    method Value() returns (t: Token)
      requires pos <= |s| + 1
      modifies this
      ensures (t, pos) == ValueAt(s, old(pos))
      decreases |s| - pos, 1
    {
      t := Raw();
      if !IsInteger(t) {
        return;
      }
      var save := pos;
      var g := Raw();
      if IsInteger(g) {
        var r := Raw();
        if r.Val? && r.v.Op? && r.v.op == "R" {
          return Val(Ref(t.v.value.Floor));
        }
      }
      pos := save;
    }

    // The loop of raw() that fills an array.
    method Items() returns (items: seq<PdfValues.Value>)
      requires pos <= |s| + 1
      modifies this
      ensures (items, pos) == ItemsAt(s, old(pos), [])
      decreases |s| - pos, 2
    {
      items := [];
      while true
        invariant old(pos) <= pos <= |s| + 1
        invariant ItemsAt(s, pos, items) == ItemsAt(s, old(pos), [])
        decreases |s| - pos
      {
        var t := Value();
        if t == ArrayEnd || t == Eof {
          return;
        }
        if t != DictEnd {
          items := items + [t.v];
        }
      }
    }

    // The loop of raw() that fills a dictionary.
    method Entries() returns (dict: seq<Entry>)
      requires pos <= |s| + 1
      modifies this
      ensures (dict, pos) == EntriesAt(s, old(pos), [])
      decreases |s| - pos, 2
    {
      dict := [];
      while true
        invariant old(pos) <= pos <= |s| + 1
        invariant EntriesAt(s, pos, dict) == EntriesAt(s, old(pos), [])
        decreases |s| - pos
      {
        var k := Value();
        if k == DictEnd || k == Eof {
          return;
        }
        if k.Val? && k.v.Name? {
          var v := Value();
          if v == DictEnd || v == Eof {
            return;
          }
          if v != ArrayEnd {
            dict := MapSet(dict, k.v.name, v.v);
          }
        }
      }
    }

    method SkipInlineImage()
      modifies this
      ensures pos == ImageEnd(s, old(pos))
    {
      while pos < |s|
        invariant ImageEnd(s, pos) == ImageEnd(s, old(pos))
        decreases |s| - pos
      {
        if ImageEndsAt(s, pos) {
          pos := pos + 3;
          return;
        }
        pos := pos + 1;
      }
      pos := |s|;
    }
  }
}
