// Where the scan of a literal string ends: at the parenthesis that closes it, at the end of the input, or one past it.

module PdfLiteral {
  import opened PdfValues
  import opened PdfLexer

  // Whether the character at i, or the end of the input, comes after a backslash that is not itself escaped, the
  // string starting at p.
  predicate Escaped(s: string, p: nat, i: nat)
    requires p <= i <= |s|
    decreases i
  {
    p < i && s[i - 1] == '\\' && !Escaped(s, p, i - 1)
  }

  // How many backslashes stand right before i.
  function Backslashes(s: string, p: nat, i: nat): (n: nat)
    requires p <= i <= |s|
    ensures n <= i - p
    decreases i
  {
    if p < i && s[i - 1] == '\\' then 1 + Backslashes(s, p, i - 1) else 0
  }

  // A character is escaped exactly after an odd number of backslashes.
  lemma {:induction false} EscapedIsOdd(s: string, p: nat, i: nat)
    requires p <= i <= |s|
    ensures Escaped(s, p, i) <==> Backslashes(s, p, i) % 2 == 1
    decreases i
  {
    if p < i && s[i - 1] == '\\' {
      EscapedIsOdd(s, p, i - 1);
    }
  }

  // The parentheses open before q, of which `depth` were open at p.
  function Level(s: string, p: nat, q: nat, depth: int): int
    requires p <= q <= |s|
    decreases q
  {
    if q == p then depth
    else
      var before := Level(s, p, q - 1, depth);
      if Escaped(s, p, q - 1) then before
      else if s[q - 1] == '(' then before + 1
      else if s[q - 1] == ')' then before - 1
      else before
  }

  // The string is not closed before q.
  predicate Open(s: string, p: nat, q: nat, depth: int)
    requires p <= q <= |s|
  {
    forall i :: p <= i <= q ==> Level(s, p, i, depth) > 0
  }

  // ------------------------------------------------------------------ starting further on

  // After a character that is no backslash, or after a pair of which the first is one, the rest of the string may be
  // looked at on its own.
  predicate Clean(s: string, p: nat, q: nat)
    requires p <= q <= |s|
  {
    !Escaped(s, p, q)
  }

  lemma {:induction false} EscapedFrom(s: string, p: nat, q: nat, i: nat)
    requires p <= q <= i <= |s| && Clean(s, p, q)
    ensures Escaped(s, p, i) == Escaped(s, q, i)
    decreases i
  {
    if q < i {
      EscapedFrom(s, p, q, i - 1);
    }
  }

  lemma {:induction false} LevelFrom(s: string, p: nat, q: nat, i: nat, depth: int)
    requires p <= q <= i <= |s| && Clean(s, p, q)
    ensures Level(s, p, i, depth) == Level(s, q, i, Level(s, p, q, depth))
    decreases i
  {
    if q < i {
      LevelFrom(s, p, q, i - 1, depth);
      EscapedFrom(s, p, q, i - 1);
    }
  }

  lemma {:induction false} OpenFrom(s: string, p: nat, q: nat, e: nat, depth: int)
    requires p <= q <= e <= |s| && Clean(s, p, q) && Open(s, p, q, depth)
    ensures Open(s, p, e, depth) <==> Open(s, q, e, Level(s, p, q, depth))
  {
    hide Level, Clean;
    var now := Level(s, p, q, depth);
    forall i | q <= i <= e
      ensures Level(s, p, i, depth) == Level(s, q, i, now)
    {
      LevelFrom(s, p, q, i, depth);
    }
    if Open(s, q, e, now) {
      forall i | p <= i <= e
        ensures Level(s, p, i, depth) > 0
      {
        if i > q { assert Level(s, q, i, now) > 0; }
      }
    }
  }

  // ------------------------------------------------------------------ the scan

  // The place just after the closing parenthesis.
  predicate ClosesAt(s: string, p: nat, q: nat, depth: int)
    requires p <= q <= |s|
  {
    p < q && Open(s, p, q - 1, depth) && Level(s, p, q, depth) == 0
  }

  // Where the scan ends is settled by the parentheses that are not escaped, and, if they do not close the string, by
  // the backslashes that end the input.
  ghost predicate EndsRight(s: string, p: nat, depth: int, end: nat)
    requires p <= |s|
  {
    && (end <= |s| && end != |s| ==> p <= end && ClosesAt(s, p, end, depth))
    && (end == |s| ==> ClosesAt(s, p, |s|, depth) || (Open(s, p, |s|, depth) && !Escaped(s, p, |s|)))
    && (end > |s| ==> end == |s| + 1 && Open(s, p, |s|, depth) && Escaped(s, p, |s|))
  }

  lemma {:induction false} EndsFrom(s: string, p: nat, q: nat, depth: int, end: nat)
    requires p <= q <= |s| && Clean(s, p, q) && Open(s, p, q, depth)
    requires EndsRight(s, q, Level(s, p, q, depth), end) && end >= q
    ensures EndsRight(s, p, depth, end)
  {
    hide Level, Clean, Open;
    var now := Level(s, p, q, depth);
    OpenFrom(s, p, q, |s|, depth);
    EscapedFrom(s, p, q, |s|);
    if end <= |s| && q < end {
      OpenFrom(s, p, q, end - 1, depth);
      LevelFrom(s, p, q, end, depth);
    }
  }

  // One character that is no backslash.
  lemma {:induction false} OneOn(s: string, p: nat, depth: int)
    requires p < |s| && s[p] != '\\'
    ensures Clean(s, p, p + 1)
    ensures Level(s, p, p + 1, depth) == if s[p] == '(' then depth + 1 else if s[p] == ')' then depth - 1 else depth
  {
    assert Level(s, p, p, depth) == depth && !Escaped(s, p, p);
  }

  predicate Inert(c: char) {
    c != '\\' && c != '(' && c != ')'
  }

  // An escape, with what it takes from the text after it.
  lemma {:induction false} EscapeOn(s: string, p: nat, q: nat, depth: int)
    requires p + 2 <= q <= |s| && s[p] == '\\' && forall i :: p + 2 <= i < q ==> Inert(s[i])
    ensures Clean(s, p, q)
    ensures forall i :: p <= i <= q ==> Level(s, p, i, depth) == depth
    decreases q
  {
    assert Level(s, p, p, depth) == depth && Level(s, p, p + 1, depth) == depth && Escaped(s, p, p + 1);
    if q == p + 2 {
      assert Level(s, p, p + 2, depth) == depth;
    } else {
      EscapeOn(s, p, q - 1, depth);
    }
  }

  lemma {:induction false} EscapeTakes(s: string, p: nat)
    requires p < |s|
    ensures var q := EscapeAt(s, p).1; q <= |s| && forall i :: p + 1 <= i < q ==> Inert(s[i])
  {
  }

  // Where LiteralAt ends.
  lemma {:induction false} LiteralEnds(s: string, p: nat, depth: nat, out: seq<Byte>)
    requires p <= |s| && depth > 0
    ensures EndsRight(s, p, depth, LiteralAt(s, p, depth, out).1)
    decreases |s| - p
  {
    hide Level, Escaped, EscapeAt, EndsRight;
    if p == |s| {
      NothingLeft(s, depth);
    } else if s[p] == '\\' {
      var (bytes, q) := EscapeAt(s, p + 1);
      if p + 1 == |s| {
        LastBackslash(s, p, depth);
      } else {
        EscapeTakes(s, p + 1);
        EscapeOn(s, p, q, depth);
        LiteralEnds(s, q, depth, out + bytes);
        EndsFrom(s, p, q, depth, LiteralAt(s, q, depth, out + bytes).1);
      }
    } else {
      OneOn(s, p, depth);
      var now := Level(s, p, p + 1, depth);
      if now == 0 {
        ClosedHere(s, p);
      } else {
        var more := out + [if s[p] == '(' then 40 else if s[p] == ')' then 41 else s[p] as int % 256];
        OpenOne(s, p, depth);
        LiteralEnds(s, p + 1, now, more);
        EndsFrom(s, p, p + 1, depth, LiteralAt(s, p + 1, now, more).1);
      }
    }
  }

  lemma {:induction false} NothingLeft(s: string, depth: nat)
    requires depth > 0
    ensures EndsRight(s, |s|, depth, |s|)
  {
  }

  lemma {:induction false} LastBackslash(s: string, p: nat, depth: nat)
    requires p + 1 == |s| && s[p] == '\\' && depth > 0
    ensures EndsRight(s, p, depth, |s| + 1) && EscapeAt(s, |s|).1 == |s| + 1
  {
    assert Level(s, p, p, depth) == depth && Level(s, p, |s|, depth) == depth && !Escaped(s, p, p);
  }

  lemma {:induction false} ClosedHere(s: string, p: nat)
    requires p < |s| && s[p] == ')'
    ensures EndsRight(s, p, 1, p + 1)
  {
    assert Level(s, p, p, 1) == 1 && !Escaped(s, p, p);
  }

  lemma {:induction false} OpenOne(s: string, p: nat, depth: nat)
    requires p < |s| && depth > 0 && Level(s, p, p + 1, depth) > 0
    ensures Open(s, p, p + 1, depth)
  {
    assert Level(s, p, p, depth) == depth;
  }

  // The scan of a literal string passes the end of the input exactly when the string is still open there and the
  // backslashes that end the input, from the start of the string on, are odd in number.
  lemma {:induction false} LiteralPassesTheEnd(s: string, p: nat, depth: nat, out: seq<Byte>)
    requires p <= |s| && depth > 0
    ensures LiteralAt(s, p, depth, out).1 > |s| <==> Open(s, p, |s|, depth) && Backslashes(s, p, |s|) % 2 == 1
  {
    hide Level, LiteralAt;
    LiteralEnds(s, p, depth, out);
    EscapedIsOdd(s, p, |s|);
    if ClosesAt(s, p, |s|, depth) {
      assert Level(s, p, |s|, depth) == 0;
    }
    var end := LiteralAt(s, p, depth, out).1;
    if end < |s| {
      assert Level(s, p, end, depth) == 0;
    }
  }

  // A string left open with a last backslash takes the position one past the end; a name with one does not.
  lemma {:induction false} PastTheEnd()
    ensures RawAt("(\\", 0) == (Val(Str([0], false)), 3) && RawAt("/\\", 0) == (Val(Name("\\")), 2)
  {
    var s := "(\\";
    assert |s| == 2 && s[0] == '(' && s[1] == '\\';
    assert EscapeAt(s, 2) == ([0], 3);
    assert [] + [0] == [0];
    assert LiteralAt(s, 3, 1, [0]) == ([0], 3);
    assert LiteralAt(s, 1, 1, []) == ([0], 3);
    assert TokenAt(s, 0) == (Val(Str([0], false)), 3);
    NameToken();
  }

  lemma {:induction false} NameToken()
    ensures RawAt("/\\", 0) == (Val(Name("\\")), 2)
  {
    var s := "/\\";
    assert |s| == 2 && s[0] == '/' && s[1] == '\\';
    assert RegularEnd(s, 2) == 2;
    assert RegularEnd(s, 1) == 2;
    assert s[1..2] == "\\" && "\\"[1..] == "";
    assert Unescape("\\") == "\\";
    assert WordAt(s, 0) == (Name("\\"), 2);
  }

  // ------------------------------------------------------------------ whole values

  // The end of the token at p where brackets are tokens of their own.
  function FlatEnd(s: string, p: nat): (q: nat)
    requires p < |s|
    ensures p < q <= |s| + 1 && (q > |s| ==> s[p] == '(')
  {
    match s[p]
    case '(' => LiteralAt(s, p + 1, 1, []).1
    case '<' => if p + 1 < |s| && s[p + 1] == '<' then p + 2 else HexAt(s, p).1
    case '[' => p + 1
    case ']' => p + 1
    case _ => if s[p] == '>' && p + 1 < |s| && s[p + 1] == '>' then p + 2 else WordAt(s, p).1
  }

  // Whether the text from p on, as a row of such tokens, ends in a literal string whose scan passes the end.
  predicate EndsInLiteral(s: string, p: nat)
    requires p <= |s|
    decreases |s| - p
  {
    var q := SkipAt(s, p);
    q < |s| && (FlatEnd(s, q) > |s| || EndsInLiteral(s, FlatEnd(s, q)))
  }

  // The tokens between p and q have been read: no string among them passes the end, or q is past it.
  predicate Along(s: string, p: nat, q: nat)
    requires p <= |s|
  {
    EndsInLiteral(s, p) == if q > |s| then true else EndsInLiteral(s, q)
  }

  lemma {:induction false} SkipTwice(s: string, p: nat)
    ensures SkipAt(s, SkipAt(s, p)) == SkipAt(s, p)
  {
    hide IsWhite;
    var q := SkipAt(s, p);
    if q < |s| {
      assert SkipAt(s, q) == q;
    }
  }

  lemma {:induction false} AlongToken(s: string, p: nat)
    requires p < |s| && SkipAt(s, p) == p
    ensures Along(s, p, FlatEnd(s, p))
  {
  }

  lemma {:induction false} RawAlong(s: string, p: nat)
    requires p <= |s|
    ensures Along(s, p, RawAt(s, p).1)
    decreases |s| - p, 1
  {
    hide FlatEnd, TokenAt;
    var q := SkipAt(s, p);
    SkipTwice(s, p);
    assert EndsInLiteral(s, p) == EndsInLiteral(s, q);
    if q < |s| {
      TokenAlong(s, q);
    }
  }

  lemma {:induction false} TokenAlong(s: string, p: nat)
    requires p < |s| && SkipAt(s, p) == p
    ensures Along(s, p, TokenAt(s, p).1)
    decreases |s| - p, 0
  {
    hide EndsInLiteral, EntriesAt, ItemsAt, LiteralAt, HexAt, WordAt;
    AlongToken(s, p);
    if s[p] == '[' {
      ItemsAlong(s, p + 1, []);
    } else if s[p] == '<' && p + 1 < |s| && s[p + 1] == '<' {
      EntriesAlong(s, p + 2, []);
    }
  }

  lemma {:induction false} ValueAlong(s: string, p: nat)
    requires p <= |s|
    ensures Along(s, p, ValueAt(s, p).1)
    decreases |s| - p, 2
  {
    hide EndsInLiteral, RawAt;
    var (v, q) := RawAt(s, p);
    RawAlong(s, p);
    if IsInteger(v) && q <= |s| {
      var (g, q1) := RawAt(s, q);
      RawAlong(s, q);
      if IsInteger(g) && q1 <= |s| {
        RawAlong(s, q1);
      }
    }
  }

  lemma {:induction false} ItemsAlong(s: string, p: nat, acc: seq<Value>)
    requires p <= |s|
    ensures Along(s, p, ItemsAt(s, p, acc).1)
    decreases |s| - p, 3
  {
    hide EndsInLiteral, ValueAt;
    var (v, q) := ValueAt(s, p);
    ValueAlong(s, p);
    if v != ArrayEnd && v != Eof && q <= |s| {
      ItemsAlong(s, q, if v.Val? then acc + [v.v] else acc);
    }
  }

  lemma {:induction false} EntriesAlong(s: string, p: nat, acc: seq<Entry>)
    requires p <= |s|
    ensures Along(s, p, EntriesAt(s, p, acc).1)
    decreases |s| - p, 3
  {
    hide EndsInLiteral, ValueAt, MapSet;
    var (k, q) := ValueAt(s, p);
    ValueAlong(s, p);
    if k != DictEnd && k != Eof && q <= |s| {
      if !(k.Val? && k.v.Name?) {
        EntriesAlong(s, q, acc);
      } else {
        var (v, q1) := ValueAt(s, q);
        ValueAlong(s, q);
        if v != DictEnd && v != Eof && q1 <= |s| {
          EntriesAlong(s, q1, if v.Val? then MapSet(acc, k.v.name, v.v) else acc);
        }
      }
    }
  }

  // A token or a value, however deep, that takes the position to the end takes it past the end exactly when the text,
  // split into tokens without regard to nesting, ends in a literal string that does.
  lemma {:induction false} ValuePassesTheEnd(s: string, p: nat)
    requires p <= |s|
    ensures RawAt(s, p).1 > |s| <==> RawAt(s, p).1 >= |s| && EndsInLiteral(s, p)
    ensures ValueAt(s, p).1 > |s| <==> ValueAt(s, p).1 >= |s| && EndsInLiteral(s, p)
  {
    hide RawAt, ValueAt;
    RawAlong(s, p);
    ValueAlong(s, p);
    assert !EndsInLiteral(s, |s|);
  }
}
