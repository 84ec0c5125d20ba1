// What written values denote by section 7.3 of ISO 32000-1, against what the lexer takes them for.
//
// Objects are those of the standard, as far as values keep them: numbers without their kind and references without
// their generation. A string is its bytes, however it is written; a dictionary has no order, and an entry that is
// null is no entry. A form with two entries of one key, which the standard does not admit, denotes its last one.

module PdfMeaning {
  import opened Options
  import opened Decimals
  import opened PdfValues
  import opened PdfLexer
  import opened PdfGrammar

  datatype Object =
    | ONum(value: real)
    | OBool(b: bool)
    | ONull
    | OName(name: string)
    | ORef(id: int)
    | OStr(bytes: seq<Byte>)
    | OArr(items: seq<Object>)
    | ODict(entries: map<string, Object>)
    | OOp(op: string)

  // Sections 7.3.7 and 7.3.9: an entry whose value is null is the same as no entry.
  function Put(m: map<string, Object>, k: string, o: Object): map<string, Object> {
    if o == ONull then m - {k} else m[k := o]
  }

  // The object a value of the program stands for.
  function Of(v: Value): Object {
    match v
    case Num(r) => ONum(r)
    case Bool(b) => OBool(b)
    case Null => ONull
    case Name(n) => OName(n)
    case Ref(id) => ORef(id)
    case Str(b, _) => OStr(b)
    case Dict(es) => ODict(OfEntries(es))
    case Arr(items) => OArr(OfItems(items))
    case Op(w) => OOp(w)
  }

  function OfItems(vs: seq<Value>): (r: seq<Object>)
    ensures |r| == |vs| && forall i :: 0 <= i < |vs| ==> r[i] == Of(vs[i])
  {
    if vs == [] then [] else [Of(vs[0])] + OfItems(vs[1..])
  }

  function OfEntries(es: seq<Entry>): map<string, Object> {
    if es == [] then map[] else Put(OfEntries(es[..|es| - 1]), es[|es| - 1].key, Of(es[|es| - 1].value))
  }

  // Section 7.3.4.2: an end of line without a backslash before it, be it CR, LF or both, is the one byte 10.
  function LitMeaning(ps: seq<LitPart>): seq<Byte>
    requires LitPartsOk(ps)
    decreases |ps|
  {
    if ps == [] then []
    else if ps[0] == Plain('\r') then
      [10] + if |ps| > 1 && ps[1] == Plain('\n') then LitMeaning(ps[2..]) else LitMeaning(ps[1..])
    else LitPartRead(ps[0]) + LitMeaning(ps[1..])
  }

  // The object a written form denotes.
  function Meaning(t: Tree): Object
    requires Formed(t)
  {
    match t
    case TNum(n) => ONum(NumMeaning(n))
    case TBool(b) => OBool(b)
    case TNull => ONull
    case TName(ps) => OName(NameMeaning(ps))
    case TRef(r) => ORef(Dec(r.num))
    case TLit(ps) => OStr(LitMeaning(ps))
    case THex(cells, _) => OStr(HexMeaning(CellDigits(cells)))
    case TArr(items, _) => OArr(ItemsMeaning(items))
    case TDict(pairs, _) => ODict(PairsMeaning(pairs, map[]))
    case TOp(w) => OOp(w)
  }

  function ItemsMeaning(items: seq<Item>): (r: seq<Object>)
    requires ItemsOk(items)
  {
    if items == [] then [] else [Meaning(items[0].tree)] + ItemsMeaning(items[1..])
  }

  function PairsMeaning(pairs: seq<Pair>, m: map<string, Object>): map<string, Object>
    requires PairsOk(pairs)
    decreases pairs
  {
    if pairs == [] then m
    else PairsMeaning(pairs[1..], Put(m, NameMeaning(pairs[0].key), Meaning(pairs[0].value.tree)))
  }

  // ------------------------------------------------------------------ a carriage return on its own

  // The last pair of its key, whose value is the one a dictionary keeps.
  predicate LastOfKey(pairs: seq<Pair>, i: nat)
    requires PairsOk(pairs)
  {
    i < |pairs| && forall j :: i < j < |pairs| ==> NameMeaning(pairs[j].key) != NameMeaning(pairs[i].key)
  }

  // A literal string among the values that count holds a carriage return without a backslash before it.
  predicate HasBareCr(t: Tree)
    requires Formed(t)
  {
    match t
    case TLit(ps) => Plain('\r') in ps
    case TArr(items, _) => ItemsHaveBareCr(items)
    case TDict(pairs, _) => exists i: nat :: i < |pairs| && LastOfKey(pairs, i) && HasBareCr(pairs[i].value.tree)
    case _ => false
  }

  predicate ItemsHaveBareCr(items: seq<Item>)
    requires ItemsOk(items)
  {
    exists i :: 0 <= i < |items| && HasBareCr(items[i].tree)
  }

  // A literal string is read as what it denotes exactly when it holds no carriage return without a backslash.
  lemma {:induction false} LiteralMeansWhatIsRead(ps: seq<LitPart>)
    requires LitPartsOk(ps)
    ensures LitRead(ps) == LitMeaning(ps) <==> Plain('\r') !in ps
    decreases |ps|
  {
    if ps != [] {
      if ps[0] == Plain('\r') {
        assert LitRead(ps)[0] == 13 && LitMeaning(ps)[0] == 10;
      } else {
        var front, a, b := LitPartRead(ps[0]), LitRead(ps[1..]), LitMeaning(ps[1..]);
        LiteralMeansWhatIsRead(ps[1..]);
        assert (front + a)[|front|..] == a && (front + b)[|front|..] == b;
        assert ps == [ps[0]] + ps[1..];
      }
    }
  }

  // The failing input: a carriage return between parentheses is read as byte 13 and denotes byte 10.
  lemma {:induction false} BareCrIsKept()
    ensures var t := TLit([Plain('\r')]);
      && Formed(t) && Text(t) == "(\r)"
      && ValueAt(Text(t), 0) == (Val(Str([13], false)), 3)
      && Meaning(t) == OStr([10])
  {
    var ps := [Plain('\r')];
    assert ps[1..] == [];
    assert LitText(ps) == "\r" + LitText([]);
    assert LitMeaning(ps) == [10] + LitMeaning([]);
    assert Text(TLit(ps)) == "(" + "\r" + ")" == "(\r)";
    CrIsRead();
  }

  lemma {:induction false} CrIsRead()
    ensures ValueAt("(\r)", 0) == (Val(Str([13], false)), 3)
  {
    hide IsInteger;
    var s := "(\r)";
    assert SkipAt(s, 0) == 0;
    assert s[1] == '\r' && s[2] == ')' && |s| == 3;
    assert LiteralAt(s, 2, 1, [13]) == ([13], 3);
    assert '\r' as int == 13 && [] + [13] == [13];
    assert LiteralAt(s, 1, 1, []) == ([13], 3);
    assert TokenAt(s, 0) == (Val(Str([13], false)), 3);
    assert RawAt(s, 0) == TokenAt(s, 0);
    assert !IsInteger(Val(Str([13], false))) by { StringIsNoNumber([13]); }
  }

  lemma {:induction false} StringIsNoNumber(b: seq<Byte>)
    ensures !IsInteger(Val(Str(b, false)))
  {
  }

  // ------------------------------------------------------------------ dictionaries

  predicate NoKeyTwice(a: seq<Entry>) {
    forall i, j :: 0 <= i < j < |a| ==> a[i].key != a[j].key
  }

  predicate KeyIn(pairs: seq<Pair>, k: string)
    requires PairsOk(pairs)
  {
    exists i :: 0 <= i < |pairs| && NameMeaning(pairs[i].key) == k
  }

  // Map.set puts the entry at the place of its key, or else at the end.
  lemma {:induction false} MapSetPlace(a: seq<Entry>, k: string, v: Value) returns (p: nat)
    ensures p <= |a| && (p < |a| ==> a[p].key == k) && forall i :: 0 <= i < p ==> a[i].key != k
    ensures MapSet(a, k, v) == a[..p] + [Entry(k, v)] + if p < |a| then a[p + 1..] else []
    decreases |a|
  {
    if a == [] || a[0].key == k {
      p := 0;
    } else {
      var q := MapSetPlace(a[1..], k, v);
      p := q + 1;
      assert a[..p] == [a[0]] + a[1..][..q];
      assert p < |a| ==> a[p + 1..] == a[1..][q + 1..];
      assert p < |a| ==> a[p] == a[1..][q];
      forall i | 0 <= i < p
        ensures a[i].key != k
      {
        if i > 0 { assert a[i] == a[1..][i - 1]; }
      }
    }
  }

  lemma {:induction false} MapSetOnce(a: seq<Entry>, k: string, v: Value)
    requires NoKeyTwice(a)
    ensures NoKeyTwice(MapSet(a, k, v))
    ensures forall e :: e in MapSet(a, k, v) <==> e == Entry(k, v) || (e in a && e.key != k)
  {
    hide MapSet;
    var p := MapSetPlace(a, k, v);
    var r := MapSet(a, k, v);
    assert r[p] == Entry(k, v);
    assert forall j :: 0 <= j < |a| && j != p ==> r[j] == a[j];
  }

  // An entry of a key that occurs once is the value of that key, or, if it is null, none.
  lemma {:induction false} EntryOf(es: seq<Entry>, e: Entry)
    requires NoKeyTwice(es) && e in es
    ensures Of(e.value) == ONull ==> e.key !in OfEntries(es)
    ensures Of(e.value) != ONull ==> e.key in OfEntries(es) && OfEntries(es)[e.key] == Of(e.value)
    decreases |es|
  {
    hide Of;
    var n := |es| - 1;
    if e != es[n] {
      assert e in es[..n];
      EntryOf(es[..n], e);
    }
  }

  lemma {:induction false} NoEntryOf(es: seq<Entry>, k: string)
    requires forall e :: e in es ==> e.key != k
    ensures k !in OfEntries(es)
    decreases |es|
  {
    hide Of;
    if es != [] {
      NoEntryOf(es[..|es| - 1], k);
    }
  }

  // Setting a key of the program's map puts its object into the dictionary.
  lemma {:induction false} SetIsPut(a: seq<Entry>, k: string, v: Value)
    requires NoKeyTwice(a)
    ensures OfEntries(MapSet(a, k, v)) == Put(OfEntries(a), k, Of(v))
  {
    hide MapSet, Of, OfEntries, NoKeyTwice;
    MapSetOnce(a, k, v);
    var r := MapSet(a, k, v);
    var x, y := OfEntries(r), Put(OfEntries(a), k, Of(v));
    forall l
      ensures (l in x <==> l in y) && (l in x ==> x[l] == y[l])
    {
      if l == k {
        EntryOf(r, Entry(k, v));
      } else if e :| e in a && e.key == l {
        EntryOf(a, e);
        EntryOf(r, e);
      } else {
        NoEntryOf(a, l);
        NoEntryOf(r, l);
      }
    }
  }

  // What is read, put together as PairsMeaning puts together what is denoted.
  function PairsTaken(pairs: seq<Pair>, m: map<string, Object>): map<string, Object>
    requires PairsOk(pairs)
    decreases pairs
  {
    if pairs == [] then m
    else PairsTaken(pairs[1..], Put(m, NameMeaning(pairs[0].key), Of(Read(pairs[0].value.tree))))
  }

  lemma {:induction false} ReadIsTaken(pairs: seq<Pair>, a: seq<Entry>)
    requires PairsOk(pairs) && NoKeyTwice(a)
    ensures OfEntries(PairsRead(pairs, a)) == PairsTaken(pairs, OfEntries(a))
    decreases |pairs|
  {
    hide Read, Of, OfEntries, MapSet, NameMeaning, Put, NoKeyTwice;
    if pairs != [] {
      var k, v := NameMeaning(pairs[0].key), Read(pairs[0].value.tree);
      MapSetOnce(a, k, v);
      SetIsPut(a, k, v);
      ReadIsTaken(pairs[1..], MapSet(a, k, v));
    }
  }

  function Got(m: map<string, Object>, k: string): Option<Object> {
    if k in m then Some(m[k]) else None
  }

  // Whether the two readings of pairs, added to two dictionaries, are the same.
  ghost predicate PairsAgree(pairs: seq<Pair>, m: map<string, Object>, n: map<string, Object>)
    requires PairsOk(pairs)
  {
    && (forall k :: k in m || k in n ==> KeyIn(pairs, k) || Got(m, k) == Got(n, k))
    && (forall i: nat :: i < |pairs| && LastOfKey(pairs, i) ==>
          Of(Read(pairs[i].value.tree)) == Meaning(pairs[i].value.tree))
  }

  predicate NoNulls(m: map<string, Object>) {
    forall k :: k in m ==> m[k] != ONull
  }

  lemma {:induction false} PairsMeanWhatIsRead(pairs: seq<Pair>, m: map<string, Object>, n: map<string, Object>)
    requires PairsOk(pairs) && NoNulls(m) && NoNulls(n)
    ensures PairsTaken(pairs, m) == PairsMeaning(pairs, n) <==> PairsAgree(pairs, m, n)
    decreases |pairs|
  {
    hide Read, Of, Meaning, NameMeaning, KeyIn, LastOfKey, PairsAgree;
    if pairs == [] {
      AgreeOnNothing(m, n);
    } else {
      var p := pairs[0];
      var k, r, d := NameMeaning(p.key), Of(Read(p.value.tree)), Meaning(p.value.tree);
      PairsMeanWhatIsRead(pairs[1..], Put(m, k, r), Put(n, k, d));
      AgreeStep(pairs, m, n);
    }
  }

  lemma {:induction false} AgreeOnNothing(m: map<string, Object>, n: map<string, Object>)
    ensures PairsAgree([], m, n) <==> m == n
  {
    hide KeyIn, LastOfKey;
    NoKeyIn();
    if PairsAgree([], m, n) {
      forall k
        ensures (k in m <==> k in n) && (k in m ==> m[k] == n[k])
      {
        assert k in m || k in n ==> Got(m, k) == Got(n, k);
      }
    }
  }

  lemma {:induction false} NoKeyIn()
    ensures forall k :: !KeyIn([], k)
    ensures forall i: nat :: !LastOfKey([], i)
  {
  }

  lemma {:induction false} FirstPair(pairs: seq<Pair>)
    requires pairs != [] && PairsOk(pairs)
    ensures forall k :: KeyIn(pairs, k) <==> k == NameMeaning(pairs[0].key) || KeyIn(pairs[1..], k)
    ensures LastOfKey(pairs, 0) <==> !KeyIn(pairs[1..], NameMeaning(pairs[0].key))
    ensures forall i: nat :: LastOfKey(pairs, i + 1) <==> LastOfKey(pairs[1..], i)
  {
    hide NameMeaning;
    var rest := pairs[1..];
    forall i | 0 <= i < |rest|
      ensures rest[i] == pairs[i + 1]
    {
    }
    forall k
      ensures KeyIn(pairs, k) <==> k == NameMeaning(pairs[0].key) || KeyIn(rest, k)
    {
      if KeyIn(pairs, k) && k != NameMeaning(pairs[0].key) {
        var i :| 0 <= i < |pairs| && NameMeaning(pairs[i].key) == k;
        assert rest[i - 1] == pairs[i];
      }
      if KeyIn(rest, k) {
        var i :| 0 <= i < |rest| && NameMeaning(rest[i].key) == k;
        assert pairs[i + 1] == rest[i];
      }
    }
    if !LastOfKey(pairs, 0) {
      var j :| 0 < j < |pairs| && NameMeaning(pairs[j].key) == NameMeaning(pairs[0].key);
      assert rest[j - 1] == pairs[j];
    }
    forall i: nat
      ensures LastOfKey(pairs, i + 1) <==> LastOfKey(rest, i)
    {
      LastOfRest(pairs, i);
    }
  }

  lemma {:induction false} LastOfRest(pairs: seq<Pair>, i: nat)
    requires pairs != [] && PairsOk(pairs)
    ensures LastOfKey(pairs, i + 1) <==> LastOfKey(pairs[1..], i)
  {
    hide NameMeaning;
    var rest := pairs[1..];
    if LastOfKey(rest, i) {
      forall j | i + 1 < j < |pairs|
        ensures NameMeaning(pairs[j].key) != NameMeaning(pairs[i + 1].key)
      {
        assert rest[j - 1] == pairs[j];
      }
    }
  }

  lemma {:induction false} AgreeStep(pairs: seq<Pair>, m: map<string, Object>, n: map<string, Object>)
    requires pairs != [] && PairsOk(pairs) && NoNulls(m) && NoNulls(n)
    ensures var k := NameMeaning(pairs[0].key); var t := pairs[0].value.tree;
      PairsAgree(pairs, m, n) <==> PairsAgree(pairs[1..], Put(m, k, Of(Read(t))), Put(n, k, Meaning(t)))
  {
    hide Read, Of, Meaning, NameMeaning, KeyIn, LastOfKey;
    var rest, p := pairs[1..], pairs[0];
    var k, r, d := NameMeaning(p.key), Of(Read(p.value.tree)), Meaning(p.value.tree);
    var m1, n1 := Put(m, k, r), Put(n, k, d);
    FirstPair(pairs);
    if PairsAgree(pairs, m, n) {
      forall i: nat | i < |rest| && LastOfKey(rest, i)
        ensures Of(Read(rest[i].value.tree)) == Meaning(rest[i].value.tree)
      {
        assert LastOfKey(pairs, i + 1) && pairs[i + 1] == rest[i];
      }
      forall l | l in m1 || l in n1
        ensures KeyIn(rest, l) || Got(m1, l) == Got(n1, l)
      {
      }
    }
    if PairsAgree(rest, m1, n1) {
      forall i: nat | i < |pairs| && LastOfKey(pairs, i)
        ensures Of(Read(pairs[i].value.tree)) == Meaning(pairs[i].value.tree)
      {
        if i == 0 {
          assert Got(m1, k) == Got(n1, k);
        } else {
          assert LastOfKey(rest, i - 1) && rest[i - 1] == pairs[i];
        }
      }
      forall l | l in m || l in n
        ensures KeyIn(pairs, l) || Got(m, l) == Got(n, l)
      {
        if l != k {
          assert Got(m1, l) == Got(m, l) && Got(n1, l) == Got(n, l);
        }
      }
    }
  }

  // ------------------------------------------------------------------ whole values

  lemma {:induction false} ItemsAre(items: seq<Item>)
    requires ItemsOk(items)
    ensures |ItemsRead(items)| == |ItemsMeaning(items)| == |items|
    ensures forall i :: 0 <= i < |items| ==>
      ItemsRead(items)[i] == Read(items[i].tree) && ItemsMeaning(items)[i] == Meaning(items[i].tree)
    decreases |items|
  {
    hide Read, Meaning;
    if items != [] {
      ItemsAre(items[1..]);
    }
  }

  // A written value is read as the object it denotes exactly when no literal string in it that counts holds a carriage
  // return without a backslash before it.
  lemma {:induction false} ValueMeansWhatIsRead(t: Tree)
    requires Formed(t)
    ensures Of(Read(t)) == Meaning(t) <==> !HasBareCr(t)
  {
    hide NumMeaning, NameMeaning, HexMeaning, CellDigits, LitRead, LitMeaning, NumOk, NameOk, HexOk, LitOk, RefOk, OpOk;
    hide ItemsRead, ItemsMeaning, OfItems, PairsRead, PairsMeaning, OfEntries, ItemsHaveBareCr, ItemsApart, PairsApart;
    match t {
      case TLit(ps) => LiteralMeansWhatIsRead(ps);
      case TArr(items, _) => ItemsMeanWhatIsRead(items);
      case TDict(pairs, _) => DictMeansWhatIsRead(pairs);
      case _ =>
    }
  }

  lemma {:induction false} DictMeansWhatIsRead(pairs: seq<Pair>)
    requires PairsOk(pairs)
    ensures OfEntries(PairsRead(pairs, [])) == PairsMeaning(pairs, map[]) <==>
      forall i: nat :: i < |pairs| && LastOfKey(pairs, i) ==> !HasBareCr(pairs[i].value.tree)
  {
    hide Read, Of, Meaning, HasBareCr, LastOfKey, PairsRead, PairsMeaning, PairsTaken, KeyIn;
    forall i | 0 <= i < |pairs|
      ensures var v := pairs[i].value.tree; Of(Read(v)) == Meaning(v) <==> !HasBareCr(v)
    {
      ValueMeansWhatIsRead(pairs[i].value.tree);
    }
    ReadIsTaken(pairs, []);
    PairsMeanWhatIsRead(pairs, map[], map[]);
  }

  lemma {:induction false} ItemsMeanWhatIsRead(items: seq<Item>)
    requires ItemsOk(items)
    ensures OfItems(ItemsRead(items)) == ItemsMeaning(items) <==> !ItemsHaveBareCr(items)
  {
    hide Read, Of, Meaning, HasBareCr;
    forall i | 0 <= i < |items|
      ensures Of(Read(items[i].tree)) == Meaning(items[i].tree) <==> !HasBareCr(items[i].tree)
    {
      ValueMeansWhatIsRead(items[i].tree);
    }
    ItemsAre(items);
    var a, b := OfItems(ItemsRead(items)), ItemsMeaning(items);
    if a == b {
      forall i | 0 <= i < |items|
        ensures !HasBareCr(items[i].tree)
      {
        assert a[i] == b[i];
      }
    }
  }

  // ------------------------------------------------------------------ null entries

  // Among the values that count, a dictionary has an entry that is null.
  predicate HasNullEntry(t: Tree)
    requires Formed(t)
    decreases t, 0
  {
    match t
    case TArr(items, _) => ItemsHaveNullEntry(items)
    case TDict(pairs, _) => exists i: nat :: i < |pairs| && LastOfKey(pairs, i) && NullOrHas(pairs[i].value.tree)
    case _ => false
  }

  predicate NullOrHas(t: Tree)
    requires Formed(t)
    decreases t, 1
  {
    t == TNull || HasNullEntry(t)
  }

  predicate ItemsHaveNullEntry(items: seq<Item>)
    requires ItemsOk(items)
    decreases items, 0
  {
    exists i :: 0 <= i < |items| && HasNullEntry(items[i].tree)
  }

  // A value of the program with an entry that, as an object, it does not have.
  predicate KeepsNull(v: Value)
    decreases v, 0
  {
    match v
    case Dict(es) => EntriesKeepNull(es)
    case Arr(items) => ItemsKeepNull(items)
    case _ => false
  }

  predicate ItemsKeepNull(items: seq<Value>)
    decreases items, 0
  {
    exists i :: 0 <= i < |items| && KeepsNull(items[i])
  }

  predicate EntriesKeepNull(es: seq<Entry>)
    decreases es, 2
  {
    exists i :: 0 <= i < |es| && NullOrKeeps(es[i].value)
  }

  predicate NullOrKeeps(v: Value)
    decreases v, 1
  {
    v == Null || KeepsNull(v)
  }

  // The entries of a dictionary as read: those of the last pairs of their keys.
  lemma {:induction false} EntriesRead(pairs: seq<Pair>, a: seq<Entry>, e: Entry)
    requires PairsOk(pairs) && NoKeyTwice(a)
    ensures e in PairsRead(pairs, a) <==>
      || (e in a && !KeyIn(pairs, e.key))
      || exists i: nat :: i < |pairs| && LastOfKey(pairs, i) && EntryAt(pairs, i) == e
    decreases |pairs|
  {
    hide Read, NameMeaning, KeyIn, LastOfKey, MapSet, NoKeyTwice;
    if pairs == [] {
      NoKeyIn();
    } else {
      var rest, k, v := pairs[1..], NameMeaning(pairs[0].key), Read(pairs[0].value.tree);
      FirstPair(pairs);
      MapSetOnce(a, k, v);
      EntriesRead(rest, MapSet(a, k, v), e);
      assert EntryAt(pairs, 0) == Entry(k, v);
      if i: nat :| i < |rest| && LastOfKey(rest, i) && EntryAt(rest, i) == e {
        assert LastOfKey(pairs, i + 1) && EntryAt(pairs, i + 1) == e;
      }
      if i: nat :| i < |pairs| && LastOfKey(pairs, i) && EntryAt(pairs, i) == e && i > 0 {
        assert LastOfKey(rest, i - 1) && EntryAt(rest, i - 1) == e;
      }
    }
  }

  function EntryAt(pairs: seq<Pair>, i: nat): Entry
    requires PairsOk(pairs) && i < |pairs|
  {
    Entry(NameMeaning(pairs[i].key), Read(pairs[i].value.tree))
  }

  // The program keeps a null entry, which the object does not have, exactly where one is written.
  lemma {:induction false} NullEntriesAreKept(t: Tree)
    requires Formed(t)
    ensures KeepsNull(Read(t)) <==> HasNullEntry(t)
  {
    hide NumMeaning, NameMeaning, HexMeaning, CellDigits, LitRead, NumOk, NameOk, HexOk, LitOk, RefOk, OpOk;
    hide ItemsRead, PairsRead, ItemsApart, PairsApart, EntriesKeepNull, ItemsKeepNull, ItemsHaveNullEntry, NullOrKeeps;
    match t {
      case TArr(items, _) => ItemsKeepNulls(items);
      case TDict(pairs, _) => PairsKeepNulls(pairs);
      case _ =>
    }
  }

  lemma {:induction false} ItemsKeepNulls(items: seq<Item>)
    requires ItemsOk(items)
    ensures ItemsKeepNull(ItemsRead(items)) <==> ItemsHaveNullEntry(items)
  {
    hide Read, Meaning, HasNullEntry, KeepsNull;
    ItemsAre(items);
    forall i | 0 <= i < |items|
      ensures KeepsNull(ItemsRead(items)[i]) <==> HasNullEntry(items[i].tree)
    {
      NullEntriesAreKept(items[i].tree);
    }
  }

  lemma {:induction false} PairsKeepNulls(pairs: seq<Pair>)
    requires PairsOk(pairs)
    ensures EntriesKeepNull(PairsRead(pairs, [])) <==>
      exists i: nat :: i < |pairs| && LastOfKey(pairs, i) && NullOrHas(pairs[i].value.tree)
  {
    hide Read, HasNullEntry, KeepsNull, LastOfKey, PairsRead;
    forall i | 0 <= i < |pairs|
      ensures NullOrKeeps(Read(pairs[i].value.tree)) <==> NullOrHas(pairs[i].value.tree)
    {
      NullEntriesAreKept(pairs[i].value.tree);
      NullIsNull(pairs[i].value.tree);
    }
    PairsKeepNull(pairs);
  }

  lemma {:induction false} NullIsNull(t: Tree)
    requires Formed(t)
    ensures Read(t) == Null <==> t == TNull
  {
  }

  lemma {:induction false} PairsKeepNull(pairs: seq<Pair>)
    requires PairsOk(pairs)
    ensures EntriesKeepNull(PairsRead(pairs, [])) <==>
      exists i: nat :: i < |pairs| && LastOfKey(pairs, i) && NullOrKeeps(Read(pairs[i].value.tree))
  {
    hide Read, NameMeaning, LastOfKey, NullOrKeeps, PairsRead;
    var es := PairsRead(pairs, []);
    if j :| 0 <= j < |es| && NullOrKeeps(es[j].value) {
      var e := es[j];
      EntriesRead(pairs, [], e);
      var i: nat :| i < |pairs| && LastOfKey(pairs, i) && EntryAt(pairs, i) == e;
      assert NullOrKeeps(Read(pairs[i].value.tree));
    }
    if i: nat :| i < |pairs| && LastOfKey(pairs, i) && NullOrKeeps(Read(pairs[i].value.tree)) {
      var e := EntryAt(pairs, i);
      EntriesRead(pairs, [], e);
      var j :| 0 <= j < |es| && es[j] == e;
      assert NullOrKeeps(es[j].value);
    }
  }

  const NullPair: Pair := Pair([], [Same('A')], Item([Blank(' ')], TNull))

  // An input: the entry of <</A null>> is kept, and the object has none.
  lemma {:induction false} NullEntryIsKept()
    ensures var t := TDict([NullPair], []);
      && Formed(t) && Text(t) == "<</A null>>"
      && Read(t) == Dict([Entry("A", Null)]) && Meaning(t) == ODict(map[])
  {
    NullPairForm();
    NullPairText();
    var pairs := [NullPair];
    assert pairs[1..] == [];
    assert PairsRead(pairs, []) == PairsRead([], MapSet([], "A", Null)) == [Entry("A", Null)];
    assert PairsMeaning(pairs, map[]) == PairsMeaning([], Put(map[], "A", ONull)) == map[];
  }

  lemma {:induction false} NullPairForm()
    ensures NameOk(NullPair.key) && NameMeaning(NullPair.key) == "A" && PairsOk([NullPair])
    ensures Formed(TDict([NullPair], []))
  {
    assert [Same('A')][1..] == [] && [Blank(' ')][1..] == [];
    assert NameOk([]) && NameOk([Same('A')]);
    assert FillText([Blank(' ')]) == " ";
  }

  lemma {:induction false} NullPairText()
    ensures Text(TDict([NullPair], [])) == "<</A null>>"
  {
    var key, gap := [Same('A')], [Blank(' ')];
    assert key[1..] == [] && gap[1..] == [];
    assert NameText(key) == "A" && FillText(gap) == " " && FillText([]) == "";
    assert KeyText(NullPair) == "/A" && ItemText(NullPair.value) == " null";
    assert [NullPair][1..] == [];
    assert PairsText([NullPair]) == "/A" + " null" + "";
  }
}
