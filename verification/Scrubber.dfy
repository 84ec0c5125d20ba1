// scrubData() and capLength() of instrument.ts: what may leave the process from a graph of objects.
//
// Texts are those of the basic plane, where a character is one code unit. The patterns of redactString() and the
// three key patterns are parameters.

module Scrubber {
  const MAX_STRING_LENGTH := 2048
  const MAX_DEPTH := 8
  const MAX_BREADTH := 1000
  const MAX_KEY_LENGTH := 256

  const FILTERED := "[Filtered]"
  const CIRCULAR := "[Circular]"
  const ELLIPSIS := '\U{2026}'

  // ------------------------------------------------------------------ capLength()

  predicate IsSeparator(c: char) {
    c in " \t\r\n/?#&=,;:'\"()<>[]{}|\\"
  }

  // The end of the longest front of s[..end] that is empty or ends in a separator.
  function CutAt(s: string, end: nat): (e: nat)
    requires end <= |s|
    ensures e <= end && (e > 0 ==> IsSeparator(s[e - 1]))
    ensures forall i :: e <= i < end ==> !IsSeparator(s[i])
  {
    if end > 0 && !IsSeparator(s[end - 1]) then CutAt(s, end - 1) else end
  }

  function CapLength(s: string): string {
    if |s| <= MAX_STRING_LENGTH then s else s[..CutAt(s, MAX_STRING_LENGTH)] + [ELLIPSIS]
  }

  method Cap(input: string) returns (r: string)
    ensures r == CapLength(input)
  {
    if |input| <= MAX_STRING_LENGTH {
      return input;
    }
    var end := MAX_STRING_LENGTH;
    while end > 0 && !IsSeparator(input[end - 1])
      invariant 0 <= end <= MAX_STRING_LENGTH && CutAt(input, end) == CutAt(input, MAX_STRING_LENGTH)
    {
      end := end - 1;
    }
    r := input[..end] + [ELLIPSIS];
  }

  lemma {:induction false} CutAtSame(s: string, t: string, end: nat)
    requires end <= |s| && end <= |t| && s[..end] == t[..end]
    ensures CutAt(s, end) == CutAt(t, end)
  {
    if end > 0 {
      assert s[end - 1] == s[..end][end - 1] == t[..end][end - 1] == t[end - 1];
      assert s[..end - 1] == s[..end][..end - 1] && t[..end - 1] == t[..end][..end - 1];
      CutAtSame(s, t, end - 1);
    }
  }

  // A capped string stays as it is when capped again, although it can be one longer than the limit: exactly when
  // the last character within the limit is a separator.
  lemma {:induction false} CapTwice(s: string)
    ensures CapLength(CapLength(s)) == CapLength(s) && |CapLength(s)| <= MAX_STRING_LENGTH + 1
    ensures |CapLength(s)| > MAX_STRING_LENGTH <==>
            |s| > MAX_STRING_LENGTH && IsSeparator(s[MAX_STRING_LENGTH - 1])
  {
    if |s| > MAX_STRING_LENGTH {
      var e, t := CutAt(s, MAX_STRING_LENGTH), CapLength(s);
      if e == MAX_STRING_LENGTH {
        assert t[..e] == s[..e];
        CutAtSame(s, t, MAX_STRING_LENGTH);
      }
    }
  }

  // An input: 2049 spaces keep their length.
  lemma {:induction false} CappedIsLonger()
    ensures |CapLength(seq(MAX_STRING_LENGTH + 1, i => ' '))| == MAX_STRING_LENGTH + 1
  {
    CapTwice(seq(MAX_STRING_LENGTH + 1, i => ' '));
  }

  // ------------------------------------------------------------------ values

  type Id = nat

  // Other stands for everything that is neither a string nor an object.
  datatype Value = Str(s: string) | Other(tag: int) | Ref(id: Id)
  datatype Obj =
    | Date(time: int)
    | Array(items: seq<Value>)
    | Error(name: string, message: string)
    | Plain(entries: seq<Entry>)
  datatype Entry = Entry(key: string, value: Value)

  // A list, a record and an error text say which object they were made of.
  datatype Out =
    | Text(s: string)
    | Same(v: Value)
    | List(of: Id, items: seq<Out>)
    | Message(of: Id, s: string)
    | Record(of: Id, fields: map<string, Out>)

  datatype Rules = Rules(patterns: string -> string, dropped: string -> bool, sensitive: string -> bool,
                         url: string -> bool)

  function At(h: map<Id, Obj>, id: Id): Obj {
    if id in h then h[id] else Plain([])
  }

  // redactString()
  function Redact(r: Rules, s: string): string {
    if s == "" then s else r.patterns(CapLength(s))
  }

  function QueryAt(url: string): (n: nat)
    ensures n <= |url|
  {
    if url == "" || url[0] == '?' || url[0] == '#' then 0 else 1 + QueryAt(url[1..])
  }

  // stripUrlQueryAndFragment()
  function StripUrl(r: Rules, url: string): string {
    Redact(r, url[..QueryAt(url)])
  }

  function Front<T>(s: seq<T>, n: nat): (f: seq<T>)
    ensures |f| == if |s| < n then |s| else n
  {
    if |s| < n then s else s[..n]
  }

  function KeyOf(e: Entry): string {
    Front(e.key, MAX_KEY_LENGTH)
  }

  predicate Dropped(r: Rules, e: Entry) {
    r.dropped(KeyOf(e))
  }

  predicate Sensitive(r: Rules, e: Entry) {
    r.sensitive(KeyOf(e))
  }

  predicate UrlText(r: Rules, e: Entry) {
    r.url(KeyOf(e)) && e.value.Str?
  }

  function OutKey(r: Rules, e: Entry): string {
    Redact(r, KeyOf(e))
  }

  // ------------------------------------------------------------------ scrubData()

  // The scrubbed value and the objects seen.
  function Scrub(h: map<Id, Obj>, r: Rules, v: Value, depth: nat, seen: set<Id>): (Out, set<Id>)
    decreases MAX_DEPTH - depth, 0
  {
    match v
    case Str(s) => (Text(Redact(r, s)), seen)
    case Other(_) => (Same(v), seen)
    case Ref(id) =>
      if At(h, id).Date? then (Same(v), seen)
      else if depth >= MAX_DEPTH then (Text(FILTERED), seen)
      else if id in seen then (Text(CIRCULAR), seen)
      else match At(h, id)
           case Array(items) =>
             var (outs, after) := ScrubItems(h, r, Front(items, MAX_BREADTH), depth + 1, seen + {id});
             (List(id, outs), after)
           case Error(name, message) => (Message(id, ErrorText(r, name, message)), seen + {id})
           case Plain(entries) =>
             var (fields, after) := ScrubEntries(h, r, Front(entries, MAX_BREADTH), depth + 1, seen + {id});
             (Record(id, fields), after)
  }

  function ErrorText(r: Rules, name: string, message: string): string {
    Front(name, 128) + ": " + Redact(r, message)
  }

  // An input: of an Error only the message is redacted; its name is passed on although it would be filtered.
  lemma {:induction false} NameIsNotRedacted()
    ensures var all := (s: string) => FILTERED; var none := (s: string) => false; var name := "me@example.org";
      var r := Rules(all, none, none, none);
      && Redact(r, name) == FILTERED
      && Scrub(map[0 := Error(name, name)], r, Ref(0), 0, {}).0 == Message(0, name + ": " + FILTERED)
  {
  }

  function ScrubItems(h: map<Id, Obj>, r: Rules, items: seq<Value>, depth: nat, seen: set<Id>): (o: (seq<Out>, set<Id>))
    ensures |o.0| == |items|
    decreases MAX_DEPTH - depth, 1, |items|
  {
    if items == [] then ([], seen)
    else
      var n := |items| - 1;
      var (outs, mid) := ScrubItems(h, r, items[..n], depth, seen);
      var (out, after) := Scrub(h, r, items[n], depth, mid);
      (outs + [out], after)
  }

  function ScrubEntries(h: map<Id, Obj>, r: Rules, entries: seq<Entry>, depth: nat, seen: set<Id>)
    : (map<string, Out>, set<Id>)
    decreases MAX_DEPTH - depth, 1, |entries|
  {
    if entries == [] then (map[], seen)
    else
      var n := |entries| - 1;
      var e := entries[n];
      var (fields, mid) := ScrubEntries(h, r, entries[..n], depth, seen);
      if Dropped(r, e) then (fields, mid)
      else if Sensitive(r, e) then (fields[OutKey(r, e) := Text(FILTERED)], mid)
      else if UrlText(r, e) then (fields[OutKey(r, e) := Text(StripUrl(r, e.value.s))], mid)
      else
        var (out, after) := Scrub(h, r, e.value, depth, mid);
        (fields[OutKey(r, e) := out], after)
  }

  // One call tree of scrubData() with the set it shares. The graph is only read.
  class Scrubbing {
    const h: map<Id, Obj>
    const r: Rules
    var seen: set<Id>

    constructor (h: map<Id, Obj>, r: Rules)
      ensures this.h == h && this.r == r && seen == {}
    {
      this.h, this.r, seen := h, r, {};
    }

    method ScrubData(v: Value, depth: nat) returns (out: Out)
      modifies this
      ensures (out, seen) == Scrub(h, r, v, depth, old(seen))
      decreases MAX_DEPTH - depth, 0
    {
      match v
      case Str(s) => out := Text(Redact(r, s));
      case Other(_) => out := Same(v);
      case Ref(id) =>
        var o := At(h, id);
        if o.Date? {
          return Same(v);
        }
        if depth >= MAX_DEPTH {
          return Text(FILTERED);
        }
        if id in seen {
          return Text(CIRCULAR);
        }
        seen := seen + {id};
        match o
        case Array(items) =>
          var outs := ItemsOf(Front(items, MAX_BREADTH), depth + 1);
          out := List(id, outs);
        case Error(name, message) => out := Message(id, ErrorText(r, name, message));
        case Plain(entries) =>
          var fields := FieldsOf(Front(entries, MAX_BREADTH), depth + 1);
          out := Record(id, fields);
    }

    method ItemsOf(items: seq<Value>, depth: nat) returns (outs: seq<Out>)
      requires depth <= MAX_DEPTH
      modifies this
      ensures (outs, seen) == ScrubItems(h, r, items, depth, old(seen))
      decreases MAX_DEPTH - depth, 1
    {
      hide Scrub;
      outs := [];
      for i := 0 to |items|
        invariant (outs, seen) == ScrubItems(h, r, items[..i], depth, old(seen))
      {
        assert items[..i + 1][..i] == items[..i];
        var out := ScrubData(items[i], depth);
        outs := outs + [out];
      }
      assert items[..|items|] == items;
    }

    method FieldsOf(entries: seq<Entry>, depth: nat) returns (fields: map<string, Out>)
      requires depth <= MAX_DEPTH
      modifies this
      ensures (fields, seen) == ScrubEntries(h, r, entries, depth, old(seen))
      decreases MAX_DEPTH - depth, 1
    {
      hide Scrub, Redact, StripUrl, Dropped, Sensitive;
      fields := map[];
      for i := 0 to |entries|
        invariant (fields, seen) == ScrubEntries(h, r, entries[..i], depth, old(seen))
      {
        assert entries[..i + 1][..i] == entries[..i];
        var e := entries[i];
        if Dropped(r, e) {
          continue;
        }
        var outKey := OutKey(r, e);
        if Sensitive(r, e) {
          fields := fields[outKey := Text(FILTERED)];
        } else if UrlText(r, e) {
          fields := fields[outKey := Text(StripUrl(r, e.value.s))];
        } else {
          var out := ScrubData(e.value, depth);
          fields := fields[outKey := out];
        }
      }
      assert entries[..|entries|] == entries;
    }
  }

  // ------------------------------------------------------------------ each object once

  // The objects a result was made of.
  function Made(o: Out): set<Id> {
    match o
    case Text(_) => {}
    case Same(_) => {}
    case List(id, items) => {id} + set i, x | 0 <= i < |items| && x in Made(items[i]) :: x
    case Message(id, _) => {id}
    case Record(id, fields) => {id} + set k, x | k in fields && x in Made(fields[k]) :: x
  }

  predicate Apart(id: Id, items: seq<Out>) {
    && (forall i :: 0 <= i < |items| ==> id !in Made(items[i]))
    && (forall i, j :: 0 <= i < j < |items| ==> Made(items[i]) !! Made(items[j]))
  }

  predicate FieldsApart(id: Id, fields: map<string, Out>) {
    && (forall k :: k in fields ==> id !in Made(fields[k]))
    && (forall k, l :: k in fields && l in fields && k != l ==> Made(fields[k]) !! Made(fields[l]))
  }

  // No object is expanded in two places of the result, or inside itself.
  predicate Once(o: Out) {
    match o
    case List(id, items) => Apart(id, items) && forall i :: 0 <= i < |items| ==> Once(items[i])
    case Record(id, fields) => FieldsApart(id, fields) && forall k :: k in fields ==> Once(fields[k])
    case _ => true
  }

  // Made once, of objects that were not seen before and are seen after.
  predicate MadeBetween(o: Out, seen: set<Id>, after: set<Id>) {
    Once(o) && Made(o) !! seen && Made(o) <= after
  }

  // Every object of the graph, cyclic or shared, is expanded at most once.
  lemma {:induction false} EachObjectOnce(h: map<Id, Obj>, r: Rules, v: Value, depth: nat, seen: set<Id>)
    ensures var (o, after) := Scrub(h, r, v, depth, seen); seen <= after && MadeBetween(o, seen, after)
    decreases MAX_DEPTH - depth, 0
  {
    hide Redact, ErrorText;
    if v.Ref? && !At(h, v.id).Date? && depth < MAX_DEPTH && v.id !in seen {
      match At(h, v.id)
      case Array(items) =>
        ItemsOnce(h, r, Front(items, MAX_BREADTH), depth + 1, seen + {v.id});
      case Error(_, _) =>
      case Plain(entries) =>
        FieldsOnce(h, r, Front(entries, MAX_BREADTH), depth + 1, seen + {v.id});
    }
  }

  lemma {:induction false} ItemsOnce(h: map<Id, Obj>, r: Rules, items: seq<Value>, depth: nat, seen: set<Id>)
    requires depth <= MAX_DEPTH
    ensures var (outs, after) := ScrubItems(h, r, items, depth, seen);
            && seen <= after
            && (forall i :: 0 <= i < |outs| ==> MadeBetween(outs[i], seen, after))
            && (forall i, j :: 0 <= i < j < |outs| ==> Made(outs[i]) !! Made(outs[j]))
    decreases MAX_DEPTH - depth, 1, |items|
  {
    hide Scrub, Once, Made;
    if items != [] {
      var n := |items| - 1;
      var (outs, mid) := ScrubItems(h, r, items[..n], depth, seen);
      ItemsOnce(h, r, items[..n], depth, seen);
      EachObjectOnce(h, r, items[n], depth, mid);
    }
  }

  lemma {:induction false} FieldsOnce(h: map<Id, Obj>, r: Rules, entries: seq<Entry>, depth: nat, seen: set<Id>)
    requires depth <= MAX_DEPTH
    ensures var (fields, after) := ScrubEntries(h, r, entries, depth, seen);
            && seen <= after
            && (forall k :: k in fields ==> MadeBetween(fields[k], seen, after))
            && (forall k, l :: k in fields && l in fields && k != l ==> Made(fields[k]) !! Made(fields[l]))
    decreases MAX_DEPTH - depth, 1, |entries|
  {
    hide Scrub, Once, Made, OutKey, Dropped, Sensitive, UrlText;
    if entries != [] {
      var n := |entries| - 1;
      var e := entries[n];
      var (fields, mid) := ScrubEntries(h, r, entries[..n], depth, seen);
      FieldsOnce(h, r, entries[..n], depth, seen);
      EachObjectOnce(h, r, e.value, depth, mid);
      TextMakesNothing(FILTERED);
      if UrlText(r, e) && !Dropped(r, e) && !Sensitive(r, e) {
        UrlIsText(r, e);
        TextMakesNothing(StripUrl(r, e.value.s));
      }
    }
  }

  lemma {:induction false} UrlIsText(r: Rules, e: Entry)
    requires UrlText(r, e)
    ensures e.value.Str?
  {
  }

  lemma {:induction false} TextMakesNothing(s: string)
    ensures Once(Text(s)) && Made(Text(s)) == {}
  {
  }

  // ------------------------------------------------------------------ the keys of a record

  predicate Writes(r: Rules, e: Entry, k: string) {
    !Dropped(r, e) && OutKey(r, e) == k
  }

  // The last entry of the record that is kept under k.
  predicate LastUnder(r: Rules, entries: seq<Entry>, k: string, i: nat) {
    i < |entries| && Writes(r, entries[i], k) && forall j :: i < j < |entries| ==> !Writes(r, entries[j], k)
  }

  // The value that entry i has put under its key.
  predicate PutBy(h: map<Id, Obj>, r: Rules, entries: seq<Entry>, depth: nat, seen: set<Id>, i: nat, o: Out)
    requires i < |entries|
  {
    FieldOf(h, r, entries[i], depth, ScrubEntries(h, r, entries[..i], depth, seen).1, o)
  }

  lemma {:induction false} PutByInit(h: map<Id, Obj>, r: Rules, entries: seq<Entry>, depth: nat, seen: set<Id>, i: nat,
                                     o: Out)
    requires i < |entries| - 1
    ensures PutBy(h, r, entries, depth, seen, i, o) == PutBy(h, r, entries[..|entries| - 1], depth, seen, i, o)
  {
    hide FieldOf, ScrubEntries;
    assert entries[..|entries| - 1][..i] == entries[..i];
  }

  lemma {:induction false} OneEntry(h: map<Id, Obj>, r: Rules, entries: seq<Entry>, depth: nat, seen: set<Id>,
                                    k: string)
    requires entries != []
    ensures var n := |entries| - 1;
            var before := ScrubEntries(h, r, entries[..n], depth, seen).0;
            var fields := ScrubEntries(h, r, entries, depth, seen).0;
            && (Writes(r, entries[n], k) ==> k in fields && PutBy(h, r, entries, depth, seen, n, fields[k]))
            && (!Writes(r, entries[n], k) ==>
                  (k in fields <==> k in before) && (k in before ==> fields[k] == before[k]))
  {
    hide Scrub, OutKey, Dropped, Sensitive, StripUrl;
  }

  // A result has a key exactly when a kept entry has it, and there the value of the last such entry: the placeholder
  // if that entry is sensitive, a stripped URL, or its scrubbed value.
  lemma {:induction false} KeysOfARecord(h: map<Id, Obj>, r: Rules, entries: seq<Entry>, depth: nat, seen: set<Id>,
                                         k: string)
    requires depth <= MAX_DEPTH
    ensures var fields := ScrubEntries(h, r, entries, depth, seen).0;
            && (k in fields <==> exists i: nat :: LastUnder(r, entries, k, i))
            && forall i: nat :: LastUnder(r, entries, k, i) ==>
                 k in fields && PutBy(h, r, entries, depth, seen, i, fields[k])
    decreases |entries|
  {
    hide ScrubEntries, Writes, PutBy;
    if entries == [] {
      NoEntries(h, r, depth, seen);
    } else {
      var n := |entries| - 1;
      var init := entries[..n];
      KeysOfARecord(h, r, init, depth, seen, k);
      OneEntry(h, r, entries, depth, seen, k);
      if Writes(r, entries[n], k) {
        assert LastUnder(r, entries, k, n);
      } else {
        forall i: nat
          ensures LastUnder(r, entries, k, i) <==> LastUnder(r, init, k, i)
        {
          LastUnderInit(r, entries, k, i);
        }
        var fields := ScrubEntries(h, r, entries, depth, seen).0;
        forall i: nat | LastUnder(r, init, k, i)
          ensures k in fields && PutBy(h, r, entries, depth, seen, i, fields[k])
        {
          PutByInit(h, r, entries, depth, seen, i, fields[k]);
        }
      }
    }
  }

  lemma {:induction false} NoEntries(h: map<Id, Obj>, r: Rules, depth: nat, seen: set<Id>)
    ensures ScrubEntries(h, r, [], depth, seen) == (map[], seen)
  {
  }

  lemma {:induction false} LastUnderInit(r: Rules, entries: seq<Entry>, k: string, i: nat)
    requires entries != [] && !Writes(r, entries[|entries| - 1], k)
    ensures LastUnder(r, entries, k, i) <==> LastUnder(r, entries[..|entries| - 1], k, i)
  {
    hide Writes;
    var n := |entries| - 1;
    var init := entries[..n];
    forall j | 0 <= j < n
      ensures init[j] == entries[j]
    {
    }
  }

  predicate FieldOf(h: map<Id, Obj>, r: Rules, e: Entry, depth: nat, mid: set<Id>, o: Out) {
    if Sensitive(r, e) then o == Text(FILTERED)
    else if UrlText(r, e) then o == Text(StripUrl(r, e.value.s))
    else o == Scrub(h, r, e.value, depth, mid).0
  }

  // An entry whose value in a result is the placeholder: a sensitive one; a text that redaction, of a URL after its
  // query and fragment are cut off, turns into that very text; or an object too deep to be looked into.
  predicate YieldsPlaceholder(h: map<Id, Obj>, r: Rules, e: Entry, depth: nat) {
    || Sensitive(r, e)
    || (UrlText(r, e) && StripUrl(r, e.value.s) == FILTERED)
    || (!UrlText(r, e) && e.value.Str? && Redact(r, e.value.s) == FILTERED)
    || (e.value.Ref? && !At(h, e.value.id).Date? && depth >= MAX_DEPTH)
  }

  lemma {:induction false} PlaceholderBy(h: map<Id, Obj>, r: Rules, e: Entry, depth: nat, mid: set<Id>)
    ensures FieldOf(h, r, e, depth, mid, Text(FILTERED)) <==> YieldsPlaceholder(h, r, e, depth)
  {
    hide Redact, StripUrl, Sensitive;
    assert CIRCULAR[1] != FILTERED[1];
  }

  // The placeholder of a sensitive entry is there at the end exactly if the last entry kept under its key yields the
  // placeholder too.
  lemma {:induction false} PlaceholderStays(h: map<Id, Obj>, r: Rules, entries: seq<Entry>, depth: nat, seen: set<Id>,
                                            i: nat, last: nat)
    requires depth <= MAX_DEPTH && i <= last && i < |entries|
    requires Sensitive(r, entries[i]) && !Dropped(r, entries[i]) && LastUnder(r, entries, OutKey(r, entries[i]), last)
    ensures var fields, k := ScrubEntries(h, r, entries, depth, seen).0, OutKey(r, entries[i]);
            k in fields && (fields[k] == Text(FILTERED) <==> YieldsPlaceholder(h, r, entries[last], depth))
  {
    hide Scrub, Redact, StripUrl, Dropped, Sensitive, OutKey, ScrubEntries, YieldsPlaceholder;
    KeysOfARecord(h, r, entries, depth, seen, OutKey(r, entries[i]));
    PlaceholderBy(h, r, entries[last], depth, ScrubEntries(h, r, entries[..last], depth, seen).1);
  }

  // Two keys that redaction makes one: the later, harmless entry takes the place of the sensitive one's placeholder.
  lemma {:induction false} PlaceholderLost()
    ensures exists r: Rules, a: Entry, b: Entry ::
              && Sensitive(r, a) && !Dropped(r, a)
              && ScrubEntries(map[], r, [a, b], 1, {}).0 == map[OutKey(r, a) := Same(Other(7))]
  {
    var r := Rules(s => "[Filtered]", s => false, s => s == "token@a.org", s => false);
    var a, b := Entry("token@a.org", Str("x")), Entry("someone@b.org", Other(7));
    assert KeyOf(a) == "token@a.org" && KeyOf(b) == "someone@b.org" && KeyOf(b)[0] != KeyOf(a)[0];
    assert [a, b][..1] == [a] && [a][..0] == [];
    assert OutKey(r, a) == FILTERED == OutKey(r, b);
    assert ScrubEntries(map[], r, [a], 1, {}) == (map[FILTERED := Text(FILTERED)], {});
    assert ScrubEntries(map[], r, [a, b], 1, {}).0 == map[OutKey(r, a) := Same(Other(7))];
  }

  // ------------------------------------------------------------------ what a result shows

  // What stands in a result for a value of the graph, `known` being the objects seen by the end: redacted text, the
  // value itself if it is no object or a date, a mark for an object too deep or already known, and else a copy of the
  // object, place by place and key by key. Objects themselves are never passed on.
  ghost predicate Shows(h: map<Id, Obj>, r: Rules, v: Value, depth: nat, o: Out, known: set<Id>)
    decreases o, 0
  {
    match v
    case Str(s) => o == Text(Redact(r, s))
    case Other(_) => o == Same(v)
    case Ref(id) =>
      if At(h, id).Date? then o == Same(v)
      else if depth >= MAX_DEPTH then o == Text(FILTERED)
      else
        || (o == Text(CIRCULAR) && id in known)
        || match At(h, id)
           case Array(all) =>
             var items := Front(all, MAX_BREADTH);
             && o.List? && o.of == id && |o.items| == |items|
             && forall i :: 0 <= i < |items| ==> Shows(h, r, items[i], depth + 1, o.items[i], known)
           case Error(name, message) => o == Message(id, ErrorText(r, name, message))
           case Plain(all) =>
             var entries := Front(all, MAX_BREADTH);
             && o.Record? && o.of == id && KeysKept(r, entries, o.fields)
             && forall k, i: nat :: k in o.fields && LastUnder(r, entries, k, i) ==>
                  EntryShows(h, r, entries[i], depth + 1, o.fields[k], known)
  }

  ghost predicate EntryShows(h: map<Id, Obj>, r: Rules, e: Entry, depth: nat, o: Out, known: set<Id>)
    decreases o, 1
  {
    if Sensitive(r, e) then o == Text(FILTERED)
    else if UrlText(r, e) then o == Text(StripUrl(r, e.value.s))
    else Shows(h, r, e.value, depth, o, known)
  }

  // The keys are those of the entries that are not dropped.
  ghost predicate KeysKept(r: Rules, entries: seq<Entry>, fields: map<string, Out>) {
    forall k :: k in fields <==> exists i: nat :: LastUnder(r, entries, k, i)
  }

  ghost predicate ItemsShown(h: map<Id, Obj>, r: Rules, items: seq<Value>, depth: nat, outs: seq<Out>, known: set<Id>) {
    |outs| == |items| && forall i :: 0 <= i < |items| ==> Shows(h, r, items[i], depth, outs[i], known)
  }

  ghost predicate FieldsShown(h: map<Id, Obj>, r: Rules, entries: seq<Entry>, depth: nat, fields: map<string, Out>,
                              known: set<Id>) {
    && KeysKept(r, entries, fields)
    && forall k, i: nat :: k in fields && LastUnder(r, entries, k, i) ==>
         EntryShows(h, r, entries[i], depth, fields[k], known)
  }

  // The result shows the value: nothing of the graph is passed on but what Shows allows, and nothing is lost but what
  // it names.
  lemma {:induction false} ResultShows(h: map<Id, Obj>, r: Rules, v: Value, depth: nat, seen: set<Id>, known: set<Id>)
    requires Scrub(h, r, v, depth, seen).1 <= known
    ensures Shows(h, r, v, depth, Scrub(h, r, v, depth, seen).0, known)
    decreases MAX_DEPTH - depth, 0
  {
    hide Redact, ErrorText, LastUnder, KeysKept, EntryShows;
    if v.Ref? && !At(h, v.id).Date? && depth < MAX_DEPTH && v.id !in seen {
      match At(h, v.id)
      case Array(items) =>
        ItemsShow(h, r, Front(items, MAX_BREADTH), depth + 1, seen + {v.id}, known);
      case Error(_, _) =>
      case Plain(entries) =>
        FieldsShow(h, r, Front(entries, MAX_BREADTH), depth + 1, seen + {v.id}, known);
    }
  }

  lemma {:induction false} ItemsShow(h: map<Id, Obj>, r: Rules, items: seq<Value>, depth: nat, seen: set<Id>,
                                     known: set<Id>)
    requires depth <= MAX_DEPTH && ScrubItems(h, r, items, depth, seen).1 <= known
    ensures ItemsShown(h, r, items, depth, ScrubItems(h, r, items, depth, seen).0, known)
    decreases MAX_DEPTH - depth, 1, |items|
  {
    hide Scrub, Shows;
    if items != [] {
      var n := |items| - 1;
      var (outs, mid) := ScrubItems(h, r, items[..n], depth, seen);
      EachObjectOnce(h, r, items[n], depth, mid);
      ItemsShow(h, r, items[..n], depth, seen, known);
      ResultShows(h, r, items[n], depth, mid, known);
      var all := ScrubItems(h, r, items, depth, seen).0;
      assert all == outs + [Scrub(h, r, items[n], depth, mid).0];
    }
  }

  lemma {:induction false} FieldsShow(h: map<Id, Obj>, r: Rules, entries: seq<Entry>, depth: nat, seen: set<Id>,
                                      known: set<Id>)
    requires depth <= MAX_DEPTH && ScrubEntries(h, r, entries, depth, seen).1 <= known
    ensures FieldsShown(h, r, entries, depth, ScrubEntries(h, r, entries, depth, seen).0, known)
    decreases MAX_DEPTH - depth, 1, |entries|
  {
    hide ScrubEntries, EntryShows, LastUnder;
    var fields := ScrubEntries(h, r, entries, depth, seen).0;
    forall k
      ensures k in fields <==> exists i: nat :: LastUnder(r, entries, k, i)
    {
      KeysOfARecord(h, r, entries, depth, seen, k);
    }
    if entries != [] {
      var init := entries[..|entries| - 1];
      SeenGrows(h, r, entries, depth, seen);
      FieldsShow(h, r, init, depth, seen, known);
      forall k, i: nat | k in fields && LastUnder(r, entries, k, i)
        ensures i < |entries| && EntryShows(h, r, entries[i], depth, fields[k], known)
      {
        FieldShows(h, r, entries, depth, seen, known, k, i);
      }
    } else {
      forall k, i: nat | LastUnder(r, entries, k, i)
        ensures false
      {
        LastIsWithin(r, entries, k, i);
      }
    }
  }

  lemma {:induction false} LastIsWithin(r: Rules, entries: seq<Entry>, k: string, i: nat)
    requires LastUnder(r, entries, k, i)
    ensures i < |entries| && Writes(r, entries[i], k)
    ensures forall j :: i < j < |entries| ==> !Writes(r, entries[j], k)
  {
  }

  lemma {:induction false} SeenGrows(h: map<Id, Obj>, r: Rules, entries: seq<Entry>, depth: nat, seen: set<Id>)
    requires entries != [] && depth <= MAX_DEPTH
    ensures var n := |entries| - 1; var mid := ScrubEntries(h, r, entries[..n], depth, seen).1;
            && mid <= ScrubEntries(h, r, entries, depth, seen).1
            && (var e := entries[n]; !Dropped(r, e) && !Sensitive(r, e) && !UrlText(r, e) ==>
                  Scrub(h, r, e.value, depth, mid).1 == ScrubEntries(h, r, entries, depth, seen).1)
  {
    hide Scrub, Dropped, Sensitive, UrlText, OutKey;
    var n := |entries| - 1;
    EachObjectOnce(h, r, entries[n].value, depth, ScrubEntries(h, r, entries[..n], depth, seen).1);
  }

  // The step of FieldsShow for one key.
  lemma {:induction false} FieldShows(h: map<Id, Obj>, r: Rules, entries: seq<Entry>, depth: nat, seen: set<Id>,
                                      known: set<Id>, k: string, i: nat)
    requires depth <= MAX_DEPTH && entries != [] && ScrubEntries(h, r, entries, depth, seen).1 <= known
    requires var init := entries[..|entries| - 1];
             FieldsShown(h, r, init, depth, ScrubEntries(h, r, init, depth, seen).0, known)
    requires LastUnder(r, entries, k, i) && k in ScrubEntries(h, r, entries, depth, seen).0
    ensures i < |entries|
    ensures EntryShows(h, r, entries[i], depth, ScrubEntries(h, r, entries, depth, seen).0[k], known)
    decreases MAX_DEPTH - depth, 1, |entries|, 0
  {
    hide ScrubEntries, Scrub, Shows, Writes, LastUnder, KeysKept, Sensitive, StripUrl, Dropped;
    var n := |entries| - 1;
    var mid := ScrubEntries(h, r, entries[..n], depth, seen).1;
    LastIsWithin(r, entries, k, i);
    OneEntry(h, r, entries, depth, seen, k);
    if Writes(r, entries[n], k) {
      assert i == n;
      SeenGrows(h, r, entries, depth, seen);
      NotDropped(r, entries[n], k);
      if !Sensitive(r, entries[n]) && !UrlText(r, entries[n]) {
        ResultShows(h, r, entries[n].value, depth, mid, known);
      }
    } else {
      LastUnderInit(r, entries, k, i);
      assert i < n && entries[..n][i] == entries[i];
    }
  }

  lemma {:induction false} NotDropped(r: Rules, e: Entry, k: string)
    requires Writes(r, e, k)
    ensures !Dropped(r, e)
  {
  }

  // ------------------------------------------------------------------ what a result may hold

  // A string of a result is a fixed mark, or has been redacted.
  ghost predicate Clean(r: Rules, s: string) {
    s == FILTERED || s == CIRCULAR || exists raw :: s == Redact(r, raw)
  }

  // A key of a copy of an object is the redacted key of an entry of that object that is not dropped.
  ghost predicate CleanKey(h: map<Id, Obj>, r: Rules, of: Id, k: string) {
    At(h, of).Plain? && exists i :: 0 <= i < |At(h, of).entries| && Writes(r, At(h, of).entries[i], k)
  }

  // At most so many levels of lists and records, each with at most a thousand places; clean strings and keys; and no
  // object of the graph itself, a date excepted.
  ghost predicate Fit(h: map<Id, Obj>, r: Rules, o: Out, levels: nat) {
    match o
    case Text(s) => Clean(r, s)
    case Same(v) => v.Other? || (v.Ref? && At(h, v.id).Date?)
    case Message(of, s) =>
      levels > 0 && At(h, of).Error? && s == ErrorText(r, At(h, of).name, At(h, of).message)
    case List(of, items) =>
      && levels > 0 && At(h, of).Array? && |items| <= MAX_BREADTH
      && forall i :: 0 <= i < |items| ==> Fit(h, r, items[i], levels - 1)
    case Record(of, fields) =>
      && levels > 0 && |fields| <= MAX_BREADTH
      && forall k :: k in fields ==> CleanKey(h, r, of, k) && Fit(h, r, fields[k], levels - 1)
  }

  lemma {:induction false} FewKeys(r: Rules, entries: seq<Entry>, fields: map<string, Out>)
    requires KeysKept(r, entries, fields)
    ensures |fields| <= |entries|
  {
    hide LastUnder;
    var keys := set i | 0 <= i < |entries| :: OutKey(r, entries[i]);
    forall k | k in fields
      ensures k in keys
    {
      var i: nat :| LastUnder(r, entries, k, i);
      LastIsWithin(r, entries, k, i);
    }
    FewImages(r, entries);
    SubsetSize(fields.Keys, keys);
    assert |fields| == |fields.Keys|;
  }

  lemma {:induction false} FewImages(r: Rules, entries: seq<Entry>)
    ensures |set i | 0 <= i < |entries| :: OutKey(r, entries[i])| <= |entries|
    decreases |entries|
  {
    hide OutKey;
    var all := set i | 0 <= i < |entries| :: OutKey(r, entries[i]);
    if entries == [] {
      assert all == {};
    } else {
      var n := |entries| - 1;
      var init := entries[..n];
      FewImages(r, init);
      var before := set i | 0 <= i < |init| :: OutKey(r, init[i]);
      forall k | k in all
        ensures k in before + {OutKey(r, entries[n])}
      {
        var i :| 0 <= i < |entries| && OutKey(r, entries[i]) == k;
        if i < n { assert init[i] == entries[i]; }
      }
      SubsetSize(all, before + {OutKey(r, entries[n])});
    }
  }

  lemma {:induction false} SubsetSize(a: set<string>, b: set<string>)
    requires a <= b
    ensures |a| <= |b|
    decreases |a|
  {
    if x :| x in a {
      SubsetSize(a - {x}, b - {x});
    }
  }

  lemma {:induction false} ShownFits(h: map<Id, Obj>, r: Rules, v: Value, depth: nat, o: Out, known: set<Id>)
    requires Shows(h, r, v, depth, o, known) && depth <= MAX_DEPTH
    ensures Fit(h, r, o, MAX_DEPTH - depth)
    decreases o, 0
  {
    hide Redact, ErrorText, LastUnder, KeysKept, EntryShows, CleanKey;
    if v.Ref? && !At(h, v.id).Date? && depth < MAX_DEPTH && o != Text(CIRCULAR) {
      match At(h, v.id)
      case Array(all) =>
        var items := Front(all, MAX_BREADTH);
        forall i | 0 <= i < |items|
          ensures Fit(h, r, o.items[i], MAX_DEPTH - depth - 1)
        {
          ShownFits(h, r, items[i], depth + 1, o.items[i], known);
        }
      case Error(_, _) =>
      case Plain(all) =>
        var entries := Front(all, MAX_BREADTH);
        FewKeys(r, entries, o.fields);
        forall k | k in o.fields
          ensures CleanKey(h, r, v.id, k) && Fit(h, r, o.fields[k], MAX_DEPTH - depth - 1)
        {
          var i := KeptBy(h, r, v.id, entries, o.fields, k);
          EntryFits(h, r, entries[i], depth + 1, o.fields[k], known);
        }
    }
  }

  lemma {:induction false} KeptBy(h: map<Id, Obj>, r: Rules, of: Id, entries: seq<Entry>, fields: map<string, Out>,
                                  k: string) returns (i: nat)
    requires At(h, of).Plain? && entries == Front(At(h, of).entries, MAX_BREADTH)
    requires KeysKept(r, entries, fields) && k in fields
    ensures i < |entries| && LastUnder(r, entries, k, i) && CleanKey(h, r, of, k)
  {
    hide LastUnder, Writes;
    i :| LastUnder(r, entries, k, i);
    LastIsWithin(r, entries, k, i);
    assert At(h, of).entries[i] == entries[i];
  }

  lemma {:induction false} EntryFits(h: map<Id, Obj>, r: Rules, e: Entry, depth: nat, o: Out, known: set<Id>)
    requires EntryShows(h, r, e, depth, o, known) && depth <= MAX_DEPTH
    ensures Fit(h, r, o, MAX_DEPTH - depth)
    decreases o, 1
  {
    hide Redact, Shows;
    if Sensitive(r, e) {
    } else if UrlText(r, e) {
      assert StripUrl(r, e.value.s) == Redact(r, e.value.s[..QueryAt(e.value.s)]);
    } else {
      ShownFits(h, r, e.value, depth, o, known);
    }
  }

  // Whatever the graph, a result is fit to leave.
  lemma {:induction false} ResultsFit(h: map<Id, Obj>, r: Rules, v: Value, depth: nat, seen: set<Id>)
    requires depth <= MAX_DEPTH
    ensures Fit(h, r, Scrub(h, r, v, depth, seen).0, MAX_DEPTH - depth)
  {
    hide Scrub, Shows, Fit;
    var (o, after) := Scrub(h, r, v, depth, seen);
    ResultShows(h, r, v, depth, seen, after);
    ShownFits(h, r, v, depth, o, after);
  }

  // ------------------------------------------------------------------ what counts as circular

  // No two entries of an object are kept under one key.
  ghost predicate KeysApart(h: map<Id, Obj>, r: Rules) {
    forall id :: At(h, id).Plain? ==> EntriesApart(r, Front(At(h, id).entries, MAX_BREADTH))
  }

  ghost predicate EntriesApart(r: Rules, entries: seq<Entry>) {
    forall i, j :: 0 <= i < j < |entries| && !Dropped(r, entries[i]) && !Dropped(r, entries[j]) ==>
      OutKey(r, entries[i]) != OutKey(r, entries[j])
  }

  function MadeOf(outs: seq<Out>): set<Id> {
    set i, x | 0 <= i < |outs| && x in Made(outs[i]) :: x
  }

  function MadeIn(fields: map<string, Out>): set<Id> {
    set k, x | k in fields && x in Made(fields[k]) :: x
  }

  // Where no key overwrites another, the objects seen in the end are those seen before and those expanded: an object
  // marked as circular has its copy elsewhere in the result, or was seen before.
  lemma {:induction false} SeenAreMade(h: map<Id, Obj>, r: Rules, v: Value, depth: nat, seen: set<Id>)
    requires KeysApart(h, r)
    ensures var (o, after) := Scrub(h, r, v, depth, seen); after == seen + Made(o)
    decreases MAX_DEPTH - depth, 0
  {
    hide Redact, ErrorText, EntriesApart;
    if v.Ref? && !At(h, v.id).Date? && depth < MAX_DEPTH && v.id !in seen {
      match At(h, v.id)
      case Array(items) =>
        ItemsSeen(h, r, Front(items, MAX_BREADTH), depth + 1, seen + {v.id});
      case Error(_, _) =>
      case Plain(entries) =>
        FieldsSeen(h, r, Front(entries, MAX_BREADTH), depth + 1, seen + {v.id});
    }
  }

  lemma {:induction false} ItemsSeen(h: map<Id, Obj>, r: Rules, items: seq<Value>, depth: nat, seen: set<Id>)
    requires KeysApart(h, r) && depth <= MAX_DEPTH
    ensures var (outs, after) := ScrubItems(h, r, items, depth, seen); after == seen + MadeOf(outs)
    decreases MAX_DEPTH - depth, 1, |items|
  {
    hide Scrub, Made, KeysApart;
    if items != [] {
      var n := |items| - 1;
      var (outs, mid) := ScrubItems(h, r, items[..n], depth, seen);
      var (out, after) := Scrub(h, r, items[n], depth, mid);
      ItemsSeen(h, r, items[..n], depth, seen);
      SeenAreMade(h, r, items[n], depth, mid);
      MadeOfMore(outs, out);
    }
  }

  lemma {:induction false} MadeOfMore(outs: seq<Out>, o: Out)
    ensures MadeOf(outs + [o]) == MadeOf(outs) + Made(o)
  {
    hide Made;
    var all := outs + [o];
    forall x
      ensures x in MadeOf(all) <==> x in MadeOf(outs) + Made(o)
    {
      if x in MadeOf(outs) {
        var i :| 0 <= i < |outs| && x in Made(outs[i]);
        assert all[i] == outs[i];
      }
      assert all[|outs|] == o;
    }
  }

  lemma {:induction false} FieldsSeen(h: map<Id, Obj>, r: Rules, entries: seq<Entry>, depth: nat, seen: set<Id>)
    requires KeysApart(h, r) && EntriesApart(r, entries) && depth <= MAX_DEPTH
    ensures var (fields, after) := ScrubEntries(h, r, entries, depth, seen); after == seen + MadeIn(fields)
    decreases MAX_DEPTH - depth, 1, |entries|
  {
    hide Scrub, Made, KeysApart, OutKey, Dropped, Sensitive, UrlText, MadeIn, EntriesApart;
    if entries == [] {
      NothingMade();
    } else {
      var n := |entries| - 1;
      var e := entries[n];
      var (fields, mid) := ScrubEntries(h, r, entries[..n], depth, seen);
      FewerApart(r, entries);
      FieldsSeen(h, r, entries[..n], depth, seen);
      SeenAreMade(h, r, e.value, depth, mid);
      if !Dropped(r, e) {
        NewKey(h, r, entries, depth, seen);
        MadeInMore(fields, OutKey(r, e), ScrubEntries(h, r, entries, depth, seen).0[OutKey(r, e)]);
        TextMakesNothing(FILTERED);
        if UrlText(r, e) {
          UrlIsText(r, e);
          TextMakesNothing(StripUrl(r, e.value.s));
        }
      }
    }
  }

  lemma {:induction false} NothingMade()
    ensures MadeIn(map[]) == {}
  {
  }

  lemma {:induction false} FewerApart(r: Rules, entries: seq<Entry>)
    requires entries != [] && EntriesApart(r, entries)
    ensures EntriesApart(r, entries[..|entries| - 1])
  {
    hide OutKey, Dropped;
  }

  lemma {:induction false} NewKey(h: map<Id, Obj>, r: Rules, entries: seq<Entry>, depth: nat, seen: set<Id>)
    requires entries != [] && EntriesApart(r, entries) && depth <= MAX_DEPTH
    requires !Dropped(r, entries[|entries| - 1])
    ensures var n := |entries| - 1; var k := OutKey(r, entries[n]);
            && k !in ScrubEntries(h, r, entries[..n], depth, seen).0
            && k in ScrubEntries(h, r, entries, depth, seen).0
  {
    hide OutKey, Dropped, ScrubEntries;
    var n := |entries| - 1;
    var k, init := OutKey(r, entries[n]), entries[..n];
    KeysOfARecord(h, r, init, depth, seen, k);
    OneEntry(h, r, entries, depth, seen, k);
    forall i: nat
      ensures !LastUnder(r, init, k, i)
    {
      if i < n {
        assert init[i] == entries[i];
      }
    }
  }

  lemma {:induction false} MadeInMore(fields: map<string, Out>, k: string, o: Out)
    requires k !in fields
    ensures MadeIn(fields[k := o]) == MadeIn(fields) + Made(o)
  {
    hide Made;
    var all := fields[k := o];
    forall x
      ensures x in MadeIn(all) <==> x in MadeIn(fields) + Made(o)
    {
      if x in MadeIn(fields) {
        var l :| l in fields && x in Made(fields[l]);
        assert all[l] == fields[l];
      }
      assert all[k] == o;
    }
  }

  // ------------------------------------------------------------------ what a result does not depend on

  // Two values a scrubbing cannot tell apart: strings only by what is left of them.
  predicate Alike(r: Rules, a: Value, b: Value) {
    a == b || (a.Str? && b.Str? && Redact(r, a.s) == Redact(r, b.s))
  }

  // Under a dropped or sensitive key any two values are alike; under a URL key two texts that differ after the first
  // question mark or number sign are.
  predicate EntriesAlike(r: Rules, a: Entry, b: Entry) {
    && a.key == b.key
    && (|| Dropped(r, a) || Sensitive(r, a)
        || (UrlText(r, a) && UrlText(r, b) && StripUrl(r, a.value.s) == StripUrl(r, b.value.s))
        || (Alike(r, a.value, b.value) && !UrlText(r, a)))
  }

  predicate ObjAlike(r: Rules, a: Obj, b: Obj) {
    match (a, b)
    case (Date(t), Date(u)) => t == u
    case (Array(x), Array(y)) =>
      var s, t := Front(x, MAX_BREADTH), Front(y, MAX_BREADTH);
      |s| == |t| && forall i :: 0 <= i < |s| ==> Alike(r, s[i], t[i])
    case (Error(n, m), Error(n', m')) => Front(n, 128) == Front(n', 128) && Redact(r, m) == Redact(r, m')
    case (Plain(x), Plain(y)) =>
      var s, t := Front(x, MAX_BREADTH), Front(y, MAX_BREADTH);
      |s| == |t| && forall i :: 0 <= i < |s| ==> EntriesAlike(r, s[i], t[i])
    case _ => false
  }

  ghost predicate HeapsAlike(r: Rules, h: map<Id, Obj>, g: map<Id, Obj>) {
    forall id :: ObjAlike(r, At(h, id), At(g, id))
  }

  // Values under sensitive or dropped keys, queries and fragments of URLs, places past the first thousand and what
  // redaction takes out of strings have no influence on the result at all; and the result holds no object of the graph
  // through which they could be read, dates excepted, which are the same in both.
  lemma {:induction false} NothingElseGetsOut(h: map<Id, Obj>, g: map<Id, Obj>, r: Rules, a: Value, b: Value,
                                              depth: nat, seen: set<Id>)
    requires HeapsAlike(r, h, g) && Alike(r, a, b)
    ensures Scrub(h, r, a, depth, seen) == Scrub(g, r, b, depth, seen)
    ensures depth <= MAX_DEPTH ==> Fit(h, r, Scrub(h, r, a, depth, seen).0, MAX_DEPTH - depth)
    decreases MAX_DEPTH - depth, 0
  {
    hide Redact, HeapsAlike, Alike, EntriesAlike, Fit;
    AlikeKinds(r, a, b);
    if depth <= MAX_DEPTH {
      ResultsFit(h, r, a, depth, seen);
    }
    if a.Ref? {
      ObjectsAlike(r, h, g, a.id);
      if !At(h, a.id).Date? && depth < MAX_DEPTH && a.id !in seen {
        match At(h, a.id)
        case Array(items) =>
          var others := Front(At(g, a.id).items, MAX_BREADTH);
          ItemsIgnore(h, g, r, Front(items, MAX_BREADTH), others, depth + 1, seen + {a.id});
        case Error(_, _) =>
        case Plain(entries) =>
          var others := Front(At(g, a.id).entries, MAX_BREADTH);
          FieldsIgnore(h, g, r, Front(entries, MAX_BREADTH), others, depth + 1, seen + {a.id});
      }
    }
  }

  lemma {:induction false} AlikeKinds(r: Rules, a: Value, b: Value)
    requires Alike(r, a, b)
    ensures a == b || (a.Str? && b.Str? && Redact(r, a.s) == Redact(r, b.s))
  {
  }

  lemma {:induction false} ObjectsAlike(r: Rules, h: map<Id, Obj>, g: map<Id, Obj>, id: Id)
    requires HeapsAlike(r, h, g)
    ensures ObjAlike(r, At(h, id), At(g, id))
  {
  }

  lemma {:induction false} ItemsIgnore(h: map<Id, Obj>, g: map<Id, Obj>, r: Rules, a: seq<Value>, b: seq<Value>,
                                       depth: nat, seen: set<Id>)
    requires HeapsAlike(r, h, g) && depth <= MAX_DEPTH
    requires |a| == |b| && forall i :: 0 <= i < |a| ==> Alike(r, a[i], b[i])
    ensures ScrubItems(h, r, a, depth, seen) == ScrubItems(g, r, b, depth, seen)
    decreases MAX_DEPTH - depth, 1, |a|
  {
    hide Scrub, HeapsAlike, Alike;
    if a != [] {
      var n := |a| - 1;
      ItemsIgnore(h, g, r, a[..n], b[..n], depth, seen);
      NothingElseGetsOut(h, g, r, a[n], b[n], depth, ScrubItems(h, r, a[..n], depth, seen).1);
    }
  }

  lemma {:induction false} FieldsIgnore(h: map<Id, Obj>, g: map<Id, Obj>, r: Rules, a: seq<Entry>, b: seq<Entry>,
                                        depth: nat, seen: set<Id>)
    requires HeapsAlike(r, h, g) && depth <= MAX_DEPTH
    requires |a| == |b| && forall i :: 0 <= i < |a| ==> EntriesAlike(r, a[i], b[i])
    ensures ScrubEntries(h, r, a, depth, seen) == ScrubEntries(g, r, b, depth, seen)
    decreases MAX_DEPTH - depth, 1, |a|
  {
    hide Scrub, HeapsAlike, Alike, Redact, StripUrl;
    if a != [] {
      var n := |a| - 1;
      FieldsIgnore(h, g, r, a[..n], b[..n], depth, seen);
      var e := a[n];
      assert EntriesAlike(r, e, b[n]) && KeyOf(e) == KeyOf(b[n]);
      if !Dropped(r, e) && !Sensitive(r, e) && Alike(r, e.value, b[n].value) {
        AlikeKinds(r, e.value, b[n].value);
        NothingElseGetsOut(h, g, r, e.value, b[n].value, depth, ScrubEntries(h, r, a[..n], depth, seen).1);
      }
    }
  }
}
