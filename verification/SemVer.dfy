// semver_key() of image_gate.py: the version pattern, the sort key and the order of Python tuples.

module SemVer {
  import opened Options
  import opened Decimals

  // ------------------------------------------------------------------ the pattern

  // [0-9], or [0-9A-Za-z.-].
  predicate InClass(c: char, wide: bool) {
    IsDigit(c) || (wide && ('A' <= c <= 'Z' || 'a' <= c <= 'z' || c == '.' || c == '-'))
  }

  predicate AllIn(s: string, wide: bool) {
    forall i :: 0 <= i < |s| ==> InClass(s[i], wide)
  }

  // The length of the longest front of s in the class.
  function Span(s: string, wide: bool): (n: nat)
    ensures n <= |s|
  {
    if s != "" && InClass(s[0], wide) then 1 + Span(s[1..], wide) else 0
  }

  // The groups of a match.
  datatype Parts = Parts(v: bool, major: string, minor: string, patch: string, pre: Option<string>,
                         build: Option<string>)

  function MatchBuild(s: string): Option<Option<string>> {
    if s == "" then Some(None)
    else if s[0] == '+' && |s| > 1 && Span(s[1..], true) == |s| - 1 then Some(Some(s[1..])) else None
  }

  function MatchPre(s: string): Option<(Option<string>, Option<string>)> {
    if s != "" && s[0] == '-' then
      var n := Span(s[1..], true);
      var build := MatchBuild(s[1..][n..]);
      if n == 0 || build.None? then None else Some((Some(s[1..][..n]), build.value))
    else
      var build := MatchBuild(s);
      if build.None? then None else Some((None, build.value))
  }

  function MatchPatch(s: string, v: bool, major: string, minor: string): Option<Parts> {
    var n := Span(s, false);
    var tail := MatchPre(s[n..]);
    if n == 0 || tail.None? then None else Some(Parts(v, major, minor, s[..n], tail.value.0, tail.value.1))
  }

  function MatchMinor(s: string, v: bool, major: string): Option<Parts> {
    var n := Span(s, false);
    if n == 0 || n == |s| || s[n] != '.' then None else MatchPatch(s[n + 1..], v, major, s[..n])
  }

  function MatchMajor(s: string, v: bool): Option<Parts> {
    var n := Span(s, false);
    if n == 0 || n == |s| || s[n] != '.' then None else MatchMinor(s[n + 1..], v, s[..n])
  }

  function Match(s: string): Option<Parts> {
    if s != "" && s[0] == 'v' then MatchMajor(s[1..], true) else MatchMajor(s, false)
  }

  // The language of the pattern.
  predicate Admitted(m: Parts) {
    && m.major != "" && AllDigits(m.major) && m.minor != "" && AllDigits(m.minor) && m.patch != "" && AllDigits(m.patch)
    && (m.pre.Some? ==> m.pre.value != "" && AllIn(m.pre.value, true))
    && (m.build.Some? ==> m.build.value != "" && AllIn(m.build.value, true))
  }

  function BuildText(build: Option<string>): string {
    if build.Some? then "+" + build.value else ""
  }

  function PreText(pre: Option<string>, build: Option<string>): string {
    (if pre.Some? then "-" + pre.value else "") + BuildText(build)
  }

  function CoreText(m: Parts): string {
    m.major + ("." + (m.minor + ("." + (m.patch + PreText(m.pre, m.build)))))
  }

  function PartsText(m: Parts): string {
    if m.v then "v" + CoreText(m) else CoreText(m)
  }

  lemma {:induction false} SpanStops(a: string, rest: string, wide: bool)
    requires AllIn(a, wide) && (rest != "" ==> !InClass(rest[0], wide))
    ensures Span(a + rest, wide) == |a| && (a + rest)[..|a|] == a && (a + rest)[|a|..] == rest
    decreases |a|
  {
    if a == "" {
      assert a + rest == rest;
    } else {
      assert (a + rest)[1..] == a[1..] + rest;
      SpanStops(a[1..], rest, wide);
    }
  }

  lemma {:induction false} SpanIn(s: string, wide: bool)
    ensures AllIn(s[..Span(s, wide)], wide)
    ensures var n := Span(s, wide); n < |s| ==> !InClass(s[n], wide)
    decreases |s|
  {
    if s != "" && InClass(s[0], wide) {
      SpanIn(s[1..], wide);
      var n := Span(s, wide);
      assert s[..n] == [s[0]] + s[1..][..n - 1];
    }
  }

  lemma {:induction false} BuildMatches(build: Option<string>)
    requires build.Some? ==> build.value != "" && AllIn(build.value, true)
    ensures MatchBuild(BuildText(build)) == Some(build)
  {
    if build.Some? {
      assert BuildText(build)[1..] == build.value;
      SpanStops(build.value, "", true);
      assert build.value + "" == build.value;
    }
  }

  lemma {:induction false} PreMatches(pre: Option<string>, build: Option<string>)
    requires pre.Some? ==> pre.value != "" && AllIn(pre.value, true)
    requires build.Some? ==> build.value != "" && AllIn(build.value, true)
    ensures MatchPre(PreText(pre, build)) == Some((pre, build))
  {
    hide Span, MatchBuild;
    BuildMatches(build);
    var tail := BuildText(build);
    if pre.Some? {
      assert PreText(pre, build)[1..] == pre.value + tail;
      SpanStops(pre.value, tail, true);
    } else {
      assert PreText(pre, build) == tail;
    }
  }

  lemma {:induction false} DigitsAreIn(s: string)
    ensures AllDigits(s) <==> AllIn(s, false)
  {
  }

  lemma {:induction false} NumberStops(a: string, rest: string)
    requires a != "" && AllDigits(a)
    ensures var s := a + ("." + rest);
            && Span(s, false) == |a| < |s| && s[|a|] == '.' && s[..|a|] == a && s[|a| + 1..] == rest
  {
    hide Span;
    DigitsAreIn(a);
    SpanStops(a, "." + rest, false);
    assert (a + ("." + rest))[|a| + 1..] == rest;
  }

  lemma {:induction false} PatchMatches(m: Parts)
    requires Admitted(m)
    ensures MatchPatch(m.patch + PreText(m.pre, m.build), m.v, m.major, m.minor) == Some(m)
  {
    hide Span, MatchPre, PreText, AllIn, AllDigits;
    DigitsAreIn(m.patch);
    PreMatches(m.pre, m.build);
    PreTextStart(m.pre, m.build);
    SpanStops(m.patch, PreText(m.pre, m.build), false);
  }

  lemma {:induction false} CoreMatches(m: Parts)
    requires Admitted(m)
    ensures MatchMajor(CoreText(m), m.v) == Some(m)
  {
    hide Span, MatchPatch, PreText, AllIn, AllDigits;
    PatchMatches(m);
    var t := m.patch + PreText(m.pre, m.build);
    NumberStops(m.minor, t);
    NumberStops(m.major, m.minor + ("." + t));
  }

  // A text of the language matches, and its groups are the ones it was put together from.
  lemma {:induction false} AdmittedMatches(m: Parts)
    requires Admitted(m)
    ensures Match(PartsText(m)) == Some(m)
  {
    hide MatchMajor, PreText;
    CoreMatches(m);
    if m.v {
      assert PartsText(m)[1..] == CoreText(m);
    } else {
      assert CoreText(m)[0] == m.major[0];
    }
  }

  lemma {:induction false} PreTextStart(pre: Option<string>, build: Option<string>)
    ensures var t := PreText(pre, build); t != "" ==> !InClass(t[0], false)
  {
  }

  lemma {:induction false} MatchedBuild(s: string)
    requires MatchBuild(s).Some?
    ensures var b := MatchBuild(s).value; s == BuildText(b) && (b.Some? ==> b.value != "" && AllIn(b.value, true))
  {
    if s != "" {
      SpanIn(s[1..], true);
      assert s[1..][..|s| - 1] == s[1..];
    }
  }

  lemma {:induction false} MatchedPre(s: string)
    requires MatchPre(s).Some?
    ensures var (p, b) := MatchPre(s).value;
            && s == PreText(p, b)
            && (p.Some? ==> p.value != "" && AllIn(p.value, true))
            && (b.Some? ==> b.value != "" && AllIn(b.value, true))
  {
    hide Span, MatchBuild, AllIn;
    if s != "" && s[0] == '-' {
      var n := Span(s[1..], true);
      SpanIn(s[1..], true);
      MatchedBuild(s[1..][n..]);
      assert s == "-" + s[1..][..n] + s[1..][n..];
    } else {
      MatchedBuild(s);
      var b := MatchPre(s).value.1;
      assert PreText(None, b) == BuildText(b);
    }
  }

  lemma {:induction false} MatchedNumber(s: string)
    ensures AllDigits(s[..Span(s, false)]) && s == s[..Span(s, false)] + s[Span(s, false)..]
  {
    SpanIn(s, false);
    DigitsAreIn(s[..Span(s, false)]);
  }

  lemma {:induction false} MatchedPatch(s: string, v: bool, major: string, minor: string)
    requires MatchPatch(s, v, major, minor).Some?
    ensures var m := MatchPatch(s, v, major, minor).value;
            && m.v == v && m.major == major && m.minor == minor && s == m.patch + PreText(m.pre, m.build)
            && m.patch != "" && AllDigits(m.patch)
            && (m.pre.Some? ==> m.pre.value != "" && AllIn(m.pre.value, true))
            && (m.build.Some? ==> m.build.value != "" && AllIn(m.build.value, true))
  {
    hide Span, MatchPre, AllDigits, AllIn, PreText;
    MatchedNumber(s);
    MatchedPre(s[Span(s, false)..]);
  }

  lemma {:induction false} MatchedMinor(s: string, v: bool, major: string)
    requires MatchMinor(s, v, major).Some?
    ensures var m := MatchMinor(s, v, major).value;
            && m.v == v && m.major == major && s == m.minor + ("." + (m.patch + PreText(m.pre, m.build)))
            && m.minor != "" && AllDigits(m.minor) && m.patch != "" && AllDigits(m.patch)
            && (m.pre.Some? ==> m.pre.value != "" && AllIn(m.pre.value, true))
            && (m.build.Some? ==> m.build.value != "" && AllIn(m.build.value, true))
  {
    hide Span, MatchPatch, AllDigits, AllIn, PreText;
    var n := Span(s, false);
    MatchedNumber(s);
    MatchedPatch(s[n + 1..], v, major, s[..n]);
    assert s[n..] == "." + s[n + 1..];
  }

  lemma {:induction false} MatchedCore(s: string, v: bool)
    requires MatchMajor(s, v).Some?
    ensures var m := MatchMajor(s, v).value; m.v == v && Admitted(m) && s == CoreText(m)
  {
    hide Span, MatchMinor, AllDigits, AllIn, PreText;
    var n := Span(s, false);
    MatchedNumber(s);
    MatchedMinor(s[n + 1..], v, s[..n]);
    assert s[n..] == "." + s[n + 1..];
  }

  // The pattern matches exactly the texts of its language.
  lemma {:induction false} MatchExactly(s: string)
    ensures Match(s).Some? <==> exists m :: Admitted(m) && PartsText(m) == s
    ensures Match(s).Some? ==> Admitted(Match(s).value) && PartsText(Match(s).value) == s
  {
    hide MatchMajor, Admitted, CoreText;
    if Match(s).Some? {
      if s != "" && s[0] == 'v' {
        MatchedCore(s[1..], true);
        assert s == "v" + s[1..];
      } else {
        MatchedCore(s, false);
      }
    }
    forall m | Admitted(m) && PartsText(m) == s
      ensures Match(s).Some?
    {
      AdmittedMatches(m);
    }
  }

  // ------------------------------------------------------------------ the key

  // (0, int(p), '') or (1, 0, p)
  datatype IdKey = IdKey(kind: int, num: int, text: string)
  datatype Key = Key(major: int, minor: int, patch: int, release: int, ids: seq<IdKey>)

  predicate IsSpace(c: char) {
    var n := c as int;
    9 <= n <= 13 || 28 <= n <= 32
  }

  predicate Blank(w: string) {
    forall i :: 0 <= i < |w| ==> IsSpace(w[i])
  }

  function StripLeft(s: string): string {
    if s != "" && IsSpace(s[0]) then StripLeft(s[1..]) else s
  }

  function StripRight(s: string): string {
    if s != "" && IsSpace(s[|s| - 1]) then StripRight(s[..|s| - 1]) else s
  }

  // pre.split('.')
  function SplitDots(s: string): (parts: seq<string>)
    ensures parts != []
  {
    if s == "" then [""]
    else
      var rest := SplitDots(s[1..]);
      if s[0] == '.' then [""] + rest else [[s[0]] + rest[0]] + rest[1..]
  }

  function IdKeyOf(p: string): IdKey {
    if p != "" && AllDigits(p) then IdKey(0, Dec(p), "") else IdKey(1, 0, p)
  }

  function IdKeys(parts: seq<string>): (k: seq<IdKey>)
    ensures |k| == |parts|
  {
    seq(|parts|, i requires 0 <= i < |parts| => IdKeyOf(parts[i]))
  }

  // None is the ValueError. What the pattern matched is always admitted (MatchExactly).
  function SemverKey(v: string): Option<Key> {
    var m := Match(StripRight(StripLeft(v)));
    if m.None? || !Admitted(m.value) then None
    else
      var Parts(_, major, minor, patch, pre, _) := m.value;
      Some(if pre.None? then Key(Dec(major), Dec(minor), Dec(patch), 1, [])
           else Key(Dec(major), Dec(minor), Dec(patch), 0, IdKeys(SplitDots(pre.value))))
  }

  // ------------------------------------------------------------------ comparing tuples

  datatype Order = Lt | Eq | Gt

  function CompareInt(a: int, b: int): Order {
    if a < b then Lt else if a == b then Eq else Gt
  }

  // The first component that differs decides.
  function Then(o: Order, next: Order): Order {
    if o == Eq then next else o
  }

  function CompareText(a: string, b: string): Order {
    if a == "" then (if b == "" then Eq else Lt)
    else if b == "" then Gt
    else Then(CompareInt(a[0] as int, b[0] as int), CompareText(a[1..], b[1..]))
  }

  function CompareId(a: IdKey, b: IdKey): Order {
    Then(CompareInt(a.kind, b.kind), Then(CompareInt(a.num, b.num), CompareText(a.text, b.text)))
  }

  function CompareIds(a: seq<IdKey>, b: seq<IdKey>): Order {
    if a == [] then (if b == [] then Eq else Lt)
    else if b == [] then Gt
    else Then(CompareId(a[0], b[0]), CompareIds(a[1..], b[1..]))
  }

  function Compare(a: Key, b: Key): Order {
    Then(CompareInt(a.major, b.major),
         Then(CompareInt(a.minor, b.minor),
              Then(CompareInt(a.patch, b.patch),
                   Then(CompareInt(a.release, b.release), CompareIds(a.ids, b.ids)))))
  }

  function Flip(o: Order): Order {
    match o
    case Lt => Gt
    case Eq => Eq
    case Gt => Lt
  }

  lemma {:induction false} CompareTextFlips(a: string, b: string)
    ensures CompareText(b, a) == Flip(CompareText(a, b))
    ensures CompareText(a, b) == Eq <==> a == b
    decreases |a|
  {
    if a != "" && b != "" {
      CompareTextFlips(a[1..], b[1..]);
      assert a == [a[0]] + a[1..] && b == [b[0]] + b[1..];
    }
  }

  lemma {:induction false} CompareIdsFlips(a: seq<IdKey>, b: seq<IdKey>)
    ensures CompareIds(b, a) == Flip(CompareIds(a, b))
    ensures CompareIds(a, b) == Eq <==> a == b
    decreases |a|
  {
    hide CompareText;
    if a != [] && b != [] {
      CompareTextFlips(a[0].text, b[0].text);
      CompareIdsFlips(a[1..], b[1..]);
      assert a == [a[0]] + a[1..] && b == [b[0]] + b[1..];
    }
  }

  lemma {:induction false} CompareTextChains(a: string, b: string, c: string)
    requires CompareText(a, b) != Gt && CompareText(b, c) != Gt
    ensures CompareText(a, c) == Then(CompareText(a, b), CompareText(b, c))
    decreases |a|
  {
    if a != "" && b != "" && c != "" && a[0] == b[0] == c[0] {
      CompareTextChains(a[1..], b[1..], c[1..]);
    }
  }

  lemma {:induction false} CompareIdChains(a: IdKey, b: IdKey, c: IdKey)
    requires CompareId(a, b) != Gt && CompareId(b, c) != Gt
    ensures CompareId(a, c) == Then(CompareId(a, b), CompareId(b, c))
  {
    hide CompareText;
    if a.kind == b.kind == c.kind && a.num == b.num == c.num {
      CompareTextChains(a.text, b.text, c.text);
    }
  }

  lemma {:induction false} CompareIdsChain(a: seq<IdKey>, b: seq<IdKey>, c: seq<IdKey>)
    requires CompareIds(a, b) != Gt && CompareIds(b, c) != Gt
    ensures CompareIds(a, c) == Then(CompareIds(a, b), CompareIds(b, c))
    decreases |a|
  {
    hide CompareId;
    if a != [] && b != [] && c != [] {
      CompareIdChains(a[0], b[0], c[0]);
      if CompareId(a[0], b[0]) == Eq == CompareId(b[0], c[0]) {
        CompareIdsChain(a[1..], b[1..], c[1..]);
      }
    }
  }

  // Keys are in one total order: any two compare one way, equal only when they are the same, and transitively.
  lemma {:induction false} KeysAreOrdered(a: Key, b: Key, c: Key)
    ensures Compare(b, a) == Flip(Compare(a, b)) && (Compare(a, b) == Eq <==> a == b)
    ensures Compare(a, b) != Gt && Compare(b, c) != Gt ==> Compare(a, c) == Then(Compare(a, b), Compare(b, c))
  {
    hide CompareIds;
    CompareIdsFlips(a.ids, b.ids);
    if CompareIds(a.ids, b.ids) != Gt && CompareIds(b.ids, c.ids) != Gt {
      CompareIdsChain(a.ids, b.ids, c.ids);
    }
  }

  // ------------------------------------------------------------------ section 11 of Semantic Versioning 2.0.0

  datatype Ident = Numeric(n: nat) | Alpha(s: string)
  datatype Version = Version(major: nat, minor: nat, patch: nat, pre: seq<Ident>, build: Option<string>)

  // Letters, digits and hyphens, not digits alone.
  predicate ValidIdent(id: Ident) {
    id.Alpha? ==> AllIn(id.s, true) && '.' !in id.s && id.s != "" && !AllDigits(id.s)
  }

  predicate ValidVersion(v: Version) {
    && (forall i :: 0 <= i < |v.pre| ==> ValidIdent(v.pre[i]))
    && (v.build.Some? ==> v.build.value != "" && AllIn(v.build.value, true))
  }

  function IdentText(id: Ident): string {
    if id.Numeric? then Numeral(id.n) else id.s
  }

  function JoinDots(ids: seq<Ident>): string
    requires ids != []
  {
    IdentText(ids[0]) + if |ids| == 1 then "" else "." + JoinDots(ids[1..])
  }

  function VersionParts(v: Version): Parts {
    Parts(false, Numeral(v.major), Numeral(v.minor), Numeral(v.patch),
          if v.pre == [] then None else Some(JoinDots(v.pre)), v.build)
  }

  function VersionText(v: Version): string {
    PartsText(VersionParts(v))
  }

  // a is lower than b by what comes at place i.
  predicate TextLowerAt(a: string, b: string, i: nat) {
    i <= |a| && i < |b| && a[..i] == b[..i] && (i == |a| || a[i] < b[i])
  }

  // Alphanumeric identifiers are compared in ASCII order.
  ghost predicate TextLower(a: string, b: string) {
    exists i: nat :: TextLowerAt(a, b, i)
  }

  ghost predicate IdentLower(a: Ident, b: Ident) {
    match (a, b)
    case (Numeric(m), Numeric(n)) => m < n
    case (Numeric(_), Alpha(_)) => true
    case (Alpha(_), Numeric(_)) => false
    case (Alpha(s), Alpha(t)) => TextLower(s, t)
  }

  ghost predicate PreLowerAt(a: seq<Ident>, b: seq<Ident>, i: nat) {
    i <= |a| && i < |b| && a[..i] == b[..i] && (i == |a| || IdentLower(a[i], b[i]))
  }

  // The first identifiers that differ decide; a longer list is higher when all the shorter one's are equal.
  ghost predicate PreLower(a: seq<Ident>, b: seq<Ident>) {
    exists i: nat :: PreLowerAt(a, b, i)
  }

  ghost predicate Precedes(v: Version, w: Version) {
    || v.major < w.major
    || (v.major == w.major && v.minor < w.minor)
    || (v.major == w.major && v.minor == w.minor && v.patch < w.patch)
    || (&& v.major == w.major && v.minor == w.minor && v.patch == w.patch
        && v.pre != [] && (w.pre == [] || PreLower(v.pre, w.pre)))
  }

  function IdentKey(id: Ident): IdKey {
    if id.Numeric? then IdKey(0, id.n, "") else IdKey(1, 0, id.s)
  }

  function IdentKeys(ids: seq<Ident>): (k: seq<IdKey>)
    ensures |k| == |ids|
  {
    seq(|ids|, i requires 0 <= i < |ids| => IdentKey(ids[i]))
  }

  function KeyOf(v: Version): Key {
    Key(v.major, v.minor, v.patch, if v.pre == [] then 1 else 0, IdentKeys(v.pre))
  }

  lemma {:induction false} SplitPart(a: string, rest: string)
    requires '.' !in a
    ensures SplitDots(a) == [a]
    ensures SplitDots(a + ("." + rest)) == [a] + SplitDots(rest)
    decreases |a|
  {
    if a == "" {
      assert (a + ("." + rest))[1..] == rest && a + ("." + rest) == "." + rest;
    } else {
      assert (a + ("." + rest))[1..] == a[1..] + ("." + rest);
      SplitPart(a[1..], rest);
      assert a == [a[0]] + a[1..];
      assert ([a[1..]] + SplitDots(rest))[1..] == SplitDots(rest);
    }
  }

  lemma {:induction false} IdentReads(id: Ident)
    requires ValidIdent(id)
    ensures '.' !in IdentText(id) && IdentText(id) != "" && AllIn(IdentText(id), true)
    ensures IdKeyOf(IdentText(id)) == IdentKey(id)
  {
  }

  lemma {:induction false} JoinedReads(ids: seq<Ident>)
    requires ids != [] && forall i :: 0 <= i < |ids| ==> ValidIdent(ids[i])
    ensures IdKeys(SplitDots(JoinDots(ids))) == IdentKeys(ids)
    ensures JoinDots(ids) != "" && AllIn(JoinDots(ids), true)
    decreases |ids|
  {
    hide IdKeyOf, IdentKey, IdentText, ValidIdent, SplitDots;
    var first := IdentText(ids[0]);
    IdentReads(ids[0]);
    if |ids| == 1 {
      SplitPart(first, "");
      assert JoinDots(ids) == first;
    } else {
      var rest := JoinDots(ids[1..]);
      JoinedReads(ids[1..]);
      SplitPart(first, rest);
      assert IdKeys([first] + SplitDots(rest)) == [IdKeyOf(first)] + IdKeys(SplitDots(rest));
      assert IdentKeys(ids) == [IdentKey(ids[0])] + IdentKeys(ids[1..]);
    }
  }

  lemma {:induction false} StripsBlank(before: string, s: string, after: string)
    requires Blank(before) && Blank(after) && s != "" && !IsSpace(s[0]) && !IsSpace(s[|s| - 1])
    ensures StripRight(StripLeft(before + (s + after))) == s
  {
    StripsLeft(before, s + after);
    StripsRight(s, after);
  }

  lemma {:induction false} StripsLeft(w: string, s: string)
    requires Blank(w) && s != "" && !IsSpace(s[0])
    ensures StripLeft(w + s) == s
    decreases |w|
  {
    if w == "" {
      assert w + s == s;
    } else {
      assert (w + s)[1..] == w[1..] + s;
      StripsLeft(w[1..], s);
    }
  }

  lemma {:induction false} StripsRight(s: string, w: string)
    requires Blank(w) && s != "" && !IsSpace(s[|s| - 1])
    ensures StripRight(s + w) == s
    decreases |w|
  {
    if w == "" {
      assert s + w == s;
    } else {
      assert (s + w)[..|s + w| - 1] == s + w[..|w| - 1];
      StripsRight(s, w[..|w| - 1]);
    }
  }

  predicate Visible(s: string) {
    forall i :: 0 <= i < |s| ==> !IsSpace(s[i])
  }

  lemma {:induction false} VisibleAppend(a: string, b: string)
    requires Visible(a) && Visible(b)
    ensures Visible(a + b)
  {
  }

  lemma {:induction false} ClassIsVisible(s: string, wide: bool)
    requires AllIn(s, wide)
    ensures Visible(s)
  {
  }

  // An admitted text has no white space in it.
  lemma {:induction false} AdmittedIsVisible(m: Parts)
    requires Admitted(m)
    ensures PartsText(m) != "" && Visible(PartsText(m))
  {
    hide Visible, AllIn, AllDigits, PreText;
    DigitsAreIn(m.major);
    DigitsAreIn(m.minor);
    DigitsAreIn(m.patch);
    ClassIsVisible(m.major, false);
    ClassIsVisible(m.minor, false);
    ClassIsVisible(m.patch, false);
    PreIsVisible(m.pre, m.build);
    PointsAreVisible();
    VisibleAppend(m.patch, PreText(m.pre, m.build));
    var t := m.patch + PreText(m.pre, m.build);
    VisibleAppend(".", t);
    VisibleAppend(m.minor, "." + t);
    VisibleAppend(".", m.minor + ("." + t));
    VisibleAppend(m.major, "." + (m.minor + ("." + t)));
    VisibleAppend("v", CoreText(m));
  }

  lemma {:induction false} PointsAreVisible()
    ensures Visible(".") && Visible("v") && Visible("-") && Visible("+") && Visible("")
  {
  }

  lemma {:induction false} PreIsVisible(pre: Option<string>, build: Option<string>)
    requires pre.Some? ==> AllIn(pre.value, true)
    requires build.Some? ==> AllIn(build.value, true)
    ensures Visible(PreText(pre, build))
  {
    hide Visible, AllIn;
    PointsAreVisible();
    if build.Some? {
      ClassIsVisible(build.value, true);
      VisibleAppend("+", build.value);
    }
    if pre.Some? {
      ClassIsVisible(pre.value, true);
      VisibleAppend("-", pre.value);
    }
    VisibleAppend(if pre.Some? then "-" + pre.value else "", BuildText(build));
  }

  // The text of a version, with white space around it, has the version's key; the build metadata is not in it.
  lemma {:induction false} VersionReads(v: Version, before: string, after: string)
    requires ValidVersion(v) && Blank(before) && Blank(after)
    ensures SemverKey(before + (VersionText(v) + after)) == Some(KeyOf(v))
  {
    hide PartsText, Match, IdKeys, IdentKeys, SplitDots, AllIn, ValidIdent;
    if v.pre != [] {
      JoinedReads(v.pre);
    }
    var m := VersionParts(v);
    assert Admitted(m);
    AdmittedIsVisible(m);
    StripsBlank(before, PartsText(m), after);
    AdmittedMatches(m);
  }

  lemma {:induction false} TextOrder(a: string, b: string)
    ensures CompareText(a, b) == Lt <==> TextLower(a, b)
    decreases |a|
  {
    if a != "" && b != "" {
      TextOrder(a[1..], b[1..]);
      TextLowerStep(a, b);
    } else if b != "" {
      assert TextLowerAt(a, b, 0);
    }
  }

  lemma {:induction false} TextLowerStep(a: string, b: string)
    requires a != "" && b != ""
    ensures TextLower(a, b) <==> a[0] < b[0] || (a[0] == b[0] && TextLower(a[1..], b[1..]))
  {
    hide TextLowerAt;
    forall i: nat
      ensures TextLowerAt(a, b, i) <==>
              if i == 0 then a[0] < b[0] else a[0] == b[0] && TextLowerAt(a[1..], b[1..], i - 1)
    {
      TextLowerAtStep(a, b, i);
    }
    if a[0] < b[0] {
      assert TextLowerAt(a, b, 0);
    }
    if TextLower(a, b) {
      var i: nat :| TextLowerAt(a, b, i);
    }
    if a[0] == b[0] && TextLower(a[1..], b[1..]) {
      var j: nat :| TextLowerAt(a[1..], b[1..], j);
      assert TextLowerAt(a, b, j + 1);
    }
  }

  lemma {:induction false} TextLowerAtStep(a: string, b: string, i: nat)
    requires a != "" && b != ""
    ensures TextLowerAt(a, b, i) <==> if i == 0 then a[0] < b[0] else a[0] == b[0] && TextLowerAt(a[1..], b[1..], i - 1)
  {
    if 0 < i <= |a| && i < |b| {
      assert a[..i] == [a[0]] + a[1..][..i - 1] && b[..i] == [b[0]] + b[1..][..i - 1];
      assert a[..i][1..] == a[1..][..i - 1] && b[..i][1..] == b[1..][..i - 1] && a[..i][0] == a[0] && b[..i][0] == b[0];
    }
  }

  lemma {:induction false} IdentOrder(a: Ident, b: Ident)
    ensures CompareId(IdentKey(a), IdentKey(b)) == Lt <==> IdentLower(a, b)
    ensures CompareId(IdentKey(a), IdentKey(b)) == Eq <==> a == b
  {
    hide CompareText, TextLower;
    if a.Alpha? && b.Alpha? {
      TextOrder(a.s, b.s);
      CompareTextFlips(a.s, b.s);
    } else {
      CompareTextFlips("", "");
    }
  }

  lemma {:induction false} PreOrder(a: seq<Ident>, b: seq<Ident>)
    ensures CompareIds(IdentKeys(a), IdentKeys(b)) == Lt <==> PreLower(a, b)
    decreases |a|
  {
    hide CompareId, IdentKey, IdentLower;
    var x, y := IdentKeys(a), IdentKeys(b);
    if a != [] && b != [] {
      PreOrder(a[1..], b[1..]);
      IdentOrder(a[0], b[0]);
      assert x[1..] == IdentKeys(a[1..]) && y[1..] == IdentKeys(b[1..]);
      PreLowerStep(a, b);
    } else if b != [] {
      assert PreLowerAt(a, b, 0);
    }
  }

  lemma {:induction false} PreLowerStep(a: seq<Ident>, b: seq<Ident>)
    requires a != [] && b != []
    ensures PreLower(a, b) <==> IdentLower(a[0], b[0]) || (a[0] == b[0] && PreLower(a[1..], b[1..]))
  {
    hide PreLowerAt, IdentLower;
    forall i: nat
      ensures PreLowerAt(a, b, i) <==>
              if i == 0 then IdentLower(a[0], b[0]) else a[0] == b[0] && PreLowerAt(a[1..], b[1..], i - 1)
    {
      PreLowerAtStep(a, b, i);
    }
    if IdentLower(a[0], b[0]) {
      assert PreLowerAt(a, b, 0);
    }
    if PreLower(a, b) {
      var i: nat :| PreLowerAt(a, b, i);
    }
    if a[0] == b[0] && PreLower(a[1..], b[1..]) {
      var j: nat :| PreLowerAt(a[1..], b[1..], j);
      assert PreLowerAt(a, b, j + 1);
    }
  }

  lemma {:induction false} PreLowerAtStep(a: seq<Ident>, b: seq<Ident>, i: nat)
    requires a != [] && b != []
    ensures PreLowerAt(a, b, i) <==>
            if i == 0 then IdentLower(a[0], b[0]) else a[0] == b[0] && PreLowerAt(a[1..], b[1..], i - 1)
  {
    hide IdentLower;
    if 0 < i <= |a| && i < |b| {
      assert a[..i] == [a[0]] + a[1..][..i - 1] && b[..i] == [b[0]] + b[1..][..i - 1];
      assert a[..i][1..] == a[1..][..i - 1] && b[..i][1..] == b[1..][..i - 1] && a[..i][0] == a[0] && b[..i][0] == b[0];
    }
  }

  // Comparing the keys of two written versions is comparing the versions by section 11.
  lemma {:induction false} PrecedenceAgrees(v: Version, w: Version)
    requires ValidVersion(v) && ValidVersion(w)
    ensures var a, b := SemverKey(VersionText(v)), SemverKey(VersionText(w));
            && a.Some? && b.Some?
            && (Compare(a.value, b.value) == Lt <==> Precedes(v, w))
            && (Compare(a.value, b.value) == Eq <==> v.(build := None) == w.(build := None))
  {
    hide SemverKey, VersionText, CompareIds, IdentKeys, PreLower;
    VersionReads(v, "", "");
    VersionReads(w, "", "");
    assert "" + (VersionText(v) + "") == VersionText(v) && "" + (VersionText(w) + "") == VersionText(w);
    PreOrder(v.pre, w.pre);
    CompareIdsFlips(IdentKeys(v.pre), IdentKeys(w.pre));
    SameKeysSameIdents(v.pre, w.pre);
  }

  lemma {:induction false} SameKeysSameIdents(a: seq<Ident>, b: seq<Ident>)
    ensures IdentKeys(a) == IdentKeys(b) <==> a == b
  {
    if IdentKeys(a) == IdentKeys(b) {
      forall i | 0 <= i < |a|
        ensures a[i] == b[i]
      {
        assert IdentKeys(a)[i] == IdentKeys(b)[i];
      }
    }
  }
}
