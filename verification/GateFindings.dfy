// The merge of two scanners' records and the watch list in image_gate.py (_sev, collect_findings).

module GateFindings {
  import opened Options

  // ------------------------------------------------------------------ severities

  datatype Severity = Unknown | Negligible | Low | Medium | High | Critical

  function Rank(s: Severity): nat {
    match s
    case Unknown => 0 case Negligible => 0 case Low => 1 case Medium => 2 case High => 3 case Critical => 4
  }

  function Upper(s: string): string {
    if s == "" then "" else [if 'a' <= s[0] <= 'z' then (s[0] as int - 32) as char else s[0]] + Upper(s[1..])
  }

  // _sev(): a missing, empty or unlisted severity is UNKNOWN.
  function Sev(s: Option<string>): Severity {
    var u := if s.Some? then Upper(s.value) else "";
    if u == "NEGLIGIBLE" then Negligible else if u == "LOW" then Low else if u == "MEDIUM" then Medium
    else if u == "HIGH" then High else if u == "CRITICAL" then Critical else Unknown
  }

  // ------------------------------------------------------------------ scanner records

  datatype TrivyVuln = TrivyVuln(id: string, vendorIds: seq<string>, pkg: string, installed: string,
                                 severity: Option<string>, fixedVersion: string, status: string, ptype: string)

  datatype GrypeMatch = GrypeMatch(id: string, related: seq<string>, name: string, version: string,
                                   severity: Option<string>, fixState: string, fixVersions: seq<string>, ptype: string)

  // What put() is called with.
  datatype Rec = Rec(aid: string, aliases: seq<string>, pkg: string, ver: string, severity: Option<string>,
                     fixed: bool, fixVersions: seq<string>, scanner: string, ptype: string)

  predicate IsSpace(c: char) {
    var n := c as int;
    9 <= n <= 13 || 28 <= n <= 32 || n == 133 || n == 160
  }

  function Strip(s: string): string
    decreases |s|
  {
    if s != "" && IsSpace(s[0]) then Strip(s[1..])
    else if s != "" && IsSpace(s[|s| - 1]) then Strip(s[..|s| - 1])
    else s
  }

  function SplitComma(s: string, piece: string): seq<string> {
    if s == "" then [Strip(piece)]
    else if s[0] == ',' then [Strip(piece)] + SplitComma(s[1..], "")
    else SplitComma(s[1..], piece + [s[0]])
  }

  function FromTrivy(v: TrivyVuln): Rec {
    var fv := Strip(v.fixedVersion);
    Rec(v.id, v.vendorIds, v.pkg, v.installed, v.severity, fv != "" || v.status == "fixed", SplitComma(fv, ""),
        "trivy", v.ptype)
  }

  function FromGrype(m: GrypeMatch): Rec {
    Rec(m.id, m.related, m.name, m.version, m.severity, m.fixState == "fixed" && m.fixVersions != [], m.fixVersions,
        "grype", m.ptype)
  }

  function Records(trivy: seq<TrivyVuln>, grype: seq<GrypeMatch>): (r: seq<Rec>)
    ensures |r| == |trivy| + |grype|
    ensures forall i :: 0 <= i < |trivy| ==> r[i] == FromTrivy(trivy[i])
    ensures forall i :: 0 <= i < |grype| ==> r[|trivy| + i] == FromGrype(grype[i])
  {
    seq(|trivy|, i requires 0 <= i < |trivy| => FromTrivy(trivy[i])) +
    seq(|grype|, i requires 0 <= i < |grype| => FromGrype(grype[i]))
  }

  // ------------------------------------------------------------------ keys

  datatype Key = Key(id: string, pkg: string, ver: string)

  // Order by code point, as Python sorts strings.
  predicate Before(a: string, b: string) {
    b != "" && (a == "" || a[0] < b[0] || (a[0] == b[0] && Before(a[1..], b[1..])))
  }

  function Names(r: Rec): set<string> {
    (set i | 0 <= i < |r.aliases| :: r.aliases[i]) + {r.aid} - {""}
  }

  predicate IsCve(id: string) {
    "CVE-" <= id
  }

  // The least CVE id from best on, where best is "" for none yet.
  function LeastCve(ids: seq<string>, best: string): string {
    if ids == [] then best
    else LeastCve(ids[1..], if IsCve(ids[0]) && (best == "" || Before(ids[0], best)) then ids[0] else best)
  }

  // A finding is known by its least CVE id, or by its own id when no CVE is named.
  function KeyId(r: Rec): string {
    var cve := LeastCve([r.aid] + r.aliases, "");
    if cve == "" then r.aid else cve
  }

  function KeyOf(r: Rec): Key {
    Key(KeyId(r), r.pkg, r.ver)
  }

  // ------------------------------------------------------------------ the merge

  datatype Finding = Finding(aliases: set<string>, severity: Severity, fixable: bool, fixedIn: set<string>,
                             scanners: set<string>, ptype: string)

  function Raise(s: Severity, t: Severity): Severity {
    if Rank(t) > Rank(s) then t else s
  }

  function Versions(r: Rec): set<string> {
    if r.fixed then (set i | 0 <= i < |r.fixVersions| :: r.fixVersions[i]) - {""} else {}
  }

  function New(ptype: string): Finding {
    Finding({}, Unknown, false, {}, {}, ptype)
  }

  function Absorb(f: Finding, r: Rec): Finding {
    Finding(f.aliases + (Names(r) - {KeyId(r)}), Raise(f.severity, Sev(r.severity)), f.fixable || r.fixed,
            f.fixedIn + Versions(r), f.scanners + {r.scanner}, f.ptype)
  }

  // put(): setdefault, then update.
  function Put(found: map<Key, Finding>, r: Rec): map<Key, Finding> {
    var k := KeyOf(r);
    found[k := Absorb(if k in found then found[k] else New(r.ptype), r)]
  }

  function Merge(found: map<Key, Finding>, recs: seq<Rec>): map<Key, Finding>
    decreases |recs|
  {
    if recs == [] then found else Merge(Put(found, recs[0]), recs[1..])
  }

  // collect_findings().
  method CollectFindings(trivy: seq<TrivyVuln>, grype: seq<GrypeMatch>) returns (found: map<Key, Finding>)
    ensures found == Merge(map[], Records(trivy, grype))
  {
    hide Put, FromTrivy, FromGrype;
    found := map[];
    ghost var all := Records(trivy, grype);
    assert all[0..] == all;
    for i := 0 to |trivy|
      invariant Merge(found, all[i..]) == Merge(map[], all)
    {
      assert all[i..][0] == FromTrivy(trivy[i]) && all[i..][1..] == all[i + 1..];
      found := Put(found, FromTrivy(trivy[i]));
    }
    for i := 0 to |grype|
      invariant Merge(found, all[|trivy| + i..]) == Merge(map[], all)
    {
      assert all[|trivy| + i..][0] == FromGrype(grype[i]) && all[|trivy| + i..][1..] == all[|trivy| + i + 1..];
      found := Put(found, FromGrype(grype[i]));
    }
  }

  // ------------------------------------------------------------------ what a merge holds

  // Does f say, field by field, what the records of key k say together?
  ghost predicate Sums(f: Finding, recs: set<Rec>, k: Key) {
    && (forall a :: a in f.aliases <==> exists r :: r in recs && KeyOf(r) == k && a in Names(r) && a != k.id)
    && (forall r :: r in recs && KeyOf(r) == k ==> Rank(Sev(r.severity)) <= Rank(f.severity))
    && (|| f.severity == Unknown
        || (Rank(f.severity) > 0 && exists r :: r in recs && KeyOf(r) == k && Sev(r.severity) == f.severity))
    && (f.fixable <==> exists r :: r in recs && KeyOf(r) == k && r.fixed)
    && (forall v :: v in f.fixedIn <==> exists r :: r in recs && KeyOf(r) == k && v in Versions(r))
    && (forall s :: s in f.scanners <==> exists r :: r in recs && KeyOf(r) == k && r.scanner == s)
  }

  ghost predicate Merged(found: map<Key, Finding>, recs: set<Rec>) {
    && (forall r :: r in recs ==> KeyOf(r) in found)
    && (forall k :: k in found ==> (exists r :: r in recs && KeyOf(r) == k) && Sums(found[k], recs, k))
  }

  lemma {:induction false} AbsorbSums(f: Finding, recs: set<Rec>, r: Rec)
    requires Sums(f, recs, KeyOf(r))
    ensures Sums(Absorb(f, r), recs + {r}, KeyOf(r))
  {
    hide KeyOf, KeyId, Names, Versions, Sev;
    assert KeyOf(r).id == KeyId(r) by { KeyFields(r); }
    var g, all, k := Absorb(f, r), recs + {r}, KeyOf(r);
    forall a ensures a in g.aliases <==> exists q :: q in all && KeyOf(q) == k && a in Names(q) && a != k.id {
      if a in Names(r) && a != k.id {
        assert r in all;
      }
    }
    forall v ensures v in g.fixedIn <==> exists q :: q in all && KeyOf(q) == k && v in Versions(q) {
      if v in Versions(r) {
        assert r in all;
      }
    }
    forall s ensures s in g.scanners <==> exists q :: q in all && KeyOf(q) == k && q.scanner == s {
      if s == r.scanner {
        assert r in all;
      }
    }
    assert g.fixable <==> exists q :: q in all && KeyOf(q) == k && q.fixed by {
      if r.fixed {
        assert r in all;
      }
    }
    assert g.severity == f.severity || g.severity == Sev(r.severity);
    assert r in all;
  }

  lemma {:induction false} KeyFields(r: Rec)
    ensures KeyOf(r).id == KeyId(r)
  {
  }

  lemma {:induction false} OtherKeysSum(f: Finding, recs: set<Rec>, r: Rec, k: Key)
    requires Sums(f, recs, k) && KeyOf(r) != k
    ensures Sums(f, recs + {r}, k)
  {
    hide KeyOf, Names, Versions, Sev;
    var all := recs + {r};
    forall a ensures a in f.aliases <==> exists q :: q in all && KeyOf(q) == k && a in Names(q) && a != k.id {
      if a in f.aliases {
        var q :| q in recs && KeyOf(q) == k && a in Names(q) && a != k.id;
        assert q in all;
      }
    }
    forall v ensures v in f.fixedIn <==> exists q :: q in all && KeyOf(q) == k && v in Versions(q) {
      if v in f.fixedIn {
        var q :| q in recs && KeyOf(q) == k && v in Versions(q);
        assert q in all;
      }
    }
    forall s ensures s in f.scanners <==> exists q :: q in all && KeyOf(q) == k && q.scanner == s {
      if s in f.scanners {
        var q :| q in recs && KeyOf(q) == k && q.scanner == s;
        assert q in all;
      }
    }
    if f.fixable {
      var q :| q in recs && KeyOf(q) == k && q.fixed;
      assert q in all;
    }
    if f.severity != Unknown {
      var q :| q in recs && KeyOf(q) == k && Sev(q.severity) == f.severity;
      assert q in all;
    }
  }

  lemma {:induction false} NewSums(recs: set<Rec>, k: Key, ptype: string)
    requires forall r :: r in recs ==> KeyOf(r) != k
    ensures Sums(New(ptype), recs, k)
  {
    hide KeyOf, Names, Versions, Sev;
  }

  lemma {:induction false} PutMerges(found: map<Key, Finding>, recs: set<Rec>, r: Rec)
    requires Merged(found, recs)
    ensures Merged(Put(found, r), recs + {r})
  {
    hide KeyOf, Sums, Absorb;
    var k := KeyOf(r);
    var all, out := recs + {r}, Put(found, r);
    if k !in found {
      NewSums(recs, k, r.ptype);
    }
    AbsorbSums(if k in found then found[k] else New(r.ptype), recs, r);
    assert r in all;
    forall q | q in out ensures (exists p :: p in all && KeyOf(p) == q) && Sums(out[q], all, q) {
      if q != k {
        var p :| p in recs && KeyOf(p) == q;
        assert p in all;
        OtherKeysSum(found[q], recs, r, q);
      }
    }
  }

  function SetOf<T>(s: seq<T>): set<T> {
    set i | 0 <= i < |s| :: s[i]
  }

  lemma {:induction false} MergeHolds(found: map<Key, Finding>, before: set<Rec>, recs: seq<Rec>)
    requires Merged(found, before)
    ensures Merged(Merge(found, recs), before + SetOf(recs))
    decreases |recs|
  {
    hide Merged, Put;
    if recs == [] {
      assert before + SetOf(recs) == before;
    } else {
      PutMerges(found, before, recs[0]);
      MergeHolds(Put(found, recs[0]), before + {recs[0]}, recs[1..]);
      assert recs == [recs[0]] + recs[1..];
      assert before + {recs[0]} + SetOf(recs[1..]) == before + SetOf(recs);
    }
  }

  // The merged findings of any records: one per key, each saying what its records say together.
  lemma {:induction false} CollectedFindings(recs: seq<Rec>)
    ensures Merged(Merge(map[], recs), SetOf(recs))
  {
    MergeHolds(map[], {}, recs);
    assert {} + SetOf(recs) == SetOf(recs);
  }

  // ------------------------------------------------------------------ order and monotonicity

  // Equal but for the package type.
  predicate SameFinding(f: Finding, g: Finding) {
    f == g.(ptype := f.ptype)
  }

  lemma {:induction false} SumsUnique(f: Finding, g: Finding, recs: set<Rec>, k: Key)
    requires Sums(f, recs, k) && Sums(g, recs, k)
    ensures SameFinding(f, g)
  {
    hide KeyOf, Names, Versions, Sev;
    assert f.aliases == g.aliases && f.fixedIn == g.fixedIn && f.scanners == g.scanners;
    assert Rank(f.severity) == Rank(g.severity);
  }

  // The merge depends only on which records there are: not on their order, and not on repeats.
  lemma {:induction false} MergeIgnoresOrderAndRepeats(a: seq<Rec>, b: seq<Rec>)
    requires SetOf(a) == SetOf(b)
    ensures var f, g := Merge(map[], a), Merge(map[], b);
      f.Keys == g.Keys && forall k :: k in f ==> SameFinding(f[k], g[k])
  {
    hide KeyOf, Sums, SetOf, Merge;
    CollectedFindings(a);
    CollectedFindings(b);
    var f, g := Merge(map[], a), Merge(map[], b);
    forall k | k in f ensures k in g && SameFinding(f[k], g[k]) {
      SumsUnique(f[k], g[k], SetOf(a), k);
    }
    assert f.Keys == g.Keys;
  }

  function FirstWith(recs: seq<Rec>, k: Key): Option<Rec> {
    if recs == [] then None else if KeyOf(recs[0]) == k then Some(recs[0]) else FirstWith(recs[1..], k)
  }

  lemma {:induction false} TypeIsFirst(found: map<Key, Finding>, recs: seq<Rec>, k: Key)
    requires k in Merge(found, recs)
    ensures k in found || FirstWith(recs, k).Some?
    ensures Merge(found, recs)[k].ptype == if k in found then found[k].ptype else FirstWith(recs, k).value.ptype
    decreases |recs|
  {
    hide KeyOf, Names, Versions, Sev, KeyId;
    if recs != [] {
      TypeIsFirst(Put(found, recs[0]), recs[1..], k);
    }
  }

  // The type, which the merge does let order decide, is that of the first record of the key.
  lemma {:induction false} FirstRecordGivesType(recs: seq<Rec>, k: Key)
    requires k in Merge(map[], recs)
    ensures FirstWith(recs, k).Some? && Merge(map[], recs)[k].ptype == FirstWith(recs, k).value.ptype
  {
    TypeIsFirst(map[], recs, k);
  }

  predicate Grows(f: Finding, g: Finding) {
    && f.aliases <= g.aliases && Rank(f.severity) <= Rank(g.severity) && (f.fixable ==> g.fixable)
    && f.fixedIn <= g.fixedIn && f.scanners <= g.scanners
  }

  lemma {:induction false} SumsGrow(f: Finding, a: set<Rec>, g: Finding, b: set<Rec>, k: Key)
    requires Sums(f, a, k) && Sums(g, b, k) && a <= b
    ensures Grows(f, g)
  {
    hide KeyOf, Names, Versions, Sev;
    forall x | x in f.aliases ensures x in g.aliases {
      var r :| r in a && KeyOf(r) == k && x in Names(r) && x != k.id;
      assert r in b;
    }
    forall x | x in f.fixedIn ensures x in g.fixedIn {
      var r :| r in a && KeyOf(r) == k && x in Versions(r);
      assert r in b;
    }
    forall x | x in f.scanners ensures x in g.scanners {
      var r :| r in a && KeyOf(r) == k && r.scanner == x;
      assert r in b;
    }
    if f.fixable {
      var r :| r in a && KeyOf(r) == k && r.fixed;
      assert r in b;
    }
    if f.severity != Unknown {
      var r :| r in a && KeyOf(r) == k && Sev(r.severity) == f.severity;
      assert r in b;
    }
  }

  // More records never remove a finding, lower its severity or clear its fixable mark.
  lemma {:induction false} MoreRecordsOnlyAdd(a: seq<Rec>, b: seq<Rec>)
    requires SetOf(a) <= SetOf(b)
    ensures var f, g := Merge(map[], a), Merge(map[], b);
      f.Keys <= g.Keys && forall k :: k in f ==> Grows(f[k], g[k])
  {
    hide KeyOf, Sums, SetOf, Merge;
    CollectedFindings(a);
    CollectedFindings(b);
    var f, g := Merge(map[], a), Merge(map[], b);
    forall k | k in f ensures k in g && Grows(f[k], g[k]) {
      var r :| r in SetOf(a) && KeyOf(r) == k;
      assert r in SetOf(b);
      SumsGrow(f[k], SetOf(a), g[k], SetOf(b), k);
    }
  }
}
