// The vulnerability check of image_gate.py: the owner decision register (validate_decisions), the
// watch list, the verdict on every finding (cmd_vulns) and the status of a check (Check.status).

module ReleaseGate {
  import opened Options
  import opened GateFindings

  // ------------------------------------------------------------------ checks

  datatype Mode = Pr | Release

  datatype Status = PASS | HOLD | FAIL

  // Why a register entry is refused.
  datatype Reason = Incomplete | BadId | BadPackages | BadDecision | BadImages | BadDates | Expired | InFuture
                  | TooLong | Duplicate

  // One line of a check's report.
  datatype Msg =
    | BadRegister
    | BadEntry(index: nat, reason: Reason)
    | BadWatchList
    | BadAdvisory(index: nat)
    | Drifted(id: string, pkg: string)
    | FixableIn(id: string, severity: Severity, packages: set<(string, string)>)
    | UndecidedIn(id: string, severity: Severity, packages: set<(string, string)>)

  function StatusOf(mode: Mode, fails: seq<Msg>, holds: seq<Msg>): Status {
    if fails != [] || (holds != [] && mode == Release) then FAIL else if holds != [] then HOLD else PASS
  }

  class Check {
    const mode: Mode
    var fails: seq<Msg>
    var holds: seq<Msg>

    constructor (mode: Mode)
      ensures this.mode == mode && fails == [] && holds == []
    {
      this.mode, fails, holds := mode, [], [];
    }

    method Fail(m: Msg)
      modifies this`fails
      ensures fails == old(fails) + [m]
    {
      fails := fails + [m];
    }

    method Hold(m: Msg)
      modifies this`holds
      ensures holds == old(holds) + [m]
    {
      holds := holds + [m];
    }

    function Status(): Status
      reads this
    {
      StatusOf(mode, fails, holds)
    }
  }

  // ------------------------------------------------------------------ the decision register

  // A field of an entry as JSON has it: missing, empty or null; not a list; or a list, None standing
  // for an element that is not a string.
  datatype ListField = Absent | NotAList | Items(items: seq<Option<string>>)

  // An empty string stands for a missing field.
  datatype Entry = Entry(id: string, packages: ListField, images: ListField, decision: string, ref: string,
                         decidedBy: string, decidedOn: string, expires: string, justification: string)

  // The policy's roles, today as a day number, and date.fromisoformat (None when it raises).
  datatype Policy = Policy(roles: set<string>, today: int, day: string -> Option<int>)

  const MAX_DECISION_DAYS := 180

  predicate Given(f: ListField) {
    f.NotAList? || (f.Items? && f.items != [])
  }

  predicate Complete(d: Entry) {
    d.id != "" && Given(d.packages) && Given(d.images) && d.decision != "" && d.ref != "" && d.decidedBy != "" &&
    d.decidedOn != "" && d.expires != "" && d.justification != ""
  }

  predicate Digits(s: string, from: nat, to: nat) {
    from <= to <= |s| && forall i :: from <= i < to ==> '0' <= s[i] <= '9'
  }

  predicate GhsaGroup(s: string, at: nat) {
    at + 5 <= |s| && s[at] == '-' && forall i :: at < i < at + 5 ==> s[i] in "23456789cfghjmpqrvwx"
  }

  // One CVE or GHSA id, without wildcards.
  predicate IsAdvisory(s: string) {
    || (|s| >= 13 && s[..4] == "CVE-" && Digits(s, 4, 8) && s[8] == '-' && Digits(s, 9, |s|))
    || (|s| == 19 && s[..4] == "GHSA" && GhsaGroup(s, 4) && GhsaGroup(s, 9) && GhsaGroup(s, 14))
  }

  predicate ExactName(p: Option<string>) {
    p.Some? && p.value != "" && '*' !in p.value && '?' !in p.value && '[' !in p.value && ']' !in p.value
  }

  predicate ExactNames(f: ListField) {
    f.Items? && forall i :: 0 <= i < |f.items| ==> ExactName(f.items[i])
  }

  predicate KnownRoles(f: ListField, roles: set<string>) {
    f.Items? && f.items != [] && forall i :: 0 <= i < |f.items| ==> f.items[i].Some? && f.items[i].value in roles
  }

  function Listed(f: ListField): set<string> {
    if f.Items? then set i | 0 <= i < |f.items| && f.items[i].Some? :: f.items[i].value else {}
  }

  function Pairs(d: Entry): set<(string, string)> {
    set p | p in Listed(d.packages) :: (d.id, p)
  }

  // The first rule an entry breaks, given the advisory-package pairs decided before it.
  function Judge(pol: Policy, d: Entry, seen: set<(string, string)>): Option<Reason> {
    if !Complete(d) then Some(Incomplete)
    else if !IsAdvisory(d.id) then Some(BadId)
    else if !ExactNames(d.packages) then Some(BadPackages)
    else if d.decision !in {"accepted-risk", "not-affected", "false-positive"} then Some(BadDecision)
    else if !KnownRoles(d.images, pol.roles) then Some(BadImages)
    else
      var decided, expires := pol.day(d.decidedOn), pol.day(d.expires);
      if decided.None? || expires.None? then Some(BadDates)
      else if expires.value < pol.today then Some(Expired)
      else if decided.value > pol.today then Some(InFuture)
      else if expires.value - decided.value > MAX_DECISION_DAYS || expires.value < decided.value then Some(TooLong)
      else if Pairs(d) * seen != {} then Some(Duplicate)
      else None
  }

  datatype Register = Register(schemaOk: bool, decisions: seq<Entry>)

  datatype Validated = Validated(valid: seq<Entry>, fails: seq<Msg>)

  function ValidateFrom(pol: Policy, ds: seq<Entry>, i: nat, seen: set<(string, string)>): Validated
    requires i <= |ds|
    decreases |ds| - i
  {
    if i == |ds| then Validated([], [])
    else
      var j := Judge(pol, ds[i], seen);
      var rest := ValidateFrom(pol, ds, i + 1, if j.None? then seen + Pairs(ds[i]) else seen);
      if j.None? then rest.(valid := [ds[i]] + rest.valid) else rest.(fails := [BadEntry(i, j.value)] + rest.fails)
  }

  function Validate(pol: Policy, reg: Register): Validated {
    if !reg.schemaOk then Validated([], [BadRegister]) else ValidateFrom(pol, reg.decisions, 0, {})
  }

  lemma {:induction false} NextEntry(pol: Policy, ds: seq<Entry>, i: nat, seen: set<(string, string)>)
    requires i <= |ds|
    ensures i == |ds| ==> ValidateFrom(pol, ds, i, seen) == Validated([], [])
    ensures i < |ds| ==>
      var j := Judge(pol, ds[i], seen);
      var rest := ValidateFrom(pol, ds, i + 1, if j.None? then seen + Pairs(ds[i]) else seen);
      && (j.None? ==> ValidateFrom(pol, ds, i, seen) == rest.(valid := [ds[i]] + rest.valid))
      && (j.Some? ==> ValidateFrom(pol, ds, i, seen) == rest.(fails := [BadEntry(i, j.value)] + rest.fails))
  {
    hide Judge, Pairs;
  }

  method ValidateDecisions(c: Check, pol: Policy, reg: Register) returns (valid: seq<Entry>)
    modifies c`fails
    ensures valid == Validate(pol, reg).valid && c.fails == old(c.fails) + Validate(pol, reg).fails
  {
    hide Judge, Pairs, ValidateFrom;
    valid := [];
    if !reg.schemaOk {
      c.Fail(BadRegister);
      return;
    }
    var seen: set<(string, string)> := {};
    ghost var all := Validate(pol, reg);
    for i := 0 to |reg.decisions|
      invariant valid + ValidateFrom(pol, reg.decisions, i, seen).valid == all.valid
      invariant c.fails + ValidateFrom(pol, reg.decisions, i, seen).fails == old(c.fails) + all.fails
    {
      var d := reg.decisions[i];
      var j := Judge(pol, d, seen);
      NextEntry(pol, reg.decisions, i, seen);
      ghost var rest := ValidateFrom(pol, reg.decisions, i + 1, if j.None? then seen + Pairs(d) else seen);
      if j.Some? {
        assert c.fails + ([BadEntry(i, j.value)] + rest.fails) == c.fails + [BadEntry(i, j.value)] + rest.fails;
        c.Fail(BadEntry(i, j.value));
      } else {
        assert valid + ([d] + rest.valid) == valid + [d] + rest.valid;
        seen := seen + Pairs(d);
        valid := valid + [d];
      }
    }
    NextEntry(pol, reg.decisions, |reg.decisions|, seen);
  }

  // A decision the gate may rely on: exact, in force today, and limited in time.
  predicate InForce(pol: Policy, d: Entry) {
    var decided, expires := pol.day(d.decidedOn), pol.day(d.expires);
    && Complete(d) && IsAdvisory(d.id) && ExactNames(d.packages) && KnownRoles(d.images, pol.roles)
    && decided.Some? && expires.Some? && decided.value <= pol.today <= expires.value
    && expires.value - decided.value <= MAX_DECISION_DAYS
  }

  lemma {:induction false} ValidFrom(pol: Policy, ds: seq<Entry>, i: nat, seen: set<(string, string)>)
    requires i <= |ds|
    ensures var v := ValidateFrom(pol, ds, i, seen);
      && (forall d :: d in v.valid ==> d in ds && InForce(pol, d))
      && (forall d :: d in v.valid ==> Pairs(d) * seen == {})
      && (forall j, k :: 0 <= j < k < |v.valid| ==> Pairs(v.valid[j]) * Pairs(v.valid[k]) == {})
      && |v.valid| + |v.fails| == |ds| - i
    decreases |ds| - i
  {
    if i < |ds| {
      hide Pairs, Complete, IsAdvisory, ExactNames, KnownRoles;
      var j := Judge(pol, ds[i], seen);
      var seen' := if j.None? then seen + Pairs(ds[i]) else seen;
      ValidFrom(pol, ds, i + 1, seen');
      var rest := ValidateFrom(pol, ds, i + 1, seen');
      if j.None? {
        forall d | d in rest.valid ensures Pairs(d) * seen == {} && Pairs(ds[i]) * Pairs(d) == {} {
          assert Pairs(d) * seen' == {};
        }
      }
    }
  }

  // Validated decisions come from the register, are in force, and no two decide the same advisory for
  // the same package; and every refused entry fails the check.
  lemma {:induction false} ValidatedDecisions(pol: Policy, reg: Register)
    ensures var v := Validate(pol, reg);
      && (forall d :: d in v.valid ==> d in reg.decisions && InForce(pol, d))
      && (forall j, k :: 0 <= j < k < |v.valid| ==> Pairs(v.valid[j]) * Pairs(v.valid[k]) == {})
      && (v.fails == [] <==> reg.schemaOk && |v.valid| == |reg.decisions|)
  {
    if reg.schemaOk {
      ValidFrom(pol, reg.decisions, 0, {});
    }
  }

  // ------------------------------------------------------------------ the watch list

  // An empty string or list stands for a missing field.
  datatype Advisory = Advisory(id: string, packages: seq<string>, affected: seq<string>, severity: string)

  datatype WatchList = WatchList(schemaOk: bool, advisories: seq<Advisory>)

  predicate Usable(a: Advisory) {
    a.id != "" && a.packages != [] && a.affected != [] &&
    (Upper(a.severity) == "HIGH" || Upper(a.severity) == "CRITICAL")
  }

  function UsableFrom(ws: seq<Advisory>, i: nat): (seq<Advisory>, seq<Msg>)
    requires i <= |ws|
    decreases |ws| - i
  {
    if i == |ws| then ([], [])
    else
      var (out, fails) := UsableFrom(ws, i + 1);
      if Usable(ws[i]) then ([ws[i]] + out, fails) else (out, [BadAdvisory(i)] + fails)
  }

  function Watched(wl: WatchList): (seq<Advisory>, seq<Msg>) {
    if !wl.schemaOk then ([], [BadWatchList]) else UsableFrom(wl.advisories, 0)
  }

  method ValidateWatchList(c: Check, wl: WatchList) returns (out: seq<Advisory>)
    modifies c`fails
    ensures out == Watched(wl).0 && c.fails == old(c.fails) + Watched(wl).1
  {
    out := [];
    if !wl.schemaOk {
      c.Fail(BadWatchList);
      return;
    }
    ghost var all := Watched(wl);
    for i := 0 to |wl.advisories|
      invariant out + UsableFrom(wl.advisories, i).0 == all.0
      invariant c.fails + UsableFrom(wl.advisories, i).1 == old(c.fails) + all.1
    {
      ghost var rest := UsableFrom(wl.advisories, i + 1);
      if Usable(wl.advisories[i]) {
        assert out + ([wl.advisories[i]] + rest.0) == out + [wl.advisories[i]] + rest.0;
        out := out + [wl.advisories[i]];
      } else {
        assert c.fails + ([BadAdvisory(i)] + rest.1) == c.fails + [BadAdvisory(i)] + rest.1;
        c.Fail(BadAdvisory(i));
      }
    }
  }

  // One advisory and one of its packages.
  datatype Sighting = Sighting(w: Advisory, pkg: string)

  function Sightings(ws: seq<Advisory>): seq<Sighting> {
    if ws == [] then []
    else
      var w := ws[0];
      seq(|w.packages|, i requires 0 <= i < |w.packages| => Sighting(w, w.packages[i])) + Sightings(ws[1..])
  }

  function WatchKey(s: Sighting, ver: string): Key {
    Key(s.w.id, s.pkg, ver)
  }

  // A watched package in an affected version adds a finding or raises one.
  function Sight(found: map<Key, Finding>, s: Sighting, ver: string): map<Key, Finding> {
    var k, sev := WatchKey(s, ver), Sev(Some(s.w.severity));
    var f := if k in found then found[k] else New("apk").(severity := sev);
    found[k := f.(scanners := f.scanners + {"watch-list"}, severity := Raise(f.severity, sev))]
  }

  // What the watch list makes of the findings, given the installed apk packages.
  function Watch(found: map<Key, Finding>, ss: seq<Sighting>, apk: map<string, string>): map<Key, Finding>
    decreases |ss|
  {
    if ss == [] then found
    else
      var s := ss[0];
      var now := if s.pkg in apk && apk[s.pkg] in s.w.affected then Sight(found, s, apk[s.pkg]) else found;
      Watch(now, ss[1..], apk)
  }

  function Drifts(ss: seq<Sighting>, apk: map<string, string>): set<Msg> {
    set i | 0 <= i < |ss| && ss[i].pkg in apk && apk[ss[i].pkg] !in ss[i].w.affected :: Drifted(ss[i].w.id, ss[i].pkg)
  }

  // The watch list only adds: findings stay, and none is lowered or loses its fixable mark.
  lemma {:induction false} WatchOnlyAdds(found: map<Key, Finding>, ss: seq<Sighting>, apk: map<string, string>)
    ensures var out := Watch(found, ss, apk);
      found.Keys <= out.Keys && forall k :: k in found ==>
        Grows(found[k], out[k]) && out[k].fixable == found[k].fixable && out[k].aliases == found[k].aliases
    decreases |ss|
  {
    if ss != [] {
      hide Sev, WatchKey;
      var s := ss[0];
      var now := if s.pkg in apk && apk[s.pkg] in s.w.affected then Sight(found, s, apk[s.pkg]) else found;
      WatchOnlyAdds(now, ss[1..], apk);
      var out := Watch(now, ss[1..], apk);
      forall k | k in found
        ensures Grows(found[k], out[k]) && out[k].fixable == found[k].fixable && out[k].aliases == found[k].aliases
      {
        assert Grows(found[k], now[k]) && Grows(now[k], out[k]);
      }
    }
  }

  // ------------------------------------------------------------------ verdicts

  datatype Verdict = Report | Fixable | Decided(ref: string) | Undecided

  predicate Severe(f: Finding) {
    Rank(f.severity) >= Rank(High)
  }

  predicate Covers(d: Entry, k: Key, f: Finding) {
    k.pkg in Listed(d.packages) && (d.id == k.id || d.id in f.aliases)
  }

  // next(d for d in decisions if ...)
  function FirstCovering(ds: seq<Entry>, k: Key, f: Finding): (r: Option<Entry>)
    ensures r.Some? ==> r.value in ds && Covers(r.value, k, f)
    ensures r.None? ==> forall d :: d in ds ==> !Covers(d, k, f)
  {
    if ds == [] then None else if Covers(ds[0], k, f) then Some(ds[0]) else FirstCovering(ds[1..], k, f)
  }

  function VerdictOn(ds: seq<Entry>, k: Key, f: Finding): Verdict {
    if !Severe(f) then Report
    else
      var d := FirstCovering(ds, k, f);
      if f.fixable then Fixable else if d.Some? then Decided(d.value.ref) else Undecided
  }

  function ForRole(ds: seq<Entry>, role: string): seq<Entry> {
    if ds == [] then [] else (if role in Listed(ds[0].images) then [ds[0]] else []) + ForRole(ds[1..], role)
  }

  // The findings of one advisory and severity with one verdict, as one message.
  datatype Group = Group(id: string, fixable: bool, severity: Severity)

  predicate Blocking(v: Verdict) {
    v == Fixable || v == Undecided
  }

  predicate InGroup(ds: seq<Entry>, found: map<Key, Finding>, g: Group, k: Key)
    requires k in found
  {
    Blocking(VerdictOn(ds, k, found[k])) && g == Group(k.id, VerdictOn(ds, k, found[k]) == Fixable, found[k].severity)
  }

  function Groups(ds: seq<Entry>, found: map<Key, Finding>): set<Group> {
    set k | k in found && Blocking(VerdictOn(ds, k, found[k])) ::
      Group(k.id, VerdictOn(ds, k, found[k]) == Fixable, found[k].severity)
  }

  function GroupMsg(ds: seq<Entry>, found: map<Key, Finding>, g: Group): Msg {
    var pkgs := set k | k in found && InGroup(ds, found, g, k) :: (k.pkg, k.ver);
    if g.fixable then FixableIn(g.id, g.severity, pkgs) else UndecidedIn(g.id, g.severity, pkgs)
  }

  function Messages(ds: seq<Entry>, found: map<Key, Finding>, fixable: bool): set<Msg> {
    set g | g in Groups(ds, found) && g.fixable == fixable :: GroupMsg(ds, found, g)
  }

  datatype Inputs = Inputs(role: string, pol: Policy, reg: Register, wl: WatchList, trivy: seq<TrivyVuln>,
                           grype: seq<GrypeMatch>, apk: map<string, string>)

  function DecisionsFor(a: Inputs): seq<Entry> {
    ForRole(Validate(a.pol, a.reg).valid, a.role)
  }

  function Findings(a: Inputs): map<Key, Finding> {
    Watch(Merge(map[], Records(a.trivy, a.grype)), Sightings(Watched(a.wl).0), a.apk)
  }

  // Everything cmd_vulns() fails and holds on.
  function Fails(a: Inputs): set<Msg> {
    SetOf(Validate(a.pol, a.reg).fails) + SetOf(Watched(a.wl).1) + Messages(DecisionsFor(a), Findings(a), true)
  }

  function Holds(a: Inputs): set<Msg> {
    Drifts(Sightings(Watched(a.wl).0), a.apk) + Messages(DecisionsFor(a), Findings(a), false)
  }

  // ------------------------------------------------------------------ cmd_vulns

  lemma {:induction false} SetOfAppend<T>(a: seq<T>, b: seq<T>)
    ensures SetOf(a + b) == SetOf(a) + SetOf(b)
  {
    forall x ensures x in SetOf(a + b) <==> x in SetOf(a) || x in SetOf(b) {
      if x in SetOf(a) {
        var i :| 0 <= i < |a| && a[i] == x;
        assert (a + b)[i] == x;
      } else if x in SetOf(b) {
        var i :| 0 <= i < |b| && b[i] == x;
        assert (a + b)[|a| + i] == x;
      }
    }
  }

  lemma {:induction false} SetOfOne<T>(x: T)
    ensures SetOf([x]) == {x}
  {
    assert [x][0] == x;
  }

  lemma {:induction false} NextForRole(ds: seq<Entry>, i: nat, role: string, out: seq<Entry>)
    requires i < |ds|
    ensures out + ForRole(ds[i..], role) ==
      (if role in Listed(ds[i].images) then out + [ds[i]] else out) + ForRole(ds[i + 1..], role)
  {
    hide Listed;
    assert ds[i..][1..] == ds[i + 1..];
    var rest := ForRole(ds[i + 1..], role);
    assert out + ([ds[i]] + rest) == out + [ds[i]] + rest;
  }

  method SelectRole(ds: seq<Entry>, role: string) returns (out: seq<Entry>)
    ensures out == ForRole(ds, role)
  {
    hide Listed, ForRole;
    out := [];
    assert ds[0..] == ds;
    for i := 0 to |ds|
      invariant out + ForRole(ds[i..], role) == ForRole(ds, role)
    {
      NextForRole(ds, i, role, out);
      if role in Listed(ds[i].images) {
        out := out + [ds[i]];
      }
    }
    NobodyForRole(role);
    assert ds[|ds|..] == [];
  }

  lemma {:induction false} NobodyForRole(role: string)
    ensures ForRole([], role) == []
  {
  }

  method ApplyWatchList(c: Check, found0: map<Key, Finding>, ss: seq<Sighting>, apk: map<string, string>)
    returns (found: map<Key, Finding>)
    modifies c`holds
    ensures found == Watch(found0, ss, apk) && SetOf(c.holds) == old(SetOf(c.holds)) + Drifts(ss, apk)
  {
    hide Sight;
    found := found0;
    assert ss[..0] == [] && ss[0..] == ss;
    for i := 0 to |ss|
      invariant Watch(found, ss[i..], apk) == Watch(found0, ss, apk)
      invariant SetOf(c.holds) == old(SetOf(c.holds)) + Drifts(ss[..i], apk)
    {
      assert ss[i..][1..] == ss[i + 1..];
      assert ss[..i + 1] == ss[..i] + [ss[i]];
      DriftsOneMore(ss, i, apk);
      if ss[i].pkg in apk {
        var ver := apk[ss[i].pkg];
        if ver in ss[i].w.affected {
          found := Sight(found, ss[i], ver);
        } else {
          SetOfAppend(c.holds, [Drifted(ss[i].w.id, ss[i].pkg)]);
          SetOfOne(Drifted(ss[i].w.id, ss[i].pkg));
          c.Hold(Drifted(ss[i].w.id, ss[i].pkg));
        }
      }
    }
    assert ss[..|ss|] == ss;
  }

  lemma {:induction false} DriftsOneMore(ss: seq<Sighting>, i: nat, apk: map<string, string>)
    requires i < |ss|
    ensures var s := ss[i];
      Drifts(ss[..i + 1], apk) == Drifts(ss[..i], apk) +
        if s.pkg in apk && apk[s.pkg] !in s.w.affected then {Drifted(s.w.id, s.pkg)} else {}
  {
    var a, b := ss[..i + 1], ss[..i];
    assert forall j :: 0 <= j < i ==> a[j] == b[j];
    assert a[i] == ss[i];
  }

  // The groups are reported in some order; the order shows only in the order of the messages.
  method ReportGroups(c: Check, ds: seq<Entry>, found: map<Key, Finding>)
    modifies c
    ensures SetOf(c.fails) == old(SetOf(c.fails)) + Messages(ds, found, true)
    ensures SetOf(c.holds) == old(SetOf(c.holds)) + Messages(ds, found, false)
  {
    hide VerdictOn, GroupMsg, SetOf;
    var todo, done := Groups(ds, found), {};
    assert Told(ds, found, {}, true) == {} && Told(ds, found, {}, false) == {};
    while todo != {}
      invariant todo + done == Groups(ds, found) && todo !! done
      invariant SetOf(c.fails) == old(SetOf(c.fails)) + Told(ds, found, done, true)
      invariant SetOf(c.holds) == old(SetOf(c.holds)) + Told(ds, found, done, false)
      decreases todo
    {
      var g :| g in todo;
      var m := GroupMsg(ds, found, g);
      TellOne(ds, found, done, g);
      SetOfOne(m);
      if g.fixable {
        SetOfAppend(c.fails, [m]);
        c.Fail(m);
      } else {
        SetOfAppend(c.holds, [m]);
        c.Hold(m);
      }
      todo, done := todo - {g}, done + {g};
    }
    assert done == Groups(ds, found);
  }

  function Told(ds: seq<Entry>, found: map<Key, Finding>, gs: set<Group>, fixable: bool): set<Msg> {
    set g | g in gs && g.fixable == fixable :: GroupMsg(ds, found, g)
  }

  lemma {:induction false} TellOne(ds: seq<Entry>, found: map<Key, Finding>, gs: set<Group>, g: Group)
    ensures Told(ds, found, gs + {g}, g.fixable) == Told(ds, found, gs, g.fixable) + {GroupMsg(ds, found, g)}
    ensures Told(ds, found, gs + {g}, !g.fixable) == Told(ds, found, gs, !g.fixable)
  {
    hide GroupMsg;
    var all := gs + {g};
    assert g in all && forall h :: h in gs ==> h in all;
  }

  method Vulns(a: Inputs, c: Check)
    modifies c
    ensures SetOf(c.fails) == old(SetOf(c.fails)) + Fails(a)
    ensures SetOf(c.holds) == old(SetOf(c.holds)) + Holds(a)
  {
    hide SetOf, Drifts, Messages, Validate, Watched, Watch, Merge, Records, ForRole;
    var valid := ValidateDecisions(c, a.pol, a.reg);
    var decisions := SelectRole(valid, a.role);
    var watch := ValidateWatchList(c, a.wl);
    ghost var f0 := old(c.fails);
    assert c.fails == f0 + Validate(a.pol, a.reg).fails + Watched(a.wl).1;
    SetOfAppend(f0 + Validate(a.pol, a.reg).fails, Watched(a.wl).1);
    SetOfAppend(f0, Validate(a.pol, a.reg).fails);
    var found0 := CollectFindings(a.trivy, a.grype);
    var found := ApplyWatchList(c, found0, Sightings(watch), a.apk);
    ReportGroups(c, decisions, found);
  }

  // ------------------------------------------------------------------ what PASS means

  // A finding that does not stand in the way of a release.
  predicate Cleared(ds: seq<Entry>, k: Key, f: Finding) {
    Severe(f) ==> !f.fixable && exists d :: d in ds && Covers(d, k, f)
  }

  lemma {:induction false} EmptySetOf<T>(s: seq<T>)
    ensures SetOf(s) == {} <==> s == []
  {
    if s != [] {
      assert s[0] in SetOf(s);
    }
  }

  lemma {:induction false} NoMessages(ds: seq<Entry>, found: map<Key, Finding>)
    ensures Messages(ds, found, true) == {} && Messages(ds, found, false) == {} <==>
      forall k :: k in found ==> Cleared(ds, k, found[k])
  {
    hide GroupMsg, Covers, Severe;
    if k :| k in found && !Cleared(ds, k, found[k]) {
      var v := VerdictOn(ds, k, found[k]);
      assert Blocking(v);
      var g := Group(k.id, v == Fixable, found[k].severity);
      assert g in Groups(ds, found);
      assert GroupMsg(ds, found, g) in Messages(ds, found, g.fixable);
    } else {
      assert forall k :: k in found ==> !Blocking(VerdictOn(ds, k, found[k]));
      assert Groups(ds, found) == {};
    }
  }

  // A release-mode check passes exactly when the register and the watch list are in order, no watched
  // package has drifted, and every severe finding is both unfixable and decided for the role.
  lemma {:induction false} PassIff(a: Inputs, fails: seq<Msg>, holds: seq<Msg>)
    requires SetOf(fails) == Fails(a) && SetOf(holds) == Holds(a)
    ensures StatusOf(Release, fails, holds) == PASS <==>
      && Validate(a.pol, a.reg).fails == [] && Watched(a.wl).1 == []
      && Drifts(Sightings(Watched(a.wl).0), a.apk) == {}
      && forall k :: k in Findings(a) ==> Cleared(DecisionsFor(a), k, Findings(a)[k])
  {
    hide SetOf, Drifts, Messages, Validate, Watched, Findings, DecisionsFor, Cleared;
    EmptySetOf(fails);
    EmptySetOf(holds);
    EmptySetOf(Validate(a.pol, a.reg).fails);
    EmptySetOf(Watched(a.wl).1);
    NoMessages(DecisionsFor(a), Findings(a));
  }

  // In pull-request mode the same findings hold rather than fail, so PASS means the same there.
  lemma {:induction false} ModesAgreeOnPass(fails: seq<Msg>, holds: seq<Msg>)
    ensures StatusOf(Pr, fails, holds) == PASS <==> StatusOf(Release, fails, holds) == PASS
    ensures StatusOf(Pr, fails, holds) == FAIL ==> StatusOf(Release, fails, holds) == FAIL
  {
  }

  lemma {:induction false} RoleDecisions(ds: seq<Entry>, role: string, d: Entry)
    requires d in ForRole(ds, role)
    ensures d in ds && role in Listed(d.images)
  {
    hide Listed;
    if !(role in Listed(ds[0].images) && d == ds[0]) {
      RoleDecisions(ds[1..], role, d);
    }
  }

  // A decision for this role and exactly this package, under a name of the record's finding.
  predicate Decides(d: Entry, a: Inputs, r: Rec) {
    a.role in Listed(d.images) && r.pkg in Listed(d.packages) &&
    NamedBy(Records(a.trivy, a.grype), KeyOf(r), d.id)
  }

  // Soundness of the gate. When a release check passes, every High or Critical record of either
  // scanner is in a merged finding that no record marks fixed, and that a decision from the register
  // covers: in force today, for this role and exactly this package, under the finding's id or an alias
  // some record gives it.
  lemma {:induction false} PassIsSound(a: Inputs, fails: seq<Msg>, holds: seq<Msg>, r: Rec)
    requires SetOf(fails) == Fails(a) && SetOf(holds) == Holds(a)
    requires StatusOf(Release, fails, holds) == PASS
    requires r in Records(a.trivy, a.grype) && Rank(Sev(r.severity)) >= Rank(High)
    ensures KeyOf(r) in Findings(a)
    ensures forall q :: q in Records(a.trivy, a.grype) && KeyOf(q) == KeyOf(r) ==> !q.fixed
    ensures exists d :: d in a.reg.decisions && InForce(a.pol, d) && Decides(d, a, r)
  {
    hide Validate, Watched, Merge, Watch, ForRole, Records, Names, KeyOf, InForce, Fails, Holds, Listed, Sev, SetOf;
    hide Drifts;
    var recs := Records(a.trivy, a.grype);
    var k, base := KeyOf(r), Merge(map[], recs);
    PassIff(a, fails, holds);
    CollectedFindings(recs);
    WatchOnlyAdds(base, Sightings(Watched(a.wl).0), a.apk);
    InSet(recs, r);
    var f := Findings(a)[k];
    assert Sums(base[k], SetOf(recs), k);
    assert Severe(f);
    forall q | q in recs && KeyOf(q) == k ensures !q.fixed {
      InSet(recs, q);
    }
    var d :| d in DecisionsFor(a) && Covers(d, k, f);
    RoleDecisions(Validate(a.pol, a.reg).valid, a.role, d);
    ValidatedDecisions(a.pol, a.reg);
    KeyPackage(r);
    if d.id in f.aliases {
      var q :| q in SetOf(recs) && KeyOf(q) == k && d.id in Names(q) && d.id != k.id;
      InSet(recs, q);
    }
  }

  // An id a record gives to a key, or the key's own.
  predicate NamedBy(recs: seq<Rec>, k: Key, id: string) {
    id == k.id || exists q :: q in recs && KeyOf(q) == k && id in Names(q)
  }

  lemma {:induction false} InSet(recs: seq<Rec>, r: Rec)
    ensures r in recs <==> r in SetOf(recs)
  {
  }

  lemma {:induction false} KeyPackage(r: Rec)
    ensures KeyOf(r).pkg == r.pkg
  {
  }

  // ------------------------------------------------------------------ more records

  predicate FailsFixable(found: map<Key, Finding>, k: Key) {
    k in found && Severe(found[k]) && found[k].fixable
  }

  // A watched package installed in an affected version, which makes or raises the finding of a key.
  predicate Hits(s: Sighting, apk: map<string, string>, k: Key) {
    s.pkg in apk && apk[s.pkg] in s.w.affected && k == WatchKey(s, apk[s.pkg])
  }

  predicate Raises(s: Sighting, apk: map<string, string>, k: Key) {
    Hits(s, apk, k) && Rank(Sev(Some(s.w.severity))) >= Rank(High)
  }

  predicate HitIn(ss: seq<Sighting>, apk: map<string, string>, k: Key) {
    exists s :: s in ss && Hits(s, apk, k)
  }

  predicate RaisedIn(ss: seq<Sighting>, apk: map<string, string>, k: Key) {
    exists s :: s in ss && Raises(s, apk, k)
  }

  lemma {:induction false} FirstSighting(ss: seq<Sighting>, apk: map<string, string>, k: Key)
    requires ss != []
    ensures HitIn(ss, apk, k) <==> Hits(ss[0], apk, k) || HitIn(ss[1..], apk, k)
    ensures RaisedIn(ss, apk, k) <==> Raises(ss[0], apk, k) || RaisedIn(ss[1..], apk, k)
  {
    hide Hits, Raises;
    assert ss[0] in ss && forall t :: t in ss <==> t == ss[0] || t in ss[1..];
  }

  // What the watch list makes of one finding depends on which sightings there are, not on their order.
  lemma {:induction false} WatchedFinding(found: map<Key, Finding>, ss: seq<Sighting>, apk: map<string, string>, k: Key)
    ensures var out := Watch(found, ss, apk);
      && (k in out <==> k in found || HitIn(ss, apk, k))
      && (k in out ==>
            && out[k].fixable == (k in found && found[k].fixable)
            && out[k].aliases == (if k in found then found[k].aliases else {})
            && (Severe(out[k]) <==> (k in found && Severe(found[k])) || RaisedIn(ss, apk, k)))
    decreases |ss|
  {
    hide Sev, WatchKey, HitIn, RaisedIn;
    if ss == [] {
      NoSighting(apk, k);
    } else {
      var s := ss[0];
      var now := if s.pkg in apk && apk[s.pkg] in s.w.affected then Sight(found, s, apk[s.pkg]) else found;
      WatchedFinding(now, ss[1..], apk, k);
      FirstSighting(ss, apk, k);
    }
  }

  lemma {:induction false} NoSighting(apk: map<string, string>, k: Key)
    ensures !HitIn([], apk, k) && !RaisedIn([], apk, k)
  {
  }

  lemma {:induction false} MoreSightings(ss: seq<Sighting>, tt: seq<Sighting>, apk: map<string, string>, k: Key)
    requires forall s :: s in ss ==> s in tt
    ensures HitIn(ss, apk, k) ==> HitIn(tt, apk, k)
    ensures RaisedIn(ss, apk, k) ==> RaisedIn(tt, apk, k)
  {
    hide Hits, Raises;
  }

  // Scanner records and watch-list entries added to a run never clear a fixable High or Critical
  // finding; and such a finding fails the check whatever the register says.
  lemma {:induction false} FixableFailuresOnlyGrow(a: seq<Rec>, b: seq<Rec>, ss: seq<Sighting>, tt: seq<Sighting>,
                                                   apk: map<string, string>, ds: seq<Entry>, k: Key)
    requires SetOf(a) <= SetOf(b) && forall s :: s in ss ==> s in tt
    requires FailsFixable(Watch(Merge(map[], a), ss, apk), k)
    ensures var found := Watch(Merge(map[], b), tt, apk);
      FailsFixable(found, k) && VerdictOn(ds, k, found[k]) == Fixable && Messages(ds, found, true) != {}
  {
    hide SetOf, Merge, Watch, Sev, GroupMsg, HitIn, RaisedIn;
    MoreRecordsOnlyAdd(a, b);
    var f, g := Merge(map[], a), Merge(map[], b);
    WatchedFinding(f, ss, apk, k);
    WatchedFinding(g, tt, apk, k);
    MoreSightings(ss, tt, apk, k);
    assert k in f && Grows(f[k], g[k]);
    var found := Watch(g, tt, apk);
    var grp := Group(k.id, true, found[k].severity);
    assert grp in Groups(ds, found);
    assert GroupMsg(ds, found, grp) in Messages(ds, found, true);
  }

  // A decision for the package of a key under a name that some record gives the key.
  predicate NamedDecision(ds: seq<Entry>, recs: seq<Rec>, k: Key) {
    exists d, q :: d in ds && q in recs && KeyOf(q) == k && k.pkg in Listed(d.packages) && d.id in Names(q)
  }

  lemma {:induction false} CoveredByName(ds: seq<Entry>, recs: seq<Rec>, k: Key)
    requires k in Merge(map[], recs)
    requires forall d :: d in ds ==> !(k.pkg in Listed(d.packages) && d.id == k.id)
    ensures NamedDecision(ds, recs, k) <==> exists d :: d in ds && Covers(d, k, Merge(map[], recs)[k])
  {
    hide Merge, KeyOf, Names, Listed, SetOf;
    CollectedFindings(recs);
    var f := Merge(map[], recs)[k];
    assert Sums(f, SetOf(recs), k);
    if NamedDecision(ds, recs, k) {
      var d, q :| d in ds && q in recs && KeyOf(q) == k && k.pkg in Listed(d.packages) && d.id in Names(q);
      InSet(recs, q);
      assert Covers(d, k, f);
    }
    if d :| d in ds && Covers(d, k, f) {
      var q :| q in SetOf(recs) && KeyOf(q) == k && d.id in Names(q) && d.id != k.id;
      InSet(recs, q);
    }
  }

  lemma {:induction false} FixableByRecord(recs: seq<Rec>, k: Key)
    requires k in Merge(map[], recs)
    ensures Merge(map[], recs)[k].fixable <==> exists q :: q in recs && KeyOf(q) == k && q.fixed
  {
    hide Merge, KeyOf, SetOf;
    CollectedFindings(recs);
    forall q ensures q in recs <==> q in SetOf(recs) { InSet(recs, q); }
    assert Sums(Merge(map[], recs)[k], SetOf(recs), k);
  }

  lemma {:induction false} KeyedRecord(recs: seq<Rec>, q: Rec)
    requires q in recs
    ensures KeyOf(q) in Merge(map[], recs)
  {
    hide Merge, KeyOf, SetOf;
    CollectedFindings(recs);
    InSet(recs, q);
  }

  // A finding that needs a decision, whether scanners or the watch list brought it up, is cleared by added records and
  // watch-list entries exactly when no record of it is fixed and one of them gives it a name under which its package
  // is decided.
  lemma {:induction false} HoldsClearExactly(a: seq<Rec>, b: seq<Rec>, ss: seq<Sighting>, tt: seq<Sighting>,
                                             apk: map<string, string>, ds: seq<Entry>, k: Key)
    requires SetOf(a) <= SetOf(b) && forall s :: s in ss ==> s in tt
    requires var found := Watch(Merge(map[], a), ss, apk); k in found && VerdictOn(ds, k, found[k]) == Undecided
    ensures var found := Watch(Merge(map[], b), tt, apk);
      && k in found
      && (!Blocking(VerdictOn(ds, k, found[k])) <==>
            (forall q :: q in b && KeyOf(q) == k ==> !q.fixed) && NamedDecision(ds, b, k))
  {
    hide Merge, Watch, KeyOf, Names, Listed, SetOf, NamedDecision, HitIn, RaisedIn, Sev;
    MoreRecordsOnlyAdd(a, b);
    var f, g := Merge(map[], a), Merge(map[], b);
    WatchedFinding(f, ss, apk, k);
    WatchedFinding(g, tt, apk, k);
    MoreSightings(ss, tt, apk, k);
    assert k in f ==> Grows(f[k], g[k]);
    var before, now := Watch(f, ss, apk)[k], Watch(g, tt, apk)[k];
    assert Severe(now);
    forall d | d in ds
      ensures !(k.pkg in Listed(d.packages) && d.id == k.id)
    {
      assert !Covers(d, k, before);
    }
    if k in g {
      CoveredByName(ds, b, k);
      FixableByRecord(b, k);
      assert forall d :: Covers(d, k, now) <==> Covers(d, k, g[k]);
    } else {
      forall q | q in b
        ensures KeyOf(q) != k
      {
        KeyedRecord(b, q);
      }
      NobodyNames(ds, b, k);
    }
  }

  lemma {:induction false} NobodyNames(ds: seq<Entry>, recs: seq<Rec>, k: Key)
    requires forall q :: q in recs ==> KeyOf(q) != k
    ensures !NamedDecision(ds, recs, k)
  {
  }

  const FIRST := Rec("CVE-2024-0001", [], "p", "1", Some("HIGH"), false, [], "trivy", "npm")
  const SECOND := Rec("GHSA-2222-2222-2222", ["CVE-2024-0001"], "p", "1", Some("HIGH"), false, [], "grype", "npm")
  const RULING := Entry("GHSA-2222-2222-2222", Items([Some("p")]), Items([Some("web")]), "not-affected", "D-1", "owner",
                        "2024-01-01", "2024-02-01", "unused code")

  lemma {:induction false} ExampleKeys()
    ensures KeyOf(FIRST) == KeyOf(SECOND) == Key("CVE-2024-0001", "p", "1")
    ensures Names(FIRST) == {"CVE-2024-0001"} && "GHSA-2222-2222-2222" in Names(SECOND)
    ensures Sev(Some("HIGH")) == High
  {
    var cve, ghsa := "CVE-2024-0001", "GHSA-2222-2222-2222";
    assert IsCve(cve) && !IsCve(ghsa) by {
      assert "CVE-"[0] == 'C' && ghsa[0] == 'G';
    }
    assert FIRST.aliases == [] && [FIRST.aid] + FIRST.aliases == [cve];
    assert [cve][1..] == [];
    assert LeastCve([cve], "") == LeastCve([], cve) == cve;
    assert [SECOND.aid] + SECOND.aliases == [ghsa, cve] && [ghsa, cve][1..] == [cve];
    assert LeastCve([ghsa, cve], "") == LeastCve([cve], "");
    assert |ghsa| == 19 && |cve| == 13;
    assert Upper("HIGH") == "HIGH" by {
      assert "HIGH"[1..] == "IGH" && "IGH"[1..] == "GH" && "GH"[1..] == "H" && "H"[1..] == "";
      assert Upper("H") == "H" && Upper("GH") == "GH" && Upper("IGH") == "IGH";
    }
    assert "HIGH"[0] != "MEDIUM"[0] && |"HIGH"| == 4;
  }

  // The findings that only need a decision do not only grow: a record that brings the alias a decision
  // names clears one.
  lemma {:induction false} NewAliasClearsAHold()
    ensures var k := KeyOf(FIRST);
      var before, after := Merge(map[], [FIRST]), Merge(map[], [FIRST, SECOND]);
      && k in before && VerdictOn([RULING], k, before[k]) == Undecided
      && k in after && VerdictOn([RULING], k, after[k]) == Decided("D-1")
  {
    hide KeyOf, Names, Sev;
    ExampleKeys();
    var k := KeyOf(FIRST);
    assert [FIRST][1..] == [] && [FIRST, SECOND][1..] == [SECOND] && [SECOND][1..] == [];
    var before := Put(map[], FIRST);
    var after := Put(before, SECOND);
    assert Merge(map[], [FIRST]) == Merge(before, []) == before;
    assert Merge(map[], [FIRST, SECOND]) == Merge(before, [SECOND]) == Merge(after, []) == after;
    assert KeyId(FIRST) == KeyId(SECOND) == k.id by { KeyFields(FIRST); KeyFields(SECOND); }
    assert "GHSA-2222-2222-2222" != "CVE-2024-0001" by { assert |"GHSA-2222-2222-2222"| != |"CVE-2024-0001"|; }
    assert before[k].aliases == {} && "GHSA-2222-2222-2222" in after[k].aliases;
    assert RULING.packages.items[0] == Some("p");
    assert "p" in Listed(RULING.packages);
    assert [RULING][1..] == [];
    KeyPackage(FIRST);
    assert !Covers(RULING, k, before[k]) && Covers(RULING, k, after[k]);
  }
}
