// Laws of shown text: how far showing moves, splitting a shown string, and the lines of a page.

module PdfTextLaws {
  import opened Options
  import opened PdfValues
  import opened PdfDoc
  import opened PdfContent
  import opened PdfContentLaws

  // ------------------------------------------------------------------ advance

  // The codes of a string, in font-sized groups; a remainder too short for a code is not one.
  function Codes(n: nat, b: seq<Byte>): seq<nat>
    requires n > 0
    decreases |b|
  {
    if |b| < n then [] else [BigEndian(b[..n])] + Codes(n, b[n..])
  }

  function CodesAdvance(gs: Gs, codes: seq<nat>): real {
    if codes == [] then 0.0 else Advance(gs, codes[0]) + CodesAdvance(gs, codes[1..])
  }

  function PartAdvance(gs: Gs, p: Value): real {
    match p
    case Num(r) => GapAdvance(gs, r)
    case Str(b, _) => CodesAdvance(gs, Codes(gs.font.bytes, b))
    case _ => 0.0
  }

  // The displacement of everything shown, along the writing direction.
  function PartsAdvance(gs: Gs, parts: seq<Value>): real {
    if parts == [] then 0.0 else PartAdvance(gs, parts[0]) + PartsAdvance(gs, parts[1..])
  }

  lemma {:induction false} ShiftsAdd(x: real, y: real, m: Matrix)
    ensures Mul(Shift(y, 0.0), Mul(Shift(x, 0.0), m)) == Mul(Shift(x + y, 0.0), m)
    ensures Mul(Shift(0.0, 0.0), m) == m
  {
    assert (x + y) * m.a == x * m.a + y * m.a && (x + y) * m.b == x * m.b + y * m.b;
    assert Mul(Shift(x, 0.0), m) == Matrix(m.a, m.b, m.c, m.d, x * m.a + m.e, x * m.b + m.f);
  }

  lemma {:induction false} BytesMove(gs: Gs, b: seq<Byte>, s: Shown)
    ensures ShowBytes(gs, b, s).tm == Mul(Shift(CodesAdvance(gs, Codes(gs.font.bytes, b)), 0.0), s.tm)
    decreases |b|
  {
    hide Mul, Advance;
    var n := gs.font.bytes;
    if |b| < n {
      ShiftsAdd(0.0, 0.0, s.tm);
    } else {
      var code := BigEndian(b[..n]);
      BytesMove(gs, b[n..], ShowCode(gs, code, s));
      assert ([code] + Codes(n, b[n..]))[1..] == Codes(n, b[n..]);
      ShiftsAdd(Advance(gs, code), CodesAdvance(gs, Codes(n, b[n..])), s.tm);
    }
  }

  // Showing moves the text matrix by the sum of the advances of all codes and gaps, whether or not
  // any of them has text.
  lemma {:induction false} ShowMoves(gs: Gs, parts: seq<Value>, s: Shown)
    ensures ShowParts(gs, parts, s).tm == Mul(Shift(PartsAdvance(gs, parts), 0.0), s.tm)
    decreases |parts|
  {
    hide Mul, GapAdvance;
    if parts == [] {
      ShiftsAdd(0.0, 0.0, s.tm);
    } else {
      var s1 := ShowPart(gs, parts[0], s);
      match parts[0] {
        case Str(b, _) => BytesMove(gs, b, s);
        case _ => ShiftsAdd(0.0, 0.0, s.tm);
      }
      assert s1.tm == Mul(Shift(PartAdvance(gs, parts[0]), 0.0), s.tm);
      ShowMoves(gs, parts[1..], s1);
      ShiftsAdd(PartAdvance(gs, parts[0]), PartsAdvance(gs, parts[1..]), s.tm);
    }
  }

  // The origin of a text matrix in device space, t further along the writing direction.
  function Along(m: Matrix, t: real): Point {
    Point(m.e + t * m.a, m.f + t * m.b)
  }

  lemma {:induction false} Distribute(t: real, p: real, q: real, x: real, y: real, e: real, f: real)
    ensures (t * p + e) * x + (t * q + f) * y == t * (p * x + q * y) + (e * x + f * y)
  {
  }

  lemma {:induction false} ShiftedMatrix(t: real, tm: Matrix)
    ensures Mul(Shift(t, 0.0), tm) == Matrix(tm.a, tm.b, tm.c, tm.d, t * tm.a + tm.e, t * tm.b + tm.f)
  {
  }

  lemma {:induction false} ShiftedStart(t: real, tm: Matrix, ctm: Matrix)
    ensures var m, n := Mul(tm, ctm), Mul(Mul(Shift(t, 0.0), tm), ctm);
      n.c == m.c && n.d == m.d && Point(n.e, n.f) == Along(m, t)
  {
    var k := Mul(Shift(t, 0.0), tm);
    ShiftedMatrix(t, tm);
    Distribute(t, tm.a, tm.b, ctm.a, ctm.c, tm.e, tm.f);
    Distribute(t, tm.a, tm.b, ctm.b, ctm.d, tm.e, tm.f);
  }

  // A measurable run ends on its baseline: its end is its start moved by the total advance along the
  // writing direction of the text space.
  lemma {:induction false} RunEndsOnItsBaseline(env: Env, fr: Frame, parts: seq<Value>)
    ensures var s := ShowParts(fr.gs, parts, Shown(fr.tm, "", true)); var r := RunOf(env, fr, s);
      var m := Mul(fr.tm, fr.gs.ctm);
      (r.x, r.y) == (m.e, m.f) && (s.measurable ==> r.end == Some(Along(m, PartsAdvance(fr.gs, parts))))
  {
    hide Mul, ShowParts, Along, Shift;
    ShowMoves(fr.gs, parts, Shown(fr.tm, "", true));
    ShiftedStart(PartsAdvance(fr.gs, parts), fr.tm, fr.gs.ctm);
  }

  // ------------------------------------------------------------------ splitting a string

  // Showing after something else: the text goes on, the matrix moves on, and what cannot be measured stays so.
  function After(s: Shown, more: Shown): Shown {
    Shown(more.tm, s.text + more.text, s.measurable && more.measurable)
  }

  function Fresh(s: Shown): Shown {
    Shown(s.tm, "", true)
  }

  lemma {:induction false} BytesAfter(gs: Gs, b: seq<Byte>, s: Shown)
    ensures ShowBytes(gs, b, s) == After(s, ShowBytes(gs, b, Fresh(s)))
    decreases |b|
  {
    hide Mul, Advance, BigEndian;
    var n := gs.font.bytes;
    if |b| >= n {
      var code := BigEndian(b[..n]);
      BytesAfter(gs, b[n..], ShowCode(gs, code, s));
      BytesAfter(gs, b[n..], ShowCode(gs, code, Fresh(s)));
    }
  }

  lemma {:induction false} PartAfter(gs: Gs, p: Value, s: Shown)
    ensures ShowPart(gs, p, s) == After(s, ShowPart(gs, p, Fresh(s)))
  {
    hide Mul, ShowBytes;
    match p {
      case Str(b, _) => BytesAfter(gs, b, s);
      case _ =>
    }
  }

  lemma {:induction false} PartsAfter(gs: Gs, parts: seq<Value>, s: Shown)
    ensures ShowParts(gs, parts, s) == After(s, ShowParts(gs, parts, Fresh(s)))
    decreases |parts|
  {
    hide ShowPart;
    if parts != [] {
      var s1, s2 := ShowPart(gs, parts[0], s), ShowPart(gs, parts[0], Fresh(s));
      PartAfter(gs, parts[0], s);
      PartsAfter(gs, parts[1..], s1);
      PartsAfter(gs, parts[1..], s2);
      assert Fresh(s1) == Fresh(s2);
      var rest := ShowParts(gs, parts[1..], Fresh(s1));
      assert s.text + s2.text + rest.text == s.text + (s2.text + rest.text);
    } else {
      assert s.text + "" == s.text;
    }
  }

  lemma {:induction false} PartsAppend(gs: Gs, a: seq<Value>, b: seq<Value>, s: Shown)
    ensures ShowParts(gs, a + b, s) == ShowParts(gs, b, ShowParts(gs, a, s))
    decreases |a|
  {
    hide ShowPart;
    if a == [] {
      assert a + b == b;
    } else {
      assert (a + b)[1..] == a[1..] + b;
      PartsAppend(gs, a[1..], b, ShowPart(gs, a[0], s));
    }
  }

  lemma {:induction false} CodeBoundary(k: nat, n: nat)
    requires n > 0 && k > 0 && k % n == 0
    ensures k >= n && (k - n) % n == 0
  {
    var q, x := k / n, k - n;
    assert k == n * q;
    assert q <= 0 ==> n * q <= 0;
    assert x == n * (q - 1) == n * (x / n) + x % n;
    var d := q - 1 - x / n;
    assert n * d == x % n;
    assert d >= 1 ==> n * d >= n;
    assert d <= -1 ==> n * d <= -1 * n;
  }

  // A string cut at a code boundary shows as its two pieces in turn.
  lemma {:induction false} BytesSplit(gs: Gs, a: seq<Byte>, b: seq<Byte>, s: Shown)
    requires |a| % gs.font.bytes == 0
    ensures ShowBytes(gs, a + b, s) == ShowBytes(gs, b, ShowBytes(gs, a, s))
    decreases |a|
  {
    hide ShowCode, BigEndian;
    var n := gs.font.bytes;
    if a == [] {
      assert a + b == b;
    } else {
      CodeBoundary(|a|, n);
      assert (a + b)[..n] == a[..n] && (a + b)[n..] == a[n..] + b;
      BytesSplit(gs, a[n..], b, ShowCode(gs, BigEndian(a[..n]), s));
    }
  }

  predicate Sized(gs: Gs, parts: seq<Value>, tm: Matrix) {
    var s := ShowParts(gs, parts, Shown(tm, "", true));
    s.text != "" && s.measurable
  }

  // What linesOf() sees of a run that another one follows.
  predicate SameTail(r: TextRun, q: TextRun) {
    r.textObject == q.textObject && r.end.Some? && r.end == q.end && r.size == q.size
  }

  // Showing parts in one operation or in two, each with measurable text: one run against two that
  // meet exactly, and the same state afterwards.
  lemma {:induction false} ShowSplits(env: Env, fr: Frame, pg: Page, a: seq<Value>, b: seq<Value>)
    requires fr.inText && Sized(fr.gs, a, fr.tm)
    requires Sized(fr.gs, b, ShowParts(fr.gs, a, Shown(fr.tm, "", true)).tm)
    ensures var (f, p) := Show(env, fr, pg, a + b);
      var (f1, p1) := Show(env, fr, pg, a);
      var (f2, p2) := Show(env, f1, p1, b);
      && f == f2
      && exists r, r1, r2 ::
        && p == pg.(runs := pg.runs + [r]) && p2 == pg.(runs := pg.runs + [r1, r2])
        && r.text == r1.text + r2.text && r1.end == Some(Point(r2.x, r2.y)) && r1.text != ""
        && r.x == r1.x && r.y == r1.y && r.size == r1.size && r.textObject == r1.textObject == r2.textObject
        && SameTail(r, r2)
  {
    hide Mul, ShowParts, Along, Shift, PartsAdvance;
    var s0 := Shown(fr.tm, "", true);
    var s1 := ShowParts(fr.gs, a, s0);
    var s2 := ShowParts(fr.gs, b, Fresh(s1));
    PartsAppend(fr.gs, a, b, s0);
    PartsAfter(fr.gs, b, s1);
    var f1 := fr.(tm := s1.tm);
    var r, r1, r2 := RunOf(env, fr, After(s1, s2)), RunOf(env, fr, s1), RunOf(env, f1, s2);
    ShowMoves(fr.gs, a, s0);
    ShiftedStart(PartsAdvance(fr.gs, a), fr.tm, fr.gs.ctm);
    assert After(s1, s2).text != "";
    assert pg.runs + [r1] + [r2] == pg.runs + [r1, r2];
    assert SameTail(r, r2);
  }

  // ------------------------------------------------------------------ lines

  function Texts(runs: seq<TextRun>): string {
    if runs == [] then "" else runs[0].text + Texts(runs[1..])
  }

  function Joined(lines: seq<string>): string {
    if lines == [] then "" else lines[0] + Joined(lines[1..])
  }

  lemma {:induction false} JoinedAppend(a: seq<string>, b: seq<string>)
    ensures Joined(a + b) == Joined(a) + Joined(b)
  {
    if a == [] {
      assert a + b == b;
    } else {
      assert (a + b)[1..] == a[1..] + b;
      JoinedAppend(a[1..], b);
    }
  }

  lemma {:induction false} FoldKeepsText(st: LineState, runs: seq<TextRun>)
    requires forall i :: 0 <= i < |st.lines| ==> st.lines[i] != ""
    ensures var out := LineFold(st, runs);
      && Joined(out.lines) + out.line == Joined(st.lines) + st.line + Texts(runs)
      && forall i :: 0 <= i < |out.lines| ==> out.lines[i] != ""
    decreases |runs|
  {
    hide Continues;
    if runs != [] {
      var st1 := LineStep(st, runs[0]);
      JoinedAppend(st.lines, [st.line]);
      assert Joined([st.line]) == st.line + Joined([]);
      assert Joined(st1.lines) + st1.line == Joined(st.lines) + st.line + runs[0].text;
      FoldKeepsText(st1, runs[1..]);
    }
  }

  // The lines of any runs hold exactly their texts, in order, and none of them is empty.
  lemma {:induction false} LinesKeepText(runs: seq<TextRun>)
    ensures Joined(LinesOf(runs)) == Texts(runs)
    ensures forall i :: 0 <= i < |LinesOf(runs)| ==> LinesOf(runs)[i] != ""
  {
    hide LineFold;
    FoldKeepsText(LineState([], "", None), runs);
    var st := LineFold(LineState([], "", None), runs);
    JoinedAppend(st.lines, [st.line]);
    assert Joined([st.line]) == st.line + Joined([]) == st.line;
    assert Joined(st.lines) + "" == Joined(st.lines);
    assert "" + Texts(runs) == Texts(runs) && Joined([]) + "" == "";
  }

  lemma {:induction false} FoldAppend(st: LineState, a: seq<TextRun>, b: seq<TextRun>)
    ensures LineFold(st, a + b) == LineFold(LineFold(st, a), b)
    decreases |a|
  {
    hide LineStep;
    if a == [] {
      assert a + b == b;
    } else {
      assert (a + b)[1..] == a[1..] + b;
      FoldAppend(LineStep(st, a[0]), a[1..], b);
    }
  }

  lemma {:induction false} FoldShift(front: seq<string>, st: LineState, runs: seq<TextRun>)
    ensures LineFold(st.(lines := front + st.lines), runs) ==
      var out := LineFold(st, runs); out.(lines := front + out.lines)
    decreases |runs|
  {
    hide Continues;
    if runs != [] {
      assert front + st.lines + [st.line] == front + (st.lines + [st.line]);
      FoldShift(front, LineStep(st, runs[0]), runs[1..]);
    }
  }

  predicate NoneEmpty(runs: seq<TextRun>) {
    forall i :: 0 <= i < |runs| ==> runs[i].text != ""
  }

  lemma {:induction false} FoldEnd(st: LineState, runs: seq<TextRun>)
    requires runs != [] && NoneEmpty(runs)
    ensures LineFold(st, runs).prev == Some(runs[|runs| - 1]) && LineFold(st, runs).line != ""
    decreases |runs|
  {
    hide Continues;
    if |runs| > 1 {
      FoldEnd(LineStep(st, runs[0]), runs[1..]);
    } else {
      assert LineFold(LineStep(st, runs[0]), runs[1..]) == LineStep(st, runs[0]);
    }
  }

  // Lines of which the last of the first group and the first of the second are one.
  function Meet(p: seq<string>, q: seq<string>): seq<string>
    requires p != [] && q != []
  {
    p[..|p| - 1] + [p[|p| - 1] + q[0]] + q[1..]
  }

  // Between two groups of runs there is a line break exactly where the first run of the second group
  // does not continue the last run of the first; otherwise their touching lines are one line.
  lemma {:induction false} LinesBreakWhereRunsDoNotContinue(a: seq<TextRun>, b: seq<TextRun>)
    requires a != [] && b != [] && NoneEmpty(a) && NoneEmpty(b)
    ensures LinesOf(a) != [] && LinesOf(b) != []
    ensures LinesOf(a + b) ==
      if Continues(a[|a| - 1], b[0]) then Meet(LinesOf(a), LinesOf(b)) else LinesOf(a) + LinesOf(b)
  {
    hide Continues, Meet;
    var start := LineState([], "", None);
    var st := LineFold(start, a);
    FoldAppend(start, a, b);
    FoldEnd(start, a);
    FoldEnd(start, b);
    var one := LineStep(start, b[0]);
    if Continues(a[|a| - 1], b[0]) {
      var joined := LineState([], st.line + b[0].text, Some(b[0]));
      assert LineStep(st, b[0]) == joined.(lines := st.lines + joined.lines) by {
        assert st.lines + [] == st.lines;
      }
      FoldShift(st.lines, joined, b[1..]);
      assert one == LineState([], b[0].text, Some(b[0])) by { assert "" + b[0].text == b[0].text; }
      FoldPrefix(st.line, joined, one, b[1..]);
      MeetingLines(st, LineFold(joined, b[1..]), LineFold(one, b[1..]));
    } else {
      assert LineStep(st, b[0]) == one.(lines := (st.lines + [st.line]) + one.lines) by {
        assert (st.lines + [st.line]) + [] == st.lines + [st.line];
      }
      FoldShift(st.lines + [st.line], one, b[1..]);
    }
  }

  // o is what becomes of o' when its first line has x before it.
  predicate Prefixed(x: string, o: LineState, o': LineState) {
    && o.prev == o'.prev && o'.line != ""
    && if o'.lines == [] then o.lines == [] && o.line == x + o'.line
       else o.lines == [x + o'.lines[0]] + o'.lines[1..] && o.line == o'.line
  }

  lemma {:induction false} FoldPrefix(x: string, st: LineState, st': LineState, runs: seq<TextRun>)
    requires Prefixed(x, st, st') && NoneEmpty(runs)
    ensures Prefixed(x, LineFold(st, runs), LineFold(st', runs))
    decreases |runs|
  {
    hide Continues;
    if runs != [] {
      StepPrefix(x, st, st', runs[0]);
      FoldPrefix(x, LineStep(st, runs[0]), LineStep(st', runs[0]), runs[1..]);
    }
  }

  lemma {:induction false} StepPrefix(x: string, st: LineState, st': LineState, r: TextRun)
    requires Prefixed(x, st, st') && r.text != ""
    ensures Prefixed(x, LineStep(st, r), LineStep(st', r))
  {
    hide Continues;
    assert x + st'.line + r.text == x + (st'.line + r.text);
  }

  lemma {:induction false} MeetingLines(st: LineState, o: LineState, o': LineState)
    requires st.line != "" && Prefixed(st.line, o, o')
    ensures LineEnds(o.(lines := st.lines + o.lines)) == Meet(LineEnds(st), LineEnds(o'))
  {
    assert LineEnds(st) == st.lines + [st.line];
    assert LineEnds(o') == o'.lines + [o'.line];
    assert (st.lines + [st.line])[..|st.lines|] == st.lines;
  }

  // ------------------------------------------------------------------ a split string on its page

  predicate SameLineState(st: LineState, st': LineState) {
    st.lines == st'.lines && st.line == st'.line && st.prev.Some? && st'.prev.Some? &&
    SameTail(st.prev.value, st'.prev.value)
  }

  lemma {:induction false} SameLinesOn(st: LineState, st': LineState, runs: seq<TextRun>)
    requires SameLineState(st, st')
    ensures LineEnds(LineFold(st, runs)) == LineEnds(LineFold(st', runs))
    decreases |runs|
  {
    if runs != [] {
      assert Continues(st.prev.value, runs[0]) == Continues(st'.prev.value, runs[0]);
      if |runs| > 1 {
        assert LineStep(st, runs[0]) == LineStep(st', runs[0]);
      }
    }
  }

  // Replacing a run by two that meet exactly changes no line, whatever runs stand around it.
  lemma {:induction false} SplitRunKeepsLines(front: seq<TextRun>, r: TextRun, r1: TextRun, r2: TextRun,
                                              rest: seq<TextRun>)
    requires r.text == r1.text + r2.text && r1.end == Some(Point(r2.x, r2.y)) && r1.text != ""
    requires r.x == r1.x && r.y == r1.y && r.size == r1.size && r.textObject == r1.textObject == r2.textObject
    requires SameTail(r, r2)
    ensures LinesOf(front + [r] + rest) == LinesOf(front + [r1, r2] + rest)
  {
    var start := LineState([], "", None);
    var st := LineFold(start, front);
    FoldAppend(start, front + [r], rest);
    FoldAppend(start, front + [r1, r2], rest);
    FoldAppend(start, front, [r]);
    FoldAppend(start, front, [r1, r2]);
    assert [r][1..] == [] && [r1, r2][1..] == [r2] && [r2][1..] == [];
    var one := LineStep(st, r);
    var two := LineStep(LineStep(st, r1), r2);
    assert LineFold(st, [r]) == one;
    assert LineFold(st, [r1, r2]) == LineFold(LineStep(st, r1), [r2]) == two;
    assert Continues(r1, r2);
    if st.prev.Some? {
      assert Continues(st.prev.value, r) == Continues(st.prev.value, r1);
    }
    assert st.line + r1.text + r2.text == st.line + r.text;
    SameLinesOn(one, two, rest);
  }

  lemma {:induction false} TextOpGrows(env: Env, op: string, fr: Frame, pg: Page, had: seq<TextRun>)
    ensures TextOp(env, op, fr, pg.(runs := had + pg.runs)) ==
      var (f, p) := TextOp(env, op, fr, pg); (f, p.(runs := had + p.runs))
  {
    hide ShowParts, RunOf, Mul;
    assert forall r: TextRun :: had + pg.runs + [r] == had + (pg.runs + [r]);
  }

  // What a stream adds to a page does not depend on the runs the page already has.
  lemma {:induction false} RunsOnlyGrow(env: Env, sc: Scope, ts: seq<Value>, fr: Frame, pg: Page, had: seq<TextRun>)
    requires sc.depth <= MAX_DEPTH
    ensures Run(env, sc, ts, fr, pg.(runs := had + pg.runs)) ==
      var (f, p) := Run(env, sc, ts, fr, pg); (f, p.(runs := had + p.runs))
    decreases MAX_DEPTH - sc.depth, |ts|
  {
    hide Step, StateOp, TextOp, XObjectFor, Mul;
    if ts != [] {
      var pg' := pg.(runs := had + pg.runs);
      var (f, p) := Step(env, sc, ts[0], fr, pg);
      StepCases(env, sc, ts[0], fr, pg);
      StepCases(env, sc, ts[0], fr, pg');
      if ts[0].Op? {
        TextOpGrows(env, ts[0].op, fr, pg, had);
        OperatorsDiffer();
      }
      var xo := XObjectFor(env.doc, sc.resources, Operand(fr, 1));
      if ts[0] == Op("Do") && Enters(sc, xo, pg) {
        var inner := Scope(xo.resources, Mul(xo.matrix, fr.gs.ctm), sc.depth + 1);
        RunsOnlyGrow(env, inner, Tokens(xo.body, 0), StartFrame(inner.base), pg.(seen := pg.seen + {xo.id}), had);
      }
      assert Step(env, sc, ts[0], fr, pg') == (f, p.(runs := had + p.runs));
      RunsOnlyGrow(env, sc, ts[1..], f, p, had);
    }
  }

  lemma {:induction false} ShowString(env: Env, sc: Scope, b: seq<Byte>, hex: bool, fr: Frame, pg: Page)
    requires sc.depth <= MAX_DEPTH
    ensures Run(env, sc, [Str(b, hex), Op("Tj")], fr, pg) ==
      var (f, p) := Show(env, fr, pg, [Str(b, hex)]); (f.(operands := []), p)
  {
    hide Step, ShowParts, RunOf;
    OperatorsDiffer();
    var fr1 := fr.(operands := fr.operands + [Str(b, hex)]);
    StepCases(env, sc, Str(b, hex), fr, pg);
    StepCases(env, sc, Op("Tj"), fr1, pg);
    assert ShowsText("Tj") && "Tj" != "BT" by {
      assert "Tj"[0] != "BT"[0];
    }
    assert OperandPart(fr1) == [Str(b, hex)];
    assert [Str(b, hex), Op("Tj")][1..] == [Op("Tj")] && [Op("Tj")][1..] == [];
    ShowIgnoresOperands(env, fr, fr1, pg, [Str(b, hex)]);
    var (f, p) := Show(env, fr1, pg, [Str(b, hex)]);
    assert Step(env, sc, Op("Tj"), fr1, pg) == (f.(operands := []), p);
    assert Run(env, sc, [Op("Tj")], fr1, pg) == (f.(operands := []), p);
  }

  lemma {:induction false} ShowIgnoresOperands(env: Env, fr: Frame, fr': Frame, pg: Page, parts: seq<Value>)
    requires fr' == fr.(operands := fr'.operands)
    ensures var (f, p) := Show(env, fr, pg, parts); Show(env, fr', pg, parts) == (f.(operands := fr'.operands), p)
  {
    hide ShowParts;
    assert fr'.gs == fr.gs && fr'.tm == fr.tm && fr'.textObject == fr.textObject && fr'.inText == fr.inText;
    var s := ShowParts(fr.gs, parts, Shown(fr.tm, "", true));
    assert RunOf(env, fr', s) == RunOf(env, fr, s);
  }

  // Each of two strings in turn has text, and every code of it has a width.
  predicate SizedStrings(gs: Gs, a: seq<Byte>, b: seq<Byte>, tm: Matrix) {
    var s1 := ShowBytes(gs, a, Shown(tm, "", true));
    var s2 := ShowBytes(gs, b, Shown(s1.tm, "", true));
    s1.text != "" && s1.measurable && s2.text != "" && s2.measurable
  }

  lemma {:induction false} OneString(gs: Gs, b: seq<Byte>, hex: bool, s: Shown)
    ensures ShowParts(gs, [Str(b, hex)], s) == ShowBytes(gs, b, s)
  {
    hide ShowBytes;
    assert [Str(b, hex)][1..] == [];
    assert ShowParts(gs, [Str(b, hex)], s) == ShowParts(gs, [], ShowBytes(gs, b, s));
  }

  lemma {:induction false} JoinedStringParts(gs: Gs, a: seq<Byte>, b: seq<Byte>, hex: bool, s: Shown)
    requires |a| % gs.font.bytes == 0
    ensures ShowParts(gs, [Str(a + b, hex)], s) == ShowParts(gs, [Str(a, hex)] + [Str(b, hex)], s)
  {
    hide ShowBytes;
    BytesSplit(gs, a, b, s);
    PartsAppend(gs, [Str(a, hex)], [Str(b, hex)], s);
    OneString(gs, a, hex, s);
    OneString(gs, a + b, hex, s);
    OneString(gs, b, hex, ShowBytes(gs, a, s));
  }

  lemma {:induction false} ShowJoined(env: Env, fr: Frame, pg: Page, a: seq<Byte>, b: seq<Byte>, hex: bool)
    requires |a| % fr.gs.font.bytes == 0
    ensures Show(env, fr, pg, [Str(a + b, hex)]) == Show(env, fr, pg, [Str(a, hex)] + [Str(b, hex)])
  {
    hide ShowParts, RunOf;
    JoinedStringParts(fr.gs, a, b, hex, Shown(fr.tm, "", true));
  }

  // Cutting a shown string at a code boundary into two that are shown in turn: the stream goes on in
  // the same state, and the lines of the whole page are the same.
  lemma {:induction false} SplitStringKeepsThePage(env: Env, sc: Scope, before: seq<Value>, a: seq<Byte>, b: seq<Byte>,
                                                    hex: bool, after: seq<Value>, fr: Frame, pg: Page)
    requires sc.depth <= MAX_DEPTH
    requires var f := Run(env, sc, before, fr, pg).0;
      f.inText && |a| % f.gs.font.bytes == 0 && SizedStrings(f.gs, a, b, f.tm)
    ensures var whole := Run(env, sc, before + [Str(a + b, hex), Op("Tj")] + after, fr, pg);
      var split := Run(env, sc, before + ([Str(a, hex), Op("Tj")] + [Str(b, hex), Op("Tj")]) + after, fr, pg);
      whole.0 == split.0 && LinesOf(whole.1.runs) == LinesOf(split.1.runs)
  {
    hide Run, Show, ShowBytes, Continues;
    var one := [Str(a + b, hex), Op("Tj")];
    var two1, two2 := [Str(a, hex), Op("Tj")], [Str(b, hex), Op("Tj")];
    var (f, p) := Run(env, sc, before, fr, pg);
    RunAppend(env, sc, before + one, after, fr, pg);
    RunAppend(env, sc, before, one, fr, pg);
    RunAppend(env, sc, before + (two1 + two2), after, fr, pg);
    RunAppend(env, sc, before, two1 + two2, fr, pg);
    RunAppend(env, sc, two1, two2, f, p);
    ShowString(env, sc, a + b, hex, f, p);
    ShowString(env, sc, a, hex, f, p);
    var (g1, p1) := Show(env, f, p, [Str(a, hex)]);
    ShowString(env, sc, b, hex, g1.(operands := []), p1);
    ShowIgnoresOperands(env, g1, g1.(operands := []), p1, [Str(b, hex)]);
    OneString(f.gs, a, hex, Shown(f.tm, "", true));
    var s1 := ShowBytes(f.gs, a, Shown(f.tm, "", true));
    OneString(f.gs, b, hex, Shown(s1.tm, "", true));
    ShowJoined(env, f, p, a, b, hex);
    ShowSplits(env, f, p, [Str(a, hex)], [Str(b, hex)]);
    var (g0, p0) := Show(env, f, p, [Str(a + b, hex)]);
    var (g2, p2) := Show(env, g1, p1, [Str(b, hex)]);
    var next := g0.(operands := []);
    assert Run(env, sc, one, f, p) == (next, p0);
    assert Run(env, sc, two1 + two2, f, p) == (next, p2);
    RunsOnlyGrow(env, sc, after, next, p0.(runs := []), p0.runs);
    RunsOnlyGrow(env, sc, after, next, p2.(runs := []), p2.runs);
    assert p0.runs + [] == p0.runs && p2.runs + [] == p2.runs;
    assert p0.(runs := []) == p2.(runs := []);
    var rest := Run(env, sc, after, next, p0.(runs := [])).1.runs;
    var r, r1, r2 :| p0 == p.(runs := p.runs + [r]) && p2 == p.(runs := p.runs + [r1, r2])
        && r.text == r1.text + r2.text && r1.end == Some(Point(r2.x, r2.y)) && r1.text != ""
        && r.x == r1.x && r.y == r1.y && r.size == r1.size && r.textObject == r1.textObject == r2.textObject
        && SameTail(r, r2);
    SplitRunKeepsLines(p.runs, r, r1, r2, rest);
  }
}
