// Laws of content-stream interpretation: nesting, text objects, splitting of shown text, lines.

module PdfContentLaws {
  import opened Options
  import opened PdfValues
  import opened PdfDoc
  import opened PdfContent

  lemma {:induction false} OperatorsDiffer()
    ensures "q" != "'" && "q" != "\"" && "Q" != "'" && "Q" != "\"" && "Q" != "q"
    ensures "Do" != "BT" && "Do" != "Tj" && "Do" != "TJ" && "BT" != "TJ" && "BT" != "Tj"
  {
    assert "q"[0] == 'q' && "Q"[0] == 'Q' && "'"[0] == '\'' && "\""[0] == '"';
    assert "Do"[0] == 'D' && "BT"[0] == 'B' && "Tj"[0] == 'T' && "TJ"[0] == 'T';
  }

  predicate Enters(sc: Scope, xo: XObject, pg: Page) {
    xo.Form? && sc.depth < MAX_DEPTH && xo.id !in pg.seen
  }

  // The page after a form has run.
  function Entered(env: Env, sc: Scope, ctm: Matrix, xo: XObject, pg: Page): Page
    requires Enters(sc, xo, pg)
  {
    var inner := Scope(xo.resources, Mul(xo.matrix, ctm), sc.depth + 1);
    var p := Run(env, inner, Tokens(xo.body, 0), StartFrame(inner.base), pg.(seen := pg.seen + {xo.id})).1;
    p.(seen := p.seen - {xo.id})
  }

  // One step, case by case.
  lemma {:induction false} StepCases(env: Env, sc: Scope, t: Value, fr: Frame, pg: Page)
    requires sc.depth <= MAX_DEPTH
    ensures !t.Op? ==> Step(env, sc, t, fr, pg) == (fr.(operands := fr.operands + [t]), pg)
    ensures t.Op? && ShowsText(t.op) ==>
      var (f, p) := TextOp(env, t.op, fr, pg); Step(env, sc, t, fr, pg) == (f.(operands := []), p)
    ensures t.Op? && !ShowsText(t.op) && t.op != "Do" ==>
      Step(env, sc, t, fr, pg) == (StateOp(env, sc, t.op, fr).(operands := []), pg)
    ensures t == Op("Do") ==>
      var xo := XObjectFor(env.doc, sc.resources, Operand(fr, 1));
      var p := if Enters(sc, xo, pg) then Entered(env, sc, fr.gs.ctm, xo, pg)
               else if xo.ImageXObject? then pg.(images := pg.images + [xo.image]) else pg;
      Step(env, sc, t, fr, pg) == (fr.(operands := []), p)
  {
    hide StateOp, TextOp, XObjectFor;
    if t.Op? {
      var (f, p) := Operator(env, sc, t.op, fr, pg);
      var xo := XObjectFor(env.doc, sc.resources, Operand(fr, 1));
      var d := Draw(env, sc, fr.gs.ctm, xo, pg);
      if t.op == "Do" && Enters(sc, xo, pg) {
        var inner := Scope(xo.resources, Mul(xo.matrix, fr.gs.ctm), sc.depth + 1);
        var p' := Scan(env, inner, xo.body, pg.(seen := pg.seen + {xo.id}));
      }
    }
  }

  lemma {:induction false} RunAppend(env: Env, sc: Scope, a: seq<Value>, b: seq<Value>, fr: Frame, pg: Page)
    requires sc.depth <= MAX_DEPTH
    ensures Run(env, sc, a + b, fr, pg) == var (f, p) := Run(env, sc, a, fr, pg); Run(env, sc, b, f, p)
    decreases |a|
  {
    hide Step;
    if a == [] {
      assert a + b == b;
    } else {
      assert (a + b)[1..] == a[1..] + b;
      var (f, p) := Step(env, sc, a[0], fr, pg);
      RunAppend(env, sc, a[1..], b, f, p);
    }
  }

  // ------------------------------------------------------------------ q and Q

  // The number of open q after ts, starting with d of them; None when a Q finds none open.
  function OpenAfter(ts: seq<Value>, d: nat): Option<nat>
    decreases |ts|
  {
    if ts == [] then Some(d)
    else if ts[0] == Op("q") then OpenAfter(ts[1..], d + 1)
    else if ts[0] == Op("Q") then if d == 0 then None else OpenAfter(ts[1..], d - 1)
    else OpenAfter(ts[1..], d)
  }

  lemma {:induction false} StackSteps(env: Env, sc: Scope, t: Value, fr: Frame, pg: Page)
    requires sc.depth <= MAX_DEPTH
    ensures t == Op("q") ==> Step(env, sc, t, fr, pg) == (fr.(stack := fr.stack + [fr.gs], operands := []), pg)
    ensures t == Op("Q") && fr.stack != [] ==>
      var n := |fr.stack| - 1;
      Step(env, sc, t, fr, pg) == (fr.(gs := fr.stack[n], stack := fr.stack[..n], operands := []), pg)
    ensures t != Op("q") && t != Op("Q") ==> Step(env, sc, t, fr, pg).0.stack == fr.stack
  {
    hide Step, FontFor, XObjectFor, ShowParts, RunOf, Mul, Entered;
    OperatorsDiffer();
    StepCases(env, sc, t, fr, pg);
  }

  // Whatever runs above the saved states of the enclosing operators leaves them as they were.
  lemma {:induction false} SavedStatesSurvive(env: Env, sc: Scope, ts: seq<Value>, fr: Frame, pg: Page, kept: nat)
    requires sc.depth <= MAX_DEPTH && kept <= |fr.stack|
    requires OpenAfter(ts, |fr.stack| - kept).Some?
    ensures var out := Run(env, sc, ts, fr, pg).0.stack;
      kept <= |out| && out[..kept] == fr.stack[..kept] && |out| - kept == OpenAfter(ts, |fr.stack| - kept).value
    decreases |ts|
  {
    hide Step;
    if ts != [] {
      var (f, p) := Step(env, sc, ts[0], fr, pg);
      StackSteps(env, sc, ts[0], fr, pg);
      if ts[0] == Op("Q") {
        OperatorsDiffer();
      }
      assert f.stack[..kept] == fr.stack[..kept];
      SavedStatesSurvive(env, sc, ts[1..], f, p, kept);
    }
  }

  // A balanced sequence between q and Q restores the matrix and the whole text state and leaves the
  // saved states alone (section 8.4.2 of ISO 32000-1). The text matrices and the text object are not
  // part of what is saved: they stay as the inner sequence left them.
  lemma {:induction false} BalancedRestores(env: Env, sc: Scope, ts: seq<Value>, fr: Frame, pg: Page)
    requires sc.depth <= MAX_DEPTH && OpenAfter(ts, 0) == Some(0)
    ensures var (f, p) := Run(env, sc, [Op("q")] + ts + [Op("Q")], fr, pg);
      var (inner, p') := Run(env, sc, [Op("q")] + ts, fr, pg);
      && f.gs == fr.gs && f.stack == fr.stack && f.operands == [] && p == p'
      && f.tm == inner.tm && f.tlm == inner.tlm && f.inText == inner.inText && f.textObject == inner.textObject
  {
    hide Step;
    var (f0, p0) := Step(env, sc, Op("q"), fr, pg);
    StackSteps(env, sc, Op("q"), fr, pg);
    assert f0 == fr.(stack := fr.stack + [fr.gs], operands := []) && p0 == pg;
    assert ([Op("q")] + ts)[1..] == ts;
    var (f1, p1) := Run(env, sc, ts, f0, p0);
    assert Run(env, sc, [Op("q")] + ts, fr, pg) == (f1, p1);
    SavedStatesSurvive(env, sc, ts, f0, p0, |fr.stack| + 1);
    assert f1.stack == f1.stack[..|fr.stack| + 1] == fr.stack + [fr.gs];
    assert f1.stack[|f1.stack| - 1] == fr.gs && f1.stack[..|f1.stack| - 1] == fr.stack;
    RunAppend(env, sc, [Op("q")] + ts, [Op("Q")], fr, pg);
    assert [Op("Q")][1..] == [];
    StackSteps(env, sc, Op("Q"), f1, p1);
    assert Run(env, sc, [Op("Q")], f1, p1) == Step(env, sc, Op("Q"), f1, p1);
  }

  // ------------------------------------------------------------------ forms

  // Running any content leaves the set of running forms as it found it, however the forms refer to
  // each other.
  lemma {:induction false} FormsAreLeft(env: Env, sc: Scope, ts: seq<Value>, fr: Frame, pg: Page)
    requires sc.depth <= MAX_DEPTH
    ensures Run(env, sc, ts, fr, pg).1.seen == pg.seen
    decreases MAX_DEPTH - sc.depth, |ts|
  {
    hide Step, StateOp, ShowParts, RunOf, XObjectFor;
    if ts != [] {
      var (f, p) := Step(env, sc, ts[0], fr, pg);
      StepCases(env, sc, ts[0], fr, pg);
      var xo := XObjectFor(env.doc, sc.resources, Operand(fr, 1));
      if ts[0] == Op("Do") && Enters(sc, xo, pg) {
        var inner := Scope(xo.resources, Mul(xo.matrix, fr.gs.ctm), sc.depth + 1);
        FormsAreLeft(env, inner, Tokens(xo.body, 0), StartFrame(inner.base), pg.(seen := pg.seen + {xo.id}));
        assert pg.seen + {xo.id} - {xo.id} == pg.seen;
      }
      FormsAreLeft(env, sc, ts[1..], f, p);
    }
  }

  // ------------------------------------------------------------------ text objects

  // Every index given out so far is below the counter.
  predicate IndexedBelow(runs: seq<TextRun>, bound: int) {
    forall i :: 0 <= i < |runs| ==> runs[i].textObject < bound
  }

  // The runs a page has gained are in the frame's own open text object or in one begun since.
  predicate NewRuns(fr: Frame, pg: Page, pg': Page) {
    pg.counter <= pg'.counter && |pg.runs| <= |pg'.runs| && pg'.runs[..|pg.runs|] == pg.runs &&
    forall i :: |pg.runs| <= i < |pg'.runs| ==>
      (fr.inText && pg'.runs[i].textObject == fr.textObject) || pg.counter <= pg'.runs[i].textObject < pg'.counter
  }

  // The runs a page has gained are all in text objects begun since.
  predicate Begins(pg: Page, pg': Page) {
    pg.counter <= pg'.counter && |pg.runs| <= |pg'.runs| && pg'.runs[..|pg.runs|] == pg.runs &&
    forall i :: |pg.runs| <= i < |pg'.runs| ==> pg.counter <= pg'.runs[i].textObject < pg'.counter
  }

  // What a frame's own text object may become.
  predicate OwnIndex(fr: Frame, pg: Page, fr': Frame, pg': Page) {
    (fr'.textObject == fr.textObject && (fr'.inText ==> fr.inText)) || pg.counter <= fr'.textObject < pg'.counter
  }

  // The frame after BT.
  function Begun(fr: Frame, pg: Page): Frame {
    fr.(inText := true, tm := IDENTITY, tlm := IDENTITY, textObject := pg.counter, operands := [])
  }

  lemma {:induction false} StateOpIndices(env: Env, sc: Scope, op: string, fr: Frame)
    ensures var f := StateOp(env, sc, op, fr); f.textObject == fr.textObject && (f.inText ==> fr.inText)
  {
    hide FontFor, Mul, N, Six;
  }

  lemma {:induction false} TextOpIndices(env: Env, op: string, fr: Frame, pg: Page)
    requires fr.textObject < pg.counter
    ensures var (f, p) := TextOp(env, op, fr, pg); NewRuns(fr, pg, p) && OwnIndex(fr, pg, f, p)
    ensures op != "BT" ==> TextOp(env, op, fr, pg).0.textObject == fr.textObject
    ensures op == "BT" ==> var (f, p) := TextOp(env, op, fr, pg);
      f.(operands := []) == Begun(fr, pg) && p == pg.(counter := pg.counter + 1)
  {
    hide ShowParts, Mul, N, DeviceSize;
  }

  lemma {:induction false} StepIndices(env: Env, sc: Scope, t: Value, fr: Frame, pg: Page)
    requires sc.depth <= MAX_DEPTH && fr.textObject < pg.counter
    ensures var (f, p) := Step(env, sc, t, fr, pg); NewRuns(fr, pg, p) && OwnIndex(fr, pg, f, p)
    ensures t == Op("BT") ==> Step(env, sc, t, fr, pg) == (Begun(fr, pg), pg.(counter := pg.counter + 1))
    ensures t == Op("Do") ==> Begins(pg, Step(env, sc, t, fr, pg).1)
    ensures t != Op("BT") ==> Step(env, sc, t, fr, pg).0.textObject == fr.textObject
    decreases MAX_DEPTH - sc.depth, 0
  {
    hide Step, Mul, XObjectFor, StateOp, TextOp;
    OperatorsDiffer();
    StepCases(env, sc, t, fr, pg);
    if t.Op? {
      StateOpIndices(env, sc, t.op, fr);
      TextOpIndices(env, t.op, fr, pg);
    }
    var xo := XObjectFor(env.doc, sc.resources, Operand(fr, 1));
    if t == Op("Do") && Enters(sc, xo, pg) {
      var inner := Scope(xo.resources, Mul(xo.matrix, fr.gs.ctm), sc.depth + 1);
      RunIndices(env, inner, Tokens(xo.body, 0), StartFrame(inner.base), pg.(seen := pg.seen + {xo.id}));
    }
  }

  lemma {:induction false} RunIndices(env: Env, sc: Scope, ts: seq<Value>, fr: Frame, pg: Page)
    requires sc.depth <= MAX_DEPTH && fr.textObject < pg.counter
    ensures var (f, p) := Run(env, sc, ts, fr, pg); NewRuns(fr, pg, p) && OwnIndex(fr, pg, f, p)
    ensures Op("BT") !in ts ==> Run(env, sc, ts, fr, pg).0.textObject == fr.textObject
    decreases MAX_DEPTH - sc.depth, 1, |ts|
  {
    hide Step;
    if ts != [] {
      var (f, p) := Step(env, sc, ts[0], fr, pg);
      StepIndices(env, sc, ts[0], fr, pg);
      RunIndices(env, sc, ts[1..], f, p);
      var (f2, p2) := Run(env, sc, ts[1..], f, p);
      assert p2.runs[..|pg.runs|] == p2.runs[..|p.runs|][..|pg.runs|];
      forall i | |pg.runs| <= i < |p2.runs|
        ensures (fr.inText && p2.runs[i].textObject == fr.textObject)
             || pg.counter <= p2.runs[i].textObject < p2.counter
      {
        assert i < |p.runs| ==> p2.runs[i] == p2.runs[..|p.runs|][i];
      }
    }
  }

  // The runs a page gained before a BT of a stream and the runs it gains from that BT on, in the
  // stream itself or in forms, never share an index.
  lemma {:induction false} BeginTextSeparates(env: Env, sc: Scope, before: seq<Value>, after: seq<Value>, pg: Page)
    requires sc.depth <= MAX_DEPTH && IndexedBelow(pg.runs, pg.counter)
    ensures var (f1, p1) := Run(env, sc, before, StartFrame(sc.base), pg);
      var p2 := Run(env, sc, before + [Op("BT")] + after, StartFrame(sc.base), pg).1;
      && |p1.runs| <= |p2.runs| && p2.runs[..|p1.runs|] == p1.runs
      && forall i, j :: 0 <= i < |p1.runs| <= j < |p2.runs| ==> p2.runs[i].textObject < p2.runs[j].textObject
  {
    hide Step;
    var fr := StartFrame(sc.base);
    var (f1, p1) := Run(env, sc, before, fr, pg);
    RunIndices(env, sc, before, fr, pg);
    RunAppend(env, sc, before, [Op("BT")] + after, fr, pg);
    assert before + [Op("BT")] + after == before + ([Op("BT")] + after);
    assert ([Op("BT")] + after)[1..] == after;
    StepIndices(env, sc, Op("BT"), f1, p1);
    var (f, p) := Step(env, sc, Op("BT"), f1, p1);
    RunIndices(env, sc, after, f, p);
    var p2 := Run(env, sc, after, f, p).1;
    forall i, j | 0 <= i < |p1.runs| <= j < |p2.runs| ensures p2.runs[i].textObject < p2.runs[j].textObject {
      assert p2.runs[i] == p2.runs[..|p.runs|][i];
      assert i >= |pg.runs| || p1.runs[i] == pg.runs[i];
    }
  }

  // Runs shown through Do are in text objects begun inside the form, so they share an index with no
  // earlier run and with no later run the enclosing stream shows before its next BT.
  lemma {:induction false} FormsAreSeparate(env: Env, sc: Scope, ts: seq<Value>, fr: Frame, pg: Page)
    requires sc.depth <= MAX_DEPTH && fr.textObject < pg.counter && IndexedBelow(pg.runs, pg.counter)
    requires Op("BT") !in ts
    ensures var p1 := Step(env, sc, Op("Do"), fr, pg).1;
      && |pg.runs| <= |p1.runs| && p1.runs[..|pg.runs|] == pg.runs
      && (forall i, j :: 0 <= i < |pg.runs| <= j < |p1.runs| ==> p1.runs[i].textObject < p1.runs[j].textObject)
      && forall j :: |pg.runs| <= j < |p1.runs| ==>
           Run(env, sc, [Op("Do")] + ts, fr, pg).0.textObject < p1.runs[j].textObject
  {
    hide Step;
    StepIndices(env, sc, Op("Do"), fr, pg);
    var (f, p1) := Step(env, sc, Op("Do"), fr, pg);
    assert ([Op("Do")] + ts)[1..] == ts;
    RunIndices(env, sc, ts, f, p1);
    assert forall i :: 0 <= i < |pg.runs| ==> p1.runs[i] == p1.runs[..|pg.runs|][i];
  }

  lemma {:induction false} OneStepOneTextObject(env: Env, sc: Scope, t: Value, fr: Frame, pg: Page)
    requires sc.depth <= MAX_DEPTH && t != Op("BT") && t != Op("Do")
    ensures var (f, p) := Step(env, sc, t, fr, pg);
      f.textObject == fr.textObject &&
      (p.runs == pg.runs || (|p.runs| == |pg.runs| + 1 && p.runs[..|pg.runs|] == pg.runs &&
                             p.runs[|pg.runs|].textObject == fr.textObject))
  {
    hide Step, ShowParts, StateOp, Mul, DeviceSize;
    StepCases(env, sc, t, fr, pg);
    if t.Op? {
      StateOpIndices(env, sc, t.op, fr);
    }
  }

  // Without a BT and without forms, everything a stream shows is in one text object.
  lemma {:induction false} OneTextObject(env: Env, sc: Scope, ts: seq<Value>, fr: Frame, pg: Page)
    requires sc.depth <= MAX_DEPTH && Op("BT") !in ts && Op("Do") !in ts
    ensures var p := Run(env, sc, ts, fr, pg).1;
      && |pg.runs| <= |p.runs| && p.runs[..|pg.runs|] == pg.runs
      && forall i :: |pg.runs| <= i < |p.runs| ==> p.runs[i].textObject == fr.textObject
    decreases |ts|
  {
    hide Step;
    if ts != [] {
      var (f, p) := Step(env, sc, ts[0], fr, pg);
      assert ts[0] != Op("BT") && ts[0] != Op("Do");
      OneStepOneTextObject(env, sc, ts[0], fr, pg);
      OneTextObject(env, sc, ts[1..], f, p);
      var p2 := Run(env, sc, ts[1..], f, p).1;
      assert p2.runs[..|pg.runs|] == p2.runs[..|p.runs|][..|pg.runs|];
      forall i | |pg.runs| <= i < |p2.runs| ensures p2.runs[i].textObject == fr.textObject {
        assert i < |p.runs| ==> p2.runs[i] == p2.runs[..|p.runs|][i];
      }
    }
  }
}
