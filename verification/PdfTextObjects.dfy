// Which BT every run of a page was shown under, nested forms included, and that the text-object index says exactly
// that.

module PdfTextObjects {
  import opened Options
  import opened PdfValues
  import opened PdfContent
  import opened PdfContentLaws

  // The place of an operator in the run of a page: the places of the Do operators that led into its stream, from the
  // page's own stream on, and its place there.
  type Address = seq<nat>

  // The BT under which each run is shown that a step adds to the page; `bt` is the last one of the stream so far.
  function StepTags(env: Env, sc: Scope, t: Value, at: nat, prefix: Address, bt: Option<Address>, fr: Frame, pg: Page)
    : seq<Option<Address>>
    requires sc.depth <= MAX_DEPTH
    decreases MAX_DEPTH - sc.depth, 0
  {
    var xo := XObjectFor(env.doc, sc.resources, Operand(fr, 1));
    if t == Op("Do") && Enters(sc, xo, pg) then
      var inner := Scope(xo.resources, Mul(xo.matrix, fr.gs.ctm), sc.depth + 1);
      RunTags(env, inner, Tokens(xo.body, 0), 0, prefix + [at], None, StartFrame(inner.base),
              pg.(seen := pg.seen + {xo.id}))
    else if |Step(env, sc, t, fr, pg).1.runs| > |pg.runs| then [bt]
    else []
  }

  function NextBt(t: Value, at: nat, prefix: Address, bt: Option<Address>): Option<Address> {
    if t == Op("BT") then Some(prefix + [at]) else bt
  }

  function RunTags(env: Env, sc: Scope, ts: seq<Value>, at: nat, prefix: Address, bt: Option<Address>, fr: Frame,
                   pg: Page)
    : seq<Option<Address>>
    requires sc.depth <= MAX_DEPTH
    decreases MAX_DEPTH - sc.depth, 1, |ts|
  {
    if ts == [] then []
    else
      var (f, p) := Step(env, sc, ts[0], fr, pg);
      StepTags(env, sc, ts[0], at, prefix, bt, fr, pg) +
      RunTags(env, sc, ts[1..], at + 1, prefix, NextBt(ts[0], at, prefix, bt), f, p)
  }

  // ------------------------------------------------------------------ addresses

  // In the stream of the prefix, or in forms it runs, from the given place on.
  predicate Inside(a: Address, prefix: Address, at: nat) {
    |a| > |prefix| && a[..|prefix|] == prefix && a[|prefix|] >= at
  }

  // The last BT of a stream lies in it, before the given place.
  predicate Before(bt: Option<Address>, prefix: Address, at: nat) {
    bt.Some? ==> |bt.value| > |prefix| && bt.value[..|prefix|] == prefix && bt.value[|prefix|] < at
  }

  lemma {:induction false} InsideForm(a: Address, prefix: Address, at: nat)
    requires Inside(a, prefix + [at], 0)
    ensures Inside(a, prefix, at) && a[|prefix|] == at
  {
    var p := prefix + [at];
    assert a[..|prefix|] == a[..|p|][..|prefix|] == p[..|prefix|] == prefix;
    assert a[|prefix|] == a[..|p|][|prefix|] == at;
  }

  // A run added to a page is shown under the BT its stream had before, or under one begun since.
  predicate Fits(bt: Option<Address>, index: int, prefix: Address, at: nat, low: int, high: int, tag: Option<Address>,
                 textObject: int) {
    || (tag == bt && bt.Some? && textObject == index)
    || (tag.Some? && Inside(tag.value, prefix, at) && low <= textObject < high)
  }

  // The runs added, and the BTs they are shown under.
  predicate Matched(bt: Option<Address>, index: int, prefix: Address, at: nat, low: int, high: int,
                    tags: seq<Option<Address>>, runs: seq<TextRun>) {
    && |tags| == |runs| && low <= high
    && (forall i :: 0 <= i < |tags| ==> Fits(bt, index, prefix, at, low, high, tags[i], runs[i].textObject))
    && (forall i, j :: 0 <= i < |tags| && 0 <= j < |tags| ==>
          (tags[i] == tags[j] <==> runs[i].textObject == runs[j].textObject))
  }

  // The runs after a BT go on from it.
  lemma {:induction false} AfterBegin(bt: Option<Address>, index: int, prefix: Address, at: nat, low: int, high: int,
                                      tags: seq<Option<Address>>, runs: seq<TextRun>)
    requires Matched(Some(prefix + [at]), low, prefix, at + 1, low + 1, high, tags, runs)
    ensures Matched(bt, index, prefix, at, low, high, tags, runs)
  {
    assert Inside(prefix + [at], prefix, at);
  }

  // The runs of a form, then those of the rest of the stream.
  lemma {:induction false} AfterForm(bt: Option<Address>, index: int, prefix: Address, at: nat, low: int, mid: int,
                                     high: int, t1: seq<Option<Address>>, r1: seq<TextRun>, t2: seq<Option<Address>>,
                                     r2: seq<TextRun>)
    requires Matched(None, -1, prefix + [at], 0, low, mid, t1, r1)
    requires Matched(bt, index, prefix, at + 1, mid, high, t2, r2)
    requires Before(bt, prefix, at) && index < low
    ensures Matched(bt, index, prefix, at, low, high, t1 + t2, r1 + r2)
  {
    var tags, runs := t1 + t2, r1 + r2;
    forall i | 0 <= i < |t1|
      ensures t1[i].Some? && Inside(t1[i].value, prefix, at) && t1[i].value[|prefix|] == at
      ensures low <= r1[i].textObject < mid
    {
      assert Fits(None, -1, prefix + [at], 0, low, mid, t1[i], r1[i].textObject);
      InsideForm(t1[i].value, prefix, at);
    }
    forall j | 0 <= j < |t2|
      ensures t2[j].Some? && t2[j].value[|prefix|] != at
      ensures r2[j].textObject < low || r2[j].textObject >= mid
    {
      assert Fits(bt, index, prefix, at + 1, mid, high, t2[j], r2[j].textObject);
    }
    forall i | 0 <= i < |tags|
      ensures Fits(bt, index, prefix, at, low, high, tags[i], runs[i].textObject)
    {
      if i >= |t1| {
        assert Fits(bt, index, prefix, at + 1, mid, high, t2[i - |t1|], r2[i - |t1|].textObject);
      }
    }
  }

  // At most one run shown in the open text object, then the rest of the stream.
  lemma {:induction false} AfterShow(bt: Option<Address>, index: int, prefix: Address, at: nat, low: int, high: int,
                                     r1: seq<TextRun>, t2: seq<Option<Address>>, r2: seq<TextRun>)
    requires |r1| <= 1 && (r1 != [] ==> bt.Some? && r1[0].textObject == index)
    requires Matched(bt, index, prefix, at + 1, low, high, t2, r2)
    requires Before(bt, prefix, at) && index < low
    ensures Matched(bt, index, prefix, at, low, high, (if r1 == [] then [] else [bt]) + t2, r1 + r2)
  {
    var t1 := if r1 == [] then [] else [bt];
    var tags, runs := t1 + t2, r1 + r2;
    forall j | 0 <= j < |t2|
      ensures Fits(bt, index, prefix, at, low, high, t2[j], r2[j].textObject)
      ensures t2[j] == bt <==> r2[j].textObject == index
    {
      assert Fits(bt, index, prefix, at + 1, low, high, t2[j], r2[j].textObject);
    }
    forall i | 0 <= i < |tags|
      ensures Fits(bt, index, prefix, at, low, high, tags[i], runs[i].textObject)
    {
      if i >= |t1| {
        assert tags[i] == t2[i - |t1|] && runs[i] == r2[i - |t1|];
      }
    }
  }

  // ------------------------------------------------------------------ running

  function Added(pg: Page, p: Page): seq<TextRun> {
    if |pg.runs| <= |p.runs| then p.runs[|pg.runs|..] else []
  }

  predicate FrameOk(bt: Option<Address>, prefix: Address, at: nat, fr: Frame, pg: Page) {
    fr.textObject < pg.counter && pg.counter >= 0 && Before(bt, prefix, at) && (fr.inText ==> bt.Some?)
  }

  // After a step the frame still knows its BT.
  lemma {:induction false} StepFrame(env: Env, sc: Scope, t: Value, at: nat, prefix: Address, bt: Option<Address>,
                                     fr: Frame, pg: Page)
    requires sc.depth <= MAX_DEPTH && FrameOk(bt, prefix, at, fr, pg)
    ensures var (f, p) := Step(env, sc, t, fr, pg); FrameOk(NextBt(t, at, prefix, bt), prefix, at + 1, f, p)
  {
    hide Step;
    StepIndices(env, sc, t, fr, pg);
    assert (prefix + [at])[..|prefix|] == prefix;
  }

  lemma {:induction false} AddedInTwo(pg: Page, p: Page, p2: Page)
    requires |pg.runs| <= |p.runs| <= |p2.runs|
    requires p.runs[..|pg.runs|] == pg.runs && p2.runs[..|p.runs|] == p.runs
    ensures Added(pg, p2) == Added(pg, p) + Added(p, p2)
  {
    assert p2.runs == p.runs + p2.runs[|p.runs|..];
  }

  // A step other than BT and the Do of a form adds at most one run, in the open text object.
  lemma {:induction false} PlainStep(env: Env, sc: Scope, t: Value, fr: Frame, pg: Page)
    requires sc.depth <= MAX_DEPTH && fr.textObject < pg.counter && t != Op("BT")
    requires t == Op("Do") ==> !Enters(sc, XObjectFor(env.doc, sc.resources, Operand(fr, 1)), pg)
    ensures var (f, p) := Step(env, sc, t, fr, pg); var more := Added(pg, p);
      && |pg.runs| <= |p.runs| && p.runs[..|pg.runs|] == pg.runs && p.counter >= pg.counter
      && |more| <= 1 && (more != [] ==> fr.inText && more[0].textObject == fr.textObject)
      && f.textObject == fr.textObject
  {
    hide Step, XObjectFor;
    StepIndices(env, sc, t, fr, pg);
    if t == Op("Do") {
      StepCases(env, sc, t, fr, pg);
    } else {
      OneStepOneTextObject(env, sc, t, fr, pg);
    }
  }

  lemma {:induction false} FormStep(env: Env, sc: Scope, fr: Frame, pg: Page)
    requires sc.depth <= MAX_DEPTH && Enters(sc, XObjectFor(env.doc, sc.resources, Operand(fr, 1)), pg)
    ensures var xo := XObjectFor(env.doc, sc.resources, Operand(fr, 1));
      var inner := Scope(xo.resources, Mul(xo.matrix, fr.gs.ctm), sc.depth + 1);
      var within := pg.(seen := pg.seen + {xo.id});
      var done := Run(env, inner, Tokens(xo.body, 0), StartFrame(inner.base), within).1;
      var p := Step(env, sc, Op("Do"), fr, pg).1;
      p.counter == done.counter && Added(pg, p) == Added(within, done)
  {
    hide Step, XObjectFor, Mul;
    StepCases(env, sc, Op("Do"), fr, pg);
  }

  // The runs that a stream adds to a page carry one index exactly when they are shown under one BT.
  lemma {:induction false} TagsMatch(env: Env, sc: Scope, ts: seq<Value>, at: nat, prefix: Address, bt: Option<Address>,
                                     fr: Frame, pg: Page)
    requires sc.depth <= MAX_DEPTH && FrameOk(bt, prefix, at, fr, pg)
    ensures var p := Run(env, sc, ts, fr, pg).1;
      Matched(bt, fr.textObject, prefix, at, pg.counter, p.counter,
              RunTags(env, sc, ts, at, prefix, bt, fr, pg), Added(pg, p))
    decreases MAX_DEPTH - sc.depth, |ts|
  {
    hide Step, Matched, FrameOk, Before, Enters, XObjectFor, Mul, Tokens;
    if ts == [] {
      NothingAdded(bt, fr.textObject, prefix, at, pg);
    } else {
      var t := ts[0];
      var (f, p) := Step(env, sc, t, fr, pg);
      var bt2 := NextBt(t, at, prefix, bt);
      var p2 := Run(env, sc, ts[1..], f, p).1;
      FrameIs(bt, prefix, at, fr, pg);
      StepFrame(env, sc, t, at, prefix, bt, fr, pg);
      FrameIs(bt2, prefix, at + 1, f, p);
      TagsMatch(env, sc, ts[1..], at + 1, prefix, bt2, f, p);
      StepIndices(env, sc, t, fr, pg);
      RunIndices(env, sc, ts[1..], f, p);
      AddedInTwo(pg, p, p2);
      var t2, r2 := RunTags(env, sc, ts[1..], at + 1, prefix, bt2, f, p), Added(p, p2);
      var xo := XObjectFor(env.doc, sc.resources, Operand(fr, 1));
      if t == Op("BT") {
        assert [] + r2 == r2 && [] + t2 == t2;
        AfterBegin(bt, fr.textObject, prefix, at, pg.counter, p2.counter, t2, r2);
      } else if t == Op("Do") && Enters(sc, xo, pg) {
        FormTags(env, sc, at, prefix, bt, fr, pg);
        AfterForm(bt, fr.textObject, prefix, at, pg.counter, p.counter, p2.counter,
                  StepTags(env, sc, t, at, prefix, bt, fr, pg), Added(pg, p), t2, r2);
      } else {
        PlainStep(env, sc, t, fr, pg);
        MatchedLow(bt, fr.textObject, prefix, at + 1, pg.counter, p.counter, p2.counter, t2, r2);
        AfterShow(bt, fr.textObject, prefix, at, pg.counter, p2.counter, Added(pg, p), t2, r2);
      }
    }
  }

  lemma {:induction false} FrameIs(bt: Option<Address>, prefix: Address, at: nat, fr: Frame, pg: Page)
    requires FrameOk(bt, prefix, at, fr, pg)
    ensures fr.textObject < pg.counter && pg.counter >= 0 && Before(bt, prefix, at) && (fr.inText ==> bt.Some?)
  {
  }

  lemma {:induction false} MatchedLow(bt: Option<Address>, index: int, prefix: Address, at: nat, low: int, mid: int,
                                      high: int, tags: seq<Option<Address>>, runs: seq<TextRun>)
    requires Matched(bt, index, prefix, at, mid, high, tags, runs) && low <= mid
    ensures Matched(bt, index, prefix, at, low, high, tags, runs)
  {
    forall i | 0 <= i < |tags|
      ensures Fits(bt, index, prefix, at, low, high, tags[i], runs[i].textObject)
    {
      assert Fits(bt, index, prefix, at, mid, high, tags[i], runs[i].textObject);
    }
  }

  lemma {:induction false} NothingAdded(bt: Option<Address>, index: int, prefix: Address, at: nat, pg: Page)
    ensures Matched(bt, index, prefix, at, pg.counter, pg.counter, [], Added(pg, pg))
  {
  }

  lemma {:induction false} FormTags(env: Env, sc: Scope, at: nat, prefix: Address, bt: Option<Address>, fr: Frame,
                                    pg: Page)
    requires sc.depth <= MAX_DEPTH && fr.textObject < pg.counter && pg.counter >= 0
    requires Enters(sc, XObjectFor(env.doc, sc.resources, Operand(fr, 1)), pg)
    ensures var p := Step(env, sc, Op("Do"), fr, pg).1;
      Matched(None, -1, prefix + [at], 0, pg.counter, p.counter,
              StepTags(env, sc, Op("Do"), at, prefix, bt, fr, pg), Added(pg, p))
    decreases MAX_DEPTH - sc.depth, 0
  {
    hide Step, Matched, XObjectFor, Mul, Tokens, Added;
    var xo := XObjectFor(env.doc, sc.resources, Operand(fr, 1));
    var inner := Scope(xo.resources, Mul(xo.matrix, fr.gs.ctm), sc.depth + 1);
    var within := pg.(seen := pg.seen + {xo.id});
    FormStep(env, sc, fr, pg);
    TagsMatch(env, inner, Tokens(xo.body, 0), 0, prefix + [at], None, StartFrame(inner.base), within);
  }

  // Over a whole page, nested forms included, two runs carry the same text-object index exactly when they are shown
  // under the same BT.
  lemma {:induction false} SameIndexSameBt(env: Env, content: string, resources: Option<seq<Entry>>)
    ensures var sc, pg := Scope(resources, IDENTITY, 0), Page([], [], 0, {});
      var runs := Scan(env, sc, content, pg).runs;
      var tags := RunTags(env, sc, Tokens(content, 0), 0, [], None, StartFrame(IDENTITY), pg);
      && |tags| == |runs|
      && (forall i :: 0 <= i < |runs| ==> tags[i].Some?)
      && forall i, j :: 0 <= i < |runs| && 0 <= j < |runs| ==>
           (runs[i].textObject == runs[j].textObject <==> tags[i] == tags[j])
  {
    hide Run, Tokens, RunTags;
    var sc, pg := Scope(resources, IDENTITY, 0), Page([], [], 0, {});
    var ts := Tokens(content, 0);
    TagsMatch(env, sc, ts, 0, [], None, StartFrame(IDENTITY), pg);
    var p := Run(env, sc, ts, StartFrame(IDENTITY), pg).1;
    assert Added(pg, p) == p.runs;
    var tags := RunTags(env, sc, ts, 0, [], None, StartFrame(IDENTITY), pg);
    forall i | 0 <= i < |tags|
      ensures tags[i].Some?
    {
      assert Fits(None, -1, [], 0, 0, p.counter, tags[i], p.runs[i].textObject);
    }
  }
}
