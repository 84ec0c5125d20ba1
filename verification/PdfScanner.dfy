// scanContent() and linesOf() as the source runs them: one object for what a page and its forms
// share, one for the state of a content stream, and the loops that change them.

module PdfScanner {
  import opened Options
  import opened Reals
  import opened PdfValues
  import PdfLexer
  import opened PdfDoc
  import opened PdfContent

  // out, counter and seenForms of the source.
  class PageScan {
    var runs: seq<TextRun>
    var images: seq<Image>
    var counter: nat
    var seen: set<int>

    function State(): Page
      reads this
    {
      Page(runs, images, counter, seen)
    }

    constructor ()
      ensures State() == Page([], [], 0, {})
    {
      runs, images, counter, seen := [], [], 0, {};
    }
  }

  // The local variables of one scanContent() call.
  class StreamState {
    const env: Env
    const sc: Scope
    const out: PageScan
    var ctm: Matrix
    var stack: seq<Gs>
    var tm: Matrix
    var tlm: Matrix
    var font: FontInfo
    var fontSize: real
    var charSpacing: real
    var wordSpacing: real
    var hScale: real
    var leading: real
    var inText: bool
    var textObject: int
    var operands: seq<Value>

    function Saved(): Gs
      reads this
    {
      Gs(ctm, font, fontSize, charSpacing, wordSpacing, hScale, leading)
    }

    function State(): Frame
      reads this
    {
      Frame(Saved(), stack, tm, tlm, inText, textObject, operands)
    }

    constructor (env: Env, sc: Scope, out: PageScan)
      ensures State() == StartFrame(sc.base) && this.env == env && this.sc == sc && this.out == out
    {
      this.env, this.sc, this.out := env, sc, out;
      ctm, stack, tm, tlm := sc.base, [], IDENTITY, IDENTITY;
      font, fontSize, charSpacing, wordSpacing, hScale, leading := UNKNOWN_FONT, 0.0, 0.0, 0.0, 1.0, 0.0;
      inText, textObject, operands := false, -1, [];
    }

    // The codes of one string: the matrix moves over each, and its text is collected.
    method ShowCodes(b: seq<Byte>, text0: string, measurable0: bool) returns (text: string, measurable: bool)
      modifies this`tm
      ensures Shown(tm, text, measurable) == ShowBytes(Saved(), b, Shown(old(tm), text0, measurable0))
    {
      hide Mul, Shift, Advance, BigEndian;
      text, measurable := text0, measurable0;
      var i := 0;
      while i + font.bytes <= |b|
        invariant 0 <= i <= |b|
        invariant ShowBytes(Saved(), b[i..], Shown(tm, text, measurable)) ==
                  ShowBytes(Saved(), b, Shown(old(tm), text0, measurable0))
      {
        assert b[i..][..font.bytes] == b[i..i + font.bytes] && b[i..][font.bytes..] == b[i + font.bytes..];
        var code := BigEndian(b[i..i + font.bytes]);
        text := text + font.decode(code);
        var w := font.width(code);
        if w.None? {
          measurable := false;
        }
        tm := Mul(Shift(Advance(Saved(), code), 0.0), tm);
        i := i + font.bytes;
      }
    }

    method ShowText(parts: seq<Value>)
      modifies this`tm, out`runs
      ensures (State(), out.State()) == Show(env, old(State()), old(out.State()), parts)
    {
      if !inText {
        return;
      }
      ghost var first := Shown(tm, "", true);
      var start := Mul(tm, ctm);
      var text := "";
      var measurable := true;
      for k := 0 to |parts|
        invariant ShowParts(Saved(), parts[k..], Shown(tm, text, measurable)) == ShowParts(Saved(), parts, first)
        invariant out.State() == old(out.State())
      {
        assert parts[k..][1..] == parts[k + 1..];
        assert text + "" == text;
        var p := parts[k];
        if p.Num? {
          if p.value < -250.0 {
            text := text + " ";
          }
          tm := Mul(Shift(GapAdvance(Saved(), p.value), 0.0), tm);
        } else if p.Str? {
          text, measurable := ShowCodes(p.bytes, text, measurable);
        }
      }
      assert parts[|parts|..] == [];
      ghost var shown := Shown(tm, text, measurable);
      assert shown == ShowParts(old(Saved()), parts, first);
      if text == "" {
        return;
      }
      var endM := Mul(tm, ctm);
      ghost var run := RunOf(env, old(State()), shown);
      out.runs := out.runs + [TextRun(text, textObject, start.e, start.f,
                                      if measurable then Some(Point(endM.e, endM.f)) else None,
                                      DeviceSize(env, fontSize, start))];
      assert out.runs == old(out.runs) + [run];
    }

    method ToNextLine()
      modifies this`tm, this`tlm
      ensures State() == NextLine(old(State()))
    {
      tlm := Mul(Shift(0.0, -leading), tlm);
      tm := tlm;
    }

    // Q.
    method Restore()
      modifies this
      ensures State() == Restored(sc, old(State()))
    {
      if |stack| > 0 {
        var saved := stack[|stack| - 1];
        stack := stack[..|stack| - 1];
        ctm, font, fontSize, charSpacing := saved.ctm, saved.font, saved.fontSize, saved.charSpacing;
        wordSpacing, hScale, leading := saved.wordSpacing, saved.hScale, saved.leading;
      } else {
        ctm := sc.base;
      }
    }

    // The operators on what q saves.
    method SetGraphics(op: string)
      modifies this
      ensures State() == GraphicsOp(env, sc, op, old(State()))
    {
      hide Mul, N, Six, FontFor, Operand, Restored;
      var f := State();
      if op == "q" {
        stack := stack + [Saved()];
      } else if op == "Q" {
        Restore();
      } else if op == "cm" {
        ctm := Mul(Six(f), ctm);
      } else if op == "Tf" {
        font := FontFor(env, sc.resources, Operand(f, 2));
        fontSize := N(f, 1);
      } else if op == "Tc" {
        charSpacing := N(f, 1);
      } else if op == "Tw" {
        wordSpacing := N(f, 1);
      } else if op == "Tz" {
        hScale := N(f, 1) / 100.0;
      } else if op == "TL" {
        leading := N(f, 1);
      }
    }

    // The operators on the text position.
    method SetPosition(op: string)
      requires Positions(op)
      modifies this
      ensures State() == PositionOp(op, old(State()))
    {
      hide Mul, N, Six;
      var f := State();
      if op == "ET" {
        inText := false;
      } else if op == "Td" {
        tlm := Mul(Shift(N(f, 2), N(f, 1)), tlm);
        tm := tlm;
      } else if op == "TD" {
        leading := -N(f, 1);
        tlm := Mul(Shift(N(f, 2), N(f, 1)), tlm);
        tm := tlm;
      } else if op == "Tm" {
        tlm := Six(f);
        tm := tlm;
      } else {
        ToNextLine();
      }
    }

    // The operators that show text or begin a text object.
    method TextOperator(op: string)
      requires ShowsText(op)
      modifies this, out
      ensures (State(), out.State()) == TextOp(env, op, old(State()), old(out.State()))
    {
      var f := State();
      if op == "BT" {
        inText := true;
        tlm := IDENTITY;
        tm := IDENTITY;
        textObject := out.counter;
        out.counter := out.counter + 1;
      } else if op == "Tj" {
        ShowText(OperandPart(f));
      } else if op == "'" {
        ToNextLine();
        ShowText(OperandPart(f));
      } else if op == "\"" {
        wordSpacing := N(f, 3);
        charSpacing := N(f, 2);
        ToNextLine();
        ShowText(OperandPart(f));
      } else {
        var arr := Operand(f, 1);
        if arr.Some? && arr.value.Arr? {
          ShowText(arr.value.items);
        }
      }
    }
  }

  // Do.
  method DrawXObject(env: Env, sc: Scope, ctm: Matrix, name: Option<Value>, out: PageScan)
    requires sc.depth <= MAX_DEPTH
    modifies out
    ensures out.State() == Draw(env, sc, ctm, XObjectFor(env.doc, sc.resources, name), old(out.State()))
    decreases MAX_DEPTH - sc.depth, 0
  {
    var xo := XObjectFor(env.doc, sc.resources, name);
    if xo.ImageXObject? {
      out.images := out.images + [xo.image];
    } else if xo.Form? && sc.depth < MAX_DEPTH && xo.id !in out.seen {
      out.seen := out.seen + {xo.id};
      ScanContent(env, Scope(xo.resources, Mul(xo.matrix, ctm), sc.depth + 1), xo.body, out);
      out.seen := out.seen - {xo.id};
    }
  }

  method ScanContent(env: Env, sc: Scope, content: string, out: PageScan)
    requires sc.depth <= MAX_DEPTH
    modifies out
    ensures out.State() == Scan(env, sc, content, old(out.State()))
    decreases MAX_DEPTH - sc.depth, 2
  {
    var st := new StreamState(env, sc, out);
    var lexer := new PdfLexer.Lexer(content);
    ghost var pg := out.State();
    while true
      invariant lexer.pos <= |content| + 1
      invariant Run(env, sc, Tokens(content, lexer.pos), st.State(), out.State()) ==
                Run(env, sc, Tokens(content, 0), StartFrame(sc.base), pg)
      decreases |content| + 1 - lexer.pos
    {
      ghost var p := lexer.pos;
      var t := lexer.Value();
      if t == Eof {
        break;
      }
      if t.Val? {
        ghost var f0, p0 := st.State(), out.State();
        Interpret(env, sc, t.v, st, out);
        if t.v.Op? && t.v.op == "ID" {
          lexer.SkipInlineImage();
        }
      }
    }
  }

  // One operand or operator.
  method Interpret(env: Env, sc: Scope, v: Value, st: StreamState, out: PageScan)
    requires sc.depth <= MAX_DEPTH && st.env == env && st.sc == sc && st.out == out
    modifies st, out
    ensures (st.State(), out.State()) == Step(env, sc, v, old(st.State()), old(out.State()))
    decreases MAX_DEPTH - sc.depth, 1
  {
    ghost var fr, pg := st.State(), out.State();
    if !v.Op? {
      st.operands := st.operands + [v];
      return;
    }
    if v.op == "Do" {
      var name := Operand(st.State(), 1);
      DrawXObject(env, sc, st.ctm, name, out);
    } else if ShowsText(v.op) {
      st.TextOperator(v.op);
    } else if Positions(v.op) {
      st.SetPosition(v.op);
    } else {
      st.SetGraphics(v.op);
    }
    ghost var r := Operator(env, sc, v.op, fr, pg);
    assert (st.State(), out.State()) == r;
    st.operands := [];
  }

  method JoinLines(runs: seq<TextRun>) returns (lines: seq<string>)
    ensures lines == LinesOf(runs)
  {
    lines := [];
    var line := "";
    var prev: Option<TextRun> := None;
    for i := 0 to |runs|
      invariant LineFold(LineState(lines, line, prev), runs[i..]) == LineFold(LineState([], "", None), runs)
    {
      var r := runs[i];
      assert runs[i..][1..] == runs[i + 1..];
      var continues := false;
      if prev.Some? {
        var q := prev.value;
        var tol := Max(r.size, q.size) * 0.1;
        var baseline := if q.end.Some? then q.end.value.y else q.y;
        if r.textObject == q.textObject {
          continues := Abs(r.y - baseline) <= Max(tol, 0.01);
        } else if q.end.Some? {
          continues := Abs(r.y - q.end.value.y) <= tol && Abs(r.x - q.end.value.x) <= tol;
        }
      }
      assert continues == (prev.Some? && Continues(prev.value, r)) && "" + r.text == r.text;
      if !continues && line != "" {
        lines := lines + [line];
        line := "";
      }
      line := line + r.text;
      prev := Some(r);
    }
    if line != "" {
      lines := lines + [line];
    }
  }

  // The text of one page, as pdfText() takes it.
  method PageText(env: Env, content: string, resources: Option<seq<Entry>>) returns (lines: seq<string>)
    ensures lines == LinesOf(Scan(env, Scope(resources, IDENTITY, 0), content, Page([], [], 0, {})).runs)
  {
    var out := new PageScan();
    ScanContent(env, Scope(resources, IDENTITY, 0), content, out);
    lines := JoinLines(out.runs);
  }
}
