// Content-stream interpretation of pdf-text.ts (scanContent, show, linesOf) as functions.

module PdfContent {
  import opened Options
  import opened Reals
  import opened PdfValues
  import opened PdfLexer
  import opened PdfDoc

  // ------------------------------------------------------------------ matrices

  datatype Matrix = Matrix(a: real, b: real, c: real, d: real, e: real, f: real)

  const IDENTITY := Matrix(1.0, 0.0, 0.0, 1.0, 0.0, 0.0)

  function Mul(m: Matrix, n: Matrix): Matrix {
    Matrix(
      m.a * n.a + m.b * n.c,
      m.a * n.b + m.b * n.d,
      m.c * n.a + m.d * n.c,
      m.c * n.b + m.d * n.d,
      m.e * n.a + m.f * n.c + n.e,
      m.e * n.b + m.f * n.d + n.f)
  }

  function Shift(tx: real, ty: real): Matrix {
    Matrix(1.0, 0.0, 0.0, 1.0, tx, ty)
  }

  // ------------------------------------------------------------------ state

  // Bytes per code, the text of a code and its advance, if the document gives one.
  datatype Font = Font(bytes: nat, decode: nat -> string, width: nat -> Option<real>)

  type FontInfo = f: Font | f.bytes > 0 witness UNKNOWN_FONT

  const UNKNOWN_FONT := Font(1, (code: nat) => if code < 256 then [code as char] else "", (code: nat) => None)

  // What lies outside this file: the parsed document, the fonts built from it, Math.hypot.
  datatype Env = Env(doc: Doc, build: Value -> FontInfo, hypot: (real, real) -> real)

  // What q saves and Q restores.
  datatype Gs = Gs(ctm: Matrix, font: FontInfo, fontSize: real, charSpacing: real, wordSpacing: real,
                   hScale: real, leading: real)

  // The state of one content stream.
  datatype Frame = Frame(gs: Gs, stack: seq<Gs>, tm: Matrix, tlm: Matrix, inText: bool, textObject: int,
                         operands: seq<Value>)

  datatype Point = Point(x: real, y: real)

  datatype TextRun = TextRun(text: string, textObject: int, x: real, y: real, end: Option<Point>, size: real)

  datatype Image = Image(width: Option<real>, height: Option<real>)

  // What a page and all its forms share.
  datatype Page = Page(runs: seq<TextRun>, images: seq<Image>, counter: nat, seen: set<int>)

  // What stays fixed while one content stream runs.
  datatype Scope = Scope(resources: Option<seq<Entry>>, base: Matrix, depth: nat)

  function StartFrame(base: Matrix): Frame {
    Frame(Gs(base, UNKNOWN_FONT, 0.0, 0.0, 0.0, 1.0, 0.0), [], IDENTITY, IDENTITY, false, -1, [])
  }

  // ------------------------------------------------------------------ showing text

  datatype Shown = Shown(tm: Matrix, text: string, measurable: bool)

  function BigEndian(b: seq<Byte>): nat {
    if b == [] then 0 else 256 * BigEndian(b[..|b| - 1]) + b[|b| - 1]
  }

  function Advance(gs: Gs, code: nat): real {
    var w := gs.font.width(code);
    var glyph := if w.Some? then w.value else 0.0;
    (glyph / 1000.0 * gs.fontSize + gs.charSpacing
     + if gs.font.bytes == 1 && code == 32 then gs.wordSpacing else 0.0) * gs.hScale
  }

  function ShowCode(gs: Gs, code: nat, s: Shown): Shown {
    Shown(Mul(Shift(Advance(gs, code), 0.0), s.tm), s.text + gs.font.decode(code),
          s.measurable && gs.font.width(code).Some?)
  }

  function ShowBytes(gs: Gs, b: seq<Byte>, s: Shown): Shown
    decreases |b|
  {
    var n := gs.font.bytes;
    if |b| < n then s else ShowBytes(gs, b[n..], ShowCode(gs, BigEndian(b[..n]), s))
  }

  // A number in TJ moves back by that many thousandths of the font size.
  function GapAdvance(gs: Gs, p: real): real {
    -p / 1000.0 * gs.fontSize * gs.hScale
  }

  function ShowGap(gs: Gs, p: real, s: Shown): Shown {
    Shown(Mul(Shift(GapAdvance(gs, p), 0.0), s.tm),
          s.text + if p < -250.0 then " " else "", s.measurable)
  }

  function ShowPart(gs: Gs, p: Value, s: Shown): Shown {
    match p
    case Num(r) => ShowGap(gs, r, s)
    case Str(b, _) => ShowBytes(gs, b, s)
    case _ => s
  }

  function ShowParts(gs: Gs, parts: seq<Value>, s: Shown): Shown
    decreases |parts|
  {
    if parts == [] then s else ShowParts(gs, parts[1..], ShowPart(gs, parts[0], s))
  }

  // The font size of a run in device space.
  function DeviceSize(env: Env, fontSize: real, start: Matrix): real {
    Abs(fontSize) * env.hypot(start.c, start.d)
  }

  function RunOf(env: Env, fr: Frame, s: Shown): TextRun {
    var start, end := Mul(fr.tm, fr.gs.ctm), Mul(s.tm, fr.gs.ctm);
    TextRun(s.text, fr.textObject, start.e, start.f, if s.measurable then Some(Point(end.e, end.f)) else None,
            DeviceSize(env, fr.gs.fontSize, start))
  }

  // show(): the text matrix moves over everything shown; a run is recorded when it has text.
  function Show(env: Env, fr: Frame, pg: Page, parts: seq<Value>): (Frame, Page) {
    if !fr.inText then (fr, pg)
    else
      var s := ShowParts(fr.gs, parts, Shown(fr.tm, "", true));
      (fr.(tm := s.tm), if s.text == "" then pg else pg.(runs := pg.runs + [RunOf(env, fr, s)]))
  }

  // ------------------------------------------------------------------ operators

  // operands[operands.length - i]
  function Operand(fr: Frame, i: nat): Option<Value> {
    if 1 <= i <= |fr.operands| then Some(fr.operands[|fr.operands| - i]) else None
  }

  function N(fr: Frame, i: nat): real {
    var n := NumOf(Operand(fr, i));
    if n.Some? then n.value else 0.0
  }

  function Six(fr: Frame): Matrix {
    Matrix(N(fr, 6), N(fr, 5), N(fr, 4), N(fr, 3), N(fr, 2), N(fr, 1))
  }

  function MoveLine(fr: Frame, tx: real, ty: real): Frame {
    var m := Mul(Shift(tx, ty), fr.tlm);
    fr.(tlm := m, tm := m)
  }

  function NextLine(fr: Frame): Frame {
    MoveLine(fr, 0.0, -fr.gs.leading)
  }

  function OperandPart(fr: Frame): seq<Value> {
    var p := Operand(fr, 1);
    [if p.Some? then p.value else Null]
  }

  function FontFor(env: Env, res: Option<seq<Entry>>, name: Option<Value>): FontInfo {
    var fonts := env.doc.DictOf(Get(res, "Font"));
    if name.Some? && name.value.Name? && Get(fonts, name.value.name).Some?
    then env.build(Get(fonts, name.value.name).value) else UNKNOWN_FONT
  }

  // Q: the state saved last, or, when there is none, only the matrix the stream began with.
  function Restored(sc: Scope, fr: Frame): Frame {
    if fr.stack != [] then fr.(gs := fr.stack[|fr.stack| - 1], stack := fr.stack[..|fr.stack| - 1])
    else fr.(gs := fr.gs.(ctm := sc.base))
  }

  // Operators on what q saves.
  function GraphicsOp(env: Env, sc: Scope, op: string, fr: Frame): Frame {
    var gs := fr.gs;
    if op == "q" then fr.(stack := fr.stack + [gs])
    else if op == "Q" then Restored(sc, fr)
    else if op == "cm" then fr.(gs := gs.(ctm := Mul(Six(fr), gs.ctm)))
    else if op == "Tf" then fr.(gs := gs.(font := FontFor(env, sc.resources, Operand(fr, 2)), fontSize := N(fr, 1)))
    else if op == "Tc" then fr.(gs := gs.(charSpacing := N(fr, 1)))
    else if op == "Tw" then fr.(gs := gs.(wordSpacing := N(fr, 1)))
    else if op == "Tz" then fr.(gs := gs.(hScale := N(fr, 1) / 100.0))
    else if op == "TL" then fr.(gs := gs.(leading := N(fr, 1)))
    else fr
  }

  predicate Positions(op: string) {
    op == "ET" || op == "Td" || op == "TD" || op == "Tm" || op == "T*"
  }

  // Operators on the text position and on being inside text.
  function PositionOp(op: string, fr: Frame): Frame {
    if op == "ET" then fr.(inText := false)
    else if op == "Td" then MoveLine(fr, N(fr, 2), N(fr, 1))
    else if op == "TD" then MoveLine(fr.(gs := fr.gs.(leading := -N(fr, 1))), N(fr, 2), N(fr, 1))
    else if op == "Tm" then fr.(tm := Six(fr), tlm := Six(fr))
    else NextLine(fr)
  }

  // Operators that touch nothing outside the frame; any other word is ignored.
  function StateOp(env: Env, sc: Scope, op: string, fr: Frame): Frame {
    if Positions(op) then PositionOp(op, fr) else GraphicsOp(env, sc, op, fr)
  }

  // Operators that show text or start a text object.
  function TextOp(env: Env, op: string, fr: Frame, pg: Page): (Frame, Page) {
    if op == "BT" then
      (fr.(inText := true, tm := IDENTITY, tlm := IDENTITY, textObject := pg.counter), pg.(counter := pg.counter + 1))
    else if op == "Tj" then Show(env, fr, pg, OperandPart(fr))
    else if op == "'" then Show(env, NextLine(fr), pg, OperandPart(fr))
    else if op == "\"" then
      Show(env, NextLine(fr.(gs := fr.gs.(wordSpacing := N(fr, 3), charSpacing := N(fr, 2)))), pg, OperandPart(fr))
    else
      var arr := Operand(fr, 1);
      if op == "TJ" && arr.Some? && arr.value.Arr? then Show(env, fr, pg, arr.value.items) else (fr, pg)
  }

  // ------------------------------------------------------------------ XObjects

  datatype XObject =
    | NoXObject
    | ImageXObject(image: Image)
    | Form(id: int, matrix: Matrix, resources: Option<seq<Entry>>, body: string)

  function FormMatrix(doc: Doc, v: Option<Value>): Matrix {
    var m := AsArray(doc.Resolve(v));
    if |m| != 6 then IDENTITY
    else
      Matrix(Entry6(doc, m[0]), Entry6(doc, m[1]), Entry6(doc, m[2]),
             Entry6(doc, m[3]), Entry6(doc, m[4]), Entry6(doc, m[5]))
  }

  function Entry6(doc: Doc, v: Value): real {
    var n := NumOf(doc.Resolve(Some(v)));
    if n.Some? then n.value else 0.0
  }

  // What the last operand of Do names.
  function XObjectFor(doc: Doc, res: Option<seq<Entry>>, name: Option<Value>): XObject {
    var xobjects := doc.DictOf(Get(res, "XObject"));
    var ref := if name.Some? && name.value.Name? then Get(xobjects, name.value.name) else None;
    if ref.None? || !ref.value.Ref? then NoXObject
    else
      var xo := doc.DictOf(ref);
      var sub := NameOf(Get(xo, "Subtype"));
      if sub == Some("Image") then
        ImageXObject(Image(NumOf(doc.Resolve(Get(xo, "Width"))), NumOf(doc.Resolve(Get(xo, "Height")))))
      else if sub == Some("Form") then
        var own := doc.DictOf(Get(xo, "Resources"));
        var body := doc.StreamOf(ref);
        Form(ref.value.id, FormMatrix(doc, Get(xo, "Matrix")), if own.Some? then own else res,
             if body.Some? then body.value else "")
      else NoXObject
  }

  // ------------------------------------------------------------------ streams

  // The operands and operators of a stream from p on; the data of an inline image is skipped.
  function Tokens(s: string, p: nat): seq<Value>
    requires p <= |s| + 1
    decreases |s| + 1 - p
  {
    var (t, q) := ValueAt(s, p);
    if t == Eof then []
    else if !t.Val? then Tokens(s, q)
    else if t.v == Op("ID") then [t.v] + Tokens(s, if q <= |s| then ImageEnd(s, q) else |s|)
    else [t.v] + Tokens(s, q)
  }

  const MAX_DEPTH := 12

  function Scan(env: Env, sc: Scope, content: string, pg: Page): Page
    requires sc.depth <= MAX_DEPTH
    decreases MAX_DEPTH - sc.depth, 4, 0
  {
    Run(env, sc, Tokens(content, 0), StartFrame(sc.base), pg).1
  }

  function Run(env: Env, sc: Scope, ts: seq<Value>, fr: Frame, pg: Page): (r: (Frame, Page))
    requires sc.depth <= MAX_DEPTH
    decreases MAX_DEPTH - sc.depth, 3, |ts|
  {
    if ts == [] then (fr, pg)
    else
      var (fr', pg') := Step(env, sc, ts[0], fr, pg);
      Run(env, sc, ts[1..], fr', pg')
  }

  // One operand is kept; one operator acts and drops the operands.
  function Step(env: Env, sc: Scope, t: Value, fr: Frame, pg: Page): (r: (Frame, Page))
    requires sc.depth <= MAX_DEPTH
    decreases MAX_DEPTH - sc.depth, 2, 0
  {
    if !t.Op? then (fr.(operands := fr.operands + [t]), pg)
    else
      var (fr', pg') := Operator(env, sc, t.op, fr, pg);
      (fr'.(operands := []), pg')
  }

  predicate ShowsText(op: string) {
    op == "BT" || op == "Tj" || op == "'" || op == "\"" || op == "TJ"
  }

  function Operator(env: Env, sc: Scope, op: string, fr: Frame, pg: Page): (r: (Frame, Page))
    requires sc.depth <= MAX_DEPTH
    decreases MAX_DEPTH - sc.depth, 1, 0
  {
    if op == "Do" then (fr, Draw(env, sc, fr.gs.ctm, XObjectFor(env.doc, sc.resources, Operand(fr, 1)), pg))
    else if ShowsText(op) then TextOp(env, op, fr, pg)
    else (StateOp(env, sc, op, fr), pg)
  }

  // Do: an image is recorded; a form runs in a frame of its own unless it is already running or too deep.
  function Draw(env: Env, sc: Scope, ctm: Matrix, xo: XObject, pg: Page): (r: Page)
    requires sc.depth <= MAX_DEPTH
    decreases MAX_DEPTH - sc.depth, 0, 0
  {
    match xo
    case NoXObject => pg
    case ImageXObject(image) => pg.(images := pg.images + [image])
    case Form(id, matrix, resources, body) =>
      if sc.depth >= MAX_DEPTH || id in pg.seen then pg
      else
        var inner := Scan(env, Scope(resources, Mul(matrix, ctm), sc.depth + 1), body, pg.(seen := pg.seen + {id}));
        inner.(seen := inner.seen - {id})
  }

  // ------------------------------------------------------------------ lines

  // The open line, the lines before it, and the last run.
  datatype LineState = LineState(lines: seq<string>, line: string, prev: Option<TextRun>)

  function Max(x: real, y: real): real {
    if x < y then y else x
  }

  predicate Continues(prev: TextRun, r: TextRun) {
    var tol := Max(r.size, prev.size) * 0.1;
    var baseline := if prev.end.Some? then prev.end.value.y else prev.y;
    if r.textObject == prev.textObject then Abs(r.y - baseline) <= Max(tol, 0.01)
    else prev.end.Some? && Abs(r.y - prev.end.value.y) <= tol && Abs(r.x - prev.end.value.x) <= tol
  }

  function LineStep(st: LineState, r: TextRun): LineState {
    var continues := st.prev.Some? && Continues(st.prev.value, r);
    if !continues && st.line != "" then LineState(st.lines + [st.line], r.text, Some(r))
    else LineState(st.lines, st.line + r.text, Some(r))
  }

  function LineFold(st: LineState, runs: seq<TextRun>): LineState
    decreases |runs|
  {
    if runs == [] then st else LineFold(LineStep(st, runs[0]), runs[1..])
  }

  function LineEnds(st: LineState): seq<string> {
    if st.line != "" then st.lines + [st.line] else st.lines
  }

  function LinesOf(runs: seq<TextRun>): seq<string> {
    LineEnds(LineFold(LineState([], "", None), runs))
  }
}
