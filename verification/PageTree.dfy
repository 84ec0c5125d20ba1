// The page walk of orderedPages() in pdf-text.ts (and of inspect_pdf() in image_gate.py).

module PageTree {
  import opened Options
  import opened PdfValues
  import opened PdfDoc

  // A page found, with the reference it was found by and its effective resources.
  datatype PageNode = PageNode(id: int, dict: seq<Entry>, resources: Option<seq<Entry>>)

  datatype WalkState = WalkState(seen: set<int>, out: seq<PageNode>)

  const MAX_DEPTH := 64

  function NodeType(node: seq<Entry>): Option<string> {
    NameOf(Lookup(node, "Type"))
  }

  function KidsOf(doc: Doc, node: seq<Entry>): seq<Value> {
    AsArray(doc.Resolve(Lookup(node, "Kids")))
  }

  // A node's own /Resources, even when they do not resolve to a dictionary, or else the inherited ones.
  function Effective(doc: Doc, node: seq<Entry>, inherited: Option<seq<Entry>>): Option<seq<Entry>> {
    if Lookup(node, "Resources").Some? then doc.DictOf(Lookup(node, "Resources")) else inherited
  }

  function Walk(doc: Doc, v: Option<Value>, inherited: Option<seq<Entry>>, depth: nat, st: WalkState): (r: WalkState)
    decreases MAX_DEPTH + 1 - depth, 0
  {
    if v.None? || !v.value.Ref? || v.value.id in st.seen || depth > MAX_DEPTH then st
    else
      var st := st.(seen := st.seen + {v.value.id});
      var d := doc.DictOf(v);
      if d.None? then st
      else
        var resources := Effective(doc, d.value, inherited);
        if NodeType(d.value) == Some("Pages") then WalkKids(doc, KidsOf(doc, d.value), resources, depth + 1, st)
        else if NodeType(d.value) == Some("Page") then
          st.(out := st.out + [PageNode(v.value.id, d.value, resources)])
        else st
  }

  function WalkKids(doc: Doc, kids: seq<Value>, inherited: Option<seq<Entry>>, depth: nat,
                    st: WalkState): (r: WalkState)
    requires depth <= MAX_DEPTH + 1
    decreases MAX_DEPTH + 1 - depth, 1 + |kids|
  {
    if kids == [] then st
    else WalkKids(doc, kids[1..], inherited, depth, Walk(doc, Some(kids[0]), inherited, depth, st))
  }

  function Root(doc: Doc, catalog: Option<int>): Option<Value> {
    if catalog.Some? then Get(doc.DictOf(Some(Ref(catalog.value))), "Pages") else None
  }

  // The pages of a document, given its catalog object.
  function OrderedPages(doc: Doc, catalog: Option<int>): seq<PageNode> {
    Walk(doc, Root(doc, catalog), None, 0, WalkState({}, [])).out
  }

  class PageWalk {
    const doc: Doc
    var seen: set<int>
    var out: seq<PageNode>

    function State(): WalkState
      reads this
    {
      WalkState(seen, out)
    }

    constructor (doc: Doc)
      ensures State() == WalkState({}, []) && this.doc == doc
    {
      this.doc, seen, out := doc, {}, [];
    }

    method Visit(v: Option<Value>, inherited: Option<seq<Entry>>, depth: nat)
      modifies this
      ensures State() == Walk(doc, v, inherited, depth, old(State()))
      decreases MAX_DEPTH + 1 - depth
    {
      if v.None? || !v.value.Ref? || v.value.id in seen || depth > MAX_DEPTH {
        return;
      }
      seen := seen + {v.value.id};
      var d := doc.DictOf(v);
      if d.None? {
        return;
      }
      var node := d.value;
      var resources := Effective(doc, node, inherited);
      if NodeType(node) == Some("Pages") {
        ghost var before := State();
        var kids := KidsOf(doc, node);
        for k := 0 to |kids|
          invariant WalkKids(doc, kids[k..], resources, depth + 1, State()) ==
                    WalkKids(doc, kids, resources, depth + 1, before)
        {
          assert kids[k..][1..] == kids[k + 1..];
          Visit(Some(kids[k]), resources, depth + 1);
        }
        assert kids[|kids|..] == [];
      } else if NodeType(node) == Some("Page") {
        out := out + [PageNode(v.value.id, node, resources)];
      }
    }
  }

  method Pages(doc: Doc, catalog: Option<int>) returns (out: seq<PageNode>)
    ensures out == OrderedPages(doc, catalog)
  {
    var w := new PageWalk(doc);
    w.Visit(Root(doc, catalog), None, 0);
    out := w.out;
  }

  // ------------------------------------------------------------------ any graph

  predicate IsPage(doc: Doc, id: int) {
    var d := doc.DictOf(Some(Ref(id)));
    d.Some? && NodeType(d.value) == Some("Page")
  }

  // The pages are found by distinct references, and they are exactly the visited references to pages.
  predicate Visits(doc: Doc, before: WalkState, after: WalkState) {
    && before.seen <= after.seen && |before.out| <= |after.out| && after.out[..|before.out|] == before.out
    && (forall i :: |before.out| <= i < |after.out| ==>
          after.out[i].id in after.seen - before.seen && IsPage(doc, after.out[i].id)
          && Some(after.out[i].dict) == doc.DictOf(Some(Ref(after.out[i].id))))
    && (forall i, j :: |before.out| <= i < j < |after.out| ==> after.out[i].id != after.out[j].id)
    && forall id :: id in after.seen - before.seen && IsPage(doc, id) ==>
         exists i :: |before.out| <= i < |after.out| && after.out[i].id == id
  }

  lemma {:induction false} VisitsTwice(doc: Doc, a: WalkState, b: WalkState, c: WalkState)
    requires Visits(doc, a, b) && Visits(doc, b, c)
    ensures Visits(doc, a, c)
  {
    hide IsPage;
    assert c.out[..|a.out|] == c.out[..|b.out|][..|a.out|];
    assert forall i :: 0 <= i < |b.out| ==> c.out[i] == c.out[..|b.out|][i];
    forall id | id in c.seen - a.seen && IsPage(doc, id)
      ensures exists i :: |a.out| <= i < |c.out| && c.out[i].id == id
    {
      if id in b.seen {
        var i :| |a.out| <= i < |b.out| && b.out[i].id == id;
        assert c.out[i].id == id;
      } else {
        var i :| |b.out| <= i < |c.out| && c.out[i].id == id;
      }
    }
  }

  lemma {:induction false} WalkVisits(doc: Doc, v: Option<Value>, inherited: Option<seq<Entry>>, depth: nat,
                                      st: WalkState)
    ensures Visits(doc, st, Walk(doc, v, inherited, depth, st))
    decreases MAX_DEPTH + 1 - depth, 0
  {
    if !(v.None? || !v.value.Ref? || v.value.id in st.seen || depth > MAX_DEPTH) {
      var st1 := st.(seen := st.seen + {v.value.id});
      var d := doc.DictOf(v);
      assert v == Some(Ref(v.value.id));
      if d.Some? {
        var resources := Effective(doc, d.value, inherited);
        if NodeType(d.value) == Some("Pages") {
          assert "Page" != "Pages";
          KidsVisit(doc, KidsOf(doc, d.value), resources, depth + 1, st1);
          VisitsTwice(doc, st, st1, WalkKids(doc, KidsOf(doc, d.value), resources, depth + 1, st1));
        } else if NodeType(d.value) == Some("Page") {
          var st2 := Walk(doc, v, inherited, depth, st);
          assert st2.out[|st.out|].id == v.value.id;
        }
      }
    }
  }

  lemma {:induction false} KidsVisit(doc: Doc, kids: seq<Value>, inherited: Option<seq<Entry>>, depth: nat,
                                     st: WalkState)
    requires depth <= MAX_DEPTH + 1
    ensures Visits(doc, st, WalkKids(doc, kids, inherited, depth, st))
    decreases MAX_DEPTH + 1 - depth, 1 + |kids|
  {
    if kids != [] {
      var st1 := Walk(doc, Some(kids[0]), inherited, depth, st);
      WalkVisits(doc, Some(kids[0]), inherited, depth, st);
      KidsVisit(doc, kids[1..], inherited, depth, st1);
      VisitsTwice(doc, st, st1, WalkKids(doc, kids[1..], inherited, depth, st1));
    }
  }

  // ------------------------------------------------------------------ what is reached

  // b is among the kids of the page-tree node a.
  predicate Kid(doc: Doc, a: int, b: int) {
    var d := doc.DictOf(Some(Ref(a)));
    d.Some? && NodeType(d.value) == Some("Pages") && Ref(b) in KidsOf(doc, d.value)
  }

  // References from the root down, each among the kids of the one before.
  predicate Way(doc: Doc, root: Value, w: seq<int>) {
    w != [] && Ref(w[0]) == root && forall i :: 0 <= i < |w| - 1 ==> Kid(doc, w[i], w[i + 1])
  }

  predicate Reached(doc: Doc, root: Value, id: int, w: seq<int>) {
    Way(doc, root, w) && w[|w| - 1] == id
  }

  ghost predicate Reachable(doc: Doc, root: Value, id: int) {
    exists w :: Reached(doc, root, id, w)
  }

  predicate NoRepeat(w: seq<int>) {
    forall i, j :: 0 <= i < j < |w| ==> w[i] != w[j]
  }

  // No way down without a repetition is longer than the depth limit admits.
  ghost predicate Shallow(doc: Doc, root: Value) {
    forall w :: Way(doc, root, w) && NoRepeat(w) ==> |w| <= MAX_DEPTH + 1
  }

  lemma {:induction false} WayOn(doc: Doc, root: Value, above: seq<int>, a: int, b: int)
    requires Reached(doc, root, a, above) && Kid(doc, a, b)
    ensures Reached(doc, root, b, above + [b])
  {
    hide Kid;
    var w := above + [b];
    forall i | 0 <= i < |w| - 1
      ensures Kid(doc, w[i], w[i + 1])
    {
    }
  }

  // What the walk has seen since `before` is reached; and if nothing is too deep, the kids of it have been seen too.
  ghost predicate Walked(doc: Doc, root: Value, before: set<int>, after: set<int>) {
    && before <= after
    && (forall a :: a in after - before ==> Reachable(doc, root, a))
    && (Shallow(doc, root) ==> forall a, b :: a in after - before && Kid(doc, a, b) ==> b in after)
  }

  lemma {:induction false} WalkedOn(doc: Doc, root: Value, a: set<int>, b: set<int>, c: set<int>)
    requires Walked(doc, root, a, b) && Walked(doc, root, b, c)
    ensures Walked(doc, root, a, c)
  {
    hide Kid, Reachable, Shallow;
  }

  // The walk stands at v, below distinct references that it has seen.
  predicate Standing(doc: Doc, root: Value, above: seq<int>, v: Value, depth: nat, seen: set<int>) {
    && |above| == depth && NoRepeat(above) && (forall i :: 0 <= i < |above| ==> above[i] in seen)
    && (v.Ref? ==> Way(doc, root, above + [v.id]))
  }

  // It stands among the kids of v.
  predicate StandingAt(doc: Doc, root: Value, above: seq<int>, v: int, depth: nat, seen: set<int>) {
    && |above| == depth > 0 && above[depth - 1] == v && Way(doc, root, above)
    && NoRepeat(above) && forall i :: 0 <= i < |above| ==> above[i] in seen
  }

  lemma {:induction false} StandDown(doc: Doc, root: Value, above: seq<int>, v: Value, depth: nat, seen: set<int>)
    requires Standing(doc, root, above, v, depth, seen) && v.Ref? && v.id !in seen
    ensures StandingAt(doc, root, above + [v.id], v.id, depth + 1, seen + {v.id})
    ensures Reachable(doc, root, v.id)
    ensures Shallow(doc, root) ==> depth <= MAX_DEPTH
  {
    hide Kid;
    assert Reached(doc, root, v.id, above + [v.id]);
  }

  lemma {:induction false} StandAmong(doc: Doc, root: Value, above: seq<int>, v: int, k: Value, depth: nat,
                                      seen: set<int>)
    requires StandingAt(doc, root, above, v, depth, seen) && (k.Ref? ==> Kid(doc, v, k.id))
    ensures Standing(doc, root, above, k, depth, seen)
  {
    hide Kid;
    if k.Ref? {
      WayOn(doc, root, above, v, k.id);
    }
  }

  lemma {:induction false} StandLater(doc: Doc, root: Value, above: seq<int>, v: int, depth: nat, a: set<int>,
                                      b: set<int>)
    requires StandingAt(doc, root, above, v, depth, a) && a <= b
    ensures StandingAt(doc, root, above, v, depth, b)
  {
    hide Way;
  }

  lemma {:induction false} WalkReaches(doc: Doc, root: Value, v: Value, inherited: Option<seq<Entry>>, depth: nat,
                                       st: WalkState, above: seq<int>)
    requires Standing(doc, root, above, v, depth, st.seen)
    ensures Walked(doc, root, st.seen, Walk(doc, Some(v), inherited, depth, st).seen)
    ensures v.Ref? && Shallow(doc, root) ==> v.id in Walk(doc, Some(v), inherited, depth, st).seen
    decreases MAX_DEPTH + 1 - depth, 0
  {
    hide Reachable, Standing, StandingAt, Shallow, NodeType, Effective, KidsOf;
    if v.Ref? && v.id !in st.seen {
      StandDown(doc, root, above, v, depth, st.seen);
      if depth <= MAX_DEPTH {
        var d := doc.DictOf(Some(v));
        assert v == Ref(v.id);
        if d.Some? && NodeType(d.value) == Some("Pages") {
          var st1 := st.(seen := st.seen + {v.id});
          var resources := Effective(doc, d.value, inherited);
          KidsReach(doc, root, v.id, KidsOf(doc, d.value), resources, depth + 1, st1, above + [v.id]);
        }
      }
    }
  }

  lemma {:induction false} KidsReach(doc: Doc, root: Value, v: int, kids: seq<Value>, inherited: Option<seq<Entry>>,
                                     depth: nat, st: WalkState, above: seq<int>)
    requires depth <= MAX_DEPTH + 1 && StandingAt(doc, root, above, v, depth, st.seen)
    requires forall k :: k in kids && k.Ref? ==> Kid(doc, v, k.id)
    ensures var after := WalkKids(doc, kids, inherited, depth, st).seen;
      && Walked(doc, root, st.seen, after)
      && (Shallow(doc, root) ==> forall k :: k in kids && k.Ref? ==> k.id in after)
    decreases MAX_DEPTH + 1 - depth, 1 + |kids|
  {
    hide Kid, Walk, Walked, Standing, StandingAt, Shallow;
    if kids == [] {
      WalkedNowhere(doc, root, st.seen);
    } else {
      var st1 := Walk(doc, Some(kids[0]), inherited, depth, st);
      var after := WalkKids(doc, kids, inherited, depth, st).seen;
      StandAmong(doc, root, above, v, kids[0], depth, st.seen);
      WalkReaches(doc, root, kids[0], inherited, depth, st, above);
      WalkedGrows(doc, root, st.seen, st1.seen);
      StandLater(doc, root, above, v, depth, st.seen, st1.seen);
      KidsReach(doc, root, v, kids[1..], inherited, depth, st1, above);
      WalkedGrows(doc, root, st1.seen, after);
      WalkedOn(doc, root, st.seen, st1.seen, after);
      assert forall k :: k in kids ==> k == kids[0] || k in kids[1..];
    }
  }

  lemma {:induction false} WalkedNowhere(doc: Doc, root: Value, seen: set<int>)
    ensures Walked(doc, root, seen, seen)
  {
  }

  lemma {:induction false} WalkedGrows(doc: Doc, root: Value, a: set<int>, b: set<int>)
    requires Walked(doc, root, a, b)
    ensures a <= b
  {
  }

  // ------------------------------------------------------------------ page objects

  // The object a reference ends in, through objects that are references themselves.
  function EndOf(doc: Doc, id: int, hops: nat): int
    decreases hops
  {
    var b := doc.Body(id);
    if hops == 0 || b.None? || !b.value.Ref? then id else EndOf(doc, b.value.id, hops - 1)
  }

  ghost predicate PageReached(doc: Doc, root: Value, id: int) {
    Reachable(doc, root, id) && IsPage(doc, id)
  }

  // No two references to pages that can be reached from the root end in the same object.
  ghost predicate NoAliasReached(doc: Doc, root: Value, hops: nat) {
    forall a, b ::
      (PageReached(doc, root, a) && PageReached(doc, root, b) && EndOf(doc, a, hops) == EndOf(doc, b, hops)) ==> a == b
  }

  predicate ObjectsDistinct(doc: Doc, out: seq<PageNode>, hops: nat) {
    forall i, j :: 0 <= i < j < |out| ==> EndOf(doc, out[i].id, hops) != EndOf(doc, out[j].id, hops)
  }

  // On any object graph, cyclic or shared, no reference gives a page twice, and every page can be reached; where
  // nothing is too deep, the pages are exactly the page references that can be reached.
  lemma {:induction false} PagesAreReached(doc: Doc, catalog: Option<int>, root: Value)
    requires Root(doc, catalog) == Some(root)
    ensures var out := OrderedPages(doc, catalog);
      && (forall i, j :: 0 <= i < j < |out| ==> out[i].id != out[j].id)
      && (forall i :: 0 <= i < |out| ==> PageReached(doc, root, out[i].id))
      && (Shallow(doc, root) ==>
            forall id :: PageReached(doc, root, id) ==> exists i :: 0 <= i < |out| && out[i].id == id)
  {
    hide Walk, IsPage, Kid, Shallow;
    var st0 := WalkState({}, []);
    var st := Walk(doc, Some(root), None, 0, st0);
    WalkVisits(doc, Some(root), None, 0, st0);
    StandAtRoot(doc, root);
    WalkReaches(doc, root, root, None, 0, st0, []);
    if Shallow(doc, root) {
      forall id | PageReached(doc, root, id)
        ensures exists i :: 0 <= i < |st.out| && st.out[i].id == id
      {
        var w :| Reached(doc, root, id, w);
        WaySeen(doc, root, w, st.seen);
        assert id in st.seen - {};
      }
    }
  }

  lemma {:induction false} StandAtRoot(doc: Doc, root: Value)
    ensures Standing(doc, root, [], root, 0, {})
  {
    assert root.Ref? ==> [] + [root.id] == [root.id];
  }

  lemma {:induction false} WaySeen(doc: Doc, root: Value, w: seq<int>, seen: set<int>)
    requires Way(doc, root, w) && root.Ref? && root.id in seen
    requires forall a, b :: a in seen && Kid(doc, a, b) ==> b in seen
    ensures w[|w| - 1] in seen
    decreases |w|
  {
    hide Kid;
    if |w| > 1 {
      WaySeen(doc, root, w[..|w| - 1], seen);
      assert Kid(doc, w[|w| - 2], w[|w| - 1]);
    }
  }

  // On any object graph no page object is emitted twice if no two reachable page references end in the same object;
  // and where nothing is too deep, exactly if that is so.
  lemma {:induction false} NoPageTwice(doc: Doc, catalog: Option<int>, root: Value, hops: nat)
    requires Root(doc, catalog) == Some(root)
    ensures NoAliasReached(doc, root, hops) ==> ObjectsDistinct(doc, OrderedPages(doc, catalog), hops)
    ensures Shallow(doc, root) ==>
      (ObjectsDistinct(doc, OrderedPages(doc, catalog), hops) <==> NoAliasReached(doc, root, hops))
  {
    hide OrderedPages, PageReached, Shallow, EndOf;
    PagesAreReached(doc, catalog, root);
    var out := OrderedPages(doc, catalog);
    if Shallow(doc, root) && ObjectsDistinct(doc, out, hops) {
      forall a, b | PageReached(doc, root, a) && PageReached(doc, root, b) && EndOf(doc, a, hops) == EndOf(doc, b, hops)
        ensures a == b
      {
        var i :| 0 <= i < |out| && out[i].id == a;
        var j :| 0 <= j < |out| && out[j].id == b;
        assert i == j;
      }
    }
  }

  const PAGE: Value := Dict([Entry("Type", Name("Page"))])
  const TWO_KIDS: Value := Dict([Entry("Type", Name("Pages")), Entry("Kids", Arr([Ref(3), Ref(4)]))])

  // Object 4 is the bare reference 3 0 R, and both stand among the kids.
  const ALIASED := Doc(map[
    1 := PdfObject(Some(Dict([Entry("Pages", Ref(2))])), None),
    2 := PdfObject(Some(TWO_KIDS), None),
    3 := PdfObject(Some(PAGE), None),
    4 := PdfObject(Some(Ref(3)), None)])

  // With an alias among the kids, the one page object of this document is emitted twice.
  lemma {:induction false} AliasedPageTwice()
    ensures var out := OrderedPages(ALIASED, Some(1));
      |out| == 2 && out[0].dict == out[1].dict && EndOf(ALIASED, out[0].id, 32) == EndOf(ALIASED, out[1].id, 32) == 3
  {
    var doc := ALIASED;
    KeysOfTheExample();
    assert doc.DictOf(Some(Ref(1))) == Some([Entry("Pages", Ref(2))]);
    assert doc.DictOf(Some(Ref(2))) == Some(TWO_KIDS.entries);
    assert doc.ResolveHops(Some(Ref(3)), 31) == Some(PAGE);
    assert doc.DictOf(Some(Ref(3))) == doc.DictOf(Some(Ref(4))) == Some(PAGE.entries);
    assert KidsOf(doc, TWO_KIDS.entries) == [Ref(3), Ref(4)];
    assert [Ref(3), Ref(4)][1..] == [Ref(4)] && [Ref(4)][1..] == [];
    var st0 := WalkState({2}, []);
    var res := Effective(doc, TWO_KIDS.entries, None);
    var st1 := Walk(doc, Some(Ref(3)), res, 1, st0);
    var st2 := Walk(doc, Some(Ref(4)), res, 1, st1);
    assert st2.out == [PageNode(3, PAGE.entries, None), PageNode(4, PAGE.entries, None)];
    assert WalkKids(doc, [Ref(4)], res, 1, st1) == WalkKids(doc, [], res, 1, st2) == st2;
    assert WalkKids(doc, [Ref(3), Ref(4)], res, 1, st0) == st2;
    assert {} + {2} == {2};
  }

  lemma {:induction false} KeysOfTheExample()
    ensures Lookup(TWO_KIDS.entries, "Type") == Some(Name("Pages"))
    ensures Lookup(TWO_KIDS.entries, "Kids") == Some(Arr([Ref(3), Ref(4)]))
    ensures Lookup(TWO_KIDS.entries, "Resources") == None
    ensures Lookup(PAGE.entries, "Type") == Some(Name("Page")) && Lookup(PAGE.entries, "Resources") == None
    ensures Lookup([Entry("Pages", Ref(2))], "Pages") == Some(Ref(2))
    ensures "Pages" != "Page"
  {
    var es := TWO_KIDS.entries;
    assert es[1..] == [Entry("Kids", Arr([Ref(3), Ref(4)]))] && es[1..][1..] == [];
    assert PAGE.entries[1..] == [];
    assert "Kids"[0] != "Type"[0] && |"Resources"| != |"Type"|;
  }

  // ------------------------------------------------------------------ page trees

  // A page tree, as section 7.7.3 of ISO 32000-1 has it. A stub is a kid that is no page-tree node.
  datatype Tree = Leaf(id: int) | Branch(id: int, kids: seq<Tree>) | Stub(v: Value)

  predicate Stands(doc: Doc, v: Value, t: Tree)
    decreases t
  {
    var d := doc.DictOf(Some(v));
    match t
    case Leaf(id) => v == Ref(id) && d.Some? && NodeType(d.value) == Some("Page")
    case Branch(id, kids) =>
      v == Ref(id) && d.Some? && NodeType(d.value) == Some("Pages") && AllStand(doc, KidsOf(doc, d.value), kids)
    case Stub(w) =>
      v == w && (!v.Ref? || d.None? || (NodeType(d.value) != Some("Page") && NodeType(d.value) != Some("Pages")))
  }

  predicate AllStand(doc: Doc, vs: seq<Value>, ts: seq<Tree>)
    decreases ts
  {
    |vs| == |ts| && (ts != [] ==> Stands(doc, vs[0], ts[0]) && AllStand(doc, vs[1..], ts[1..]))
  }

  // The references of a tree, and whether each occurs once.
  function Ids(t: Tree): set<int> {
    match t
    case Leaf(id) => {id}
    case Branch(id, kids) => {id} + AllIds(kids)
    case Stub(v) => if v.Ref? then {v.id} else {}
  }

  function AllIds(ts: seq<Tree>): set<int> {
    if ts == [] then {} else Ids(ts[0]) + AllIds(ts[1..])
  }

  predicate Once(t: Tree) {
    match t
    case Leaf(_) => true
    case Branch(id, kids) => id !in AllIds(kids) && AllOnce(kids)
    case Stub(_) => true
  }

  predicate AllOnce(ts: seq<Tree>) {
    ts != [] ==> Once(ts[0]) && AllOnce(ts[1..]) && Ids(ts[0]) !! AllIds(ts[1..])
  }

  // The nodes from the root of a document's tree to one of its nodes.
  type Path = p: seq<int> | p != [] witness [0]

  // The paths to the leaves, from left to right.
  function Paths(t: Tree, above: seq<int>): seq<Path> {
    match t
    case Leaf(id) => [above + [id]]
    case Branch(id, kids) => AllPaths(kids, above + [id])
    case Stub(_) => []
  }

  function AllPaths(ts: seq<Tree>, above: seq<int>): seq<Path> {
    if ts == [] then [] else Paths(ts[0], above) + AllPaths(ts[1..], above)
  }

  // The paths the depth limit admits.
  function Within(paths: seq<Path>): seq<Path> {
    if paths == [] then []
    else (if |paths[0]| <= MAX_DEPTH + 1 then [paths[0]] else []) + Within(paths[1..])
  }

  // The resources the walk hands down a path: those of the last node with a /Resources entry, whatever it holds.
  function Handed(doc: Doc, path: seq<int>): Option<seq<Entry>> {
    if path == [] then None
    else
      var d := doc.DictOf(Some(Ref(path[|path| - 1])));
      if Get(d, "Resources").Some? then doc.DictOf(Get(d, "Resources")) else Handed(doc, path[..|path| - 1])
  }

  function PageAt(doc: Doc, path: Path): PageNode {
    var id := path[|path| - 1];
    var d := doc.DictOf(Some(Ref(id)));
    PageNode(id, if d.Some? then d.value else [], Handed(doc, path))
  }

  function PagesAt(doc: Doc, paths: seq<Path>): seq<PageNode> {
    if paths == [] then [] else [PageAt(doc, paths[0])] + PagesAt(doc, paths[1..])
  }

  lemma {:induction false} WithinAppend(a: seq<Path>, b: seq<Path>)
    ensures Within(a + b) == Within(a) + Within(b)
  {
    if a == [] {
      assert a + b == b;
    } else {
      assert (a + b)[1..] == a[1..] + b;
      WithinAppend(a[1..], b);
    }
  }

  // Below the depth limit there is no path within it.
  lemma {:induction false} TooDeep(t: Tree, above: seq<int>)
    requires |above| > MAX_DEPTH
    ensures Within(Paths(t, above)) == []
    decreases t, 0
  {
    match t {
      case Leaf(id) => assert [above + [id]][1..] == [];
      case Branch(id, kids) => AllTooDeep(kids, above + [id]);
      case Stub(_) =>
    }
  }

  lemma {:induction false} AllTooDeep(ts: seq<Tree>, above: seq<int>)
    requires |above| > MAX_DEPTH
    ensures Within(AllPaths(ts, above)) == []
    decreases ts, 1
  {
    if ts != [] {
      TooDeep(ts[0], above);
      AllTooDeep(ts[1..], above);
      WithinAppend(Paths(ts[0], above), AllPaths(ts[1..], above));
    }
  }

  lemma {:induction false} PagesAppend(doc: Doc, a: seq<Path>, b: seq<Path>)
    ensures PagesAt(doc, a + b) == PagesAt(doc, a) + PagesAt(doc, b)
  {
    if a == [] {
      assert a + b == b;
    } else {
      assert (a + b)[1..] == a[1..] + b;
      PagesAppend(doc, a[1..], b);
    }
  }

  lemma {:induction false} HandedStep(doc: Doc, above: seq<int>, id: int)
    requires doc.DictOf(Some(Ref(id))).Some?
    ensures Handed(doc, above + [id]) == Effective(doc, doc.DictOf(Some(Ref(id))).value, Handed(doc, above))
  {
    assert (above + [id])[..|above|] == above;
  }

  // The walk has come from `before` to `after` over references among ids, and has found these pages.
  predicate Found(doc: Doc, before: WalkState, after: WalkState, ids: set<int>, paths: seq<Path>) {
    before.seen <= after.seen <= before.seen + ids && after.out == before.out + PagesAt(doc, Within(paths))
  }

  lemma {:induction false} FoundTwice(doc: Doc, a: WalkState, b: WalkState, c: WalkState, ids: set<int>,
                                      more: set<int>, paths: seq<Path>, rest: seq<Path>)
    requires Found(doc, a, b, ids, paths) && Found(doc, b, c, more, rest)
    ensures Found(doc, a, c, ids + more, paths + rest)
  {
    WithinAppend(paths, rest);
    PagesAppend(doc, Within(paths), Within(rest));
  }

  lemma {:induction false} WalkTree(doc: Doc, v: Value, t: Tree, above: seq<int>, st: WalkState)
    requires Stands(doc, v, t) && Once(t) && Ids(t) !! st.seen
    ensures Found(doc, st, Walk(doc, Some(v), Handed(doc, above), |above|, st), Ids(t), Paths(t, above))
    decreases t, 0
  {
    hide Handed, Effective;
    if |above| > MAX_DEPTH {
      TooDeep(t, above);
    } else {
      match t {
        case Leaf(id) =>
          HandedStep(doc, above, id);
          var path: Path := above + [id];
          assert [path][1..] == [];
          assert Within([path]) == [path] && PagesAt(doc, [path]) == [PageAt(doc, path)];
        case Branch(id, kids) =>
          HandedStep(doc, above, id);
          var d := doc.DictOf(Some(v)).value;
          WalkTrees(doc, KidsOf(doc, d), kids, above + [id], st.(seen := st.seen + {id}));
        case Stub(_) => assert st.out + [] == st.out;
      }
    }
  }

  lemma {:induction false} WalkTrees(doc: Doc, vs: seq<Value>, ts: seq<Tree>, above: seq<int>, st: WalkState)
    requires AllStand(doc, vs, ts) && AllOnce(ts) && AllIds(ts) !! st.seen && |above| <= MAX_DEPTH + 1
    ensures Found(doc, st, WalkKids(doc, vs, Handed(doc, above), |above|, st), AllIds(ts), AllPaths(ts, above))
    decreases ts, 1
  {
    hide Walk, Stands, Once, Ids, Paths, Handed, PageAt;
    if ts != [] {
      var st1 := Walk(doc, Some(vs[0]), Handed(doc, above), |above|, st);
      WalkTree(doc, vs[0], ts[0], above, st);
      WalkTrees(doc, vs[1..], ts[1..], above, st1);
      var st2 := WalkKids(doc, vs[1..], Handed(doc, above), |above|, st1);
      FoundTwice(doc, st, st1, st2, Ids(ts[0]), AllIds(ts[1..]), Paths(ts[0], above), AllPaths(ts[1..], above));
    }
  }

  // The page tree of a document.
  predicate HasTree(doc: Doc, catalog: int, t: Tree) {
    var root := Get(doc.DictOf(Some(Ref(catalog))), "Pages");
    root.Some? && Stands(doc, root.value, t) && Once(t)
  }

  // On a page tree of any height the pages are exactly the leaves no more than MAX_DEPTH levels below the root, from
  // left to right, each with the resources the walk hands down. They are all leaves exactly if none is deeper.
  lemma {:induction false} PagesAreTheLeaves(doc: Doc, catalog: int, t: Tree)
    requires HasTree(doc, catalog, t)
    ensures OrderedPages(doc, Some(catalog)) == PagesAt(doc, Within(Paths(t, [])))
    ensures OrderedPages(doc, Some(catalog)) == PagesAt(doc, Paths(t, [])) <==>
      forall i :: 0 <= i < |Paths(t, [])| ==> |Paths(t, [])[i]| - 1 <= MAX_DEPTH
  {
    hide PagesAt, Paths;
    WalkTree(doc, Get(doc.DictOf(Some(Ref(catalog))), "Pages").value, t, [], WalkState({}, []));
    var paths := Paths(t, []);
    assert [] + PagesAt(doc, Within(paths)) == PagesAt(doc, Within(paths));
    PagesAtPaths(doc, paths);
    PagesAtPaths(doc, Within(paths));
    WithinAll(paths);
  }

  lemma {:induction false} WithinAll(paths: seq<Path>)
    ensures |Within(paths)| <= |paths|
    ensures Within(paths) == paths || |Within(paths)| < |paths|
    ensures Within(paths) == paths <==> forall i :: 0 <= i < |paths| ==> |paths[i]| <= MAX_DEPTH + 1
  {
    if paths != [] {
      WithinAll(paths[1..]);
      assert paths == [paths[0]] + paths[1..];
    }
  }

  lemma {:induction false} PagesAtPaths(doc: Doc, paths: seq<Path>)
    ensures |PagesAt(doc, paths)| == |paths|
    ensures forall i :: 0 <= i < |paths| ==> PagesAt(doc, paths)[i] == PageAt(doc, paths[i])
    decreases |paths|
  {
    hide PageAt;
    if paths != [] {
      PagesAtPaths(doc, paths[1..]);
    }
  }

  predicate LeavesApart(doc: Doc, paths: seq<Path>, hops: nat) {
    forall i, j :: 0 <= i < j < |paths| ==>
      EndOf(doc, paths[i][|paths[i]| - 1], hops) != EndOf(doc, paths[j][|paths[j]| - 1], hops)
  }

  // On a page tree no page object is emitted twice exactly if no two leaves within the depth limit end in the same
  // object.
  lemma {:induction false} TreePagesApart(doc: Doc, catalog: int, t: Tree, hops: nat)
    requires HasTree(doc, catalog, t)
    ensures ObjectsDistinct(doc, OrderedPages(doc, Some(catalog)), hops) <==>
      LeavesApart(doc, Within(Paths(t, [])), hops)
  {
    hide OrderedPages, EndOf, Handed, HasTree;
    PagesAreTheLeaves(doc, catalog, t);
    PagesAtPaths(doc, Within(Paths(t, [])));
  }

  // ------------------------------------------------------------------ inherited resources

  // By sections 7.3.7, 7.3.9 and 7.3.10 of ISO 32000-1 an entry that is null, or refers to no object, is no entry.
  predicate HasResources(doc: Doc, id: int) {
    var v := doc.Resolve(Get(doc.DictOf(Some(Ref(id))), "Resources"));
    v.Some? && !v.value.Null?
  }

  // Section 7.7.3.4: the resources of the last node on a path that has any.
  function Nearest(doc: Doc, path: seq<int>): Option<seq<Entry>> {
    if path == [] then None
    else
      var n := |path| - 1;
      if HasResources(doc, path[n]) then doc.DictOf(Get(doc.DictOf(Some(Ref(path[n]))), "Resources"))
      else Nearest(doc, path[..n])
  }

  // A /Resources entry that is null or refers to no object.
  predicate HasBlank(doc: Doc, id: int) {
    Get(doc.DictOf(Some(Ref(id))), "Resources").Some? && !HasResources(doc, id)
  }

  // The last entry on the path, at place i, is blank, and a node above it has a dictionary to inherit.
  predicate BlankHides(doc: Doc, path: seq<int>, i: nat) {
    && i < |path| && HasBlank(doc, path[i]) && Nearest(doc, path[..i]).Some?
    && forall j :: i < j < |path| ==> Get(doc.DictOf(Some(Ref(path[j]))), "Resources").None?
  }

  // The walk hands down what the standard has a page inherit, exactly unless a blank entry hides it.
  lemma {:induction false} HandedIsNearest(doc: Doc, path: seq<int>)
    ensures Handed(doc, path) == Nearest(doc, path) <==> forall i: nat :: !BlankHides(doc, path, i)
    decreases |path|
  {
    hide BlankHides;
    if path == [] {
      NothingHides(doc);
    } else {
      var n := |path| - 1;
      HandedIsNearest(doc, path[..n]);
      if Get(doc.DictOf(Some(Ref(path[n]))), "Resources").Some? {
        BlankHidesLast(doc, path);
      } else {
        BlankHidesInit(doc, path);
        NoEntryNoResources(doc, path[n]);
        assert Handed(doc, path) == Handed(doc, path[..n]);
        assert Nearest(doc, path) == Nearest(doc, path[..n]);
        assert forall i: nat :: BlankHides(doc, path, i) <==> BlankHides(doc, path[..n], i);
      }
    }
  }

  lemma {:induction false} NothingHides(doc: Doc)
    ensures forall i: nat :: !BlankHides(doc, [], i)
  {
  }

  lemma {:induction false} NoEntryNoResources(doc: Doc, id: int)
    requires Get(doc.DictOf(Some(Ref(id))), "Resources").None?
    ensures !HasResources(doc, id)
  {
  }

  lemma {:induction false} BlankHidesInit(doc: Doc, path: seq<int>)
    requires path != [] && Get(doc.DictOf(Some(Ref(path[|path| - 1]))), "Resources").None?
    ensures forall i: nat :: BlankHides(doc, path, i) <==> BlankHides(doc, path[..|path| - 1], i)
  {
    hide Nearest, HasResources;
    var init := path[..|path| - 1];
    forall i: nat | i < |init|
      ensures init[i] == path[i] && init[..i] == path[..i]
    {
    }
  }

  lemma {:induction false} BlankHidesLast(doc: Doc, path: seq<int>)
    requires path != [] && Get(doc.DictOf(Some(Ref(path[|path| - 1]))), "Resources").Some?
    ensures var n := |path| - 1;
      (forall i: nat :: !BlankHides(doc, path, i)) <==> !(HasBlank(doc, path[n]) && Nearest(doc, path[..n]).Some?)
  {
    hide Nearest, HasResources;
    var n := |path| - 1;
    if HasBlank(doc, path[n]) && Nearest(doc, path[..n]).Some? {
      assert BlankHides(doc, path, n);
    }
  }

  // On a page tree every page has its own resources or those of its nearest ancestor, as section 7.7.3 of
  // ISO 32000-1 has it, exactly unless a blank /Resources entry hides them from one.
  lemma {:induction false} ResourcesAreInherited(doc: Doc, catalog: int, t: Tree)
    requires HasTree(doc, catalog, t)
    ensures var out, paths := OrderedPages(doc, Some(catalog)), Within(Paths(t, []));
      && |out| == |paths|
      && ((forall i :: 0 <= i < |out| ==> out[i].resources == Nearest(doc, paths[i])) <==>
            forall i, j: nat :: 0 <= i < |paths| ==> !BlankHides(doc, paths[i], j))
  {
    hide OrderedPages, Handed, Nearest, HasTree, BlankHides;
    PagesAreTheLeaves(doc, catalog, t);
    var out, paths := OrderedPages(doc, Some(catalog)), Within(Paths(t, []));
    PagesAtPaths(doc, paths);
    forall i | 0 <= i < |paths|
      ensures out[i].resources == Nearest(doc, paths[i]) <==> forall j: nat :: !BlankHides(doc, paths[i], j)
    {
      HandedIsNearest(doc, paths[i]);
    }
  }

  const FONTS: seq<Entry> := [Entry("Font", Null)]
  const NULLED: Value := Dict([Entry("Type", Name("Page")), Entry("Resources", Null)])
  const SHARING: Value :=
    Dict([Entry("Type", Name("Pages")), Entry("Kids", Arr([Ref(3)])), Entry("Resources", Dict(FONTS))])

  // The page says that its resources are null, and its parent has some.
  const BLANKED := Doc(map[
    1 := PdfObject(Some(Dict([Entry("Pages", Ref(2))])), None),
    2 := PdfObject(Some(SHARING), None),
    3 := PdfObject(Some(NULLED), None)])

  // In this document a null entry hides the resources the page ought to inherit.
  lemma {:induction false} NullHidesResources()
    ensures var out := OrderedPages(BLANKED, Some(1));
      out == [PageNode(3, NULLED.entries, None)] && Nearest(BLANKED, [2, 3]) == Some(FONTS)
  {
    var doc := BLANKED;
    KeysOfBlanked();
    assert doc.DictOf(Some(Ref(1))) == Some([Entry("Pages", Ref(2))]);
    assert doc.DictOf(Some(Ref(2))) == Some(SHARING.entries);
    assert doc.DictOf(Some(Ref(3))) == Some(NULLED.entries);
    assert KidsOf(doc, SHARING.entries) == [Ref(3)] && [Ref(3)][1..] == [];
    var st0 := WalkState({2}, []);
    var res := Effective(doc, SHARING.entries, None);
    var st1 := Walk(doc, Some(Ref(3)), res, 1, st0);
    assert Effective(doc, NULLED.entries, res) == None;
    assert st1.out == [PageNode(3, NULLED.entries, None)];
    assert WalkKids(doc, [Ref(3)], res, 1, st0) == WalkKids(doc, [], res, 1, st1) == st1;
    assert {} + {2} == {2};
    assert [2, 3][..1] == [2];
    assert !HasResources(doc, 3) && HasResources(doc, 2);
    assert Nearest(doc, [2]) == doc.DictOf(Some(Dict(FONTS))) == Some(FONTS);
  }

  lemma {:induction false} KeysOfBlanked()
    ensures Lookup(SHARING.entries, "Type") == Some(Name("Pages"))
    ensures Lookup(SHARING.entries, "Kids") == Some(Arr([Ref(3)]))
    ensures Lookup(SHARING.entries, "Resources") == Some(Dict(FONTS))
    ensures Lookup(NULLED.entries, "Type") == Some(Name("Page")) && Lookup(NULLED.entries, "Resources") == Some(Null)
    ensures Lookup([Entry("Pages", Ref(2))], "Pages") == Some(Ref(2))
    ensures "Pages" != "Page"
  {
    var es := SHARING.entries;
    assert es[1..] == [es[1], es[2]] && es[1..][1..] == [es[2]];
    assert es[2].key == "Resources" && es[1].key == "Kids" && es[0].key == "Type";
    assert Lookup([es[2]], "Resources") == Some(Dict(FONTS));
    assert Lookup([es[1], es[2]], "Resources") == Lookup([es[2]], "Resources");
    assert NULLED.entries[1..][0] == NULLED.entries[1];
    assert "Kids"[0] != "Type"[0] && |"Resources"| != |"Type"| && |"Resources"| != |"Kids"|;
  }
}
