// Parsed objects and reference resolution (class Doc of pdf-text.ts).

module PdfDoc {
  import opened Options
  import opened PdfValues

  // An object of the table: its parsed body, if it parses, and its decoded stream, if it has one.
  // Parsing is memoised in the source, which does not show.
  datatype PdfObject = PdfObject(body: Option<Value>, stream: Option<string>)

  datatype Doc = Doc(objects: map<int, PdfObject>)
  {
    function Body(id: int): Option<Value> {
      if id in objects then objects[id].body else None
    }

    // resolve(): None is undefined, which null (Some(Null)) is not.
    function Resolve(v: Option<Value>): Option<Value> {
      ResolveHops(v, 32)
    }

    function ResolveHops(v: Option<Value>, hops: nat): Option<Value>
      decreases hops
    {
      if v.None? || !v.value.Ref? then v
      else if hops == 0 then None
      else ResolveHops(Body(v.value.id), hops - 1)
    }

    function DictOf(v: Option<Value>): Option<seq<Entry>> {
      var r := Resolve(v);
      if r.Some? && r.value.Dict? then Some(r.value.entries) else None
    }

    function StreamOf(v: Option<Value>): Option<string> {
      if v.Some? && v.value.Ref? && v.value.id in objects then objects[v.value.id].stream else None
    }
  }

  // The loop of resolve().
  method Resolve(doc: Doc, v: Option<Value>) returns (r: Option<Value>)
    ensures r == doc.Resolve(v)
  {
    r := v;
    var i := 0;
    while i < 32 && r.Some? && r.value.Ref?
      invariant 0 <= i <= 32
      invariant doc.ResolveHops(r, 32 - i) == doc.Resolve(v)
    {
      r := doc.Body(r.value.id);
      i := i + 1;
    }
    if r.Some? && r.value.Ref? {
      r := None;
    }
  }

  predicate IsRef(v: Option<Value>) {
    v.Some? && v.value.Ref?
  }

  // Values that follow each other by reference.
  predicate Chain(doc: Doc, c: seq<Option<Value>>) {
    c != [] && forall i :: 0 <= i < |c| - 1 ==> IsRef(c[i]) && c[i + 1] == doc.Body(c[i].value.id)
  }

  // resolve() gives the end of a chain of at most 32 references; from a longer chain, as from a cycle, it gives
  // undefined, whatever comes at the end.
  lemma {:induction false} ResolveFollowsTheChain(doc: Doc, c: seq<Option<Value>>)
    requires Chain(doc, c)
    ensures !IsRef(c[|c| - 1]) ==> doc.Resolve(c[0]) == if |c| <= 33 then c[|c| - 1] else None
    ensures |c| > 32 && IsRef(c[|c| - 1]) ==> doc.Resolve(c[0]) == None
  {
    ChainHops(doc, c, 32);
  }

  lemma {:induction false} ChainHops(doc: Doc, c: seq<Option<Value>>, hops: nat)
    requires Chain(doc, c)
    ensures !IsRef(c[|c| - 1]) ==> doc.ResolveHops(c[0], hops) == if |c| <= hops + 1 then c[|c| - 1] else None
    ensures |c| > hops && IsRef(c[|c| - 1]) ==> doc.ResolveHops(c[0], hops) == None
    decreases hops
  {
    if |c| > 1 && hops > 0 {
      assert IsRef(c[0]) && c[1] == doc.Body(c[0].value.id);
      var tail := c[1..];
      forall i | 0 <= i < |tail| - 1
        ensures IsRef(tail[i]) && tail[i + 1] == doc.Body(tail[i].value.id)
      {
        assert tail[i] == c[i + 1] && tail[i + 1] == c[i + 2];
      }
      ChainHops(doc, tail, hops - 1);
    } else if |c| > 1 {
      assert IsRef(c[0]);
    }
  }

  function Lookup(es: seq<Entry>, k: string): Option<Value> {
    if es == [] then None else if es[0].key == k then Some(es[0].value) else Lookup(es[1..], k)
  }

  function Get(es: Option<seq<Entry>>, k: string): Option<Value> {
    if es.Some? then Lookup(es.value, k) else None
  }

  // (value as PdfName | undefined)?.name
  function NameOf(v: Option<Value>): Option<string> {
    if v.Some? && v.value.Name? then Some(v.value.name) else None
  }

  function NumOf(v: Option<Value>): Option<real> {
    if v.Some? && v.value.Num? then Some(v.value.value) else None
  }

  function AsArray(v: Option<Value>): seq<Value> {
    if v.None? || v.value.Null? then [] else if v.value.Arr? then v.value.items else [v.value]
  }
}
