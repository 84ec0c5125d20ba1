// OCI layouts in image_gate.py: blob(), layout_entries(), the worklist of cmd_slim() and the blobs
// cmd_manifest() reads.

module OciSlim {
  import opened Options

  type Digest = string

  datatype Desc = Desc(digest: Digest, mediaType: string, attestation: bool)

  // A JSON document, as far as these commands look at it.
  datatype Doc = Doc(manifests: Option<seq<Desc>>, config: Option<Digest>, layers: seq<Desc>)

  // A blob's bytes, and the document they parse as, if they do.
  datatype Blob = Blob(bytes: seq<int>, doc: Option<Doc>)

  // index.json's entries and the blobs that are present and match their digest.
  datatype Layout = Layout(top: seq<Desc>, blobs: map<Digest, Blob>)

  datatype Error =
    | BadBlob(digest: Digest)
    | BadJson(digest: Digest)
    | NotOneEntry
    | NoEntry
    | NoConfig(digest: Digest)

  function ReadBlob(l: Layout, d: Digest): Result<Blob, Error> {
    if d in l.blobs then Ok(l.blobs[d]) else Err(BadBlob(d))
  }

  function ReadDoc(l: Layout, d: Digest): Result<Doc, Error> {
    if d !in l.blobs then Err(BadBlob(d))
    else if l.blobs[d].doc.None? then Err(BadJson(d)) else Ok(l.blobs[d].doc.value)
  }

  // ------------------------------------------------------------------ what a document leads to

  function Digests(ds: seq<Desc>): (r: seq<Digest>)
    ensures |r| == |ds| && forall i :: 0 <= i < |ds| ==> r[i] == ds[i].digest
  {
    seq(|ds|, i requires 0 <= i < |ds| => ds[i].digest)
  }

  // The manifests a document lists, which the worklist goes on to.
  function Children(doc: Doc): seq<Digest> {
    if doc.manifests.Some? then Digests(doc.manifests.value) else []
  }

  const IN_TOTO := "application/vnd.in-toto+json"

  predicate IsAttested(doc: Doc) {
    exists i :: 0 <= i < |doc.layers| && doc.layers[i].mediaType == IN_TOTO
  }

  // The blobs kept along with a document: its config, and its layers when one of them is an attestation.
  function Extras(doc: Doc): seq<Digest> {
    if doc.config.None? then []
    else [doc.config.value] + if IsAttested(doc) then Digests(doc.layers) else []
  }

  function ChildrenOf(l: Layout, d: Digest): seq<Digest> {
    var r := ReadDoc(l, d);
    if r.Ok? then Children(r.value) else []
  }

  // A height for every digest, which every listed manifest is below: the graph has no cycle.
  ghost predicate Acyclic(l: Layout, height: Digest -> nat) {
    forall d, c :: c in ChildrenOf(l, d) ==> height(c) < height(d)
  }

  // ------------------------------------------------------------------ reachability

  // A path of listed manifests from the index.
  ghost predicate Path(l: Layout, p: seq<Digest>) {
    && p != [] && (exists i :: 0 <= i < |l.top| && l.top[i].digest == p[0])
    && forall i :: 0 <= i < |p| - 1 ==> p[i + 1] in ChildrenOf(l, p[i])
  }

  ghost predicate Reachable(l: Layout, d: Digest) {
    exists p :: Path(l, p) && p[|p| - 1] == d
  }

  // What the slim copy has to hold: the reachable manifests, their configs and the attestation layers.
  ghost predicate Needed(l: Layout, b: Digest) {
    Reachable(l, b) || exists d :: Reachable(l, d) && ReadDoc(l, d).Ok? && b in Extras(ReadDoc(l, d).value)
  }

  lemma {:induction false} ReachableTop(l: Layout, i: nat)
    requires i < |l.top|
    ensures Reachable(l, l.top[i].digest)
  {
    assert Path(l, [l.top[i].digest]);
    assert [l.top[i].digest][|[l.top[i].digest]| - 1] == l.top[i].digest;
  }

  lemma {:induction false} ReachableChild(l: Layout, d: Digest, c: Digest)
    requires Reachable(l, d) && c in ChildrenOf(l, d)
    ensures Reachable(l, c)
  {
    hide ChildrenOf;
    var p :| Path(l, p) && p[|p| - 1] == d;
    var q := p + [c];
    assert Path(l, q);
    assert q[|q| - 1] == c;
  }

  // ------------------------------------------------------------------ the worklist

  // What the copy holds and why it stopped, if it did.
  datatype Copy = Copy(blobs: map<Digest, Blob>, error: Option<Error>)

  // keep() for each of several digests.
  function KeepAll(l: Layout, ds: seq<Digest>, dest: map<Digest, Blob>): Copy {
    if ds == [] then Copy(dest, None)
    else if ds[0] !in l.blobs then Copy(dest, Some(BadBlob(ds[0])))
    else KeepAll(l, ds[1..], dest[ds[0] := l.blobs[ds[0]]])
  }

  // The nodes of the graph below d, unfolded to a tree: a digest counts once for each way down to it.
  ghost function Unfolded(l: Layout, height: Digest -> nat, d: Digest): (n: nat)
    requires Acyclic(l, height)
    ensures n > 0
    decreases height(d), 1, 0
  {
    1 + UnfoldedAll(l, height, ChildrenOf(l, d), height(d))
  }

  ghost function UnfoldedAll(l: Layout, height: Digest -> nat, ds: seq<Digest>, bound: nat): nat
    requires Acyclic(l, height) && forall i :: 0 <= i < |ds| ==> height(ds[i]) < bound
    decreases bound, 0, |ds|
  {
    if ds == [] then 0 else Unfolded(l, height, ds[0]) + UnfoldedAll(l, height, ds[1..], bound)
  }

  // How much work a worklist stands for.
  ghost function Work(l: Layout, height: Digest -> nat, todo: seq<Digest>): nat
    requires Acyclic(l, height)
  {
    if todo == [] then 0 else Unfolded(l, height, todo[0]) + Work(l, height, todo[1..])
  }

  lemma {:induction false} WorkAppend(l: Layout, height: Digest -> nat, a: seq<Digest>, b: seq<Digest>)
    requires Acyclic(l, height)
    ensures Work(l, height, a + b) == Work(l, height, a) + Work(l, height, b)
  {
    hide Unfolded, Acyclic;
    if a == [] {
      assert a + b == b;
    } else {
      assert (a + b)[1..] == a[1..] + b;
      WorkAppend(l, height, a[1..], b);
    }
  }

  lemma {:induction false} WorkOfAll(l: Layout, height: Digest -> nat, ds: seq<Digest>, bound: nat)
    requires Acyclic(l, height) && forall i :: 0 <= i < |ds| ==> height(ds[i]) < bound
    ensures Work(l, height, ds) == UnfoldedAll(l, height, ds, bound)
  {
    hide Unfolded, Acyclic;
    if ds != [] {
      WorkOfAll(l, height, ds[1..], bound);
    }
  }

  // Taking the last digest off the worklist and putting its manifests on leaves less work.
  lemma {:induction false} WorkShrinks(l: Layout, height: Digest -> nat, todo: seq<Digest>)
    requires Acyclic(l, height) && todo != []
    ensures var d := todo[|todo| - 1];
      Work(l, height, todo[..|todo| - 1] + ChildrenOf(l, d)) < Work(l, height, todo)
  {
    hide ChildrenOf;
    var rest, d := todo[..|todo| - 1], todo[|todo| - 1];
    assert todo == rest + [d] && [d][1..] == [];
    WorkAppend(l, height, rest, [d]);
    WorkAppend(l, height, rest, ChildrenOf(l, d));
    WorkOfAll(l, height, ChildrenOf(l, d), height(d));
    assert Work(l, height, [d]) == Unfolded(l, height, d) + Work(l, height, []);
  }

  // The worklist of cmd_slim(), from any state.
  ghost function Drain(l: Layout, height: Digest -> nat, todo: seq<Digest>, dest: map<Digest, Blob>): Copy
    requires Acyclic(l, height)
    decreases Work(l, height, todo)
  {
    if todo == [] then Copy(dest, None)
    else
      var rest, d := todo[..|todo| - 1], todo[|todo| - 1];
      if d !in l.blobs then Copy(dest, Some(BadBlob(d)))
      else
        var dest := dest[d := l.blobs[d]];
        if l.blobs[d].doc.None? then Copy(dest, Some(BadJson(d)))
        else
          var doc := l.blobs[d].doc.value;
          var kept := KeepAll(l, Extras(doc), dest);
          if kept.error.Some? then kept
          else
            WorkShrinks(l, height, todo);
            Drain(l, height, rest + Children(doc), kept.blobs)
  }

  ghost function Slim(l: Layout, height: Digest -> nat): Copy
    requires Acyclic(l, height)
  {
    Drain(l, height, Digests(l.top), map[])
  }

  // keep(): a blob read and written to the copy.
  method Keep(l: Layout, d: Digest, dest: map<Digest, Blob>) returns (copy: map<Digest, Blob>, error: Option<Error>)
    ensures (copy, error) == if d in l.blobs then (dest[d := l.blobs[d]], None) else (dest, Some(BadBlob(d)))
  {
    var b := ReadBlob(l, d);
    if b.Err? {
      return dest, Some(b.error);
    }
    return dest[d := b.value], None;
  }

  // keep() for a config and attestation layers.
  method KeepEach(l: Layout, ds: seq<Digest>, dest0: map<Digest, Blob>) returns (r: Copy)
    ensures r == KeepAll(l, ds, dest0)
  {
    var dest, error := dest0, None;
    for i := 0 to |ds|
      invariant KeepAll(l, ds[i..], dest) == KeepAll(l, ds, dest0)
    {
      assert ds[i..][0] == ds[i] && ds[i..][1..] == ds[i + 1..];
      dest, error := Keep(l, ds[i], dest);
      if error.Some? {
        return Copy(dest, error);
      }
    }
    return Copy(dest, None);
  }

  // cmd_slim() after its directories are made.
  method SlimCopy(l: Layout, ghost height: Digest -> nat) returns (r: Copy)
    requires Acyclic(l, height)
    ensures r == Slim(l, height)
  {
    hide Acyclic;
    var todo, dest: map<Digest, Blob> := Digests(l.top), map[];
    while todo != []
      invariant Drain(l, height, todo, dest) == Slim(l, height)
      decreases Work(l, height, todo)
    {
      WorkShrinks(l, height, todo);
      var d := todo[|todo| - 1];
      todo := todo[..|todo| - 1];
      var error;
      dest, error := Keep(l, d, dest);
      if error.Some? {
        return Copy(dest, error);
      }
      if l.blobs[d].doc.None? {
        return Copy(dest, Some(BadJson(d)));
      }
      var doc := l.blobs[d].doc.value;
      if doc.manifests.Some? {
        todo := todo + Digests(doc.manifests.value);
      } else {
        assert todo + [] == todo;
      }
      if doc.config.Some? {
        var kept := KeepEach(l, Extras(doc), dest);
        if kept.error.Some? {
          return kept;
        }
        dest := kept.blobs;
      }
    }
    r := Copy(dest, None);
  }

  // ------------------------------------------------------------------ what is copied

  predicate Sub(dest: map<Digest, Blob>, l: Layout) {
    forall b :: b in dest ==> b in l.blobs && dest[b] == l.blobs[b]
  }

  lemma {:induction false} KeptAll(l: Layout, ds: seq<Digest>, dest: map<Digest, Blob>)
    requires Sub(dest, l)
    ensures var r := KeepAll(l, ds, dest);
      && Sub(r.blobs, l) && dest.Keys <= r.blobs.Keys
      && (forall b :: b in r.blobs ==> b in dest || b in ds)
      && (r.error.None? ==> forall b :: b in ds ==> b in r.blobs)
      && (r.error.Some? ==> exists b :: b in ds && b !in l.blobs)
  {
    if ds != [] && ds[0] in l.blobs {
      KeptAll(l, ds[1..], dest[ds[0] := l.blobs[ds[0]]]);
    }
  }

  // What holds whenever the worklist is inspected: the copy holds only what is needed; and everything
  // a copied manifest leads to is copied or waiting, where done are the manifests taken off so far.
  ghost predicate Progress(l: Layout, todo: seq<Digest>, dest: map<Digest, Blob>, done: set<Digest>) {
    && Sub(dest, l)
    && (forall b :: b in dest ==> Needed(l, b))
    && (forall d :: d in todo ==> Reachable(l, d))
    && (forall i :: 0 <= i < |l.top| ==> l.top[i].digest in done || l.top[i].digest in todo)
    && forall d :: d in done ==> Done(l, todo, dest, done, d)
  }

  ghost predicate Done(l: Layout, todo: seq<Digest>, dest: map<Digest, Blob>, done: set<Digest>, d: Digest) {
    var r := ReadDoc(l, d);
    && d in dest && r.Ok?
    && (forall b :: b in Extras(r.value) ==> b in dest)
    && forall c :: c in Children(r.value) ==> c in done || c in todo
  }

  lemma {:induction false} DoneStays(l: Layout, todo: seq<Digest>, dest: map<Digest, Blob>, done: set<Digest>,
                                     d: Digest,
                                     todo': seq<Digest>, dest': map<Digest, Blob>, done': set<Digest>)
    requires Done(l, todo, dest, done, d) && dest.Keys <= dest'.Keys && done <= done'
    requires forall c :: c in todo ==> c in todo' || c in done'
    ensures Done(l, todo', dest', done', d)
  {
    hide ReadDoc, Extras, Children;
  }

  ghost predicate AllDone(l: Layout, dest: map<Digest, Blob>) {
    forall b :: b in dest <==> Needed(l, b)
  }

  // Every digest reachable from the index is among the manifests taken off.
  lemma {:induction false} ReachableDone(l: Layout, dest: map<Digest, Blob>, done: set<Digest>, p: seq<Digest>)
    requires Progress(l, [], dest, done) && Path(l, p)
    ensures p[|p| - 1] in done
    decreases |p|
  {
    hide Needed, Extras;
    if |p| > 1 {
      var q := p[..|p| - 1];
      assert forall i :: 0 <= i < |q| ==> q[i] == p[i];
      assert Path(l, q);
      ReachableDone(l, dest, done, q);
      assert p[|p| - 2 + 1] in ChildrenOf(l, p[|p| - 2]);
      assert Done(l, [], dest, done, p[|p| - 2]);
    }
  }

  lemma {:induction false} DrainedAll(l: Layout, dest: map<Digest, Blob>, done: set<Digest>)
    requires Progress(l, [], dest, done)
    ensures AllDone(l, dest) && forall d :: Reachable(l, d) ==> ReadDoc(l, d).Ok?
  {
    forall d | Reachable(l, d)
      ensures d in dest && ReadDoc(l, d).Ok? && forall b :: b in Extras(ReadDoc(l, d).value) ==> b in dest
    {
      var p :| Path(l, p) && p[|p| - 1] == d;
      ReachableDone(l, dest, done, p);
      assert Done(l, [], dest, done, d);
    }
  }

  lemma {:induction false} ProgressStep(l: Layout, todo: seq<Digest>, dest: map<Digest, Blob>, done: set<Digest>)
    requires Progress(l, todo, dest, done) && todo != []
    requires var d := todo[|todo| - 1]; ReadDoc(l, d).Ok?
    requires var d := todo[|todo| - 1]; KeepAll(l, Extras(ReadDoc(l, d).value), dest[d := l.blobs[d]]).error.None?
    ensures var d := todo[|todo| - 1]; var doc := ReadDoc(l, d).value;
      Progress(l, todo[..|todo| - 1] + Children(doc), KeepAll(l, Extras(doc), dest[d := l.blobs[d]]).blobs, done + {d})
  {
    hide Extras, Children, KeepAll, Reachable;
    var d, rest := todo[|todo| - 1], todo[..|todo| - 1];
    var doc := ReadDoc(l, d).value;
    var dest1 := dest[d := l.blobs[d]];
    var dest', todo', done' := KeepAll(l, Extras(doc), dest1).blobs, rest + Children(doc), done + {d};
    assert Needed(l, d);
    KeptAll(l, Extras(doc), dest1);
    assert todo == rest + [d];
    forall b | b in dest' ensures Needed(l, b) {
      assert b in Extras(doc) ==> Reachable(l, d) && ReadDoc(l, d).Ok?;
    }
    forall c | c in todo' ensures Reachable(l, c) {
      if c in Children(doc) {
        ReachableChild(l, d, c);
      }
    }
    forall c | c in todo ensures c in todo' || c in done' {
    }
    forall e | e in done' ensures Done(l, todo', dest', done', e) {
      if e in done {
        DoneStays(l, todo, dest, done, e, todo', dest', done');
      }
    }
  }

  // Either the copy is complete and exact, or some blob it needs is missing or unreadable.
  ghost predicate Exact(l: Layout, r: Copy) {
    && Sub(r.blobs, l)
    && (r.error.None? ==> AllDone(l, r.blobs))
    && (r.error.Some? <==> Broken(l))
  }

  ghost predicate Broken(l: Layout) {
    (exists d :: Reachable(l, d) && ReadDoc(l, d).Err?) || (exists b :: Needed(l, b) && b !in l.blobs)
  }

  lemma {:induction false} DrainIsExact(l: Layout, height: Digest -> nat, todo: seq<Digest>, dest: map<Digest, Blob>,
                                        done: set<Digest>)
    requires Acyclic(l, height) && Progress(l, todo, dest, done)
    ensures Exact(l, Drain(l, height, todo, dest))
    decreases Work(l, height, todo)
  {
    hide Acyclic, Extras, Children, KeepAll, Reachable;
    if todo == [] {
      DrainedAll(l, dest, done);
    } else {
      var d := todo[|todo| - 1];
      assert Reachable(l, d) && Needed(l, d);
      if ReadDoc(l, d).Ok? {
        var doc := ReadDoc(l, d).value;
        var dest1 := dest[d := l.blobs[d]];
        var kept := KeepAll(l, Extras(doc), dest1);
        KeptAll(l, Extras(doc), dest1);
        if kept.error.None? {
          ProgressStep(l, todo, dest, done);
          WorkShrinks(l, height, todo);
          DrainIsExact(l, height, todo[..|todo| - 1] + Children(doc), kept.blobs, done + {d});
        } else {
          var b :| b in Extras(doc) && b !in l.blobs;
          assert Needed(l, b);
        }
      }
    }
  }

  // On an acyclic layout, however much is shared, cmd_slim() ends; it succeeds exactly when every
  // reachable manifest and every blob kept with one can be read, and then the copy holds exactly the
  // reachable manifests, their configs and the layers of attestations, unchanged.
  lemma {:induction false} SlimIsExact(l: Layout, height: Digest -> nat)
    requires Acyclic(l, height)
    ensures Exact(l, Slim(l, height))
  {
    hide Acyclic, Reachable;
    forall d | d in Digests(l.top) ensures Reachable(l, d) {
      var i :| 0 <= i < |l.top| && Digests(l.top)[i] == d;
      ReachableTop(l, i);
    }
    forall i | 0 <= i < |l.top| ensures l.top[i].digest in Digests(l.top) {
      assert Digests(l.top)[i] == l.top[i].digest;
    }
    DrainIsExact(l, height, Digests(l.top), map[], {});
  }

  // ------------------------------------------------------------------ reads of the manifest check

  const INDEX := "application/vnd.oci.image.index.v1+json"
  const LIST := "application/vnd.docker.distribution.manifest.list.v2+json"

  // layout_entries().
  function LayoutEntries(l: Layout): Result<(Option<Digest>, seq<Desc>), Error> {
    if |l.top| != 1 then Err(NotOneEntry)
    else if l.top[0].mediaType == INDEX || l.top[0].mediaType == LIST then
      var r := ReadDoc(l, l.top[0].digest);
      if r.Err? then Err(r.error)
      else Ok((Some(l.top[0].digest), if r.value.manifests.Some? then r.value.manifests.value else []))
    else Ok((None, [l.top[0]]))
  }

  // An image manifest and its config, as the check reads them.
  datatype ImageRead = ImageRead(digest: Digest, manifest: Doc, config: Blob)

  function ReadImage(l: Layout, d: Digest): Result<ImageRead, Error> {
    var man := ReadDoc(l, d);
    if man.Err? then Err(man.error)
    else if man.value.config.None? then Err(NoConfig(d))
    else
      var cfg := ReadBlob(l, man.value.config.value);
      if cfg.Err? then Err(cfg.error) else Ok(ImageRead(d, man.value, cfg.value))
  }

  function ReadImages(l: Layout, entries: seq<Desc>): Result<seq<ImageRead>, Error> {
    if entries == [] then Ok([])
    else if entries[0].attestation then ReadImages(l, entries[1..])
    else
      var first := ReadImage(l, entries[0].digest);
      if first.Err? then Err(first.error)
      else
        var rest := ReadImages(l, entries[1..]);
        if rest.Err? then rest else Ok([first.value] + rest.value)
  }

  // Everything the manifest check learns from a layout.
  function ManifestReads(l: Layout): Result<(Option<Digest>, seq<Desc>, seq<ImageRead>), Error> {
    var e := LayoutEntries(l);
    if e.Err? then Err(e.error)
    else
      var images := ReadImages(l, e.value.1);
      if images.Err? then Err(images.error) else Ok((e.value.0, e.value.1, images.value))
  }

  // The index blob of a candidate layout, which the check reads by the first entry of index.json, however many there
  // are.
  function CandidateIndex(l: Layout): Result<(Digest, Blob), Error> {
    if l.top == [] then Err(NoEntry)
    else
      var b := ReadBlob(l, l.top[0].digest);
      if b.Err? then Err(b.error) else Ok((l.top[0].digest, b.value))
  }

  lemma {:induction false} SameDoc(l: Layout, slim: Layout, d: Digest)
    requires Sub(slim.blobs, l) && AllDone(l, slim.blobs) && Reachable(l, d)
    ensures ReadDoc(slim, d) == ReadDoc(l, d) && d in l.blobs
  {
    hide Reachable;
    assert Needed(l, d);
  }

  lemma {:induction false} SameImages(l: Layout, slim: Layout, entries: seq<Desc>)
    requires Sub(slim.blobs, l) && AllDone(l, slim.blobs)
    requires forall i :: 0 <= i < |entries| ==> Reachable(l, entries[i].digest)
    ensures ReadImages(slim, entries) == ReadImages(l, entries)
  {
    hide Reachable, ReadDoc;
    if entries != [] {
      var d := entries[0].digest;
      SameDoc(l, slim, d);
      var man := ReadDoc(l, d);
      if man.Ok? && man.value.config.Some? {
        var c := man.value.config.value;
        assert Extras(man.value)[0] == c;
        assert Needed(l, c);
      }
      SameImages(l, slim, entries[1..]);
    }
  }

  // The manifest check reads the same from the slim copy as from the full layout, errors included.
  lemma {:induction false} SlimReadsTheSame(l: Layout, height: Digest -> nat)
    requires Acyclic(l, height)
    ensures var r := Slim(l, height); var slim := Layout(l.top, r.blobs);
      r.error.None? ==>
        && LayoutEntries(slim) == LayoutEntries(l) && ManifestReads(slim) == ManifestReads(l)
        && CandidateIndex(slim) == CandidateIndex(l)
  {
    hide Acyclic, Reachable, ReadDoc;
    SlimIsExact(l, height);
    var r := Slim(l, height);
    var slim := Layout(l.top, r.blobs);
    if r.error.None? && l.top != [] {
      ReachableTop(l, 0);
      SameDoc(l, slim, l.top[0].digest);
      assert slim.blobs[l.top[0].digest] == l.blobs[l.top[0].digest];
    }
    if r.error.None? && |l.top| == 1 {
      var d := l.top[0].digest;
      ReachableTop(l, 0);
      SameDoc(l, slim, d);
      var e := LayoutEntries(l);
      if e.Ok? {
        forall i | 0 <= i < |e.value.1| ensures Reachable(l, e.value.1[i].digest) {
          if e.value.0.Some? {
            assert Children(ReadDoc(l, d).value)[i] == e.value.1[i].digest;
            ReachableChild(l, d, e.value.1[i].digest);
          }
        }
        SameImages(l, slim, e.value.1);
      }
    }
  }
}
