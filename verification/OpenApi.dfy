/**
 `api/openapi_public.py`: the public specification keeps the non-admin operations and exactly the
 component schemas they reach through `$ref`.
 */
module OpenApi {
  import opened Wrappers
  import opened Listing

  // A JSON value; numbers, booleans and null carry no references.
  datatype Json = Obj(fields: map<string, Json>) | Arr(items: seq<Json>) | Str(text: string) | Scalar

  const ADMIN_TAG := "admin"
  const SCHEMA_PREFIX := "#/components/schemas/"

  // --- references ---

  // `rsplit("/", 1)[-1]`
  function LastSegment(s: string): string {
    if '/' in s then LastSegment(s[1..]) else s
  }

  function RefName(ref: string): Option<string> {
    if SCHEMA_PREFIX <= ref then Some(LastSegment(ref)) else None
  }

  function OwnRef(fields: map<string, Json>): Option<string> {
    if "$ref" in fields && fields["$ref"].Str? then RefName(fields["$ref"].text) else None
  }

  function Opt(name: Option<string>): set<string> {
    if name.Some? then {name.value} else {}
  }

  // The schema names referenced anywhere inside a node.
  ghost function Refs(node: Json): set<string> {
    match node
    case Obj(fields) => Opt(OwnRef(fields)) + (set k, r | k in fields && r in Refs(fields[k]) :: r)
    case Arr(items) => set i, r | 0 <= i < |items| && r in Refs(items[i]) :: r
    case _ => {}
  }

  class RefCollector {
    var found: set<string>

    constructor ()
      ensures found == {}
    {
      found := {};
    }

    method CollectRefs(node: Json)
      modifies this
      ensures found == old(found) + Refs(node)
      decreases node, 1
    {
      match node {
        case Obj(_) => CollectObject(node);
        case Arr(_) => CollectArray(node);
        case _ =>
      }
    }

    method CollectObject(node: Json)
      requires node.Obj?
      modifies this
      ensures found == old(found) + Refs(node)
      decreases node, 0
    {
      hide Refs, RefsUnder, OwnRef, Opt;
      var fields := node.fields;
      ghost var before := found;
      if OwnRef(fields).Some? { found := found + {OwnRef(fields).value}; }
      ghost var own := found;
      OwnCollected(before, own, OwnRef(fields));
      NothingUnder(fields);
      RefsOfObject(before, own, fields);
      var todo: set<string> := fields.Keys;
      ghost var done: set<string> := {};
      while todo != {}
        invariant todo + done == fields.Keys
        invariant found == own + RefsUnder(fields, done)
        decreases |todo|
      {
        var k :| k in todo;
        MoreUnder(own, fields, done, k);
        CollectRefs(fields[k]);
        todo, done := todo - {k}, done + {k};
      }
      assert done == fields.Keys;
    }

    method CollectArray(node: Json)
      requires node.Arr?
      modifies this
      ensures found == old(found) + Refs(node)
      decreases node, 0
    {
      hide Refs;
      var items := node.items;
      NoItems();
      assert items[..0] == [] && items[..|items|] == items;
      for i := 0 to |items|
        invariant found == old(found) + Refs(Arr(items[..i]))
      {
        RefsOfArrayMore(items, i);
        CollectRefs(items[i]);
      }
    }
  }

  ghost function RefsUnder(fields: map<string, Json>, keys: set<string>): set<string> {
    set k, r | k in keys && k in fields && r in Refs(fields[k]) :: r
  }

  lemma MoreUnder(own: set<string>, fields: map<string, Json>, done: set<string>, k: string)
    requires k in fields
    ensures own + RefsUnder(fields, done + {k}) == own + RefsUnder(fields, done) + Refs(fields[k])
  {
  }

  lemma RefsOfObject(before: set<string>, own: set<string>, fields: map<string, Json>)
    requires own == before + Opt(OwnRef(fields))
    ensures own + RefsUnder(fields, fields.Keys) == before + Refs(Obj(fields))
  {
  }

  lemma OwnCollected(before: set<string>, own: set<string>, name: Option<string>)
    requires own == if name.Some? then before + {name.value} else before
    ensures own == before + Opt(name)
  {
  }

  lemma NothingUnder(fields: map<string, Json>)
    ensures RefsUnder(fields, {}) == {}
  {
  }

  lemma NoItems()
    ensures Refs(Arr([])) == {}
  {
  }

  lemma RefsOfArrayMore(items: seq<Json>, i: nat)
    requires i < |items|
    ensures Refs(Arr(items[..i + 1])) == Refs(Arr(items[..i])) + Refs(items[i])
  {
    var before, after := items[..i], items[..i + 1];
    forall r ensures r in Refs(Arr(after)) <==> r in Refs(Arr(before)) || r in Refs(items[i]) {
      if r in Refs(Arr(after)) {
        var j :| 0 <= j < |after| && r in Refs(after[j]);
        assert j < i ==> before[j] == after[j];
      }
      if r in Refs(Arr(before)) {
        var j :| 0 <= j < |before| && r in Refs(before[j]);
        assert before[j] == after[j];
      }
      assert after[i] == items[i];
    }
  }

  // --- what a reference text names ---

  lemma {:induction false} LastSegmentIsTail(s: string)
    ensures '/' !in LastSegment(s)
    ensures LastSegment(s) == s <==> '/' !in s
    ensures |LastSegment(s)| <= |s| && LastSegment(s) == s[|s| - |LastSegment(s)|..]
    ensures '/' in s ==> |LastSegment(s)| < |s| && s[|s| - |LastSegment(s)| - 1] == '/'
  {
    if '/' in s {
      LastSegmentIsTail(s[1..]);
      assert '/' !in s[1..] ==> s[0] == '/';
    }
  }

  // A reference to a component names that component exactly when nothing in the name needs a second
  // segment; a reference into a component is read as naming its last step instead.
  lemma ReferenceNamesComponent(rest: string)
    ensures RefName(SCHEMA_PREFIX + rest) == Some(rest) <==> '/' !in rest
  {
    var ref := SCHEMA_PREFIX + rest;
    var n := |SCHEMA_PREFIX|;
    assert ref[n - 1] == '/' && ref[n..] == rest && ref[..n] == SCHEMA_PREFIX;
    LastSegmentIsTail(ref);
    var last := LastSegment(ref);
    var k := |ref| - |last|;
    assert forall i :: k <= i < |ref| ==> ref[i] == last[i - k] && ref[i] != '/';
    assert '/' !in rest ==> forall i :: n <= i < |ref| ==> ref[i] == rest[i - n] && ref[i] != '/';
  }

  // --- reachability ---

  // A chain of references from the roots: each name is mentioned by the schema before it.
  ghost predicate IsChain(schemas: map<string, Json>, roots: set<string>, chain: seq<string>) {
    && |chain| > 0 && chain[0] in roots
    && forall i :: 0 <= i < |chain| - 1 ==> chain[i] in schemas && chain[i + 1] in Refs(schemas[chain[i]])
  }

  ghost predicate Reachable(schemas: map<string, Json>, roots: set<string>, name: string) {
    exists chain :: IsChain(schemas, roots, chain) && chain[|chain| - 1] == name
  }

  // Everything a schema of the set mentions is in the set.
  ghost predicate ClosedUnder(schemas: map<string, Json>, names: set<string>) {
    forall name :: name in names && name in schemas ==> Refs(schemas[name]) <= names
  }

  lemma RootsReachable(schemas: map<string, Json>, roots: set<string>, name: string)
    requires name in roots
    ensures Reachable(schemas, roots, name)
  {
    assert IsChain(schemas, roots, [name]);
  }

  lemma MentionedReachable(schemas: map<string, Json>, roots: set<string>, name: string, next: string)
    requires Reachable(schemas, roots, name) && name in schemas && next in Refs(schemas[name])
    ensures Reachable(schemas, roots, next)
  {
    hide Refs;
    var chain :| IsChain(schemas, roots, chain) && chain[|chain| - 1] == name;
    var longer := chain + [next];
    assert IsChain(schemas, roots, longer);
    assert longer[|longer| - 1] == next;
  }

  lemma {:induction false} ChainStaysIn(
    schemas: map<string, Json>, roots: set<string>, names: set<string>, chain: seq<string>, i: nat)
    requires roots <= names && ClosedUnder(schemas, names) && IsChain(schemas, roots, chain) && i < |chain|
    ensures chain[i] in names
  {
    hide Refs;
    if i > 0 {
      ChainStaysIn(schemas, roots, names, chain, i - 1);
      assert chain[i - 1] in schemas && chain[i] in Refs(schemas[chain[i - 1]]);
    }
  }

  // A closed set holding the roots, all of it reachable, is the reachable set.
  lemma ClosedIsReachable(schemas: map<string, Json>, roots: set<string>, names: set<string>)
    requires roots <= names && ClosedUnder(schemas, names)
    requires forall name :: name in names ==> Reachable(schemas, roots, name)
    ensures forall name :: name in names <==> Reachable(schemas, roots, name)
  {
    hide Refs, ClosedUnder;
    forall name | Reachable(schemas, roots, name) ensures name in names {
      var chain :| IsChain(schemas, roots, chain) && chain[|chain| - 1] == name;
      ChainStaysIn(schemas, roots, names, chain, |chain| - 1);
    }
  }

  // --- pruning ---

  // The names queued but not yet expanded are all that keeps the set found so far from being closed.
  ghost predicate ClosedButFor(schemas: map<string, Json>, names: set<string>, queue: seq<string>) {
    forall name :: name in names && name in schemas && name !in queue ==> Refs(schemas[name]) <= names
  }

  ghost predicate AllReachable(schemas: map<string, Json>, roots: set<string>, names: set<string>) {
    forall name :: name in names ==> Reachable(schemas, roots, name)
  }

  // Every name a reference in the document can produce.
  ghost function Universe(schemas: map<string, Json>, roots: set<string>): set<string> {
    roots + Refs(Obj(schemas))
  }

  lemma SchemaRefsInUniverse(schemas: map<string, Json>, roots: set<string>, name: string)
    requires name in schemas
    ensures Refs(schemas[name]) <= Universe(schemas, roots)
  {
  }

  // `list(items)`: the items of a set in some order.
  method ListOf(items: set<string>) returns (xs: seq<string>)
    ensures Lists(xs, items)
  {
    xs := [];
    var todo := items;
    while todo != {}
      invariant todo <= items && Lists(xs, items - todo)
      decreases |todo|
    {
      var x :| x in todo;
      ElemsOfConcat(xs, [x]);
      assert Elems([x]) == {x};
      assert items - (todo - {x}) == (items - todo) + {x};
      xs := xs + [x];
      todo := todo - {x};
    }
    assert items - todo == items;
  }

  lemma QueuedAtFirst(schemas: map<string, Json>, roots: set<string>, queue: seq<string>)
    requires Lists(queue, roots)
    ensures ClosedButFor(schemas, roots, queue) && AllReachable(schemas, roots, roots) && Elems(queue) <= roots
  {
    forall name | name in roots ensures Reachable(schemas, roots, name) {
      RootsReachable(schemas, roots, name);
    }
    assert forall name :: name in queue <==> name in Elems(queue);
  }

  // One turn of the loop: `name` is taken off the queue and what it mentions is found.
  lemma Expanded(
    schemas: map<string, Json>, roots: set<string>, names: set<string>, queue: seq<string>, name: string,
    names': set<string>, more: seq<string>)
    requires ClosedButFor(schemas, names, queue + [name]) && AllReachable(schemas, roots, names)
    requires Elems(queue + [name]) <= names
    requires if name in schemas then names' == names + Refs(schemas[name]) else names' == names
    requires Lists(more, names' - names)
    ensures ClosedButFor(schemas, names', queue + more) && AllReachable(schemas, roots, names')
    ensures Elems(queue + more) <= names' && name in names
    ensures names' <= names + Universe(schemas, roots)
  {
    hide Refs, Reachable;
    ElemsOfConcat(queue, [name]);
    ElemsOfConcat(queue, more);
    assert name in Elems([name]);
    assert forall x :: x in more <==> x in Elems(more);
    if name in schemas {
      SchemaRefsInUniverse(schemas, roots, name);
      forall next | next in Refs(schemas[name]) ensures Reachable(schemas, roots, next) {
        MentionedReachable(schemas, roots, name, next);
      }
    }
  }

  // `queued` lists every name ever put on the queue.
  method PruneUnreferenced(schemas: map<string, Json>, paths: Json)
    returns (kept: map<string, Json>, ghost queued: seq<string>)
    ensures forall name :: name in kept <==> name in schemas && Reachable(schemas, Refs(paths), name)
    ensures forall name :: name in kept ==> kept[name] == schemas[name]
    ensures schemas != map[] ==> Lists(queued, Elems(queued))
    ensures schemas != map[] ==> forall name :: name in Elems(queued) <==> Reachable(schemas, Refs(paths), name)
  {
    hide Refs, Reachable, ClosedButFor, AllReachable, Lists, Elems, Universe;
    if schemas == map[] { return map[], []; }
    var collector := new RefCollector();
    collector.CollectRefs(paths);
    ghost var roots := Refs(paths);
    var queue := ListOf(collector.found);
    queued := queue;
    QueuedAtFirst(schemas, roots, queue);
    RootsInUniverse(schemas, roots);
    while |queue| > 0
      invariant roots <= collector.found <= Universe(schemas, roots)
      invariant Elems(queue) <= collector.found
      invariant ClosedButFor(schemas, collector.found, queue) && AllReachable(schemas, roots, collector.found)
      invariant Lists(queued, collector.found)
      decreases |Universe(schemas, roots) - collector.found|, |queue|
    {
      var name := queue[|queue| - 1];
      var rest := queue[..|queue| - 1];
      assert queue == rest + [name];
      var before := collector.found;
      if name in schemas {
        collector.CollectRefs(schemas[name]);
      }
      var more := ListOf(collector.found - before);
      Expanded(schemas, roots, before, rest, name, collector.found, more);
      ListsConcat(queued, before, more, collector.found - before);
      assert before + (collector.found - before) == collector.found;
      LessLeft(Universe(schemas, roots), before, collector.found, more);
      queue := rest + more;
      queued := queued + more;
    }
    Finished(schemas, roots, collector.found);
    ListsSize(queued, collector.found);
    kept := map name | name in schemas && name in collector.found :: schemas[name];
  }

  lemma RootsInUniverse(schemas: map<string, Json>, roots: set<string>)
    ensures roots <= Universe(schemas, roots)
  {
  }

  lemma LessLeft(universe: set<string>, before: set<string>, after: set<string>, more: seq<string>)
    requires before <= after <= universe && Lists(more, after - before)
    ensures |universe - after| <= |universe - before|
    ensures more != [] ==> |universe - after| < |universe - before|
  {
    assert universe - before == (universe - after) + (after - before);
  }

  lemma Finished(schemas: map<string, Json>, roots: set<string>, names: set<string>)
    requires roots <= names && ClosedButFor(schemas, names, []) && AllReachable(schemas, roots, names)
    ensures forall name :: name in names <==> Reachable(schemas, roots, name)
  {
    ClosedIsReachable(schemas, roots, names);
  }

  // --- the public specification ---

  // A path item maps methods to operations; `tags` is a list where it is present.
  type PathItem = map<string, Json>

  datatype Spec = Spec(paths: map<string, PathItem>, schemas: map<string, Json>, license: Option<string>)

  predicate IsAdmin(op: Json) {
    op.Obj? && "tags" in op.fields && op.fields["tags"].Arr? && Str(ADMIN_TAG) in op.fields["tags"].items
  }

  function PublicItem(item: PathItem): PathItem {
    map m | m in item && !IsAdmin(item[m]) :: item[m]
  }

  function PathsNode(paths: map<string, PathItem>): Json {
    Obj(map p | p in paths :: Obj(paths[p]))
  }

  // A name some kept operation mentions, or a path item that is itself a reference.
  ghost predicate MentionedByPublic(paths: map<string, PathItem>, name: string) {
    exists p :: p in paths &&
      (Some(name) == OwnRef(PublicItem(paths[p]))
       || exists m :: m in paths[p] && !IsAdmin(paths[p][m]) && name in Refs(paths[p][m]))
  }

  method BuildPublicOpenapi(spec: Spec) returns (public: Spec)
    ensures forall p :: p in public.paths <==>
      p in spec.paths && exists m :: m in spec.paths[p] && !IsAdmin(spec.paths[p][m])
    ensures forall p :: p in public.paths ==> public.paths[p] == PublicItem(spec.paths[p])
    ensures forall name :: name in public.schemas <==>
      name in spec.schemas && Reachable(spec.schemas, Refs(PathsNode(public.paths)), name)
    ensures forall name :: name in public.schemas ==> public.schemas[name] == spec.schemas[name]
    ensures public.license == Some("ODbL-1.0")
  {
    hide Refs, Reachable;
    var publicPaths: map<string, PathItem> := map[];
    var todo: set<string> := spec.paths.Keys;
    while todo != {}
      invariant todo <= spec.paths.Keys
      invariant forall p :: p in publicPaths <==> p in spec.paths && p !in todo && PublicItem(spec.paths[p]) != map[]
      invariant forall p :: p in publicPaths ==> publicPaths[p] == PublicItem(spec.paths[p])
      decreases |todo|
    {
      var p :| p in todo;
      var kept := map m | m in spec.paths[p] && !IsAdmin(spec.paths[p][m]) :: spec.paths[p][m];
      if kept != map[] {
        publicPaths := publicPaths[p := kept];
      }
      todo := todo - {p};
    }
    forall p | p in spec.paths
      ensures PublicItem(spec.paths[p]) != map[] <==> exists m :: m in spec.paths[p] && !IsAdmin(spec.paths[p][m])
    {
      NonEmptyItem(spec.paths[p]);
    }
    var schemas, _ := PruneUnreferenced(spec.schemas, PathsNode(publicPaths));
    public := Spec(publicPaths, schemas, Some("ODbL-1.0"));
  }

  lemma NonEmptyItem(item: PathItem)
    ensures PublicItem(item) != map[] <==> exists m :: m in item && !IsAdmin(item[m])
  {
    if m :| m in item && !IsAdmin(item[m]) {
      assert m in PublicItem(item);
    }
    if PublicItem(item) != map[] {
      var m :| m in PublicItem(item);
    }
  }

  // One of the tags of the operation.
  predicate HasTag(op: Json, tag: string) {
    match op
    case Obj(fields) =>
      "tags" in fields
      && (match fields["tags"]
          case Arr(items) => exists i :: 0 <= i < |items| && items[i] == Str(tag)
          case _ => false)
    case _ => false
  }

  // An operation is dropped if and only if it is tagged as admin; every other one stays unchanged.
  lemma OnlyAdminIsDropped(paths: map<string, PathItem>, kept: map<string, PathItem>, p: string, m: string)
    requires forall q :: q in kept <==> q in paths && PublicItem(paths[q]) != map[]
    requires forall q :: q in kept ==> kept[q] == PublicItem(paths[q])
    ensures p in kept && m in kept[p] <==> p in paths && m in paths[p] && !HasTag(paths[p][m], "admin")
    ensures p in kept && m in kept[p] ==> kept[p][m] == paths[p][m]
  {
    if p in paths && m in paths[p] {
      NonEmptyItem(paths[p]);
    }
  }

  // The schemas are those a chain of references leads to from a non-admin operation.
  lemma PublicRoots(paths: map<string, PathItem>, kept: map<string, PathItem>, name: string)
    requires forall p :: p in kept <==> p in paths && PublicItem(paths[p]) != map[]
    requires forall p :: p in kept ==> kept[p] == PublicItem(paths[p])
    ensures name in Refs(PathsNode(kept)) <==> MentionedByPublic(paths, name)
  {
    var node := PathsNode(kept);
    assert OwnRef(node.fields) == None;
    forall p | p in kept
      ensures name in Refs(node.fields[p]) <==>
        Some(name) == OwnRef(kept[p]) || exists m :: m in paths[p] && !IsAdmin(paths[p][m]) && name in Refs(paths[p][m])
    {
      ItemRefs(paths[p], name);
    }
    if MentionedByPublic(paths, name) {
      var p :| p in paths && (Some(name) == OwnRef(PublicItem(paths[p]))
                              || exists m :: m in paths[p] && !IsAdmin(paths[p][m]) && name in Refs(paths[p][m]));
      ItemRefs(paths[p], name);
      assert p in node.fields;
    }
  }

  lemma ItemRefs(item: PathItem, name: string)
    ensures name in Refs(Obj(PublicItem(item))) <==>
      Some(name) == OwnRef(PublicItem(item)) || exists m :: m in item && !IsAdmin(item[m]) && name in Refs(item[m])
    ensures PublicItem(item) == map[] ==>
      OwnRef(PublicItem(item)) == None && !exists m :: m in item && !IsAdmin(item[m]) && name in Refs(item[m])
  {
    var fields := PublicItem(item);
    if m :| m in item && !IsAdmin(item[m]) && name in Refs(item[m]) {
      assert m in fields && fields[m] == item[m];
    }
  }

  // A reference that resolved before pruning still resolves, from the roots and from kept schemas.
  lemma NoReferenceBroken(schemas: map<string, Json>, roots: set<string>, kept: map<string, Json>, name: string)
    requires forall n :: n in kept <==> n in schemas && Reachable(schemas, roots, n)
    requires name in roots || exists n :: n in kept && name in Refs(schemas[n])
    ensures name in kept <==> name in schemas
  {
    hide Refs, Reachable;
    if name in roots {
      RootsReachable(schemas, roots, name);
    } else {
      var n :| n in kept && name in Refs(schemas[n]);
      MentionedReachable(schemas, roots, n, name);
    }
  }

  // Pruning a pruned document changes nothing.
  lemma PruningTwice(schemas: map<string, Json>, roots: set<string>, kept: map<string, Json>, name: string)
    requires forall n :: n in kept <==> n in schemas && Reachable(schemas, roots, n)
    requires forall n :: n in kept ==> kept[n] == schemas[n]
    requires name in kept
    ensures Reachable(kept, roots, name)
  {
    hide Refs;
    var chain :| IsChain(schemas, roots, chain) && chain[|chain| - 1] == name;
    forall i | 0 <= i < |chain| - 1 ensures chain[i] in kept {
      assert IsChain(schemas, roots, chain[..i + 1]);
    }
    assert IsChain(kept, roots, chain);
  }

  // --- references read as pointers ---

  function FirstSegment(s: string): string {
    if s == [] || s[0] == '/' then [] else [s[0]] + FirstSegment(s[1..])
  }

  function PointsInto(fields: map<string, Json>): Option<string> {
    if "$ref" in fields && fields["$ref"].Str? && SCHEMA_PREFIX <= fields["$ref"].text
    then Some(fields["$ref"].text[|SCHEMA_PREFIX|..]) else None
  }

  // The components the references inside a node point into, whatever inside the component they mean.
  ghost function PointerRefs(node: Json): set<string> {
    match node
    case Obj(fields) =>
      (if PointsInto(fields).Some? then {FirstSegment(PointsInto(fields).value)} else {})
      + (set k, r | k in fields && r in PointerRefs(fields[k]) :: r)
    case Arr(items) => set i, r | 0 <= i < |items| && r in PointerRefs(items[i]) :: r
    case _ => {}
  }

  // Every component reference inside the node names a component and nothing further.
  ghost predicate WholeReferences(node: Json) {
    match node
    case Obj(fields) =>
      && (PointsInto(fields).Some? ==> '/' !in PointsInto(fields).value)
      && forall k :: k in fields ==> WholeReferences(fields[k])
    case Arr(items) => forall i :: 0 <= i < |items| ==> WholeReferences(items[i])
    case _ => true
  }

  lemma {:induction false} FirstOfWhole(s: string)
    requires '/' !in s
    ensures FirstSegment(s) == s
  {
    if s != [] {
      FirstOfWhole(s[1..]);
    }
  }

  lemma OwnRefOfWhole(fields: map<string, Json>)
    requires PointsInto(fields).Some? ==> '/' !in PointsInto(fields).value
    ensures OwnRef(fields).Some? <==> PointsInto(fields).Some?
    ensures OwnRef(fields).Some? ==> OwnRef(fields).value == FirstSegment(PointsInto(fields).value)
  {
    if PointsInto(fields).Some? {
      var rest := PointsInto(fields).value;
      assert fields["$ref"].text == SCHEMA_PREFIX + rest;
      ReferenceNamesComponent(rest);
      FirstOfWhole(rest);
    }
  }

  lemma {:induction false} WholeRefsArePointers(node: Json)
    requires WholeReferences(node)
    ensures Refs(node) == PointerRefs(node)
  {
    match node {
      case Obj(fields) =>
        forall k | k in fields ensures Refs(fields[k]) == PointerRefs(fields[k]) {
          WholeRefsArePointers(fields[k]);
        }
        WholeObject(fields);
      case Arr(items) =>
        forall i | 0 <= i < |items| ensures Refs(items[i]) == PointerRefs(items[i]) {
          WholeRefsArePointers(items[i]);
        }
        WholeArray(items);
      case _ =>
    }
  }

  lemma WholeObject(fields: map<string, Json>)
    requires PointsInto(fields).Some? ==> '/' !in PointsInto(fields).value
    requires forall k :: k in fields ==> Refs(fields[k]) == PointerRefs(fields[k])
    ensures Refs(Obj(fields)) == PointerRefs(Obj(fields))
  {
    OwnRefOfWhole(fields);
    hide OwnRef, PointsInto, FirstSegment;
    forall r ensures r in Refs(Obj(fields)) <==> r in PointerRefs(Obj(fields)) {}
  }

  lemma WholeArray(items: seq<Json>)
    requires forall i :: 0 <= i < |items| ==> Refs(items[i]) == PointerRefs(items[i])
    ensures Refs(Arr(items)) == PointerRefs(Arr(items))
  {
    forall r ensures r in Refs(Arr(items)) <==> r in PointerRefs(Arr(items)) {}
  }

  ghost predicate PointerReachable(schemas: map<string, Json>, roots: set<string>, name: string) {
    exists chain :: IsPointerChain(schemas, roots, chain) && chain[|chain| - 1] == name
  }

  ghost predicate IsPointerChain(schemas: map<string, Json>, roots: set<string>, chain: seq<string>) {
    && |chain| > 0 && chain[0] in roots
    && forall i :: 0 <= i < |chain| - 1 ==> chain[i] in schemas && chain[i + 1] in PointerRefs(schemas[chain[i]])
  }

  // In a document whose references name whole components, the schemas kept are those a chain of
  // references points into.
  lemma WholeDocumentKeepsPointees(schemas: map<string, Json>, paths: Json, name: string)
    requires WholeReferences(paths) && forall n :: n in schemas ==> WholeReferences(schemas[n])
    ensures Reachable(schemas, Refs(paths), name) <==> PointerReachable(schemas, PointerRefs(paths), name)
  {
    hide Refs, PointerRefs, WholeReferences;
    WholeRefsArePointers(paths);
    forall n | n in schemas ensures Refs(schemas[n]) == PointerRefs(schemas[n]) {
      WholeRefsArePointers(schemas[n]);
    }
    forall chain ensures IsChain(schemas, Refs(paths), chain) <==> IsPointerChain(schemas, PointerRefs(paths), chain) {
    }
  }

  lemma {:induction false} SegmentsOf(component: string, last: string)
    requires '/' !in component && '/' !in last
    ensures FirstSegment(component + "/" + last) == component
    ensures LastSegment(component + "/" + last) == last
  {
    var path := component + "/" + last;
    assert path[|component|] == '/';
    if component == [] {
      assert path[1..] == last;
    } else {
      assert path[1..] == component[1..] + "/" + last;
      SegmentsOf(component[1..], last);
    }
  }

  lemma {:induction false} LastSegmentAfter(prefix: string, rest: string)
    requires '/' in rest
    ensures LastSegment(prefix + rest) == LastSegment(rest)
  {
    if prefix == [] {
      assert prefix + rest == rest;
    } else {
      assert (prefix + rest)[1..] == prefix[1..] + rest;
      assert forall c :: c in rest ==> c in prefix + rest;
      LastSegmentAfter(prefix[1..], rest);
    }
  }

  lemma PointerOfReference(rest: string)
    ensures
      var fields := map["$ref" := Str(SCHEMA_PREFIX + rest)];
      OwnRef(fields) == Some(LastSegment(SCHEMA_PREFIX + rest)) && PointsInto(fields) == Some(rest)
  {
    hide LastSegment;
    assert (SCHEMA_PREFIX + rest)[|SCHEMA_PREFIX|..] == rest;
  }

  lemma PointerRefsOfReference(text: string)
    ensures
      var fields := map["$ref" := Str(text)];
      PointerRefs(Obj(fields)) ==
        if PointsInto(fields).Some? then {FirstSegment(PointsInto(fields).value)} else {}
  {
    hide FirstSegment, PointsInto;
    assert PointerRefs(Str(text)) == {};
  }

  // A reference to something inside a component keeps a component of that name instead of the one
  // it points into.
  lemma PointerIntoComponentReadsItsEnd(component: string, last: string)
    requires '/' !in component && '/' !in last
    ensures
      var fields := map["$ref" := Str(SCHEMA_PREFIX + (component + "/" + last))];
      OwnRef(fields) == Some(last) && PointerRefs(Obj(fields)) == {component}
  {
    hide FirstSegment, LastSegment, PointerRefs, OwnRef, PointsInto;
    var rest := component + "/" + last;
    assert rest[|component|] == '/';
    SegmentsOf(component, last);
    LastSegmentAfter(SCHEMA_PREFIX, rest);
    PointerOfReference(rest);
    PointerRefsOfReference(SCHEMA_PREFIX + rest);
  }
}
