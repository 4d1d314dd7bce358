/** The resource graph of the Form XObjects, which may be shared and cyclic, and what
    pruning doomed images from its dictionaries does. */
module FormGraph {
  import opened Wrappers
  import opened Matrices
  import opened Content
  import opened GraphicsState
  import opened Filter

  /** Every resource name refers to an object of the document. */
  ghost predicate Resolves(objects: Objects, res: Option<Resources>) {
    res.Some? ==> forall i :: 0 <= i < |res.value.xobjects| ==> res.value.xobjects[i].1 in objects
  }

  ghost predicate IsFormEntry(objects: Objects, res: Option<Resources>, f: ObjectId) {
    res.Some? && f in objects && objects[f].Form?
      && exists i :: 0 <= i < |res.value.xobjects| && res.value.xobjects[i].1 == f
  }

  /** `f` is listed in the resources of form `g`. */
  ghost predicate Uses(objects: Objects, g: ObjectId, f: ObjectId) {
    g in objects && objects[g].Form? && IsFormEntry(objects, objects[g].resources, f)
  }

  ghost function Forms(objects: Objects): set<ObjectId> {
    set id | id in objects && objects[id].Form?
  }

  /** A chain of forms, each listed in the resources of the one before. */
  ghost predicate IsChain(objects: Objects, path: seq<ObjectId>) {
    path != [] && forall i :: 0 < i < |path| ==> Uses(objects, path[i - 1], path[i])
  }

  /** `f` can be reached from the resource dictionary `res`. */
  ghost predicate Reachable(objects: Objects, res: Option<Resources>, f: ObjectId) {
    exists path :: IsChain(objects, path) && IsFormEntry(objects, res, path[0]) && path[|path| - 1] == f
  }

  lemma ReachableDirectly(objects: Objects, res: Option<Resources>, f: ObjectId)
    requires IsFormEntry(objects, res, f)
    ensures Reachable(objects, res, f)
  {
    assert IsChain(objects, [f]);
  }

  lemma ReachableThrough(objects: Objects, res: Option<Resources>, g: ObjectId, f: ObjectId)
    requires IsFormEntry(objects, res, g) && Reachable(objects, objects[g].resources, f)
    ensures Reachable(objects, res, f)
  {
    var path :| IsChain(objects, path) && IsFormEntry(objects, objects[g].resources, path[0]) && path[|path| - 1] == f;
    var longer := [g] + path;
    forall i | 0 < i < |longer| ensures Uses(objects, longer[i - 1], longer[i]) {
      if i > 1 { assert longer[i - 1] == path[i - 2] && longer[i] == path[i - 1]; }
    }
    assert IsChain(objects, longer) && longer[0] == g && longer[|longer| - 1] == f;
  }

  ghost predicate Closed(objects: Objects, s: set<ObjectId>) {
    forall g, h :: g in s && Uses(objects, g, h) ==> h in s
  }

  /** A set closed under `Uses` that holds the direct entries holds everything reachable. */
  lemma ClosedHoldsReachable(objects: Objects, res: Option<Resources>, s: set<ObjectId>, f: ObjectId)
    requires Closed(objects, s) && forall g :: IsFormEntry(objects, res, g) ==> g in s
    requires Reachable(objects, res, f)
    ensures f in s
  {
    var path :| IsChain(objects, path) && IsFormEntry(objects, res, path[0]) && path[|path| - 1] == f;
    var i := 0;
    while i < |path| - 1
      invariant 0 <= i < |path| && path[i] in s
    {
      assert Uses(objects, path[i], path[i + 1]);
      i := i + 1;
    }
  }

  /** Some entry of `res`, or of a form reachable from it, refers to no object. */
  ghost predicate Dangles(objects: Objects, res: Option<Resources>) {
    || !Resolves(objects, res)
    || exists f :: Reachable(objects, res, f) && !FormResolves(objects, f)
  }

  ghost predicate FormResolves(objects: Objects, f: ObjectId) {
    f in objects && objects[f].Form? ==> Resolves(objects, objects[f].resources)
  }

  lemma DanglesThrough(objects: Objects, res: Option<Resources>, id: ObjectId)
    requires IsFormEntry(objects, res, id) && Dangles(objects, objects[id].resources)
    ensures Dangles(objects, res)
  {
    hide Reachable, Resolves;
    ReachableDirectly(objects, res, id);
    if Resolves(objects, objects[id].resources) {
      var f :| Reachable(objects, objects[id].resources, f) && !FormResolves(objects, f);
      ReachableThrough(objects, res, id, f);
    } else {
      assert !FormResolves(objects, id);
    }
  }

  // ---- Pruning ----

  predicate IsDoomed(objects: Objects, images: set<Digest>, id: ObjectId) {
    id in objects && objects[id].Image? && objects[id].digest in images
  }

  function WithoutDoomed(objects: Objects, images: set<Digest>, entries: seq<(Name, ObjectId)>): seq<(Name, ObjectId)> {
    if entries == [] then []
    else
      (if IsDoomed(objects, images, entries[0].1) then [] else [entries[0]])
      + WithoutDoomed(objects, images, entries[1..])
  }

  /** What is left of a resource dictionary once the dictionaries in `pruned` were pruned. */
  function Visible(objects: Objects, images: set<Digest>, res: Option<Resources>, pruned: set<nat>): Option<Resources> {
    if res.Some? && res.value.dict in pruned
    then Some(res.value.(xobjects := WithoutDoomed(objects, images, res.value.xobjects)))
    else res
  }

  predicate ListsDoomed(objects: Objects, images: set<Digest>, res: Resources) {
    exists i :: 0 <= i < |res.xobjects| && IsDoomed(objects, images, res.xobjects[i].1)
  }

  /** Pruning the dictionary now would make it smaller. */
  predicate Fragile(objects: Objects, images: set<Digest>, res: Option<Resources>, pruned: set<nat>) {
    res.Some? && res.value.dict !in pruned && ListsDoomed(objects, images, res.value)
  }

  ghost predicate HasDict(objects: Objects, f: ObjectId, dict: nat) {
    f in objects && objects[f].Form? && objects[f].resources.Some? && objects[f].resources.value.dict == dict
  }

  /** The dictionaries of some forms. */
  ghost function Dicts(objects: Objects, forms: set<ObjectId>): set<nat> {
    set f | f in forms && f in objects && objects[f].Form? && objects[f].resources.Some? ::
      objects[f].resources.value.dict
  }

  /** Walking `res` shrinks the very dictionary being walked, which Python refuses: it lists
      a doomed image, is not yet pruned, and is also the dictionary of a form reachable from it. */
  ghost predicate Trips(objects: Objects, images: set<Digest>, res: Option<Resources>, pruned: set<nat>) {
    Fragile(objects, images, res, pruned)
    && exists f :: Reachable(objects, res, f) && HasDict(objects, f, res.value.dict)
  }

  /** The keys of a dictionary are distinct. */
  ghost predicate DistinctNames(entries: seq<(Name, ObjectId)>) {
    forall i, j :: 0 <= i < j < |entries| ==> entries[i].0 != entries[j].0
  }

  lemma {:induction false} FindAfterPruning(objects: Objects, images: set<Digest>, entries: seq<(Name, ObjectId)>,
                                            name: Name)
    requires DistinctNames(entries)
    ensures FindXObject(WithoutDoomed(objects, images, entries), name) ==
      match FindXObject(entries, name)
      case Some(id) => if IsDoomed(objects, images, id) then None else Some(id)
      case None => None
  {
    if entries != [] {
      FindAfterPruning(objects, images, entries[1..], name);
      var rest := WithoutDoomed(objects, images, entries[1..]);
      assert ([entries[0]] + rest)[1..] == rest && [] + rest == rest;
      if entries[0].0 == name {
        NotFoundBehind(entries[1..], name);
      }
    }
  }

  lemma {:induction false} NotFoundBehind(entries: seq<(Name, ObjectId)>, name: Name)
    requires forall i :: 0 <= i < |entries| ==> entries[i].0 != name
    ensures FindXObject(entries, name) == None
  {
    if entries != [] {
      NotFoundBehind(entries[1..], name);
    }
  }

  /** What pruning does to a later stream that shares the dictionary: exactly the draws of
      doomed images, which no longer resolve, are kept where they would have been dropped. */
  lemma PrunedDrawIsKept(env: Env, plan: Plan, res: Resources, pruned: set<nat>, name: Name)
    requires DistinctNames(res.xobjects)
    ensures var images, id := plan.detection.images, XObjectNamed(env.objects, Some(res), name);
      DrawVerdict(env, Visible(env.objects, images, Some(res), pruned), plan, Draw(name)) ==
      if res.dict in pruned && id.Some? && IsDoomed(env.objects, images, id.value) then Keep
      else DrawVerdict(env, Some(res), plan, Draw(name))
  {
    hide IsWatermarkLayer;
    FindAfterPruning(env.objects, plan.detection.images, res.xobjects, name);
  }

  lemma {:induction false} KeptIff(segs: seq<Segment>, op: Op)
    ensures op in Summary(segs).kept <==> exists k :: 0 <= k < |segs| && segs[k].verdict.Keep? && op in segs[k].ops
  {
    if segs != [] {
      var tail := segs[1..];
      KeptIff(tail, op);
      assert forall k :: 0 <= k < |tail| ==> tail[k] == segs[k + 1];
      if k :| 0 <= k < |segs| && segs[k].verdict.Keep? && op in segs[k].ops {
        assert k > 0 ==> tail[k - 1] == segs[k];
      }
    }
  }

  /** How a draw of a doomed image can sit in a segment that is kept. */
  ghost predicate DrawSurvives(s: Segment, draw: Op, isPruned: bool) {
    || (s.ops == [draw] && isPruned)
    || (s.verdict.Keep? && s.ops != [] && s.ops[0].BeginText? && draw in s.ops)
  }

  lemma {:induction false} SegmentShape(env: Env, res: Option<Resources>, plan: Plan, ops: seq<Op>, t: Tracker, k: nat)
    requires k < |Segments(env, res, plan, ops, t)|
    ensures var s := Segments(env, res, plan, ops, t)[k];
      && s.ops != []
      && (s.verdict.DropMarked? ==> s.ops[0].BeginMarkedProps?)
      && (!s.verdict.DropMarked? && !s.ops[0].BeginText? ==>
            |s.ops| == 1 && s.verdict == DrawVerdict(env, res, plan, s.ops[0]))
    decreases |ops|
  {
    hide Run, After, DrawVerdict, TextVerdict, TraceRun, UntilEndText, SkipLength;
    var s := NextSegment(env, res, plan, ops, t);
    if k > 0 {
      SegmentShape(env, res, plan, ops[|s.ops|..], After(s, res, t), k - 1);
    }
  }

  /** A filtered stream still draws a doomed image exactly when it draws it by itself and its
      dictionary was pruned before, or inside a text block that is kept, closed or not. */
  lemma DanglingDrawIff(env: Env, plan: Plan, res: Resources, pruned: set<nat>, ops: seq<Op>, name: Name)
    requires DistinctNames(res.xobjects)
    requires var id := XObjectNamed(env.objects, Some(res), name);
      id.Some? && IsDoomed(env.objects, plan.detection.images, id.value)
    ensures var visible := Visible(env.objects, plan.detection.images, Some(res), pruned);
      var segs := PlanSegments(env, visible, plan, ops);
      Draw(name) in Filtered(env, visible, plan, ops).kept <==>
      exists k :: 0 <= k < |segs| && DrawSurvives(segs[k], Draw(name), res.dict in pruned)
  {
    hide Segments, Visible, XObjectNamed, IsDoomed, DistinctNames;
    var visible := Visible(env.objects, plan.detection.images, Some(res), pruned);
    var segs := PlanSegments(env, visible, plan, ops);
    KeptIff(segs, Draw(name));
    DoomedDraw(env, plan, res, pruned, name);
    forall k: nat | k < |segs|
      ensures segs[k].verdict.Keep? && Draw(name) in segs[k].ops <==>
        DrawSurvives(segs[k], Draw(name), res.dict in pruned)
    {
      SegmentShape(env, visible, plan, ops, Start(IDENTITY, plan.hintAlpha), k);
      SurvivesIff(env, visible, plan, segs[k], Draw(name), res.dict in pruned);
    }
  }

  lemma DoomedDraw(env: Env, plan: Plan, res: Resources, pruned: set<nat>, name: Name)
    requires DistinctNames(res.xobjects)
    requires var id := XObjectNamed(env.objects, Some(res), name);
      id.Some? && IsDoomed(env.objects, plan.detection.images, id.value)
    ensures var visible := Visible(env.objects, plan.detection.images, Some(res), pruned);
      DrawVerdict(env, visible, plan, Draw(name)).Keep? <==> res.dict in pruned
  {
    hide IsWatermarkLayer;
    PrunedDrawIsKept(env, plan, res, pruned, name);
  }

  lemma SurvivesIff(env: Env, res: Option<Resources>, plan: Plan, s: Segment, draw: Op, isPruned: bool)
    requires draw.Draw? && s.ops != [] && (s.verdict.DropMarked? ==> s.ops[0].BeginMarkedProps?)
    requires !s.verdict.DropMarked? && !s.ops[0].BeginText? ==>
      |s.ops| == 1 && s.verdict == DrawVerdict(env, res, plan, s.ops[0])
    requires DrawVerdict(env, res, plan, draw).Keep? <==> isPruned
    ensures s.verdict.Keep? && draw in s.ops <==> DrawSurvives(s, draw, isPruned)
  {
    hide DrawVerdict;
    if |s.ops| == 1 {
      assert draw in s.ops <==> s.ops[0] == draw;
      assert s.ops == [s.ops[0]];
    }
  }
}
