/** The rewrite of the Form XObjects a page draws: a walk over the resource graph that
    prunes doomed images from dictionaries on the way. */
module FormWalk {
  import opened Wrappers
  import opened Matrices
  import opened Content
  import opened Filter
  import opened FilterTheorems
  import opened Scan
  import opened FormGraph

  // ---- What a form is rewritten under ----

  /** The plan a form is rewritten under: the draw-site traits of the form itself on
      top of those of the form or page that lists it. */
  function InnerPlan(plan: Plan, id: ObjectId): Plan {
    var hint := if id in plan.detection.hints then plan.detection.hints[id] else (1.0, false);
    plan.(hintAlpha := Min(plan.hintAlpha, hint.0), hintDiagonal := plan.hintDiagonal || hint.1)
  }

  /** The plan a form was rewritten under, and the page dictionaries pruned by then. */
  datatype Way = Way(plan: Plan, pages: set<nat>)

  type Ways = map<ObjectId, Way>

  /** In a walk over `res` whose forms are those of `order` from position `from` on, form
      `order[k]` was rewritten under the plan it inherits from `res` or from a form visited
      before it in the same walk, whichever lists it. */
  ghost predicate Inherits(objects: Objects, res: Option<Resources>, w: Way, how: Ways, order: seq<ObjectId>,
                           from: nat, k: nat)
    requires from <= k < |order|
  {
    var f := order[k];
    && f in how && how[f].pages == w.pages
    && (|| (IsFormEntry(objects, res, f) && how[f].plan == InnerPlan(w.plan, f))
        || exists j :: from <= j < k && InheritsFrom(objects, how, order[j], f))
  }

  ghost predicate InheritsFrom(objects: Objects, how: Ways, g: ObjectId, f: ObjectId) {
    g in how && f in how && Uses(objects, g, f) && how[f].plan == InnerPlan(how[g].plan, f)
  }

  ghost function Elements(order: seq<ObjectId>): set<ObjectId> {
    set f | f in order
  }

  /** One pass over the original stream of form `f`, visited after the forms in `done`. */
  ghost function FormOutcome(env: Env, original: Streams, how: Ways, done: set<ObjectId>, f: ObjectId): Outcome {
    if f in original && f in how && f in env.objects && env.objects[f].Form?
    then
      var plan, pruned := how[f].plan, how[f].pages + Dicts(env.objects, done);
      Filtered(env, Visible(env.objects, plan.detection.images, env.objects[f].resources, pruned), plan, original[f])
    else Outcome([], 0, 0)
  }

  /** Sums over the forms in the order they were visited. */
  ghost function SumRemoved(env: Env, original: Streams, how: Ways, order: seq<ObjectId>): nat {
    if order == [] then 0
    else
      var done := order[..|order| - 1];
      SumRemoved(env, original, how, done)
      + FormOutcome(env, original, how, Elements(done), order[|order| - 1]).removed
  }

  ghost function SumHits(env: Env, original: Streams, how: Ways, order: seq<ObjectId>): nat {
    if order == [] then 0
    else
      var done := order[..|order| - 1];
      SumHits(env, original, how, done)
      + FormOutcome(env, original, how, Elements(done), order[|order| - 1]).userHits
  }

  /** Recording the way of a new form does not change the sums over earlier ones. */
  lemma {:induction false} SumsIgnoreNew(env: Env, original: Streams, how: Ways, order: seq<ObjectId>, f: ObjectId,
                                         w: Way)
    requires f !in order
    ensures SumRemoved(env, original, how[f := w], order) == SumRemoved(env, original, how, order)
    ensures SumHits(env, original, how[f := w], order) == SumHits(env, original, how, order)
  {
    hide Filtered, Visible, Dicts;
    if order != [] {
      SumsIgnoreNew(env, original, how, order[..|order| - 1], f, w);
    }
  }

  lemma SumsSnoc(env: Env, original: Streams, how: Ways, order: seq<ObjectId>, f: ObjectId, w: Way)
    requires f !in order
    ensures var out, after := FormOutcome(env, original, how[f := w], Elements(order), f), order + [f];
      && SumRemoved(env, original, how[f := w], after) == SumRemoved(env, original, how, order) + out.removed
      && SumHits(env, original, how[f := w], after) == SumHits(env, original, how, order) + out.userHits
  {
    hide FormOutcome;
    assert (order + [f])[..|order|] == order;
    SumsIgnoreNew(env, original, how, order, f, w);
  }

  /** Each visited form was visited once, and its stream, if it decodes, is its original
      stream filtered once as recorded; other streams are untouched. */
  ghost predicate RewrittenOnce(env: Env, original: Streams, streams: Streams, order: seq<ObjectId>, how: Ways) {
    && (forall i, j :: 0 <= i < j < |order| ==> order[i] != order[j])
    && Elements(order) == how.Keys && how.Keys <= Forms(env.objects)
    && streams.Keys == original.Keys
    && (forall f :: f in streams && f !in order ==> streams[f] == original[f])
    && (forall k :: 0 <= k < |order| && order[k] in streams ==>
          streams[order[k]] == FormOutcome(env, original, how, Elements(order[..k]), order[k]).kept)
  }

  lemma OneMoreRewritten(env: Env, original: Streams, streams: Streams, order: seq<ObjectId>, how: Ways,
                         id: ObjectId, w: Way, streams': Streams)
    requires RewrittenOnce(env, original, streams, order, how)
    requires id in Forms(env.objects) && id !in order
    requires var out := FormOutcome(env, original, how[id := w], Elements(order), id);
      streams' == if id in streams then streams[id := out.kept] else streams
    ensures RewrittenOnce(env, original, streams', order + [id], how[id := w])
  {
    hide Filtered, Visible, Dicts;
    var after := order + [id];
    assert Elements(after) == Elements(order) + {id};
    forall k | 0 <= k < |after| && after[k] in streams'
      ensures streams'[after[k]] == FormOutcome(env, original, how[id := w], Elements(after[..k]), after[k]).kept
    {
      if k < |order| {
        assert after[..k] == order[..k];
        assert streams'[order[k]] == streams[order[k]];
      } else {
        assert after[..k] == order;
      }
    }
  }

  /** How a walk over `res` extends what was visited, `order0` and `before`: it only adds
      forms, with every new form all that it lists, and only forms reachable from `res`;
      earlier ways stay and new plans are inherited in the order of the walk. */
  ghost predicate Grown(objects: Objects, res: Option<Resources>, w: Way,
                        order0: seq<ObjectId>, before: Ways, order: seq<ObjectId>, after: Ways)
  {
    && order0 <= order && after.Keys == before.Keys + Elements(order[|order0|..])
    && (forall f :: f in before ==> f in after && after[f] == before[f])
    && forall k :: |order0| <= k < |order| ==> WalkedAt(objects, res, w, order, after, |order0|, k)
  }

  ghost predicate WalkedAt(objects: Objects, res: Option<Resources>, w: Way, order: seq<ObjectId>, how: Ways,
                           from: nat, k: nat)
    requires from <= k < |order|
  {
    && FormResolves(objects, order[k])
    && (forall g :: Uses(objects, order[k], g) ==> g in how)
    && Reachable(objects, res, order[k])
    && Inherits(objects, res, w, how, order, from, k)
  }

  lemma GrownNot(objects: Objects, res: Option<Resources>, w: Way, order: seq<ObjectId>, how: Ways)
    ensures Grown(objects, res, w, order, how, order, how)
  {
    assert Elements(order[|order|..]) == {};
  }

  /** A walk through the resources of one newly visited entry. */
  lemma GrownThroughEntry(objects: Objects, res: Option<Resources>, w: Way, id: ObjectId, order0: seq<ObjectId>,
                          start: Ways,
                          order1: seq<ObjectId>, before: Ways, order2: seq<ObjectId>, after: Ways)
    requires Grown(objects, res, w, order0, start, order1, before)
    requires IsFormEntry(objects, res, id) && id !in before && FormResolves(objects, id)
    requires var inner := Way(InnerPlan(w.plan, id), w.pages);
      Grown(objects, objects[id].resources, inner, order1 + [id], before[id := inner], order2, after)
    requires forall g :: IsFormEntry(objects, objects[id].resources, g) ==> g in after
    ensures Grown(objects, res, w, order0, start, order2, after)
  {
    hide WalkedAt;
    var inner := Way(InnerPlan(w.plan, id), w.pages);
    var mid := before[id := inner];
    assert forall f :: f in before ==> f in mid && mid[f] == before[f];
    assert id in mid && after[id] == inner && order2[|order1|] == id;
    SplitElements(order0, order1, id, order2);
    forall k | |order0| <= k < |order2| ensures WalkedAt(objects, res, w, order2, after, |order0|, k) {
      if k < |order1| {
        WalkedLater(objects, res, w, order1, before, order2, after, |order0|, k);
      } else if k == |order1| {
        WalkedEntry(objects, res, w, id, order2, after, |order0|, k);
      } else {
        WalkedInside(objects, res, w, id, order2, after, |order0|, |order1|, k);
      }
    }
  }

  lemma SplitElements(order0: seq<ObjectId>, order1: seq<ObjectId>, id: ObjectId, order2: seq<ObjectId>)
    requires order0 <= order1 && order1 + [id] <= order2
    ensures Elements(order2[|order0|..]) == Elements(order1[|order0|..]) + {id} + Elements(order2[|order1| + 1..])
  {
    assert order2[|order0|..] == order1[|order0|..] + [id] + order2[|order1| + 1..];
  }

  lemma WalkedLater(objects: Objects, res: Option<Resources>, w: Way, order1: seq<ObjectId>, before: Ways,
                    order2: seq<ObjectId>, after: Ways, from: nat, k: nat)
    requires from <= k < |order1| && order1 <= order2
    requires forall f :: f in before ==> f in after && after[f] == before[f]
    requires WalkedAt(objects, res, w, order1, before, from, k)
    ensures WalkedAt(objects, res, w, order2, after, from, k)
  {
    hide Reachable, InnerPlan, FormResolves, Uses;
    if j :| from <= j < k && InheritsFrom(objects, before, order1[j], order1[k]) {
      assert InheritsFrom(objects, after, order2[j], order2[k]);
    }
  }

  lemma WalkedEntry(objects: Objects, res: Option<Resources>, w: Way, id: ObjectId,
                    order: seq<ObjectId>, how: Ways, from: nat, k: nat)
    requires from <= k < |order| && order[k] == id && IsFormEntry(objects, res, id) && FormResolves(objects, id)
    requires id in how && how[id] == Way(InnerPlan(w.plan, id), w.pages)
    requires forall g :: IsFormEntry(objects, objects[id].resources, g) ==> g in how
    ensures WalkedAt(objects, res, w, order, how, from, k)
  {
    hide Reachable, InnerPlan, FormResolves;
    ReachableDirectly(objects, res, id);
  }

  /** What a form inherits inside the walk of an entry it inherits in the whole walk. */
  lemma WalkedInside(objects: Objects, res: Option<Resources>, w: Way, id: ObjectId,
                     order: seq<ObjectId>, how: Ways, from: nat, m: nat, k: nat)
    requires from <= m < k < |order| && order[m] == id && IsFormEntry(objects, res, id)
    requires id in how && how[id] == Way(InnerPlan(w.plan, id), w.pages)
    requires WalkedAt(objects, objects[id].resources, how[id], order, how, m + 1, k)
    ensures WalkedAt(objects, res, w, order, how, from, k)
  {
    hide Reachable, InnerPlan, FormResolves;
    var f := order[k];
    ReachableThrough(objects, res, id, f);
    if j :| m + 1 <= j < k && InheritsFrom(objects, how, order[j], f) {
      assert from <= j < k;
    } else {
      assert InheritsFrom(objects, how, order[m], f);
    }
  }

  class FormRewriter {
    const env: Env
    var streams: Streams
    var visited: set<ObjectId>
    var pruned: set<nat>  // the /XObject dictionaries already pruned
    ghost const original: Streams
    ghost var order: seq<ObjectId>
    ghost var how: Ways
    ghost var pageDicts: set<nat>

    constructor (env: Env, streams: Streams)
      ensures Valid() && this.env == env && original == streams
      ensures visited == {} && order == [] && how == map[] && pageDicts == {}
    {
      this.env, this.streams, this.visited, this.pruned := env, streams, {}, {};
      original, order, how, pageDicts := streams, [], map[], {};
    }

    ghost predicate Valid()
      reads this
    {
      && RewrittenOnce(env, original, streams, order, how)
      && visited == how.Keys
      && pruned == pageDicts + Dicts(env.objects, visited)
    }

    ghost function Removed(): nat reads this { SumRemoved(env, original, how, order) }

    ghost function Hits(): nat reads this { SumHits(env, original, how, order) }

    /** The first steps for a form seen for the first time: mark it, filter its stream,
        write the stream back when something was dropped, and prune its dictionary. */
    method RewriteForm(id: ObjectId, innerPlan: Plan) returns (removed: nat, userHits: nat)
      requires Valid() && id in Forms(env.objects) && id !in visited
      modifies this
      ensures Valid() && visited == old(visited) + {id} && order == old(order) + [id]
      ensures how == old(how)[id := Way(innerPlan, pageDicts)] && pageDicts == old(pageDicts)
      ensures var inner := env.objects[id].resources; inner.Some? ==> inner.value.dict in pruned
      ensures Removed() == old(Removed()) + removed && Hits() == old(Hits()) + userHits
    {
      hide Filtered, SumRemoved, SumHits, Visible, RewrittenOnce, Dicts;
      removed, userHits := 0, 0;
      visited := visited + {id};
      var inner := env.objects[id].resources;
      ghost var way := Way(innerPlan, pageDicts);
      assert id !in order && streams.Keys == original.Keys && Elements(order) == how.Keys by { OrderFacts(); }
      assert id in streams ==> streams[id] == original[id] by { UnvisitedUntouched(id); }
      SumsSnoc(env, original, how, order, id, way);
      ghost var streams0 := streams;
      if id in streams {
        var res := Visible(env.objects, innerPlan.detection.images, inner, pruned);
        RemovedZeroIffUnchanged(env, res, innerPlan, streams[id]);
        var kept, dropped, hits := FilterOperations(env, res, innerPlan, streams[id]);
        if dropped > 0 {
          streams := streams[id := kept];
          removed := removed + dropped;
          userHits := userHits + hits;
        } else {
          assert streams[id := kept] == streams;
        }
      }
      OneMoreRewritten(env, original, streams0, order, how, id, way, streams);
      DictsOneMore(env.objects, how.Keys, id);
      order := order + [id];
      how := how[id := way];
      if inner.Some? {
        pruned := pruned + {inner.value.dict};
      }
    }

    lemma OrderFacts()
      requires RewrittenOnce(env, original, streams, order, how)
      ensures Elements(order) == how.Keys <= Forms(env.objects) && streams.Keys == original.Keys
      ensures forall f :: f in order <==> f in how
      ensures forall i, j :: 0 <= i < j < |order| ==> order[i] != order[j]
    {
      assert forall f :: f in order <==> f in Elements(order);
    }

    lemma UnvisitedUntouched(id: ObjectId)
      requires RewrittenOnce(env, original, streams, order, how) && id !in how
      ensures id in streams ==> id in original && streams[id] == original[id]
    {
      OrderFacts();
    }

    /** Filter the forms a resource dictionary lists, recursively. It raises when an entry
        refers to nothing, or when the dictionary shrinks while it is being walked. */
    method ProcessFormXObjects(res: Option<Resources>, plan: Plan) returns (removed: nat, userHits: nat, raised: bool)
      requires Valid()
      modifies this
      ensures Valid() && old(visited) <= visited && pageDicts == old(pageDicts)
      ensures raised ==>
        Trips(env.objects, plan.detection.images, res, old(pruned)) || Dangles(env.objects, res)
      ensures !raised && Fragile(env.objects, plan.detection.images, res, old(pruned)) ==> res.value.dict !in pruned
      ensures !raised ==>
        && Removed() == old(Removed()) + removed && Hits() == old(Hits()) + userHits
        && Resolves(env.objects, res) && (forall f :: IsFormEntry(env.objects, res, f) ==> f in visited)
        && Grown(env.objects, res, Way(plan, pageDicts), old(order), old(how), order, how)
      decreases Forms(env.objects) - visited
    {
      hide Grown, SumRemoved, SumHits, FormOutcome, InnerPlan, RewrittenOnce, Dicts, Trips, ListsDoomed, Dangles,
           FormRewriter.Removed, FormRewriter.Hits;
      removed, userHits, raised := 0, 0, false;
      GrownNot(env.objects, res, Way(plan, pageDicts), order, how);
      if res.None? {
        return;
      }
      var entries, dict := res.value.xobjects, res.value.dict;
      var fragile := Fragile(env.objects, plan.detection.images, res, pruned);
      for i := 0 to |entries|
        invariant Valid() && old(visited) <= visited && pageDicts == old(pageDicts)
        invariant Removed() == old(Removed()) + removed && Hits() == old(Hits()) + userHits
        invariant forall k :: 0 <= k < i ==> entries[k].1 in env.objects
        invariant forall k :: 0 <= k < i && env.objects[entries[k].1].Form? ==> entries[k].1 in visited
        invariant Grown(env.objects, res, Way(plan, pageDicts), old(order), old(how), order, how)
        invariant fragile ==> dict !in pruned
      {
        var id := entries[i].1;
        if id !in env.objects {
          EntryDangles(env.objects, res, i);
          raised := true;
          return;
        }
        if !env.objects[id].Form? || id in visited {
          continue;
        }
        assert IsFormEntry(env.objects, res, id);
        var innerPlan := InnerPlan(plan, id);
        var inner := env.objects[id].resources;
        ghost var order1, before := order, how;
        var dropped, hits := RewriteForm(id, innerPlan);
        PrunedIsSound(env.objects, innerPlan.detection.images, inner, pruned);
        var nestedRemoved, nestedHits, nestedRaised := ProcessFormXObjects(inner, innerPlan);
        if nestedRaised {  // the inner dictionary was pruned before it was walked
          DanglesThrough(env.objects, res, id);
          raised := true;
          return;
        }
        removed, userHits := removed + dropped + nestedRemoved, userHits + hits + nestedHits;
        GrownThroughEntry(env.objects, res, Way(plan, pageDicts), id, old(order), old(how), order1, before, order, how);
        if fragile && dict in pruned {
          PrunedByReachable(env.objects, res, Way(plan, pageDicts), old(order), old(how), order, how);
          TripsOverForm(env.objects, plan.detection.images, res, old(pruned));
          raised := true;
          return;
        }
      }
    }
  }

  lemma EntryDangles(objects: Objects, res: Option<Resources>, i: nat)
    requires res.Some? && i < |res.value.xobjects| && res.value.xobjects[i].1 !in objects
    ensures Dangles(objects, res)
  {
  }

  lemma PrunedIsSound(objects: Objects, images: set<Digest>, res: Option<Resources>, pruned: set<nat>)
    requires res.Some? ==> res.value.dict in pruned
    ensures !Fragile(objects, images, res, pruned) && !Trips(objects, images, res, pruned)
  {
  }

  lemma DictsOneMore(objects: Objects, forms: set<ObjectId>, id: ObjectId)
    requires id in Forms(objects)
    ensures var inner := objects[id].resources;
      Dicts(objects, forms + {id}) == Dicts(objects, forms) + if inner.Some? then {inner.value.dict} else {}
  {
    var inner, more := objects[id].resources, Dicts(objects, forms + {id});
    assert inner.Some? ==> inner.value.dict in more;
    forall d | d in Dicts(objects, forms) ensures d in more {
      var f :| f in forms && HasDict(objects, f, d);
      assert f in forms + {id};
    }
  }

  /** A dictionary pruned during the walk belongs to a form the walk reached. */
  lemma PrunedByReachable(objects: Objects, res: Option<Resources>, w: Way,
                          order0: seq<ObjectId>, before: Ways, order: seq<ObjectId>, after: Ways)
    requires res.Some? && Grown(objects, res, w, order0, before, order, after)
    requires res.value.dict !in Dicts(objects, before.Keys) && res.value.dict in Dicts(objects, after.Keys)
    ensures exists f :: Reachable(objects, res, f) && HasDict(objects, f, res.value.dict)
  {
    hide Reachable, Inherits;
    var d := res.value.dict;
    NoneHasDict(objects, before.Keys, d);
    var f :| f in after && HasDict(objects, f, d);
    assert f in Elements(order[|order0|..]);
    var k :| |order0| <= k < |order| && order[k] == f;
    assert WalkedAt(objects, res, w, order, after, |order0|, k);
  }

  lemma NoneHasDict(objects: Objects, forms: set<ObjectId>, d: nat)
    requires d !in Dicts(objects, forms)
    ensures forall f :: f in forms ==> !HasDict(objects, f, d)
  {
  }

  lemma TripsOverForm(objects: Objects, images: set<Digest>, res: Option<Resources>, pruned: set<nat>)
    requires Fragile(objects, images, res, pruned)
    requires exists f :: Reachable(objects, res, f) && HasDict(objects, f, res.value.dict)
    ensures Trips(objects, images, res, pruned)
  {
  }
}
