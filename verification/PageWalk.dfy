/** The page loop of the watermark remover: which forms are rewritten, under which plans,
    and when the rewrite fails. */
module PageWalk {
  import opened Wrappers
  import opened Content
  import opened Filter
  import opened FilterTheorems
  import opened Scan
  import opened FormGraph
  import opened FormWalk

  // ---- The page loop ----

  /** `f` can be reached from one of the first `n` pages. */
  ghost predicate ReachedFrom(objects: Objects, pages: seq<Page>, n: nat, f: ObjectId)
    requires n <= |pages|
  {
    exists i :: 0 <= i < n && Reachable(objects, pages[i].resources, f)
  }

  /** The dictionaries of the first `n` pages. */
  ghost function PageDicts(pages: seq<Page>, n: nat): set<nat>
    requires n <= |pages|
  {
    if n == 0 then {} else PageDicts(pages, n - 1) + DictOf(pages[n - 1].resources)
  }

  ghost function DictOf(res: Option<Resources>): set<nat> {
    if res.Some? then {res.value.dict} else {}
  }

  /** The dictionaries pruned before page `n`: those of the earlier pages and of every form
      reachable from them. */
  ghost function PrunedBefore(objects: Objects, pages: seq<Page>, n: nat): set<nat>
    requires n <= |pages|
  {
    PageDicts(pages, n) + Dicts(objects, set f | f in Forms(objects) && ReachedFrom(objects, pages, n, f))
  }

  /** One pass over a page's own stream. */
  ghost function PageOutcome(env: Env, plan: Plan, page: Page, pruned: set<nat>): Outcome {
    if page.contents.Decoded?
    then Filtered(env, Visible(env.objects, plan.detection.images, page.resources, pruned), plan, page.contents.ops)
    else Outcome([], 0, 0)
  }

  ghost function RewrittenPage(env: Env, plan: Plan, page: Page, pruned: set<nat>): Page {
    if page.contents.Decoded? then page.(contents := Decoded(PageOutcome(env, plan, page, pruned).kept)) else page
  }

  ghost function PagesRemoved(env: Env, plan: Plan, pages: seq<Page>, n: nat): nat
    requires n <= |pages|
  {
    if n == 0 then 0
    else
      PagesRemoved(env, plan, pages, n - 1)
      + PageOutcome(env, plan, pages[n - 1], PrunedBefore(env.objects, pages, n - 1)).removed
  }

  ghost function PagesHits(env: Env, plan: Plan, pages: seq<Page>, n: nat): nat
    requires n <= |pages|
  {
    if n == 0 then 0
    else
      PagesHits(env, plan, pages, n - 1)
      + PageOutcome(env, plan, pages[n - 1], PrunedBefore(env.objects, pages, n - 1)).userHits
  }

  /** The page cannot be rewritten: its stream cannot be decoded, an entry its walk meets
      refers to nothing, or walking its dictionary shrinks it. */
  ghost predicate Raises(objects: Objects, images: set<Digest>, page: Page, pruned: set<nat>) {
    || page.contents.Unreadable?
    || Dangles(objects, page.resources)
    || Trips(objects, images, page.resources, pruned)
  }

  /** Page `i` cannot be rewritten after the pages before it. */
  ghost predicate RaisesAt(objects: Objects, images: set<Digest>, pages: seq<Page>, i: nat)
    requires i < |pages|
  {
    Raises(objects, images, pages[i], PrunedBefore(objects, pages, i))
  }

  /** One page: its own stream, then the forms its resources list, then pruning. */
  method ProcessPage(page: Page, plan: Plan, w: FormRewriter)
    returns (result: Page, removed: nat, userHits: nat, raised: bool)
    requires w.Valid() && Closed(w.env.objects, w.visited) && AllResolve(w.env.objects, w.visited)
    modifies w
    ensures raised <==> Raises(w.env.objects, plan.detection.images, page, old(w.pruned))
    ensures !raised ==>
      && w.Valid() && old(w.visited) <= w.visited
      && w.pageDicts == old(w.pageDicts) + DictOf(page.resources)
      && (forall f :: IsFormEntry(w.env.objects, page.resources, f) ==> f in w.visited)
      && Grown(w.env.objects, page.resources, Way(plan, old(w.pageDicts)), old(w.order), old(w.how), w.order, w.how)
    ensures !raised ==>
      var own := PageOutcome(w.env, plan, page, old(w.pruned));
      && w.Removed() + own.removed == old(w.Removed()) + removed
      && w.Hits() + own.userHits == old(w.Hits()) + userHits
      && result == RewrittenPage(w.env, plan, page, old(w.pruned))
  {
    hide Grown, SumRemoved, SumHits, Filtered, Visible, RewrittenOnce, Dicts, Trips, Fragile, Closed, Dangles,
         AllResolve;
    result, removed, userHits, raised := page, 0, 0, false;
    if page.contents.Unreadable? {
      raised := true;
      return;
    }
    var objects, images := w.env.objects, plan.detection.images;
    if page.contents.Decoded? {
      var res := Visible(objects, images, page.resources, w.pruned);
      RemovedZeroIffUnchanged(w.env, res, plan, page.contents.ops);
      var kept, dropped, hits := FilterOperations(w.env, res, plan, page.contents.ops);
      if dropped > 0 {
        result := page.(contents := Decoded(kept));
        removed := removed + dropped;
        userHits := userHits + hits;
      }
    }
    ghost var order0, before, pruned := w.order, w.how, w.pruned;
    var formRemoved, formHits, formRaised := w.ProcessFormXObjects(page.resources, plan);
    if formRaised {
      raised := true;
      return;
    }
    WalkedWithoutTripping(objects, images, page.resources, Way(plan, w.pageDicts), order0, before, w.order, w.how,
                          pruned, w.pruned);
    removed, userHits := removed + formRemoved, userHits + formHits;
    if page.resources.Some? {
      w.pruned := w.pruned + {page.resources.value.dict};
      w.pageDicts := w.pageDicts + {page.resources.value.dict};
    }
  }

  ghost predicate AllResolve(objects: Objects, forms: set<ObjectId>) {
    forall f :: f in forms ==> FormResolves(objects, f)
  }

  /** A walk that raised nothing reached no form that shares its dictionary, and met no
      entry that refers to nothing. */
  lemma WalkedWithoutTripping(objects: Objects, images: set<Digest>, res: Option<Resources>, w: Way,
                              order0: seq<ObjectId>, before: Ways, order: seq<ObjectId>, after: Ways,
                              pruned: set<nat>, pruned': set<nat>)
    requires Closed(objects, before.Keys) && AllResolve(objects, before.Keys)
    requires Grown(objects, res, w, order0, before, order, after)
    requires Resolves(objects, res) && forall f :: IsFormEntry(objects, res, f) ==> f in after
    requires Dicts(objects, after.Keys) <= pruned'
    requires Fragile(objects, images, res, pruned) ==> res.value.dict !in pruned'
    ensures !Trips(objects, images, res, pruned) && !Dangles(objects, res)
  {
    hide Reachable, Inherits, Fragile, FormResolves;
    GrownKeeps(objects, res, w, order0, before, order, after);
    forall f | Reachable(objects, res, f) ensures FormResolves(objects, f) {
      ClosedHoldsReachable(objects, res, after.Keys, f);
    }
    if Fragile(objects, images, res, pruned) {
      assert res.Some? by { FragileHasDict(objects, images, res, pruned); }
      NoneHasDict(objects, after.Keys, res.value.dict);
      forall f | Reachable(objects, res, f) ensures !HasDict(objects, f, res.value.dict) {
        ClosedHoldsReachable(objects, res, after.Keys, f);
      }
    }
  }

  lemma FragileHasDict(objects: Objects, images: set<Digest>, res: Option<Resources>, pruned: set<nat>)
    requires Fragile(objects, images, res, pruned)
    ensures res.Some?
  {
  }

  /** A walk keeps the visited forms closed and resolved. */
  lemma GrownKeeps(objects: Objects, res: Option<Resources>, w: Way,
                   order0: seq<ObjectId>, before: Ways, order: seq<ObjectId>, after: Ways)
    requires Closed(objects, before.Keys) && AllResolve(objects, before.Keys)
    requires Grown(objects, res, w, order0, before, order, after)
    ensures Closed(objects, after.Keys) && AllResolve(objects, after.Keys)
    ensures forall f :: f in after && f !in before ==> Reachable(objects, res, f)
  {
    hide Reachable, Inherits, FormResolves, Uses;
    forall f | f in after && f !in before
      ensures FormResolves(objects, f) && Reachable(objects, res, f) && forall g :: Uses(objects, f, g) ==> g in after
    {
      assert f in Elements(order[|order0|..]);
      var k :| |order0| <= k < |order| && order[k] == f;
      assert WalkedAt(objects, res, w, order, after, |order0|, k);
    }
  }

  /** Position `k` of the visiting order belongs to the walk of page `i`, which starts at
      position `from`: behind exactly the forms that earlier pages reach, and in front of
      all others. Its form was rewritten under a plan inherited in that walk. */
  ghost predicate RewrittenOn(objects: Objects, pages: seq<Page>, i: nat, from: nat, plan: Plan,
                              order: seq<ObjectId>, how: Ways, k: nat)
    requires i < |pages| && k < |order|
  {
    && (forall l :: 0 <= l < |order| ==> (l < from <==> ReachedFrom(objects, pages, i, order[l])))
    && from <= k && Reachable(objects, pages[i].resources, order[k])
    && Inherits(objects, pages[i].resources, Way(plan, PageDicts(pages, i)), how, order, from, k)
  }

  ghost predicate RewrittenFor(objects: Objects, pages: seq<Page>, n: nat, plan: Plan, order: seq<ObjectId>,
                               how: Ways, k: nat)
    requires n <= |pages| && k < |order|
  {
    exists i, from: nat :: 0 <= i < n && RewrittenOn(objects, pages, i, from, plan, order, how, k)
  }

  /** After the first `n` pages: exactly the forms reachable from them were visited, those
      of earlier pages first, each as the walk of its first page says. */
  ghost predicate PagesCovered(objects: Objects, pages: seq<Page>, n: nat, plan: Plan, order: seq<ObjectId>, how: Ways)
    requires n <= |pages|
  {
    && Closed(objects, how.Keys) && AllResolve(objects, how.Keys) && Elements(order) == how.Keys
    && (forall f :: f in how <==> ReachedFrom(objects, pages, n, f))
    && (forall k :: 0 <= k < |order| ==> RewrittenFor(objects, pages, n, plan, order, how, k))
  }

  /** The page loop of the watermark remover. It raises exactly when some page cannot be
      rewritten. Otherwise every form reachable from any page is rewritten exactly once,
      under the plan it inherits, nothing else is, and the returned counts are the sums over
      the pages and those forms. */
  method RewritePages(env: Env, streams: Streams, pages: seq<Page>, plan: Plan)
    returns (w: FormRewriter, result: seq<Page>, removed: nat, userHits: nat, raised: bool)
    ensures fresh(w) && w.env == env && w.original == streams
    ensures raised <==> exists i :: 0 <= i < |pages| && RaisesAt(env.objects, plan.detection.images, pages, i)
    ensures !raised ==> w.Valid() && PagesCovered(env.objects, pages, |pages|, plan, w.order, w.how)
    ensures !raised ==> |result| == |pages| && forall i :: 0 <= i < |pages| ==>
      result[i] == RewrittenPage(env, plan, pages[i], PrunedBefore(env.objects, pages, i))
    ensures !raised ==> removed == PagesRemoved(env, plan, pages, |pages|) + w.Removed()
    ensures !raised ==> userHits == PagesHits(env, plan, pages, |pages|) + w.Hits()
  {
    hide Grown, SumRemoved, SumHits, PageOutcome, PagesCovered, PrunedBefore, Raises, RewrittenPage, RewrittenOnce,
         Dicts, Closed, AllResolve, Elements, FormRewriter.Removed, FormRewriter.Hits;
    w := new FormRewriter(env, streams);
    assert w.Removed() == 0 && w.Hits() == 0 by { NothingYet(w); }
    result, removed, userHits, raised := [], 0, 0, false;
    NoPagesCovered(env.objects, pages, plan);
    for n := 0 to |pages|
      invariant fresh(w) && w.Valid() && w.env == env && w.original == streams
      invariant PagesCovered(env.objects, pages, n, plan, w.order, w.how) && w.pageDicts == PageDicts(pages, n)
      invariant forall i :: 0 <= i < n ==> !RaisesAt(env.objects, plan.detection.images, pages, i)
      invariant |result| == n && forall i :: 0 <= i < n ==>
        result[i] == RewrittenPage(env, plan, pages[i], PrunedBefore(env.objects, pages, i))
      invariant removed == PagesRemoved(env, plan, pages, n) + w.Removed()
      invariant userHits == PagesHits(env, plan, pages, n) + w.Hits()
    {
      ghost var order0, before := w.order, w.how;
      w.OrderFacts();
      PrunedSoFar(env.objects, pages, n, plan, w.order, w.how);
      var page, pageRemoved, pageHits, pageRaised := ProcessPage(pages[n], plan, w);
      if pageRaised {
        assert RaisesAt(env.objects, plan.detection.images, pages, n);
        raised := true;
        return;
      }
      result := result + [page];
      removed, userHits := removed + pageRemoved, userHits + pageHits;
      w.OrderFacts();
      OneMorePage(env.objects, pages, n, plan, order0, before, w.order, w.how);
    }
  }

  /** A document that raises: its page lists a doomed image and a form that uses the page's
      own dictionary. */
  lemma SharedDictionaryTrips(objects: Objects, images: set<Digest>, page: Page, f: ObjectId)
    requires IsFormEntry(objects, page.resources, f) && HasDict(objects, f, page.resources.value.dict)
    requires ListsDoomed(objects, images, page.resources.value)
    ensures RaisesAt(objects, images, [page], 0)
  {
    hide Reachable;
    ReachableDirectly(objects, page.resources, f);
    assert forall g :: !ReachedFrom(objects, [page], 0, g);
    assert PrunedBefore(objects, [page], 0) == {};
  }

  lemma NothingYet(w: FormRewriter)
    requires w.order == []
    ensures w.Removed() == 0 && w.Hits() == 0
  {
  }

  lemma NoPagesCovered(objects: Objects, pages: seq<Page>, plan: Plan)
    ensures PagesCovered(objects, pages, 0, plan, [], map[])
  {
  }

  lemma PrunedSoFar(objects: Objects, pages: seq<Page>, n: nat, plan: Plan, order: seq<ObjectId>, how: Ways)
    requires n <= |pages| && PagesCovered(objects, pages, n, plan, order, how) && how.Keys <= Forms(objects)
    ensures Closed(objects, how.Keys) && AllResolve(objects, how.Keys)
    ensures PrunedBefore(objects, pages, n) == PageDicts(pages, n) + Dicts(objects, how.Keys)
  {
    hide Reachable, ReachedFrom, Inherits;
    assert how.Keys == set f | f in Forms(objects) && ReachedFrom(objects, pages, n, f);
  }

  lemma OneMorePage(objects: Objects, pages: seq<Page>, n: nat, plan: Plan,
                    order0: seq<ObjectId>, before: Ways, order: seq<ObjectId>, after: Ways)
    requires n < |pages| && PagesCovered(objects, pages, n, plan, order0, before)
    requires Grown(objects, pages[n].resources, Way(plan, PageDicts(pages, n)), order0, before, order, after)
    requires forall f :: IsFormEntry(objects, pages[n].resources, f) ==> f in after
    requires Elements(order) == after.Keys && forall i, j :: 0 <= i < j < |order| ==> order[i] != order[j]
    ensures PagesCovered(objects, pages, n + 1, plan, order, after)
  {
    hide Reachable, Inherits, PageDicts, RewrittenFor, FormResolves, Uses;
    var res, w := pages[n].resources, Way(plan, PageDicts(pages, n));
    GrownKeeps(objects, res, w, order0, before, order, after);
    CoversReachable(objects, pages, n, before, after);
    NewOnesBehind(objects, pages, n, order0, before, order);
    var m: nat := n + 1;
    forall k | 0 <= k < |order| ensures RewrittenFor(objects, pages, m, plan, order, after, k) {
      if k < |order0| {
        RewrittenStays(objects, pages, n, plan, order0, before, order, after, k);
      } else {
        assert WalkedAt(objects, res, w, order, after, |order0|, k);
        RewrittenNow(objects, pages, n, plan, |order0|, order, after, k);
      }
    }
  }

  lemma CoversReachable(objects: Objects, pages: seq<Page>, n: nat, before: Ways, after: Ways)
    requires n < |pages| && Closed(objects, after.Keys) && before.Keys <= after.Keys
    requires forall f :: f in before <==> ReachedFrom(objects, pages, n, f)
    requires forall f :: f in after && f !in before ==> Reachable(objects, pages[n].resources, f)
    requires forall f :: IsFormEntry(objects, pages[n].resources, f) ==> f in after
    ensures forall f :: f in after <==> ReachedFrom(objects, pages, n + 1, f)
  {
    hide Reachable;
    forall f ensures f in after <==> ReachedFrom(objects, pages, n + 1, f) {
      ReachedNext(objects, pages, n, f);
      if Reachable(objects, pages[n].resources, f) {
        ClosedHoldsReachable(objects, pages[n].resources, after.Keys, f);
      }
    }
  }

  lemma ReachedNext(objects: Objects, pages: seq<Page>, n: nat, f: ObjectId)
    requires n < |pages|
    ensures ReachedFrom(objects, pages, n + 1, f) <==>
      ReachedFrom(objects, pages, n, f) || Reachable(objects, pages[n].resources, f)
  {
    hide Reachable;
  }

  lemma ReachedMore(objects: Objects, pages: seq<Page>, i: nat, n: nat, f: ObjectId)
    requires i <= n <= |pages| && ReachedFrom(objects, pages, i, f)
    ensures ReachedFrom(objects, pages, n, f)
  {
    hide Reachable;
  }

  /** The forms visited so far are exactly those of the first `n` pages. */
  lemma NewOnesBehind(objects: Objects, pages: seq<Page>, n: nat, order0: seq<ObjectId>, before: Ways,
                      order: seq<ObjectId>)
    requires n <= |pages| && order0 <= order && Elements(order0) == before.Keys
    requires forall f :: f in before <==> ReachedFrom(objects, pages, n, f)
    requires forall i, j :: 0 <= i < j < |order| ==> order[i] != order[j]
    ensures forall l :: 0 <= l < |order| ==> (l < |order0| <==> ReachedFrom(objects, pages, n, order[l]))
  {
    hide ReachedFrom;
    forall l | 0 <= l < |order| ensures l < |order0| <==> ReachedFrom(objects, pages, n, order[l]) {
      assert l < |order0| ==> order0[l] == order[l] && order0[l] in Elements(order0);
      if order[l] in before {
        assert order[l] in Elements(order0);
        var m :| 0 <= m < |order0| && order0[m] == order[l];
        assert order[m] == order[l];
      }
    }
  }

  lemma RewrittenStays(objects: Objects, pages: seq<Page>, n: nat, plan: Plan,
                       order0: seq<ObjectId>, before: Ways, order: seq<ObjectId>, after: Ways, k: nat)
    requires n < |pages| && k < |order0| && order0 <= order
    requires forall f :: f in before ==> f in after && after[f] == before[f]
    requires forall l :: 0 <= l < |order| ==> (l < |order0| <==> ReachedFrom(objects, pages, n, order[l]))
    ensures RewrittenFor(objects, pages, n, plan, order0, before, k) ==>
      RewrittenFor(objects, pages, n + 1, plan, order, after, k)
  {
    hide Reachable, InnerPlan, Uses, PageDicts, ReachedFrom;
    if i, from: nat :| 0 <= i < n && RewrittenOn(objects, pages, i, from, plan, order0, before, k) {
      forall l | 0 <= l < |order| ensures l < from <==> ReachedFrom(objects, pages, i, order[l]) {
        if l < |order0| {
          assert order0[l] == order[l];
        } else if ReachedFrom(objects, pages, i, order[l]) {
          ReachedMore(objects, pages, i, n, order[l]);
        }
      }
      if j :| from <= j < k && InheritsFrom(objects, before, order0[j], order0[k]) {
        assert InheritsFrom(objects, after, order[j], order[k]);
      }
      assert RewrittenOn(objects, pages, i, from, plan, order, after, k);
    }
  }

  lemma RewrittenNow(objects: Objects, pages: seq<Page>, n: nat, plan: Plan, from: nat,
                     order: seq<ObjectId>, how: Ways, k: nat)
    requires n < |pages| && from <= k < |order|
    requires forall l :: 0 <= l < |order| ==> (l < from <==> ReachedFrom(objects, pages, n, order[l]))
    requires WalkedAt(objects, pages[n].resources, Way(plan, PageDicts(pages, n)), order, how, from, k)
    ensures RewrittenFor(objects, pages, n + 1, plan, order, how, k)
  {
    hide Reachable, Inherits, PageDicts, ReachedFrom, FormResolves, Uses;
    assert RewrittenOn(objects, pages, n, from, plan, order, how, k);
  }

  // ---- The plan of every form ----

  /** The plan inherited along a chain of forms. */
  function PlanAlong(plan: Plan, path: seq<ObjectId>): Plan {
    if path == [] then plan else InnerPlan(PlanAlong(plan, path[..|path| - 1]), path[|path| - 1])
  }

  /** A chain from the resources of page `i` along which form `f` inherited its plan. */
  ghost predicate InheritedAlong(objects: Objects, pages: seq<Page>, i: nat, plan: Plan, how: Ways, f: ObjectId,
                                 path: seq<ObjectId>)
    requires i < |pages|
  {
    && IsChain(objects, path) && IsFormEntry(objects, pages[i].resources, path[0]) && path[|path| - 1] == f
    && f in how && how[f].plan == PlanAlong(plan, path)
  }

  lemma AlongEntry(objects: Objects, pages: seq<Page>, i: nat, plan: Plan, how: Ways, f: ObjectId)
    requires i < |pages| && IsFormEntry(objects, pages[i].resources, f)
    requires f in how && how[f].plan == InnerPlan(plan, f)
    ensures InheritedAlong(objects, pages, i, plan, how, f, [f])
  {
    hide InnerPlan;
    assert [f][..0] == [];
    assert PlanAlong(plan, [f]) == InnerPlan(PlanAlong(plan, []), f);
  }

  lemma AlongLonger(objects: Objects, pages: seq<Page>, i: nat, plan: Plan, how: Ways, g: ObjectId, f: ObjectId,
                    path: seq<ObjectId>)
    requires i < |pages| && InheritedAlong(objects, pages, i, plan, how, g, path) && InheritsFrom(objects, how, g, f)
    ensures InheritedAlong(objects, pages, i, plan, how, f, path + [f])
  {
    hide InnerPlan, Uses;
    var longer := path + [f];
    assert longer[..|longer| - 1] == path;
    forall m | 0 < m < |longer| ensures Uses(objects, longer[m - 1], longer[m]) {
      assert m < |path| ==> longer[m - 1] == path[m - 1] && longer[m] == path[m];
    }
  }

  /** Every visited form was rewritten under the plan that some chain of forms, from the
      resources of the first page that reaches it, hands down to it. */
  lemma {:induction false} PlanIsInherited(objects: Objects, pages: seq<Page>, n: nat, plan: Plan,
                                           order: seq<ObjectId>, how: Ways, k: nat, i: nat, from: nat)
    requires n <= |pages| && k < |order| && PagesCovered(objects, pages, n, plan, order, how)
    requires i < n && RewrittenOn(objects, pages, i, from, plan, order, how, k)
    ensures exists path :: InheritedAlong(objects, pages, i, plan, how, order[k], path)
  {
    hide Reachable, InnerPlan, PageDicts, InheritedAlong, PlanAlong, ReachedFrom, AllResolve, Closed;
    if IsFormEntry(objects, pages[i].resources, order[k]) && how[order[k]].plan == InnerPlan(plan, order[k]) {
      AlongEntry(objects, pages, i, plan, how, order[k]);
    } else {
      var j :| from <= j < k && InheritsFrom(objects, how, order[j], order[k]);
      SameWalk(objects, pages, n, plan, order, how, i, from, j, k);
      PlanIsInherited(objects, pages, n, plan, order, how, j, i, from);
      var path :| InheritedAlong(objects, pages, i, plan, how, order[j], path);
      AlongLonger(objects, pages, i, plan, how, order[j], order[k], path);
    }
  }

  /** A form that lists one visited later, after the walk of page `i` began, belongs to it. */
  lemma SameWalk(objects: Objects, pages: seq<Page>, n: nat, plan: Plan, order: seq<ObjectId>, how: Ways,
                 i: nat, from: nat, j: nat, k: nat)
    requires n <= |pages| && i < n && from <= j < k < |order|
    requires PagesCovered(objects, pages, n, plan, order, how)
    requires RewrittenOn(objects, pages, i, from, plan, order, how, k) && InheritsFrom(objects, how, order[j], order[k])
    ensures RewrittenOn(objects, pages, i, from, plan, order, how, j)
  {
    hide Inherits, PageDicts, AllResolve, Closed, Reachable;
    assert RewrittenFor(objects, pages, n, plan, order, how, j);
    var a, b: nat :| 0 <= a < n && RewrittenOn(objects, pages, a, b, plan, order, how, j);
    hide ReachedFrom;
    ReachedByPage(objects, pages, a, order[j]);
    ReachedByPage(objects, pages, i, order[k]);
    assert a == i;
    assert b < from <==> ReachedFrom(objects, pages, i, order[b]);
    assert from < b <==> ReachedFrom(objects, pages, i, order[from]);
    assert b == from;
  }

  lemma ReachedByPage(objects: Objects, pages: seq<Page>, a: nat, f: ObjectId)
    requires a < |pages| && Reachable(objects, pages[a].resources, f)
    ensures forall n: nat :: a < n <= |pages| ==> ReachedFrom(objects, pages, n, f)
  {
    hide Reachable;
  }

  lemma {:induction false} PlanAlongKeeps(plan: Plan, path: seq<ObjectId>)
    ensures var p := PlanAlong(plan, path);
      && p.userNeedle == plan.userNeedle && p.detection == plan.detection && p.stripLayers == plan.stripLayers
      && p.hintAlpha <= plan.hintAlpha && (plan.hintDiagonal ==> p.hintDiagonal)
  {
    if path != [] {
      PlanAlongKeeps(plan, path[..|path| - 1]);
    }
  }

  /** So every form is searched for the run's own needles, images and layers. */
  lemma RunPlanEverywhere(objects: Objects, pages: seq<Page>, n: nat, plan: Plan, order: seq<ObjectId>, how: Ways,
                          f: ObjectId)
    requires n <= |pages| && PagesCovered(objects, pages, n, plan, order, how) && f in how
    ensures var p := how[f].plan;
      && p.userNeedle == plan.userNeedle && p.detection == plan.detection && p.stripLayers == plan.stripLayers
      && p.hintAlpha <= plan.hintAlpha && (plan.hintDiagonal ==> p.hintDiagonal)
  {
    hide Reachable, RewrittenOn, ReachedFrom, PlanAlong, IsChain;
    assert f in Elements(order);
    var k :| 0 <= k < |order| && order[k] == f;
    assert RewrittenFor(objects, pages, n, plan, order, how, k);
    var i, from: nat :| 0 <= i < n && RewrittenOn(objects, pages, i, from, plan, order, how, k);
    PlanIsInherited(objects, pages, n, plan, order, how, k, i, from);
    var path :| InheritedAlong(objects, pages, i, plan, how, f, path);
    PlanAlongKeeps(plan, path);
  }

  // ---- The hints of every form, from the draw sites themselves ----

  ghost predicate HintedDiagonal(hints: map<ObjectId, (real, bool)>, f: ObjectId) {
    f in hints && hints[f].1
  }

  ghost predicate HintedAlpha(hints: map<ObjectId, (real, bool)>, f: ObjectId, a: real) {
    f in hints && hints[f].0 == a
  }

  /** `inner` is `plan` with the hints of the forms along a path: diagonal when the plan or any
      of them is, with the least alpha of the plan, of 1 and of theirs. */
  ghost predicate HandedDown(plan: Plan, path: seq<ObjectId>, inner: Plan) {
    var hints := plan.detection.hints;
    && inner == plan.(hintAlpha := inner.hintAlpha, hintDiagonal := inner.hintDiagonal)
    && (inner.hintDiagonal <==> plan.hintDiagonal || exists m :: 0 <= m < |path| && HintedDiagonal(hints, path[m]))
    && inner.hintAlpha <= plan.hintAlpha
    && (forall m, a :: 0 <= m < |path| && HintedAlpha(hints, path[m], a) ==> inner.hintAlpha <= a)
    && (|| inner.hintAlpha == plan.hintAlpha
        || inner.hintAlpha == 1.0
        || exists m :: 0 <= m < |path| && HintedAlpha(hints, path[m], inner.hintAlpha))
  }

  lemma {:induction false} PlanAlongHandsDown(plan: Plan, path: seq<ObjectId>)
    ensures HandedDown(plan, path, PlanAlong(plan, path))
  {
    if path != [] {
      var n := |path| - 1;
      PlanAlongHandsDown(plan, path[..n]);
      OneMoreHint(plan, path[..n], path[n], PlanAlong(plan, path[..n]));
      assert path == path[..n] + [path[n]];
    }
  }

  lemma OneMoreHint(plan: Plan, path: seq<ObjectId>, f: ObjectId, p: Plan)
    requires HandedDown(plan, path, p)
    ensures HandedDown(plan, path + [f], InnerPlan(p, f))
  {
    var hints, all, n := plan.detection.hints, path + [f], |path|;
    var inner := InnerPlan(p, f);
    assert all[n] == f && forall m :: 0 <= m < n ==> all[m] == path[m];
    if p.hintDiagonal && !plan.hintDiagonal {
      var m :| 0 <= m < n && HintedDiagonal(hints, path[m]);
      assert HintedDiagonal(hints, all[m]);
    }
    if inner.hintDiagonal && !p.hintDiagonal {
      assert HintedDiagonal(hints, all[n]);
    }
    if inner.hintAlpha == p.hintAlpha {
      if p.hintAlpha != plan.hintAlpha && p.hintAlpha != 1.0 {
        var m :| 0 <= m < n && HintedAlpha(hints, path[m], p.hintAlpha);
        assert HintedAlpha(hints, all[m], inner.hintAlpha);
      }
    } else if f in hints {
      assert HintedAlpha(hints, all[n], inner.hintAlpha);
    }
  }

  /** A chain of forms from the resources of one of the first `n` pages to `f`. */
  ghost predicate LeadsTo(objects: Objects, pages: seq<Page>, n: nat, path: seq<ObjectId>, f: ObjectId)
    requires n <= |pages|
  {
    && path != [] && path[|path| - 1] == f && IsChain(objects, path)
    && exists i :: 0 <= i < n && IsFormEntry(objects, pages[i].resources, path[0])
  }

  /** Every visited form was rewritten under the run's plan with the hints of all forms on some
      chain from a page to it, its own among them. */
  lemma HintsAreHandedDown(objects: Objects, pages: seq<Page>, n: nat, plan: Plan, order: seq<ObjectId>, how: Ways,
                           f: ObjectId)
    requires n <= |pages| && PagesCovered(objects, pages, n, plan, order, how) && f in how
    ensures exists path :: LeadsTo(objects, pages, n, path, f) && HandedDown(plan, path, how[f].plan)
  {
    hide Reachable, RewrittenOn, ReachedFrom, PlanAlong, IsChain, IsFormEntry, HandedDown;
    assert f in Elements(order);
    var k :| 0 <= k < |order| && order[k] == f;
    assert RewrittenFor(objects, pages, n, plan, order, how, k);
    var i, from: nat :| 0 <= i < n && RewrittenOn(objects, pages, i, from, plan, order, how, k);
    PlanIsInherited(objects, pages, n, plan, order, how, k, i, from);
    var path :| InheritedAlong(objects, pages, i, plan, how, f, path);
    assert path != [] by { ChainNotEmpty(objects, path); }
    PlanAlongHandsDown(plan, path);
  }

  lemma ChainNotEmpty(objects: Objects, path: seq<ObjectId>)
    requires IsChain(objects, path)
    ensures path != []
  {
  }

  /** In particular a form's own draw sites count: it is rewritten as diagonal when one of
      them was, and under an alpha no greater than the least of theirs. */
  lemma OwnHintApplies(objects: Objects, pages: seq<Page>, n: nat, plan: Plan, order: seq<ObjectId>, how: Ways,
                       f: ObjectId)
    requires n <= |pages| && PagesCovered(objects, pages, n, plan, order, how) && f in how
    ensures f in plan.detection.hints ==>
      && how[f].plan.hintAlpha <= plan.detection.hints[f].0
      && (plan.detection.hints[f].1 ==> how[f].plan.hintDiagonal)
  {
    hide PagesCovered, IsChain, IsFormEntry;
    HintsAreHandedDown(objects, pages, n, plan, order, how, f);
    var path :| LeadsTo(objects, pages, n, path, f) && HandedDown(plan, path, how[f].plan);
    var hints := plan.detection.hints;
    if f in hints {
      assert HintedAlpha(hints, path[|path| - 1], hints[f].0);
      assert hints[f].1 ==> HintedDiagonal(hints, path[|path| - 1]);
    }
  }
}
