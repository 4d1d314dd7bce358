/** The whole removal: analysis, plan and rewrite, and what they achieve together. */
module Watermarks {
  import opened Wrappers
  import opened Matrices
  import opened Content
  import opened GraphicsState
  import opened Filter
  import opened Sink
  import opened Scan
  import opened Agreement
  import opened FormGraph
  import opened FormWalk
  import opened PageWalk
  import opened Verdicts

  datatype Mode = Annotations | Layers | Both

  /** The plan of a run: automatic detection only in mode `Both`. */
  function PlanOf(mode: Mode, text: string, detection: Detection): (p: Plan)
    ensures PagePlan(p) && p.userNeedle == Normalise(text) && p.detection == detection
    ensures p.stripLayers <==> mode == Layers || mode == Both
  {
    Plan(Normalise(text), detection, mode != Annotations, 1.0, false)
  }

  // ---- Pruned images do not matter to text ----

  /** Two views of a resource dictionary that differ in their XObjects only. */
  ghost predicate SameButXObjects(a: Option<Resources>, b: Option<Resources>) {
    (a.Some? <==> b.Some?)
    && (a.Some? ==> a.value.properties == b.value.properties && a.value.states == b.value.states)
  }

  lemma VisibleKeepsRest(objects: Objects, images: set<Digest>, res: Option<Resources>, pruned: set<nat>)
    ensures SameButXObjects(res, Visible(objects, images, res, pruned))
  {
  }

  /** The same segment, up to the verdict on a draw. */
  ghost predicate Alike(s: Segment, r: Segment) {
    s.ops == r.ops && (s.verdict == r.verdict || (|s.ops| == 1 && (s.ops[0].Draw? || s.ops[0].InlineImage?)))
  }

  lemma TrackAlike(a: Option<Resources>, b: Option<Resources>, op: Op, t: Tracker)
    requires SameButXObjects(a, b)
    ensures Track(op, a, t) == Track(op, b, t)
  {
  }

  lemma {:induction false} RunAlike(a: Option<Resources>, b: Option<Resources>, ops: seq<Op>, t: Tracker)
    requires SameButXObjects(a, b)
    ensures Run(ops, a, t) == Run(ops, b, t)
  {
    hide Track;
    if ops != [] {
      TrackAlike(a, b, ops[0], t);
      RunAlike(a, b, ops[1..], Track(ops[0], a, t));
    }
  }

  lemma {:induction false} TraceAlike(env: Env, a: Option<Resources>, b: Option<Resources>, ops: seq<Op>, tr: Trace)
    requires SameButXObjects(a, b)
    ensures TraceRun(env, a, tr, ops) == TraceRun(env, b, tr, ops)
    decreases |ops|
  {
    hide Track;
    if ops != [] {
      TrackAlike(a, b, ops[0], tr.t);
      TraceAlike(env, a, b, ops[1..], TraceStep(env, a, tr, ops[0]));
    }
  }

  lemma StripsAlike(a: Option<Resources>, b: Option<Resources>, plan: Plan, op: Op)
    requires SameButXObjects(a, b)
    ensures Strips(a, plan, op) == Strips(b, plan, op)
  {
    hide IsWatermarkLayer, IsWatermarkArtifact;
  }

  lemma NextAlike(env: Env, a: Option<Resources>, b: Option<Resources>, plan: Plan, ops: seq<Op>, t: Tracker)
    requires SameButXObjects(a, b) && ops != []
    ensures Alike(NextSegment(env, a, plan, ops, t), NextSegment(env, b, plan, ops, t))
  {
    hide Strips, UntilEndText, SkipLength, TraceRun, TextVerdict;
    StripsAlike(a, b, plan, ops[0]);
    if ops[0].BeginText? {
      TraceAlike(env, a, b, ops[1..][..UntilEndText(ops[1..])], TraceStart(t));
    }
  }

  /** Pruned or not, a stream is cut into the same segments and its text and marked
      content are judged alike. */
  lemma {:induction false} SegmentsAlike(env: Env, a: Option<Resources>, b: Option<Resources>, plan: Plan,
                                         ops: seq<Op>, t: Tracker)
    requires SameButXObjects(a, b)
    ensures var segs, segs' := Segments(env, a, plan, ops, t), Segments(env, b, plan, ops, t);
      |segs| == |segs'| && forall k :: 0 <= k < |segs| ==> Alike(segs[k], segs'[k])
    decreases |ops|
  {
    hide NextSegment, Run;
    if ops != [] {
      var s, r := NextSegment(env, a, plan, ops, t), NextSegment(env, b, plan, ops, t);
      NextAlike(env, a, b, plan, ops, t);
      RunAlike(a, b, s.ops, t);
      AfterAlike(env, a, b, plan, ops, t);
      SegmentsAlike(env, a, b, plan, ops[|s.ops|..], After(s, a, t));
    }
  }

  lemma AfterAlike(env: Env, a: Option<Resources>, b: Option<Resources>, plan: Plan, ops: seq<Op>, t: Tracker)
    requires SameButXObjects(a, b) && ops != []
    ensures After(NextSegment(env, a, plan, ops, t), a, t) == After(NextSegment(env, b, plan, ops, t), b, t)
  {
    hide Strips, UntilEndText, SkipLength, TraceRun, TextVerdict, Run;
    StripsAlike(a, b, plan, ops[0]);
    NextAlike(env, a, b, plan, ops, t);
    RunAlike(a, b, NextSegment(env, a, plan, ops, t).ops, t);
  }

  // ---- Analysis and rewrite together ----

  /** Under the plan of a whole run, whatever was pruned before a page is rewritten: every
      text block of the page whose own observation the analysis recorded, and whose string
      it decided on, is dropped; a block dropped as detected text is such a block. */
  lemma RecordedNeedlesAreDropped(env: Env, streams: Streams, pages: seq<Page>, page: nat, plan: Plan, k: nat,
                                  pruned: set<nat>)
    requires page < |pages| && pages[page].contents.Decoded? && PagePlan(plan)
    requires var res := pages[page].resources;
      var segs := PlanSegments(env, res, plan, pages[page].contents.ops);
      MarkedRestores(segs, [], res, Start(IDENTITY, 1.0)) && IsTextBlock(segs, k)
    ensures var res, ops := pages[page].resources, pages[page].contents.ops;
      var segs := PlanSegments(env, res, plan, ops);
      var segs' := PlanSegments(env, Visible(env.objects, plan.detection.images, res, pruned), plan, ops);
      && 0 < Offset(segs, k) + |segs[k].ops| <= |ops|
      && |segs'| == |segs| && segs'[k].ops == segs[k].ops
      && var o := OwnObservation(env, res, segs, ops, k, page);
      && (Recorded(o) && o.norm in plan.detection.needles ==> !segs'[k].verdict.Keep?)
      && (segs'[k].verdict.DropDetectedText? && IsDecision(env, streams, pages, plan.detection) ==>
            Recorded(o) && o.norm in plan.detection.needles)
  {
    hide Segments, Visible, Offset, MarkedRestores, IsDecision, Run, ScanRun, Normalise;
    var res, ops := pages[page].resources, pages[page].contents.ops;
    RemovedIffRecordedNeedle(env, streams, pages, page, plan, k);
    VisibleKeepsRest(env.objects, plan.detection.images, res, pruned);
    SegmentsAlike(env, res, Visible(env.objects, plan.detection.images, res, pruned), plan, ops, Start(IDENTITY, 1.0));
  }

  /** The content part of a run: analyse, then rewrite every page and the forms it draws. */
  method RemoveWatermarks(env: Env, streams: Streams, pages: seq<Page>, mode: Mode, text: string)
    returns (d: Detection, w: FormRewriter, result: seq<Page>, removed: nat, userHits: nat, raised: bool)
    ensures mode == Both ==> IsDecision(env, streams, pages, d)
    ensures mode != Both ==> d == Detection({}, {}, map[])
    ensures raised <==> exists i :: 0 <= i < |pages| && RaisesAt(env.objects, d.images, pages, i)
    ensures !raised ==> w.Valid() && PagesCovered(env.objects, pages, |pages|, PlanOf(mode, text, d), w.order, w.how)
    ensures !raised ==> |result| == |pages| && forall i :: 0 <= i < |pages| ==>
      result[i] == RewrittenPage(env, PlanOf(mode, text, d), pages[i], PrunedBefore(env.objects, pages, i))
    ensures !raised ==>
      && w.env == env && w.original == streams
      && removed == PagesRemoved(env, PlanOf(mode, text, d), pages, |pages|) + w.Removed()
      && userHits == PagesHits(env, PlanOf(mode, text, d), pages, |pages|) + w.Hits()
  {
    d := Detection({}, {}, map[]);
    if mode == Both {
      d := AnalyseDocument(env, streams, pages);
    }
    w, result, removed, userHits, raised := RewritePages(env, streams, pages, PlanOf(mode, text, d));
  }

  // ---- What a run achieves ----

  /** In every mode, a closed text block of a page that shows the user's text, blanks and case
      aside, is dropped for it, whatever was pruned before. */
  lemma UserTextIsDropped(env: Env, page: Page, mode: Mode, text: string, d: Detection, pruned: set<nat>, k: nat)
    requires page.contents.Decoded? && Normalise(text) != ""
    requires var res := Visible(env.objects, d.images, page.resources, pruned);
      var segs := PlanSegments(env, res, PlanOf(mode, text, d), page.contents.ops);
      && k < |segs| && segs[k].ops != [] && segs[k].ops[0].BeginText? && EndText in segs[k].ops[1..]
      && Occurs(Normalise(text), Normalise(Shown(segs[k].ops[1..])))
    ensures var res := Visible(env.objects, d.images, page.resources, pruned);
      PlanSegments(env, res, PlanOf(mode, text, d), page.contents.ops)[k].verdict == DropUserText
  {
    hide Segments, Visible, Normalise, Shown, Occurs, MatchesNeedle, Tracked;
    TextBlockVerdict(env, Visible(env.objects, d.images, page.resources, pruned), PlanOf(mode, text, d),
                     page.contents.ops, Start(IDENTITY, 1.0), k);
  }

  /** A closed block of a form that shows a needle is dropped when the form was drawn
      diagonally or with transparency somewhere, though the form itself shows neither. */
  lemma HintedFormTextIsDropped(env: Env, pages: seq<Page>, plan: Plan, order: seq<ObjectId>, how: Ways, f: ObjectId,
                                res: Option<Resources>, ops: seq<Op>, k: nat)
    requires PagesCovered(env.objects, pages, |pages|, plan, order, how) && f in how
    requires f in plan.detection.hints && (plan.detection.hints[f].1 || plan.detection.hints[f].0 < 0.999)
    requires var segs := PlanSegments(env, res, how[f].plan, ops);
      && k < |segs| && segs[k].ops != [] && segs[k].ops[0].BeginText? && EndText in segs[k].ops[1..]
      && Normalise(Shown(segs[k].ops[1..])) in plan.detection.needles
    ensures !PlanSegments(env, res, how[f].plan, ops)[k].verdict.Keep?
  {
    hide Segments, PagesCovered, Normalise, Shown, MatchesUser, IsDiagonalBlock, IsTransparentBlock, Tracked;
    OwnHintApplies(env.objects, pages, |pages|, plan, order, how, f);
    RunPlanEverywhere(env.objects, pages, |pages|, plan, order, how, f);
    TextBlockVerdict(env, res, how[f].plan, ops, Start(IDENTITY, how[f].plan.hintAlpha), k);
  }
}
