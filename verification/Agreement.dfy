/** The analysis and the rewrite interpret a page stream alike, so what the analysis
    saw and condemned is what the rewrite removes. Forms are not covered: the rewrite
    starts a form at the identity and relies on draw-site hints. */
module Agreement {
  import opened Wrappers
  import opened Matrices
  import opened Content
  import opened GraphicsState
  import opened Filter
  import opened FilterTheorems
  import opened Sink
  import opened Scan

  /** Every stretch of stripped marked content in front of other content, as a whole,
      leaves the state as it found it. `gone` is the stretch so far. */
  ghost predicate MarkedRestores(segs: seq<Segment>, gone: seq<Op>, res: Option<Resources>, t: Tracker) {
    if segs == [] then true
    else
      var s := segs[0];
      if s.verdict.DropMarked? then MarkedRestores(segs[1..], gone + s.ops, res, t)
      else Run(gone, res, t) == t && MarkedRestores(segs[1..], [], res, Run(s.ops, res, t))
  }

  /** The state the rewrite tracks after some segments. */
  ghost function Tracked(segs: seq<Segment>, res: Option<Resources>, t: Tracker): Tracker {
    if segs == [] then t else Tracked(segs[1..], res, After(segs[0], res, t))
  }

  /** In front of segment `k` the rewrite tracks the state the stream itself has there. */
  ghost predicate TracksAt(segs: seq<Segment>, gone: seq<Op>, res: Option<Resources>, t: Tracker, k: nat)
    requires k < |segs|
  {
    Tracked(segs[..k], res, t) == Run(gone + Flatten(segs[..k]), res, t)
  }

  ghost predicate TracksStream(segs: seq<Segment>, gone: seq<Op>, res: Option<Resources>, t: Tracker) {
    forall k :: 0 <= k < |segs| && !segs[k].verdict.DropMarked? ==> TracksAt(segs, gone, res, t, k)
  }

  lemma TracksFirst(segs: seq<Segment>, gone: seq<Op>, res: Option<Resources>, t: Tracker)
    requires segs != []
    ensures TracksAt(segs, gone, res, t, 0) <==> Run(gone, res, t) == t
  {
    assert segs[..0] == [] && gone + [] == gone;
  }

  lemma TracksNext(s: Segment, tail: seq<Segment>, gone: seq<Op>, res: Option<Resources>, t: Tracker, k: nat)
    requires k < |tail| && (s.verdict.DropMarked? || Run(gone, res, t) == t)
    ensures TracksAt([s] + tail, gone, res, t, k + 1) <==>
      if s.verdict.DropMarked? then TracksAt(tail, gone + s.ops, res, t, k)
      else TracksAt(tail, [], res, Run(s.ops, res, t), k)
  {
    hide Run;
    assert ([s] + tail)[..k + 1] == [s] + tail[..k];
    assert ([s] + tail[..k])[1..] == tail[..k];
    var front := Flatten(tail[..k]);
    assert gone + (s.ops + front) == gone + s.ops + front;
    RunConcat(gone + s.ops, front, res, t);
    RunConcat(gone, s.ops, res, t);
    assert [] + front == front;
  }

  /** The rewrite tracks the stream's own state in front of everything it does not strip
      exactly when the stripped stretches restore the state. */
  lemma {:induction false} TracksStreamIff(segs: seq<Segment>, gone: seq<Op>, res: Option<Resources>, t: Tracker)
    ensures TracksStream(segs, gone, res, t) <==> MarkedRestores(segs, gone, res, t)
  {
    hide TracksAt, Run;
    if segs != [] {
      var s, tail := segs[0], segs[1..];
      assert segs == [s] + tail;
      TracksFirst(segs, gone, res, t);
      if s.verdict.DropMarked? {
        TracksStreamIff(tail, gone + s.ops, res, t);
        forall k: nat | k < |tail|
          ensures TracksAt(segs, gone, res, t, k + 1) <==> TracksAt(tail, gone + s.ops, res, t, k)
        {
          TracksNext(s, tail, gone, res, t, k);
        }
        LaterSegments(segs, gone, tail, gone + s.ops, res, t, t);
      } else if Run(gone, res, t) == t {
        TracksStreamIff(tail, [], res, Run(s.ops, res, t));
        forall k: nat | k < |tail|
          ensures TracksAt(segs, gone, res, t, k + 1) <==> TracksAt(tail, [], res, Run(s.ops, res, t), k)
        {
          TracksNext(s, tail, gone, res, t, k);
        }
        LaterSegments(segs, gone, tail, [], res, t, Run(s.ops, res, t));
      }
    }
  }

  /** It is enough that every stripped segment is self-contained. */
  lemma {:induction false} SelfContainedMarksRestore(segs: seq<Segment>, gone: seq<Op>, res: Option<Resources>,
                                                     t: Tracker)
    requires forall k :: 0 <= k < |segs| && segs[k].verdict.DropMarked? ==> SelfContained(segs[k].ops, 0)
    requires Run(gone, res, t) == t
    ensures MarkedRestores(segs, gone, res, t)
  {
    hide Run, SelfContained;
    if segs != [] {
      var s := segs[0];
      if s.verdict.DropMarked? {
        RunConcat(gone, s.ops, res, t);
        SelfContainedIsNeutral(s.ops, res, t);
        SelfContainedMarksRestore(segs[1..], gone + s.ops, res, t);
      } else {
        RunNothing(res, Run(s.ops, res, t));
        SelfContainedMarksRestore(segs[1..], [], res, Run(s.ops, res, t));
      }
    }
  }

  lemma LaterSegments(segs: seq<Segment>, gone: seq<Op>, tail: seq<Segment>, gone': seq<Op>, res: Option<Resources>,
                      t: Tracker, t': Tracker)
    requires segs != [] && segs[1..] == tail
    requires segs[0].verdict.DropMarked? || TracksAt(segs, gone, res, t, 0)
    requires forall k: nat :: k < |tail| ==>
      (TracksAt(segs, gone, res, t, k + 1) <==> TracksAt(tail, gone', res, t', k))
    ensures TracksStream(segs, gone, res, t) <==> TracksStream(tail, gone', res, t')
  {
    hide TracksAt;
    if TracksStream(tail, gone', res, t') {
      forall k | 0 <= k < |segs| && !segs[k].verdict.DropMarked? ensures TracksAt(segs, gone, res, t, k) {
        if k > 0 {
          assert tail[k - 1] == segs[k];
          assert TracksAt(tail, gone', res, t', k - 1);
        }
      }
    }
    if TracksStream(segs, gone, res, t) {
      forall k | 0 <= k < |tail| && !tail[k].verdict.DropMarked? ensures TracksAt(tail, gone', res, t', k) {
        assert segs[k + 1] == tail[k];
        assert TracksAt(segs, gone, res, t, k + 1);
      }
    }
  }

  function Offset(segs: seq<Segment>, k: nat): nat
    requires k <= |segs|
  {
    |Flatten(segs[..k])|
  }

  lemma {:induction false} FlattenConcat(a: seq<Segment>, b: seq<Segment>)
    ensures Flatten(a + b) == Flatten(a) + Flatten(b)
  {
    if a == [] {
      assert a + b == b;
    } else {
      assert (a + b)[1..] == a[1..] + b;
      FlattenConcat(a[1..], b);
    }
  }

  lemma OffsetCons(s: Segment, tail: seq<Segment>, k: nat)
    requires k <= |tail|
    ensures Offset([s] + tail, k + 1) == |s.ops| + Offset(tail, k)
  {
    assert ([s] + tail)[..k + 1] == [s] + tail[..k];
    FlattenConcat([s], tail[..k]);
    assert Flatten([s]) == s.ops;
  }

  lemma SplitBeyond(a: seq<Op>, rest: seq<Op>, o: nat)
    requires o <= |rest|
    ensures (a + rest)[|a| + o..] == rest[o..] && (a + rest)[..|a| + o] == a + rest[..o]
  {
  }

  /** Segment `k` starts where the first `k` end and is judged under the tracked state. */
  lemma {:induction false} SegmentAt(env: Env, res: Option<Resources>, plan: Plan, ops: seq<Op>, t: Tracker, k: nat)
    requires k < |Segments(env, res, plan, ops, t)|
    ensures var segs := Segments(env, res, plan, ops, t);
      && Offset(segs, k) + |segs[k].ops| <= |ops| && ops[..Offset(segs, k)] == Flatten(segs[..k])
      && ops[Offset(segs, k)..] != []
      && segs[k] == NextSegment(env, res, plan, ops[Offset(segs, k)..], Tracked(segs[..k], res, t))
    decreases |ops|
  {
    hide NextSegment, Run, After, Segments;
    SegmentsStep(env, res, plan, ops, t);
    var s := NextSegment(env, res, plan, ops, t);
    var rest, t' := ops[|s.ops|..], After(s, res, t);
    var tail := Segments(env, res, plan, rest, t');
    if k == 0 {
      assert ([s] + tail)[..0] == [] && ops[0..] == ops;
    } else {
      SegmentAt(env, res, plan, rest, t', k - 1);
      OffsetCons(s, tail, k - 1);
      assert ([s] + tail)[..k] == [s] + tail[..k - 1];
      assert ([s] + tail[..k - 1])[1..] == tail[..k - 1];
      assert ops == s.ops + rest;
      SplitBeyond(s.ops, rest, Offset(tail, k - 1));
    }
  }

  /** So when stripped content restores the state, a segment that is not stripped is judged
      under the state the stream itself has there. */
  lemma JudgedUnderOwnState(env: Env, res: Option<Resources>, plan: Plan, ops: seq<Op>, t: Tracker, k: nat)
    requires var segs := Segments(env, res, plan, ops, t);
      k < |segs| && !segs[k].verdict.DropMarked? && MarkedRestores(segs, [], res, t)
    ensures var segs := Segments(env, res, plan, ops, t);
      Offset(segs, k) <= |ops| && Tracked(segs[..k], res, t) == Run(ops[..Offset(segs, k)], res, t)
  {
    hide NextSegment, Run, Offset, Segments, Flatten, Tracked, MarkedRestores;
    var segs := Segments(env, res, plan, ops, t);
    SegmentAt(env, res, plan, ops, t, k);
    TracksStreamIff(segs, [], res, t);
    assert TracksAt(segs, [], res, t, k);
    assert [] + Flatten(segs[..k]) == Flatten(segs[..k]);
  }

  lemma SegmentsStep(env: Env, res: Option<Resources>, plan: Plan, ops: seq<Op>, t: Tracker)
    ensures var segs := Segments(env, res, plan, ops, t);
      if ops == [] then segs == []
      else var s := NextSegment(env, res, plan, ops, t);
        segs == [s] + Segments(env, res, plan, ops[|s.ops|..], After(s, res, t))
  {
  }

  /** The body of a text block, up to its `ET`, without a second `BT`. */
  ghost predicate PlainBody(body: seq<Op>) {
    forall i :: 0 <= i < |body| ==> !body[i].BeginText? && !body[i].EndText?
  }

  ghost predicate SameTraits(s: ScanState, tr: Trace) {
    && s.inText && s.t == tr.t && s.tm == tr.tm
    && s.text == tr.text && s.diagonal == tr.diagonal && s.alpha == tr.alpha
  }

  /** Inside a text block both interpreters accumulate the same traits. */
  lemma {:induction false} BodyAgrees(env: Env, res: Option<Resources>, body: seq<Op>, s: ScanState, tr: Trace)
    requires PlainBody(body) && SameTraits(s, tr)
    ensures SameTraits(ScanRun(env, res, s, body), TraceRun(env, res, tr, body))
    decreases |body|
  {
    if body != [] {
      StepAgrees(env, res, body[0], s, tr);
      BodyAgrees(env, res, body[1..], ScanStep(env, res, s, body[0]), TraceStep(env, res, tr, body[0]));
    }
  }

  lemma StepAgrees(env: Env, res: Option<Resources>, op: Op, s: ScanState, tr: Trace)
    requires SameTraits(s, tr) && !op.BeginText? && !op.EndText?
    ensures SameTraits(ScanStep(env, res, s, op), TraceStep(env, res, tr, op))
  {
    ScanStepCases(env, res, s, op);
  }

  lemma {:induction false} ScanRunConcat(env: Env, res: Option<Resources>, s: ScanState, a: seq<Op>, b: seq<Op>)
    ensures ScanRun(env, res, s, a + b) == ScanRun(env, res, ScanRun(env, res, s, a), b)
    decreases |a|
  {
    if a == [] {
      assert a + b == b;
    } else {
      assert (a + b)[1..] == a[1..] + b;
      ScanRunConcat(env, res, ScanStep(env, res, s, a[0]), a[1..], b);
    }
  }

  lemma {:induction false} TraceRunSnoc(env: Env, res: Option<Resources>, tr: Trace, body: seq<Op>, last: Op)
    ensures TraceRun(env, res, tr, body + [last]) == TraceStep(env, res, TraceRun(env, res, tr, body), last)
    decreases |body|
  {
    var all := body + [last];
    if body == [] {
      assert all[1..] == [];
      assert TraceRun(env, res, TraceStep(env, res, tr, all[0]), []) == TraceStep(env, res, tr, last);
    } else {
      assert all[1..] == body[1..] + [last];
      TraceRunSnoc(env, res, TraceStep(env, res, tr, body[0]), body[1..], last);
    }
  }

  /** What the scan reports at operator `i` is among what it reports for the stream. */
  lemma {:induction false} ReportIncluded(env: Env, streams: Streams, res: Option<Resources>, s: ScanState,
                                          ops: seq<Op>, i: nat, at: Place, o: Observation)
    requires i < |ops| && o in Report(env, streams, res, ScanRun(env, res, s, ops[..i]), ops[i], at)
    ensures o in ScanAll(env, streams, res, s, ops, at)
    decreases i
  {
    hide Report, ScanStep;
    ScanAllStep(env, streams, res, s, ops, at);
    if i == 0 {
      assert ops[..0] == [];
    } else {
      assert ops[..i][1..] == ops[1..][..i - 1];
      ReportIncluded(env, streams, res, ScanStep(env, res, s, ops[0]), ops[1..], i - 1, at, o);
    }
  }

  /** A stream's observations are exactly those reported at its operators, each under the
      state the operators before it produce. */
  lemma {:induction false} ReportedIff(env: Env, streams: Streams, res: Option<Resources>, s: ScanState,
                                       ops: seq<Op>, at: Place, o: Observation)
    ensures o in ScanAll(env, streams, res, s, ops, at) <==>
      exists i :: 0 <= i < |ops| && ReportedAt(env, streams, res, s, ops, at, i, o)
    decreases |ops|
  {
    hide Report, ScanStep, ScanRun;
    if ops == [] {
      ScanAllEnd(env, streams, res, ops, at);
    } else {
      var s', rest := ScanStep(env, res, s, ops[0]), ops[1..];
      ScanAllStep(env, streams, res, s, ops, at);
      ReportedIff(env, streams, res, s', rest, at, o);
      ReportedFirst(env, streams, res, s, ops, at, o);
      forall i: nat | i < |rest|
        ensures ReportedAt(env, streams, res, s, ops, at, i + 1, o) <==>
          ReportedAt(env, streams, res, s', rest, at, i, o)
      {
        ReportedLater(env, streams, res, s, ops, at, i, o);
      }
      if i :| 0 <= i < |ops| && ReportedAt(env, streams, res, s, ops, at, i, o) {
        assert i > 0 ==> i - 1 + 1 == i && ReportedAt(env, streams, res, s', rest, at, i - 1, o);
      }
      if i :| 0 <= i < |rest| && ReportedAt(env, streams, res, s', rest, at, i, o) {
        assert ReportedAt(env, streams, res, s, ops, at, i + 1, o);
      }
    }
  }

  ghost predicate ReportedAt(env: Env, streams: Streams, res: Option<Resources>, s: ScanState, ops: seq<Op>,
                             at: Place, i: nat, o: Observation)
    requires i < |ops|
  {
    o in Report(env, streams, res, ScanRun(env, res, s, ops[..i]), ops[i], at)
  }

  lemma ReportedFirst(env: Env, streams: Streams, res: Option<Resources>, s: ScanState, ops: seq<Op>, at: Place,
                      o: Observation)
    requires ops != []
    ensures ReportedAt(env, streams, res, s, ops, at, 0, o) <==> o in Report(env, streams, res, s, ops[0], at)
  {
    hide Report;
    assert ops[..0] == [];
  }

  lemma ReportedLater(env: Env, streams: Streams, res: Option<Resources>, s: ScanState, ops: seq<Op>,
                      at: Place, i: nat, o: Observation)
    requires i + 1 < |ops|
    ensures ReportedAt(env, streams, res, s, ops, at, i + 1, o) <==>
      ReportedAt(env, streams, res, ScanStep(env, res, s, ops[0]), ops[1..], at, i, o)
  {
    hide Report, ScanStep;
    assert ops[..i + 1][1..] == ops[1..][..i];
  }

  /** So every text observation of a stream that draws no form comes from a closing `ET` of
      that stream, with the text and traits gathered up to it. */
  lemma TextObservationIff(env: Env, streams: Streams, res: Option<Resources>, s: ScanState,
                           ops: seq<Op>, at: Place, o: Observation)
    requires o.TextSeen? && forall i :: 0 <= i < |ops| ==> !DrawsForm(env, res, ops[i])
    ensures o in ScanAll(env, streams, res, s, ops, at) <==>
      exists i :: 0 <= i < |ops| && ops[i].EndText? && SeenAtEnd(ScanRun(env, res, s, ops[..i]), at.page, o)
  {
    hide ScanAll, ScanRun, Normalise;
    ReportedIff(env, streams, res, s, ops, at, o);
    forall i: nat | i < |ops|
      ensures ReportedAt(env, streams, res, s, ops, at, i, o) <==>
        ops[i].EndText? && SeenAtEnd(ScanRun(env, res, s, ops[..i]), at.page, o)
    {
      TextReport(env, streams, res, ScanRun(env, res, s, ops[..i]), ops[i], at, o);
    }
  }

  ghost predicate DrawsForm(env: Env, res: Option<Resources>, op: Op) {
    op.Draw? && var id := XObjectNamed(env.objects, res, op.xobject); id.Some? && env.objects[id.value].Form?
  }

  ghost predicate SeenAtEnd(s: ScanState, page: nat, o: Observation) {
    s.inText && Normalise(s.text) != "" && o == TextSeen(page, Normalise(s.text), s.diagonal, s.alpha, s.size)
  }

  lemma TextReport(env: Env, streams: Streams, res: Option<Resources>, s: ScanState, op: Op, at: Place, o: Observation)
    requires o.TextSeen? && !DrawsForm(env, res, op)
    ensures o in Report(env, streams, res, s, op, at) <==> op.EndText? && SeenAtEnd(s, at.page, o)
  {
    hide ScanAll, Normalise, Report;
    if op.Draw? {
      ReportDraw(env, streams, res, s, op.xobject, at);
    } else {
      ReportCases(env, streams, res, s, op, at);
    }
  }

  // ---- The text blocks of a page ----

  /** Segment `k` is a closed text block in which no second text object begins. */
  ghost predicate IsTextBlock(segs: seq<Segment>, k: nat) {
    && k < |segs|
    && |segs[k].ops| >= 2 && segs[k].ops[0].BeginText? && segs[k].ops[|segs[k].ops| - 1].EndText?
    && PlainBody(segs[k].ops[1..|segs[k].ops| - 1])
  }

  /** The plan of a page: the hints are those of no form. */
  predicate PagePlan(plan: Plan) {
    plan.hintAlpha == 1.0 && !plan.hintDiagonal
  }

  /** The scan's state just before the `ET` of segment `k`. */
  ghost function BlockState(env: Env, res: Option<Resources>, segs: seq<Segment>, ops: seq<Op>, k: nat): ScanState
    requires k < |segs| && 0 < Offset(segs, k) + |segs[k].ops| <= |ops|
  {
    ScanRun(env, res, ScanStart(IDENTITY, 1.0), ops[..Offset(segs, k) + |segs[k].ops| - 1])
  }

  /** The observation the scan makes of segment `k`. */
  ghost function OwnObservation(env: Env, res: Option<Resources>, segs: seq<Segment>, ops: seq<Op>, k: nat,
                                page: nat): Observation
    requires k < |segs| && 0 < Offset(segs, k) + |segs[k].ops| <= |ops|
  {
    var s := BlockState(env, res, segs, ops, k);
    TextSeen(page, Normalise(s.text), s.diagonal, s.alpha, s.size)
  }

  /** A segment that begins with `BT` is the text segment there. */
  lemma TextSegmentAt(env: Env, res: Option<Resources>, plan: Plan, ops: seq<Op>, t: Tracker, k: nat)
    requires var segs := Segments(env, res, plan, ops, t);
      k < |segs| && segs[k].ops != [] && segs[k].ops[0].BeginText?
    ensures var segs := Segments(env, res, plan, ops, t);
      && Offset(segs, k) + |segs[k].ops| <= |ops|
      && var rest := ops[Offset(segs, k)..];
      && rest != [] && rest[0] == BeginText
      && segs[k] == TextSegment(env, res, plan, BeginText, rest[1..], Tracked(segs[..k], res, t))
  {
    hide Run, Offset, TextSegment, DrawVerdict, Segments, Tracked;
    var segs := Segments(env, res, plan, ops, t);
    SegmentAt(env, res, plan, ops, t, k);
    assert segs[k].ops[0] == ops[Offset(segs, k)..][0];
  }

  /** Through a plain block, from a common state, to just before its `ET`. */
  lemma BlockScan(env: Env, res: Option<Resources>, s: ScanState, before: seq<Op>, inner: seq<Op>)
    requires PlainBody(inner)
    ensures var t := ScanRun(env, res, s, before).t;
      var last := TraceRun(env, res, TraceStart(t), inner + [EndText]);
      SameTraits(ScanRun(env, res, s, before + ([BeginText] + inner)), last)
  {
    hide ScanRun, TraceRun, PlainBody, MatMul;
    var s0 := ScanRun(env, res, s, before);
    ScanRunConcat(env, res, s, before, [BeginText] + inner);
    ScanRunFirst(env, res, s0, BeginText, inner);
    BodyAgrees(env, res, inner, ScanStep(env, res, s0, BeginText), TraceStart(s0.t));
    TraceRunSnoc(env, res, TraceStart(s0.t), inner, EndText);
  }

  lemma ScanRunFirst(env: Env, res: Option<Resources>, s: ScanState, op: Op, ops: seq<Op>)
    ensures ScanRun(env, res, s, [op] + ops) == ScanRun(env, res, ScanStep(env, res, s, op), ops)
  {
    assert ([op] + ops)[1..] == ops;
  }

  lemma ClosedVerdict(env: Env, res: Option<Resources>, plan: Plan, rest: seq<Op>, t: Tracker, inner: seq<Op>)
    requires var s := TextSegment(env, res, plan, BeginText, rest, t); |s.ops| >= 1 && s.ops[1..] == inner + [EndText]
    ensures TextSegment(env, res, plan, BeginText, rest, t).verdict
         == TextVerdict(plan, TraceRun(env, res, TraceStart(t), inner + [EndText]))
    ensures inner + [EndText] <= rest
  {
    var body := inner + [EndText];
    assert body == rest[..UntilEndText(rest)];
    assert body[|inner|] == EndText;
  }

  lemma BlockSlice(ops: seq<Op>, o: nat, inner: seq<Op>)
    requires o < |ops| && ops[o] == BeginText && inner + [EndText] <= ops[o..][1..]
    ensures ops[..o + |inner| + 1] == ops[..o] + ([BeginText] + inner)
    ensures ops[o + |inner| + 1] == EndText
  {
    var body := inner + [EndText];
    assert forall i :: 0 <= i < |body| ==> body[i] == ops[o..][1..][i] == ops[o + 1 + i];
    assert body[|inner|] == EndText;
  }

  /** Scan and rewrite compute the same text, diagonal flag and minimum alpha for every
      text block the rewrite does not skip. */
  lemma InterpretersAgree(env: Env, res: Option<Resources>, plan: Plan, ops: seq<Op>, k: nat)
    requires PagePlan(plan)
    requires var segs := PlanSegments(env, res, plan, ops);
      MarkedRestores(segs, [], res, Start(IDENTITY, 1.0)) && IsTextBlock(segs, k)
    ensures var segs := PlanSegments(env, res, plan, ops);
      && 0 < Offset(segs, k) + |segs[k].ops| <= |ops|
      && ops[Offset(segs, k) + |segs[k].ops| - 1].EndText?
      && var s := BlockState(env, res, segs, ops, k);
         var t := Run(ops[..Offset(segs, k)], res, Start(IDENTITY, 1.0));
         var tr := TraceRun(env, res, TraceStart(t), segs[k].ops[1..]);
      && SameTraits(s, tr)
      && segs[k].verdict == TextVerdict(plan, tr)
  {
    hide Run, TextVerdict, Offset, ScanRun, TraceRun, MarkedRestores, Tracked, Segments, SameTraits, TextSegment,
         UntilEndText, ScanStep, TraceStep, PlainBody;
    var segs := PlanSegments(env, res, plan, ops);
    TextSegmentAt(env, res, plan, ops, Start(IDENTITY, 1.0), k);
    JudgedUnderOwnState(env, res, plan, ops, Start(IDENTITY, 1.0), k);
    var o, body := Offset(segs, k), segs[k].ops[1..];
    var inner := body[..|body| - 1];
    assert inner == segs[k].ops[1..|segs[k].ops| - 1];
    assert body == inner + [EndText];
    ClosedVerdict(env, res, plan, ops[o..][1..], Run(ops[..o], res, Start(IDENTITY, 1.0)), inner);
    BlockSlice(ops, o, inner);
    assert ops[..o + |segs[k].ops| - 1] == ops[..o] + ([BeginText] + inner);
    BlockScan(env, res, ScanStart(IDENTITY, 1.0), ops[..o], inner);
  }

  /** The analysis observes every block of a page. A block whose own observation the sink
      recorded and whose string is a needle is removed; when the needles are those the
      analysis decided on, a block dropped as detected text is such a block. */
  lemma RemovedIffRecordedNeedle(env: Env, streams: Streams, pages: seq<Page>, page: nat, plan: Plan, k: nat)
    requires page < |pages| && pages[page].contents.Decoded? && PagePlan(plan)
    requires var segs := PlanSegments(env, pages[page].resources, plan, pages[page].contents.ops);
             MarkedRestores(segs, [], pages[page].resources, Start(IDENTITY, 1.0)) && IsTextBlock(segs, k)
    ensures var res, ops := pages[page].resources, pages[page].contents.ops;
      var segs := PlanSegments(env, res, plan, ops);
      && 0 < Offset(segs, k) + |segs[k].ops| <= |ops|
      && var o := OwnObservation(env, res, segs, ops, k, page);
      && (o.norm != "" ==> o in PageReport(env, streams, pages[page], page))
      && (Recorded(o) && o.norm in plan.detection.needles ==> !segs[k].verdict.Keep?)
      && (segs[k].verdict.DropDetectedText? && IsDecision(env, streams, pages, plan.detection) ==>
            Recorded(o) && o.norm in plan.detection.needles)
  {
    hide Run, ScanRun, TraceRun, Segments, MarkedRestores, Offset, IsDecision, Normalise, ScanAll, Report, Contains;
    var res, ops := pages[page].resources, pages[page].contents.ops;
    var segs := PlanSegments(env, res, plan, ops);
    InterpretersAgree(env, res, plan, ops, k);
    var e := Offset(segs, k) + |segs[k].ops| - 1;
    var s := BlockState(env, res, segs, ops, k);
    var o := OwnObservation(env, res, segs, ops, k, page);
    if o.norm != "" {
      var at := Place(page, pages[page].box, 0, {});
      ReportCases(env, streams, res, s, ops[e], at);
      ReportIncluded(env, streams, res, ScanStart(IDENTITY, 1.0), ops, e, at, o);
    }
    if o.norm in plan.detection.needles && IsDecision(env, streams, pages, plan.detection) {
      NeedleWasRecorded(env, streams, pages, plan.detection, o.norm);
    }
  }

  // ---- Alternating BT and ET suffice ----

  /** `BT` and `ET` strictly alternate. */
  predicate Alternates(ops: seq<Op>, inText: bool) {
    if ops == [] then true
    else if ops[0].BeginText? then !inText && Alternates(ops[1..], true)
    else if ops[0].EndText? then inText && Alternates(ops[1..], false)
    else Alternates(ops[1..], inText)
  }

  lemma {:induction false} AlternatesSuffix(ops: seq<Op>, n: nat, inText: bool) returns (later: bool)
    requires n <= |ops| && Alternates(ops, inText)
    ensures Alternates(ops[n..], later)
    decreases n
  {
    if n == 0 {
      assert ops[0..] == ops;
      return inText;
    }
    assert ops[n..] == ops[1..][n - 1..];
    later := AlternatesSuffix(ops[1..], n - 1,
      if ops[0].BeginText? then true else if ops[0].EndText? then false else inText);
  }

  lemma {:induction false} AlternatingBody(ops: seq<Op>)
    requires Alternates(ops, true) && EndText in ops
    ensures PlainBody(ops[..UntilEndText(ops) - 1])
  {
    if !ops[0].EndText? {
      var n := UntilEndText(ops[1..]);
      AlternatingBody(ops[1..]);
      assert ops[..n] == [ops[0]] + ops[1..][..n - 1];
    }
  }

  lemma AlternatesBehind(ops: seq<Op>, inText: bool)
    requires ops != [] && ops[0].BeginText? && Alternates(ops, inText)
    ensures Alternates(ops[1..], true)
  {
  }

  lemma EndTextWithin(ops: seq<Op>, n: nat)
    requires n <= |ops| && EndText in ops[..n]
    ensures EndText in ops
  {
  }

  lemma InnerOps(block: seq<Op>, body: seq<Op>)
    requires block == [BeginText] + body && body != []
    ensures block[1..|block| - 1] == body[..|body| - 1]
  {
  }

  /** On a stream whose BT and ET alternate every closed text segment is a plain block,
      so the agreement above applies to all of them. */
  lemma AlternatingBlocksArePlain(env: Env, res: Option<Resources>, plan: Plan, ops: seq<Op>, k: nat)
    requires Alternates(ops, false)
    requires var segs := PlanSegments(env, res, plan, ops);
      k < |segs| && segs[k].ops != [] && segs[k].ops[0].BeginText? && EndText in segs[k].ops
    ensures IsTextBlock(PlanSegments(env, res, plan, ops), k)
  {
    hide Run, TextVerdict, TraceRun, Offset, Segments, Tracked, UntilEndText, Alternates, PlainBody;
    var segs := PlanSegments(env, res, plan, ops);
    TextSegmentAt(env, res, plan, ops, Start(IDENTITY, plan.hintAlpha), k);
    var rest := ops[Offset(segs, k)..];
    var flag := AlternatesSuffix(ops, Offset(segs, k), false);
    var n := UntilEndText(rest[1..]);
    var body := rest[1..][..n];
    assert segs[k].ops == [BeginText] + body;
    assert EndText in body by { assert EndText in [BeginText] + body; }
    AlternatesBehind(rest, flag);
    EndTextWithin(rest[1..], n);
    AlternatingBody(rest[1..]);
    InnerOps(segs[k].ops, body);
    assert body[..n - 1] == rest[1..][..n - 1];
  }
}
