/** The rewrite pass: one walk over a content stream that drops watermark content. */
module Filter {
  import opened Wrappers
  import opened Matrices
  import opened Content
  import opened GraphicsState

  /** The least alpha taken for opaque. */
  const OPAQUE_ALPHA: real := 0.999

  /** The document's objects and the two geometric measurements, which stay uninterpreted. */
  datatype Env = Env(objects: Objects, diagonal: Matrix -> bool, scale: Matrix -> real)

  datatype Detection = Detection(
    needles: set<string>,
    images: set<Digest>,
    hints: map<ObjectId, (real, bool)>)

  /** `userNeedle` is the normalised text of the user, "" when there is none. */
  datatype Plan = Plan(
    userNeedle: string,
    detection: Detection,
    stripLayers: bool,
    hintAlpha: real,
    hintDiagonal: bool)

  datatype Verdict = Keep | DropMarked | DropUserText | DropDetectedText | DropDraw

  /** What became of a contiguous stretch of the stream. */
  datatype Segment = Segment(ops: seq<Op>, verdict: Verdict)

  datatype Outcome = Outcome(kept: seq<Op>, removed: nat, userHits: nat)

  /** The traits of a text block, accumulated from its `BT`. */
  datatype Trace = Trace(t: Tracker, tm: Matrix, text: string, diagonal: bool, alpha: real)

  /** A `BDC` that opens a watermark artifact or a watermark layer. */
  predicate Strips(res: Option<Resources>, plan: Plan, op: Op) {
    && op.BeginMarkedProps? && op.mark.Some?
    && var mark := op.mark.value;
       var props := ResolveProperties(res, mark.operand);
       || (mark.tag == "/Artifact" && IsWatermarkArtifact(props))
       || (plan.stripLayers && mark.tag == "/OC" && IsWatermarkLayer(props))
  }

  function DrawVerdict(env: Env, res: Option<Resources>, plan: Plan, op: Op): (v: Verdict)
    ensures v.Keep? || v.DropDraw?
  {
    match op
    case Draw(name) =>
      var id := XObjectNamed(env.objects, res, name);
      if id.None? then Keep
      else
        var x := env.objects[id.value];
        if plan.stripLayers && IsWatermarkLayer(x.oc) then DropDraw
        else if x.Image? && x.digest in plan.detection.images then DropDraw
        else Keep
    case InlineImage(digest) =>
      if digest.Some? && digest.value in plan.detection.images then DropDraw else Keep
    case _ => Keep
  }

  function TraceStart(t: Tracker): Trace {
    Trace(t, IDENTITY, "", false, t.cur.alpha)
  }

  function TraceStep(env: Env, res: Option<Resources>, tr: Trace, op: Op): Trace {
    var t := Track(op, res, tr.t);
    var tm := if op.TextMatrix? then op.m else tr.tm;
    if op.ShowText? then
      Trace(t, tm, tr.text + op.text,
            tr.diagonal || env.diagonal(MatMul(tm, t.cur.ctm)),
            Min(tr.alpha, t.cur.alpha))
    else Trace(t, tm, tr.text, tr.diagonal, tr.alpha)
  }

  function TraceRun(env: Env, res: Option<Resources>, tr: Trace, ops: seq<Op>): (r: Trace)
    ensures r.t == Run(ops, res, tr.t)
    decreases |ops|
  {
    if ops == [] then tr else TraceRun(env, res, TraceStep(env, res, tr, ops[0]), ops[1..])
  }

  predicate UserMatch(plan: Plan, tr: Trace) {
    plan.userNeedle != "" && Contains(Normalise(tr.text), plan.userNeedle)
  }

  predicate HasTrait(plan: Plan, tr: Trace) {
    tr.diagonal || plan.hintDiagonal || tr.alpha < OPAQUE_ALPHA || plan.hintAlpha < OPAQUE_ALPHA
  }

  function TextVerdict(plan: Plan, tr: Trace): Verdict {
    if UserMatch(plan, tr) then DropUserText
    else if Normalise(tr.text) in plan.detection.needles && HasTrait(plan, tr) then DropDetectedText
    else Keep
  }

  /** Operators up to and including the first `ET`; all of them when there is none. */
  function UntilEndText(ops: seq<Op>): (n: nat)
    ensures n <= |ops|
    ensures EndText in ops <==> 0 < n && ops[n - 1] == EndText
    ensures forall i :: 0 <= i < n - 1 ==> ops[i] != EndText
    ensures EndText !in ops ==> n == |ops|
  {
    if ops == [] then 0
    else if ops[0].EndText? then 1
    else 1 + UntilEndText(ops[1..])
  }

  /** Operators up to and including the `EMC` that closes `depth` open marked-content levels. */
  function SkipLength(ops: seq<Op>, depth: nat): (n: nat)
    ensures n <= |ops|
  {
    if depth == 0 || ops == [] then 0
    else 1 + SkipLength(ops[1..], SkipDepth(ops[0], depth))
  }

  function SkipDepth(op: Op, depth: nat): nat
    requires depth > 0
  {
    if op.BeginMarkedProps? || op.BeginMarked? then depth + 1
    else if op.EndMarked? then depth - 1
    else depth
  }

  /** The text block that `begin` opens in front of `ops`. */
  function TextSegment(env: Env, res: Option<Resources>, plan: Plan, begin: Op, ops: seq<Op>, t: Tracker): (s: Segment)
    ensures s.ops == [begin] + ops[..UntilEndText(ops)] && !s.verdict.DropMarked? && !s.verdict.DropDraw?
  {
    var body := ops[..UntilEndText(ops)];
    Segment([begin] + body,
      if EndText in body then TextVerdict(plan, TraceRun(env, res, TraceStart(t), body)) else Keep)
  }

  /** The next contiguous stretch of a non-empty stream and its fate. */
  function NextSegment(env: Env, res: Option<Resources>, plan: Plan, ops: seq<Op>, t: Tracker): (s: Segment)
    requires ops != []
    ensures 0 < |s.ops| && s.ops <= ops
  {
    if Strips(res, plan, ops[0]) then
      Segment(ops[..1 + SkipLength(ops[1..], 1)], DropMarked)
    else if ops[0].BeginText? then
      TextSegment(env, res, plan, ops[0], ops[1..], t)
    else
      Segment(ops[..1], DrawVerdict(env, res, plan, ops[0]))
  }

  /** Tracked state after a segment: marked content being skipped is not tracked. */
  function After(s: Segment, res: Option<Resources>, t: Tracker): Tracker {
    if s.verdict.DropMarked? then t else Run(s.ops, res, t)
  }

  /** The whole stream cut into its segments. */
  function Segments(env: Env, res: Option<Resources>, plan: Plan, ops: seq<Op>, t: Tracker): (segs: seq<Segment>)
    decreases |ops|
  {
    if ops == [] then []
    else
      var s := NextSegment(env, res, plan, ops, t);
      [s] + Segments(env, res, plan, ops[|s.ops|..], After(s, res, t))
  }

  function Tally(s: Segment, rest: Outcome): Outcome {
    if s.verdict.Keep? then Outcome(s.ops + rest.kept, rest.removed, rest.userHits)
    else Outcome(rest.kept, rest.removed + 1, rest.userHits + if s.verdict.DropUserText? then 1 else 0)
  }

  function Summary(segs: seq<Segment>): Outcome {
    if segs == [] then Outcome([], 0, 0) else Tally(segs[0], Summary(segs[1..]))
  }

  function PlanSegments(env: Env, res: Option<Resources>, plan: Plan, ops: seq<Op>): seq<Segment> {
    Segments(env, res, plan, ops, Start(IDENTITY, plan.hintAlpha))
  }

  function Filtered(env: Env, res: Option<Resources>, plan: Plan, ops: seq<Op>): Outcome {
    Summary(PlanSegments(env, res, plan, ops))
  }

  // ---- The single-pass form, one operator at a time ----

  /** What the rest of the stream contributes, from each mode of the loop. */
  function FromOutside(env: Env, res: Option<Resources>, plan: Plan, ops: seq<Op>, t: Tracker): Outcome {
    Summary(Segments(env, res, plan, ops, t))
  }

  function FromSkipping(env: Env, res: Option<Resources>, plan: Plan, ops: seq<Op>, depth: nat, t: Tracker): Outcome {
    FromOutside(env, res, plan, ops[SkipLength(ops, depth)..], t)
  }

  function FromBlock(env: Env, res: Option<Resources>, plan: Plan, block: seq<Op>, ops: seq<Op>, tr: Trace): Outcome {
    var n := UntilEndText(ops);
    var body := ops[..n];
    var last := TraceRun(env, res, tr, body);
    Tally(Segment(block + body, if EndText in body then TextVerdict(plan, last) else Keep),
          FromOutside(env, res, plan, ops[n..], last.t))
  }

  function Join(done: Outcome, rest: Outcome): Outcome {
    Outcome(done.kept + rest.kept, done.removed + rest.removed, done.userHits + rest.userHits)
  }

  /** Entering a text block. */
  lemma EnterBlock(env: Env, res: Option<Resources>, plan: Plan, ops: seq<Op>, t: Tracker)
    requires ops != [] && ops[0].BeginText? && !Strips(res, plan, ops[0])
    ensures FromOutside(env, res, plan, ops, t) == FromBlock(env, res, plan, [ops[0]], ops[1..], TraceStart(t))
  {
    var s := NextSegment(env, res, plan, ops, t);
    var n := UntilEndText(ops[1..]);
    var body := ops[1..][..n];
    assert ops[|s.ops|..] == ops[1..][n..];
    assert ([ops[0]] + body)[1..] == body;
    SummaryFirst(s, Segments(env, res, plan, ops[|s.ops|..], After(s, res, t)));
  }

  lemma SummaryFirst(s: Segment, rest: seq<Segment>)
    ensures Summary([s] + rest) == Tally(s, Summary(rest))
  {
    assert ([s] + rest)[1..] == rest;
  }

  /** One operator inside a text block. */
  lemma StayInBlock(env: Env, res: Option<Resources>, plan: Plan, block: seq<Op>, ops: seq<Op>, tr: Trace)
    requires ops != [] && !ops[0].EndText?
    ensures FromBlock(env, res, plan, block, ops, tr)
         == FromBlock(env, res, plan, block + [ops[0]], ops[1..], TraceStep(env, res, tr, ops[0]))
  {
    var n := UntilEndText(ops[1..]);
    var body, body' := ops[..1 + n], ops[1..][..n];
    assert body == [ops[0]] + body';
    assert body[0] == ops[0] && body[1..] == body';
    assert block + body == block + [ops[0]] + body';
    assert ops[1 + n..] == ops[1..][n..];
    assert EndText in body <==> EndText in body';
  }

  /** The `ET` that closes a text block. */
  lemma LeaveBlock(env: Env, res: Option<Resources>, plan: Plan, block: seq<Op>, ops: seq<Op>, tr: Trace)
    requires ops != [] && ops[0].EndText?
    ensures FromBlock(env, res, plan, block, ops, tr)
         == Tally(Segment(block + [ops[0]], TextVerdict(plan, tr)), FromOutside(env, res, plan, ops[1..], tr.t))
  {
    var body := ops[..1];
    assert body == [ops[0]] && body[1..] == [];
    assert TraceStep(env, res, tr, ops[0]) == tr;
    assert TraceRun(env, res, tr, body) == TraceRun(env, res, TraceStep(env, res, tr, ops[0]), []);
  }

  /** One operator outside text blocks and stripped content. */
  lemma StepOutside(env: Env, res: Option<Resources>, plan: Plan, ops: seq<Op>, t: Tracker)
    requires ops != [] && !ops[0].BeginText? && !Strips(res, plan, ops[0])
    ensures FromOutside(env, res, plan, ops, t)
         == Tally(Segment([ops[0]], DrawVerdict(env, res, plan, ops[0])),
                  FromOutside(env, res, plan, ops[1..], Track(ops[0], res, t)))
  {
    var s := NextSegment(env, res, plan, ops, t);
    assert s.ops == [ops[0]];
    assert Run(s.ops, res, t) == Run([], res, Track(ops[0], res, t)) by { assert s.ops[1..] == []; }
    SummaryFirst(s, Segments(env, res, plan, ops[1..], After(s, res, t)));
  }

  /** The `BDC` that starts stripped content. */
  lemma EnterSkip(env: Env, res: Option<Resources>, plan: Plan, ops: seq<Op>, t: Tracker)
    requires ops != [] && Strips(res, plan, ops[0])
    ensures FromOutside(env, res, plan, ops, t)
         == var rest := FromSkipping(env, res, plan, ops[1..], 1, t);
            rest.(removed := rest.removed + 1)
    ensures Track(ops[0], res, t) == t
  {
    var s := NextSegment(env, res, plan, ops, t);
    var n := SkipLength(ops[1..], 1);
    assert ops[|s.ops|..] == ops[1..][n..];
    SummaryFirst(s, Segments(env, res, plan, ops[|s.ops|..], After(s, res, t)));
  }

  lemma StaySkipping(env: Env, res: Option<Resources>, plan: Plan, ops: seq<Op>, depth: nat, t: Tracker)
    requires ops != [] && depth > 0
    ensures FromSkipping(env, res, plan, ops, depth, t)
         == FromSkipping(env, res, plan, ops[1..], SkipDepth(ops[0], depth), t)
    ensures FromSkipping(env, res, plan, ops[1..], 0, t) == FromOutside(env, res, plan, ops[1..], t)
  {
    hide Segments, Summary, SkipDepth;
    var n := SkipLength(ops[1..], SkipDepth(ops[0], depth));
    assert SkipLength(ops, depth) == 1 + n && SkipLength(ops[1..], 0) == 0;
    DropTwice(ops, 1, 0);
    DropTwice(ops, 1, n);
  }

  lemma DropTwice(ops: seq<Op>, a: nat, b: nat)
    requires a + b <= |ops|
    ensures ops[a..][b..] == ops[a + b..]
  {
  }

  /** Adding one segment to what has been done so far. */
  function Add(done: Outcome, s: Segment): Outcome {
    if s.verdict.Keep? then done.(kept := done.kept + s.ops)
    else Outcome(done.kept, done.removed + 1, done.userHits + if s.verdict.DropUserText? then 1 else 0)
  }

  lemma JoinTally(done: Outcome, s: Segment, rest: Outcome)
    ensures Join(done, Tally(s, rest)) == Join(Add(done, s), rest)
  {
    assert done.kept + (s.ops + rest.kept) == done.kept + s.ops + rest.kept;
  }

  lemma JoinRemoval(done: Outcome, rest: Outcome)
    ensures Join(done, rest.(removed := rest.removed + 1)) == Join(done.(removed := done.removed + 1), rest)
  {
  }

  lemma JoinNothing(done: Outcome, block: seq<Op>)
    ensures Join(done, Outcome(block, 0, 0)) == done.(kept := done.kept + block)
  {
  }

  lemma AtStart(env: Env, res: Option<Resources>, plan: Plan, ops: seq<Op>)
    ensures Filtered(env, res, plan, ops)
         == Join(Outcome([], 0, 0), FromOutside(env, res, plan, ops[0..], Start(IDENTITY, plan.hintAlpha)))
  {
    assert ops[0..] == ops;
    var o := Filtered(env, res, plan, ops);
    assert [] + o.kept == o.kept;
  }

  /** What is left to do when the stream ends, in each mode. */
  lemma AtEnd(env: Env, res: Option<Resources>, plan: Plan, block: seq<Op>, depth: nat, tr: Trace)
    ensures FromOutside(env, res, plan, [], tr.t) == Outcome([], 0, 0)
    ensures FromSkipping(env, res, plan, [], depth, tr.t) == Outcome([], 0, 0)
    ensures FromBlock(env, res, plan, block, [], tr) == Outcome(block, 0, 0)
  {
    assert block + [] + [] == block;
  }

  /** The draw checks at the end of the loop body: does this operator draw a
      watermark layer or a detected watermark image? */
  method DropsDraw(env: Env, res: Option<Resources>, plan: Plan, op: Op) returns (drop: bool)
    ensures DrawVerdict(env, res, plan, op) == if drop then DropDraw else Keep
  {
    if op.Draw? {
      var id := XObjectNamed(env.objects, res, op.xobject);
      if id.Some? {
        var x := env.objects[id.value];
        if plan.stripLayers && IsWatermarkLayer(x.oc) {
          return true;
        }
        if plan.detection.images != {} && x.Image? && x.digest in plan.detection.images {
          return true;
        }
      }
    } else if op.InlineImage? && plan.detection.images != {} {
      if op.digest.Some? && op.digest.value in plan.detection.images {
        return true;
      }
    }
    return false;
  }

  /** The pass as the source runs it: a skip counter, a buffered text block and a
      graphics-state stack, updated operator by operator. */
  method FilterOperations(env: Env, res: Option<Resources>, plan: Plan, operations: seq<Op>)
    returns (kept: seq<Op>, removed: nat, userHits: nat)
    ensures Outcome(kept, removed, userHits) == Filtered(env, res, plan, operations)
  {
    hide FromOutside, FromSkipping, FromBlock, Filtered, Segments, NextSegment, Summary, TraceRun, Run, After,
         UntilEndText, SkipLength, Strips, Normalise, Contains, AlphaAfter, XObjectNamed, FindXObject,
         ResolveProperties, IsWatermarkLayer, IsWatermarkArtifact, NamesWatermark, Lower, MatMul, Tally, DrawVerdict,
         Join;
    kept, removed, userHits := [], 0, 0;
    var skipDepth: nat := 0;
    var block: Option<seq<Op>> := None;
    var blockText: string := "";
    var stack: seq<GState> := [];
    var ctm, alpha := IDENTITY, plan.hintAlpha;
    var tm := IDENTITY;
    var blockDiagonal, blockAlpha := false, 1.0;
    ghost var goal := Filtered(env, res, plan, operations);
    AtStart(env, res, plan, operations);

    for i := 0 to |operations|
      invariant block.Some? ==> skipDepth == 0
      invariant goal == Join(Outcome(kept, removed, userHits),
        var t := Tracker(stack, GState(ctm, alpha));
        if block.Some? then
          FromBlock(env, res, plan, block.value, operations[i..], Trace(t, tm, blockText, blockDiagonal, blockAlpha))
        else if skipDepth > 0 then FromSkipping(env, res, plan, operations[i..], skipDepth, t)
        else FromOutside(env, res, plan, operations[i..], t))
    {
      var op := operations[i];
      ghost var t0 := Tracker(stack, GState(ctm, alpha));
      ghost var tr0 := Trace(t0, tm, blockText, blockDiagonal, blockAlpha);
      ghost var done := Outcome(kept, removed, userHits);
      ghost var rest := operations[i..];
      assert rest[0] == op && rest[1..] == operations[i + 1..];
      if skipDepth > 0 {
        StaySkipping(env, res, plan, rest, skipDepth, t0);
        if op.BeginMarkedProps? || op.BeginMarked? {
          skipDepth := skipDepth + 1;
        } else if op.EndMarked? {
          skipDepth := skipDepth - 1;
        }
        continue;
      }

      // the state, tracked as in the scan
      match op {
        case Save => stack := stack + [GState(ctm, alpha)];
        case Restore =>
          if stack != [] {
            var top := stack[|stack| - 1];
            stack, ctm, alpha := stack[..|stack| - 1], top.ctm, top.alpha;
          }
        case Concat(m) => ctm := MatMul(m, ctm);
        case SetState(name) => alpha := AlphaAfter(res, name, alpha);
        case TextMatrix(m) => tm := m;
        case _ =>
      }
      assert Tracker(stack, GState(ctm, alpha)) == Track(op, res, t0);

      if block.None? && Strips(res, plan, op) {
        EnterSkip(env, res, plan, rest, t0);
        JoinRemoval(done, FromSkipping(env, res, plan, rest[1..], 1, t0));
        skipDepth := 1;
        removed := removed + 1;
        continue;
      }
      if op.BeginText? && block.None? {
        EnterBlock(env, res, plan, rest, t0);
        block := Some([op]);
        blockText := "";
        tm := IDENTITY;
        blockDiagonal := false;
        blockAlpha := alpha;
        continue;
      }
      if block.Some? {
        ghost var before := block.value;
        block := Some(block.value + [op]);
        if op.ShowText? {
          blockText := blockText + op.text;
          blockDiagonal := blockDiagonal || env.diagonal(MatMul(tm, ctm));
          blockAlpha := Min(blockAlpha, alpha);
        }
        ghost var tr := Trace(Tracker(stack, GState(ctm, alpha)), tm, blockText, blockDiagonal, blockAlpha);
        assert tr == TraceStep(env, res, tr0, op);
        if op.EndText? {
          LeaveBlock(env, res, plan, before, rest, tr0);
          JoinTally(done, Segment(before + [op], TextVerdict(plan, tr)),
                    FromOutside(env, res, plan, rest[1..], tr.t));
          var norm := Normalise(blockText);
          var blockTraits :=
            blockDiagonal || plan.hintDiagonal || blockAlpha < OPAQUE_ALPHA || plan.hintAlpha < OPAQUE_ALPHA;
          if plan.userNeedle != "" && Contains(norm, plan.userNeedle) {
            removed := removed + 1;
            userHits := userHits + 1;
          } else if norm in plan.detection.needles && blockTraits {
            removed := removed + 1;
          } else {
            kept := kept + block.value;
          }
          block := None;
        } else {
          StayInBlock(env, res, plan, before, rest, tr0);
        }
        continue;
      }

      StepOutside(env, res, plan, rest, t0);
      JoinTally(done, Segment([op], DrawVerdict(env, res, plan, op)),
                FromOutside(env, res, plan, rest[1..], Track(op, res, t0)));
      var doomed := DropsDraw(env, res, plan, op);
      if doomed {
        removed := removed + 1;
        continue;
      }
      kept := kept + [op];
    }
    assert operations[|operations|..] == [];
    AtEnd(env, res, plan, if block.Some? then block.value else [], skipDepth,
          Trace(Tracker(stack, GState(ctm, alpha)), tm, blockText, blockDiagonal, blockAlpha));
    JoinNothing(Outcome(kept, removed, userHits), if block.Some? then block.value else []);
    if block.Some? {  // a block left open at the end is kept
      kept := kept + block.value;
    }
  }
}
