/** When a second rewrite pass finds nothing more. */
module Idempotence {
  import opened Wrappers
  import opened Matrices
  import opened Content
  import opened GraphicsState
  import opened Filter
  import opened FilterTheorems
  import opened Preservation

  predicate IsClosedText(s: Segment) {
    s.ops != [] && s.ops[0].BeginText? && EndText in s.ops[1..]
  }

  /** What a kept segment is judged to be when it is met again in state `u`: only the
      verdict on a closed text block depends on the state. */
  function VerdictAgain(env: Env, res: Option<Resources>, plan: Plan, s: Segment, u: Tracker): Verdict {
    if IsClosedText(s) then TextVerdict(plan, TraceRun(env, res, TraceStart(u), s.ops[1..])) else Keep
  }

  /** Every kept text block is still kept when judged under the state the kept operators
      before it produce; `u` is that state. */
  ghost predicate StayKept(env: Env, res: Option<Resources>, plan: Plan, segs: seq<Segment>, u: Tracker) {
    if segs == [] then true
    else if !segs[0].verdict.Keep? then StayKept(env, res, plan, segs[1..], u)
    else
      && VerdictAgain(env, res, plan, segs[0], u).Keep?
      && StayKept(env, res, plan, segs[1..], Run(segs[0].ops, res, u))
  }

  /** A kept segment is found again, whatever state it is met in and kept content follows. */
  lemma SegmentRecurs(env: Env, res: Option<Resources>, plan: Plan, ops: seq<Op>, t: Tracker, k: seq<Op>, u: Tracker)
    requires ops != [] && NextSegment(env, res, plan, ops, t).verdict.Keep?
    requires |NextSegment(env, res, plan, ops, t).ops| == |ops| ==> k == []
    ensures var s := NextSegment(env, res, plan, ops, t);
      NextSegment(env, res, plan, s.ops + k, u) == Segment(s.ops, VerdictAgain(env, res, plan, s, u))
  {
    hide Strips, DrawVerdict, TextVerdict, TraceRun, UntilEndText;
    var s := NextSegment(env, res, plan, ops, t);
    assert (s.ops + k)[0] == ops[0];
    if ops[0].BeginText? {
      var body := ops[1..][..UntilEndText(ops[1..])];
      assert s.ops[1..] == body;
      assert (s.ops + k)[1..] == body + k;
      BlockRecurs(ops[1..], k);
    } else {
      assert (s.ops + k)[..1] == s.ops;
    }
  }

  lemma BlockRecurs(ops: seq<Op>, k: seq<Op>)
    requires UntilEndText(ops) == |ops| ==> k == []
    ensures var body := ops[..UntilEndText(ops)]; (body + k)[..UntilEndText(body + k)] == body
  {
    var body := ops[..UntilEndText(ops)];
    UntilEndTextAgain(ops);
    if EndText in body {
      FirstEndText(body, k);
    } else {
      assert body + k == ops;
    }
  }

  lemma {:induction false} FirstEndText(body: seq<Op>, k: seq<Op>)
    requires EndText in body && UntilEndText(body) == |body|
    ensures UntilEndText(body + k) == |body|
  {
    assert (body + k)[0] == body[0];
    if !body[0].EndText? {
      assert (body + k)[1..] == body[1..] + k;
      FirstEndText(body[1..], k);
    }
  }

  lemma {:induction false} UntilEndTextAgain(ops: seq<Op>)
    ensures UntilEndText(ops[..UntilEndText(ops)]) == UntilEndText(ops)
  {
    if ops != [] && !ops[0].EndText? {
      var n := UntilEndText(ops[1..]);
      assert ops[..1 + n][1..] == ops[1..][..n];
      UntilEndTextAgain(ops[1..]);
    }
  }

  /** A second pass over what the first kept removes nothing exactly when the kept text
      blocks stay kept. */
  lemma {:induction false} SecondPass(env: Env, res: Option<Resources>, plan: Plan, ops: seq<Op>, t: Tracker,
                                      u: Tracker)
    ensures var segs := Segments(env, res, plan, ops, t);
      Summary(Segments(env, res, plan, Summary(segs).kept, u)).removed == 0 <==> StayKept(env, res, plan, segs, u)
    decreases |ops|
  {
    hide NextSegment, Run, VerdictAgain, After;
    if ops != [] {
      var s := NextSegment(env, res, plan, ops, t);
      var rest, t' := ops[|s.ops|..], After(s, res, t);
      var tail := Segments(env, res, plan, rest, t');
      assert ([s] + tail)[1..] == tail;
      var k := Summary(tail).kept;
      if s.verdict.Keep? {
        SecondPass(env, res, plan, rest, t', Run(s.ops, res, u));
        SegmentRecurs(env, res, plan, ops, t, k, u);
        assert (s.ops + k)[|s.ops|..] == k;
        var again := Segment(s.ops, VerdictAgain(env, res, plan, s, u));
        SummaryFirst(again, Segments(env, res, plan, k, After(again, res, u)));
        if again.verdict.Keep? {
          AfterKept(again, res, u);
        }
      } else {
        SecondPass(env, res, plan, rest, t', u);
      }
    }
  }

  lemma AfterKept(s: Segment, res: Option<Resources>, t: Tracker)
    requires !s.verdict.DropMarked?
    ensures After(s, res, t) == Run(s.ops, res, t)
  {
  }

  /** Filtering is idempotent, on streams nested or not, exactly when every text block the
      first pass kept stays kept under the state of the output before it. */
  lemma FilterIsIdempotent(env: Env, res: Option<Resources>, plan: Plan, ops: seq<Op>)
    ensures var once, segs := Filtered(env, res, plan, ops).kept, PlanSegments(env, res, plan, ops);
      Filtered(env, res, plan, once) == Outcome(once, 0, 0) <==>
      StayKept(env, res, plan, segs, Start(IDENTITY, plan.hintAlpha))
  {
    var once := Filtered(env, res, plan, ops).kept;
    SecondPass(env, res, plan, ops, Start(IDENTITY, plan.hintAlpha), Start(IDENTITY, plan.hintAlpha));
    RemovedZeroIffUnchanged(env, res, plan, once);
  }

  /** Every dropped text block leaves the tracked state `t` as it found it. */
  ghost predicate DroppedTextRestores(segs: seq<Segment>, res: Option<Resources>, t: Tracker) {
    if segs == [] then true
    else
      && (segs[0].verdict.DropUserText? || segs[0].verdict.DropDetectedText? ==> Run(segs[0].ops, res, t) == t)
      && DroppedTextRestores(segs[1..], res, After(segs[0], res, t))
  }

  /** So it is when the dropped text blocks restore the state, whatever else is dropped. */
  lemma RestoringTextIsIdempotent(env: Env, res: Option<Resources>, plan: Plan, ops: seq<Op>)
    requires DroppedTextRestores(PlanSegments(env, res, plan, ops), res, Start(IDENTITY, plan.hintAlpha))
    ensures var once := Filtered(env, res, plan, ops).kept; Filtered(env, res, plan, once) == Outcome(once, 0, 0)
  {
    RestoringTextStays(env, res, plan, ops, Start(IDENTITY, plan.hintAlpha));
    FilterIsIdempotent(env, res, plan, ops);
  }

  lemma {:induction false} RestoringTextStays(env: Env, res: Option<Resources>, plan: Plan, ops: seq<Op>, t: Tracker)
    requires DroppedTextRestores(Segments(env, res, plan, ops, t), res, t)
    ensures StayKept(env, res, plan, Segments(env, res, plan, ops, t), t)
    decreases |ops|
  {
    hide NextSegment, VerdictAgain;
    if ops != [] {
      var s := NextSegment(env, res, plan, ops, t);
      var rest, t' := ops[|s.ops|..], After(s, res, t);
      var tail := Segments(env, res, plan, rest, t');
      assert ([s] + tail)[1..] == tail;
      RestoringTextStays(env, res, plan, rest, t');
      if s.verdict.Keep? {
        KeptVerdict(env, res, plan, ops, t);
      } else if s.verdict.DropDraw? {
        DrawsDoNotTrack(env, res, plan, ops, t);
      }
    }
  }

  lemma KeptVerdict(env: Env, res: Option<Resources>, plan: Plan, ops: seq<Op>, t: Tracker)
    requires ops != [] && NextSegment(env, res, plan, ops, t).verdict.Keep?
    ensures VerdictAgain(env, res, plan, NextSegment(env, res, plan, ops, t), t).Keep?
  {
    hide TextVerdict, TraceRun, UntilEndText, Strips;
    var s := NextSegment(env, res, plan, ops, t);
    if ops[0].BeginText? {
      assert s.ops[1..] == ops[1..][..UntilEndText(ops[1..])];
    }
  }

  lemma DrawsDoNotTrack(env: Env, res: Option<Resources>, plan: Plan, ops: seq<Op>, t: Tracker)
    requires ops != [] && NextSegment(env, res, plan, ops, t).verdict.DropDraw?
    ensures After(NextSegment(env, res, plan, ops, t), res, t) == t
  {
    var s := NextSegment(env, res, plan, ops, t);
    assert s.ops == [ops[0]] && s.ops[1..] == [];
    assert Run(s.ops, res, t) == Run(s.ops[1..], res, Track(ops[0], res, t));
  }

  // ---- An input on which it fails ----

  /** The needle "y" with no trait but its alpha. */
  ghost predicate JudgedByAlpha(env: Env, plan: Plan) {
    plan.userNeedle == "x" && plan.detection.needles == {"y"} && !plan.hintDiagonal && plan.hintAlpha == 1.0
    && forall m :: !env.diagonal(m)
  }

  const HALF_AND_FULL: map<Name, ExtGState> :=
    map["half" := ExtGState(Alpha(0.5), Absent), "full" := ExtGState(Alpha(1.0), Absent)]

  const PLAIN: seq<Op> := [BeginText, ShowText("y"), EndText]

  lemma PlainBlock(env: Env, res: Option<Resources>, plan: Plan, t: Tracker)
    requires JudgedByAlpha(env, plan)
    ensures FromOutside(env, res, plan, PLAIN, t)
      == if t.cur.alpha < OPAQUE_ALPHA then Outcome([], 1, 0) else Outcome(PLAIN, 0, 0)
  {
    hide FromOutside, FromBlock, MatMul, UserMatch, Normalise;
    var ops, show := PLAIN, ShowText("y");
    EnterBlock(env, res, plan, ops, t);
    assert ops[1..] == [show, EndText];
    var tr0 := TraceStart(t);
    StayInBlock(env, res, plan, [BeginText], ops[1..], tr0);
    var tr1 := TraceStep(env, res, tr0, show);
    assert ops[1..][1..] == [EndText];
    LeaveBlock(env, res, plan, [BeginText] + [show], ops[1..][1..], tr1);
    assert ops[1..][1..][1..] == [];
    assert tr1.text == "" + "y" == "y";
    PlainText(plan, tr1);
    AtEnd(env, res, plan, [], 0, TraceStart(t));
  }

  lemma PlainText(plan: Plan, tr: Trace)
    requires plan.userNeedle == "x" && tr.text == "y"
    ensures !UserMatch(plan, tr) && Normalise(tr.text) == "y"
  {
    assert "y"[1..] == "" && Normalise("y") == "y";
    forall i | 0 <= i <= 1 ensures !("x" <= "y"[i..]) {
      var tail := "y"[i..];
      assert tail != "" ==> tail[0] == 'y';
    }
  }

  /** With a `gs` in a dropped block a second pass removes more: the first drops only the
      block that made the following text opaque, the second then drops that text. */
  lemma LeakyBlockIsNotIdempotent(env: Env, plan: Plan)
    requires JudgedByAlpha(env, plan)
    ensures var res := Some(Resources(map[], HALF_AND_FULL, [], 0));
      var once := Filtered(env, res, plan, [SetState("half")] + Leaky("full", PLAIN));
      && once == Outcome([SetState("half")] + PLAIN, 1, 1)
      && Filtered(env, res, plan, once.kept) == Outcome([SetState("half")], 1, 0)
  {
    hide Filtered, FromOutside, Leaky;
    var res := Some(Resources(map[], HALF_AND_FULL, [], 0));
    var half, t := SetState("half"), Start(IDENTITY, 1.0);
    var first, again := [half] + Leaky("full", PLAIN), [half] + PLAIN;
    AtStart(env, res, plan, first);
    StepOutside(env, res, plan, first, t);
    assert first[0..] == first && first[1..] == Leaky("full", PLAIN);
    LeakyBlockDropped(env, res, plan, "full", PLAIN, WithAlpha(t, 0.5));
    PlainBlock(env, res, plan, WithAlpha(WithAlpha(t, 0.5), 1.0));
    AtStart(env, res, plan, again);
    StepOutside(env, res, plan, again, t);
    assert again[0..] == again && again[1..] == PLAIN;
    PlainBlock(env, res, plan, WithAlpha(t, 0.5));
  }
}
