/** When rewriting preserves meaning: kept operators run under the state they had in
    the input. */
module Preservation {
  import opened Wrappers
  import opened Matrices
  import opened Content
  import opened GraphicsState
  import opened Filter
  import opened FilterTheorems

  function Shift(delta: nat, xs: seq<nat>): seq<nat> {
    seq(|xs|, i requires 0 <= i < |xs| => xs[i] + delta)
  }

  /** Position in the input of every kept operator. */
  function KeptIndices(segs: seq<Segment>): seq<nat> {
    if segs == [] then []
    else
      var n := |segs[0].ops|;
      (if segs[0].verdict.Keep? then seq(n, i => i) else []) + Shift(n, KeptIndices(segs[1..]))
  }

  /** Increasing positions below `n`. */
  ghost predicate Increasing(at: seq<nat>, n: nat) {
    && (forall j :: 0 <= j < |at| ==> at[j] < n)
    && (forall i, j :: 0 <= i < j < |at| ==> at[i] < at[j])
  }

  /** Operator `k` of `kept` is operator `p` of `ops`, and both run under the same state. */
  ghost predicate SameAt(ops: seq<Op>, p: nat, kept: seq<Op>, k: nat, res: Option<Resources>, t: Tracker) {
    p < |ops| && k < |kept| && kept[k] == ops[p] && Run(kept[..k], res, t) == Run(ops[..p], res, t)
  }

  /** Kept operator `j` is input operator `at[j]`, and both run under the same state. */
  ghost predicate SameStates(ops: seq<Op>, kept: seq<Op>, at: seq<nat>, res: Option<Resources>, t: Tracker) {
    |at| == |kept| && Increasing(at, |ops|) && forall j :: 0 <= j < |at| ==> SameAt(ops, at[j], kept, j, res, t)
  }

  /** Every stretch of dropped segments in front of a kept one, as a whole, leaves the
      state as it found it; what is dropped after the last kept segment does not matter.
      `gone` is the stretch so far. */
  ghost predicate Restores(segs: seq<Segment>, gone: seq<Op>, res: Option<Resources>, t: Tracker) {
    if segs == [] then true
    else
      var s := segs[0];
      if s.verdict.Keep? then Run(gone, res, t) == t && Restores(segs[1..], [], res, Run(s.ops, res, t))
      else Restores(segs[1..], gone + s.ops, res, t)
  }

  // ---- Positions ----

  lemma IncreasingBehind(at: seq<nat>, n: nat, own: nat)
    ensures Increasing(Behind(own, at), own + n) <==> Increasing(at, n)
  {
    var all := Behind(own, at);
    if Increasing(all, own + n) {
      forall j | 0 <= j < |at| ensures at[j] < n {
        assert all[own + j] < own + n;
      }
      forall i, j | 0 <= i < j < |at| ensures at[i] < at[j] {
        assert all[own + i] < all[own + j];
      }
    }
  }

  lemma IncreasingShift(at: seq<nat>, n: nat, gone: nat)
    ensures Increasing(Shift(gone, at), gone + n) <==> Increasing(at, n)
  {
    var all := Shift(gone, at);
    if Increasing(all, gone + n) {
      forall i, j | 0 <= i < j < |at| ensures at[i] < at[j] {
        assert all[i] < all[j];
      }
      forall j | 0 <= j < |at| ensures at[j] < n {
        assert all[j] < gone + n;
      }
    }
  }

  lemma ShiftTwice(a: nat, b: nat, xs: seq<nat>)
    ensures Shift(a, Shift(b, xs)) == Shift(a + b, xs)
    ensures Shift(0, xs) == xs
  {
  }

  // ---- States ----

  lemma RunAfter(first: seq<Op>, ops: seq<Op>, n: nat, res: Option<Resources>, t: Tracker)
    requires n <= |ops|
    ensures Run((first + ops)[..|first| + n], res, t) == Run(ops[..n], res, Run(first, res, t))
  {
    assert (first + ops)[..|first| + n] == first + ops[..n];
    RunConcat(first, ops[..n], res, t);
  }

  /** The first operator of a kept segment tells whether the stretch before it restores. */
  lemma SameAtFirst(gone: seq<Op>, ops: seq<Op>, kept: seq<Op>, res: Option<Resources>, t: Tracker)
    requires ops != [] && kept != [] && ops[0] == kept[0]
    ensures SameAt(gone + ops, |gone|, kept, 0, res, t) <==> Run(gone, res, t) == t
  {
    assert (gone + ops)[..|gone|] == gone;
    assert kept[..0] == [];
  }

  lemma SameAtInside(own: seq<Op>, ops: seq<Op>, kept: seq<Op>, j: nat, res: Option<Resources>, t: Tracker)
    requires j < |own|
    ensures SameAt(own + ops, j, own + kept, j, res, t)
  {
    assert (own + kept)[..j] == own[..j] == (own + ops)[..j];
  }

  lemma SameAtBehind(own: seq<Op>, ops: seq<Op>, p: nat, kept: seq<Op>, k: nat, res: Option<Resources>, t: Tracker)
    requires p < |ops| && k < |kept|
    ensures SameAt(own + ops, |own| + p, own + kept, |own| + k, res, t) <==>
      SameAt(ops, p, kept, k, res, Run(own, res, t))
  {
    hide Run;
    RunAfter(own, ops, p, res, t);
    RunAfter(own, kept, k, res, t);
  }

  lemma SameAtAfterGone(gone: seq<Op>, ops: seq<Op>, p: nat, kept: seq<Op>, k: nat, res: Option<Resources>, t: Tracker)
    requires p < |ops| && k < |kept| && Run(gone, res, t) == t
    ensures SameAt(gone + ops, |gone| + p, kept, k, res, t) <==> SameAt(ops, p, kept, k, res, t)
  {
    hide Run;
    RunAfter(gone, ops, p, res, t);
  }

  /** Positions in a kept segment of `n` operators, then `at` behind it. */
  function Behind(n: nat, at: seq<nat>): (r: seq<nat>)
    ensures |r| == n + |at|
    ensures forall j :: 0 <= j < n ==> r[j] == j
    ensures forall j :: n <= j < n + |at| ==> r[j] == n + at[j - n]
  {
    seq(n, i => i) + Shift(n, at)
  }

  /** A stretch of dropped content in front of a stream that starts with a kept operator. */
  lemma SameStatesGone(gone: seq<Op>, ops: seq<Op>, kept: seq<Op>, at: seq<nat>, res: Option<Resources>, t: Tracker)
    requires ops != [] && kept != [] && ops[0] == kept[0] && at != [] && at[0] == 0
    ensures SameStates(gone + ops, kept, Shift(|gone|, at), res, t)
      <==> Run(gone, res, t) == t && SameStates(ops, kept, at, res, t)
  {
    hide SameAt, Run, Increasing;
    var all := Shift(|gone|, at);
    IncreasingShift(at, |ops|, |gone|);
    SameAtFirst(gone, ops, kept, res, t);
    assert all[0] == |gone|;
    if Run(gone, res, t) == t && |at| == |kept| && Increasing(at, |ops|) {
      forall j: nat | j < |at|
        ensures SameAt(gone + ops, all[j], kept, j, res, t) <==> SameAt(ops, at[j], kept, j, res, t)
      {
        BelowBound(at, |ops|, j);
        SameAtAfterGone(gone, ops, at[j], kept, j, res, t);
      }
    }
  }

  lemma BelowBound(at: seq<nat>, n: nat, j: nat)
    requires Increasing(at, n) && j < |at|
    ensures at[j] < n
  {
  }

  /** A kept segment in front of `ops`, of which `kept` is kept. */
  lemma SameStatesKept(own: seq<Op>, ops: seq<Op>, kept: seq<Op>, at: seq<nat>, res: Option<Resources>, t: Tracker)
    ensures SameStates(own + ops, own + kept, Behind(|own|, at), res, t) <==>
      SameStates(ops, kept, at, res, Run(own, res, t))
  {
    hide SameAt, Run, Increasing;
    var all := Behind(|own|, at);
    IncreasingBehind(at, |ops|, |own|);
    if |at| == |kept| && Increasing(at, |ops|) {
      forall j: nat | j < |at|
        ensures SameAt(own + ops, all[|own| + j], own + kept, |own| + j, res, t)
          <==> SameAt(ops, at[j], kept, j, res, Run(own, res, t))
      {
        BelowBound(at, |ops|, j);
        SameAtBehind(own, ops, at[j], kept, j, res, t);
      }
      forall j: nat | j < |own| ensures SameAt(own + ops, all[j], own + kept, j, res, t) {
        SameAtInside(own, ops, kept, j, res, t);
      }
      if forall j :: 0 <= j < |at| ==> SameAt(ops, at[j], kept, j, res, Run(own, res, t)) {
        forall j | |own| <= j < |all| ensures SameAt(own + ops, all[j], own + kept, j, res, t) {
          assert j == |own| + (j - |own|);
        }
      }
    }
  }

  // ---- The theorem ----

  lemma {:induction false} SameStatesIffRestores(segs: seq<Segment>, gone: seq<Op>, res: Option<Resources>, t: Tracker)
    requires forall k :: 0 <= k < |segs| ==> segs[k].ops != []
    ensures SameStates(gone + Flatten(segs), Summary(segs).kept, Shift(|gone|, KeptIndices(segs)), res, t)
      <==> Restores(segs, gone, res, t)
  {
    hide Run, SameAt;
    if segs != [] {
      var s, rest := segs[0], Flatten(segs[1..]);
      var tail, at := Summary(segs[1..]).kept, KeptIndices(segs[1..]);
      if s.verdict.Keep? {
        assert KeptIndices(segs) == Behind(|s.ops|, at);
        SameStatesGone(gone, s.ops + rest, s.ops + tail, Behind(|s.ops|, at), res, t);
        SameStatesKept(s.ops, rest, tail, at, res, t);
        SameStatesIffRestores(segs[1..], [], res, Run(s.ops, res, t));
        ShiftTwice(0, 0, at);
        assert [] + rest == rest;
      } else {
        SameStatesIffRestores(segs[1..], gone + s.ops, res, t);
        ShiftTwice(|gone|, |s.ops|, at);
        assert [] + Shift(|s.ops|, at) == Shift(|s.ops|, at);
        assert gone + (s.ops + rest) == gone + s.ops + rest;
      }
    }
  }

  /** Rewriting preserves meaning, that is, every kept operator runs under the same matrix,
      alpha and stack in the output as in the input, exactly when every stretch of dropped
      content in front of a kept operator restores the state it found. */
  lemma RewritePreservesMeaning(env: Env, res: Option<Resources>, plan: Plan, ops: seq<Op>, t: Tracker)
    ensures var segs := PlanSegments(env, res, plan, ops);
      SameStates(ops, Filtered(env, res, plan, ops).kept, KeptIndices(segs), res, t) <==> Restores(segs, [], res, t)
  {
    var segs := PlanSegments(env, res, plan, ops);
    SegmentsCoverStream(env, res, plan, ops, Start(IDENTITY, plan.hintAlpha));
    SameStatesIffRestores(segs, [], res, t);
    ShiftTwice(0, 0, KeptIndices(segs));
    assert [] + ops == ops;
  }

  ghost predicate DroppedSelfContained(segs: seq<Segment>) {
    forall k :: 0 <= k < |segs| && !segs[k].verdict.Keep? ==> SelfContained(segs[k].ops, 0)
  }

  lemma {:induction false} SelfContainedRestores(segs: seq<Segment>, gone: seq<Op>, res: Option<Resources>, t: Tracker)
    requires DroppedSelfContained(segs) && Run(gone, res, t) == t
    ensures Restores(segs, gone, res, t)
  {
    hide Run, SelfContained;
    if segs != [] {
      var s := segs[0];
      if s.verdict.Keep? {
        assert Run([], res, Run(s.ops, res, t)) == Run(s.ops, res, t) by { RunNothing(res, Run(s.ops, res, t)); }
        SelfContainedRestores(segs[1..], [], res, Run(s.ops, res, t));
      } else {
        RunConcat(gone, s.ops, res, t);
        SelfContainedIsNeutral(s.ops, res, t);
        SelfContainedRestores(segs[1..], gone + s.ops, res, t);
      }
    }
  }

  /** The conditions on the removed content, in the terms of ISO 32000-1. */
  ghost predicate RemovalsAreTidy(segs: seq<Segment>) {
    forall k :: 0 <= k < |segs| ==>
      && (segs[k].verdict.DropMarked? ==> Sheltered(segs[k].ops, 0))
      && (segs[k].verdict.DropUserText? || segs[k].verdict.DropDetectedText? ==> StateFree(segs[k].ops))
  }

  lemma TidySegmentIsSelfContained(env: Env, res: Option<Resources>, plan: Plan, ops: seq<Op>, t: Tracker,
                                   open: seq<Bracket>)
    requires ops != [] && Nest(ops, open) == Some([])
    requires RemovalsAreTidy([NextSegment(env, res, plan, ops, t)])
    requires !NextSegment(env, res, plan, ops, t).verdict.Keep?
    ensures SelfContained(NextSegment(env, res, plan, ops, t).ops, 0)
  {
    var s := NextSegment(env, res, plan, ops, t);
    assert [s][0] == s;
    DroppedIsBalanced(env, res, plan, ops, t, open);
    if !s.verdict.DropMarked? {
      if s.verdict.DropDraw? { assert s.ops == [ops[0]]; }
      StateFreeIsSelfContained(s.ops);
    }
  }

  lemma {:induction false} TidyRemovalsAreSelfContained(env: Env, res: Option<Resources>, plan: Plan, ops: seq<Op>,
                                                        t: Tracker, open: seq<Bracket>)
    requires Nest(ops, open) == Some([]) && RemovalsAreTidy(Segments(env, res, plan, ops, t))
    ensures DroppedSelfContained(Segments(env, res, plan, ops, t))
    decreases |ops|
  {
    hide NextSegment, Run, NestStep, SelfContained, Sheltered, After, StateFree, Nest;
    if ops != [] {
      var s := NextSegment(env, res, plan, ops, t);
      var rest := ops[|s.ops|..];
      var tail := Segments(env, res, plan, rest, After(s, res, t));
      var segs := [s] + tail;
      assert forall k :: 0 <= k < |tail| ==> tail[k] == segs[k + 1];
      assert segs[0] == s;
      assert ops == s.ops + rest;
      NestConcat(s.ops, rest, open);
      TidyRemovalsAreSelfContained(env, res, plan, rest, After(s, res, t), Nest(s.ops, open).value);
      if !s.verdict.Keep? {
        TidySegmentIsSelfContained(env, res, plan, ops, t, open);
      }
    }
  }

  /** On a properly nested stream it is enough that stripped marked content changes
      the state only inside `q .. Q` and that dropped text blocks do not change it. */
  lemma NestedRewritePreservesMeaning(env: Env, res: Option<Resources>, plan: Plan, ops: seq<Op>, t: Tracker)
    requires ProperlyNested(ops) && RemovalsAreTidy(PlanSegments(env, res, plan, ops))
    ensures SameStates(ops, Filtered(env, res, plan, ops).kept, KeptIndices(PlanSegments(env, res, plan, ops)), res, t)
  {
    TidyRemovalsAreSelfContained(env, res, plan, ops, Start(IDENTITY, plan.hintAlpha), []);
    RunNothing(res, t);
    SelfContainedRestores(PlanSegments(env, res, plan, ops), [], res, t);
    RewritePreservesMeaning(env, res, plan, ops, t);
  }

  // ---- The conditions on dropped text blocks cannot be left out ----

  /** A text block that shows "x" after a `gs`, in front of `rest`. */
  function Leaky(state: Name, rest: seq<Op>): seq<Op> {
    [BeginText, SetState(state), ShowText("x"), EndText] + rest
  }

  function WithAlpha(t: Tracker, alpha: real): Tracker {
    t.(cur := t.cur.(alpha := alpha))
  }

  lemma UserTextMatches(plan: Plan, tr: Trace)
    requires plan.userNeedle == "x" && tr.text == "x"
    ensures TextVerdict(plan, tr) == DropUserText
  {
    assert "x"[1..] == "" && "x" <= "x"[0..];
    assert Normalise("x") == "x" && Contains("x", "x");
  }

  /** Dropping the block does not drop the effect of its `gs` on the tracked state. */
  lemma LeakyBlockDropped(env: Env, res: Option<Resources>, plan: Plan, state: Name, rest: seq<Op>, t: Tracker)
    requires plan.userNeedle == "x"
    ensures var out, later := FromOutside(env, res, plan, Leaky(state, rest), t),
        FromOutside(env, res, plan, rest, WithAlpha(t, AlphaAfter(res, state, t.cur.alpha)));
      out == Outcome(later.kept, later.removed + 1, later.userHits + 1)
  {
    hide FromOutside, FromBlock, AlphaAfter, MatMul, TextVerdict;
    var ops, s1, s2 := Leaky(state, rest), SetState(state), ShowText("x");
    EnterBlock(env, res, plan, ops, t);
    assert ops[1..] == [s1, s2, EndText] + rest;
    var tr0 := TraceStart(t);
    StayInBlock(env, res, plan, [BeginText], ops[1..], tr0);
    var tr1 := TraceStep(env, res, tr0, s1);
    assert ops[1..][1..] == [s2, EndText] + rest;
    StayInBlock(env, res, plan, [BeginText] + [s1], ops[1..][1..], tr1);
    var tr2 := TraceStep(env, res, tr1, s2);
    assert ops[1..][1..][1..] == [EndText] + rest;
    LeaveBlock(env, res, plan, [BeginText] + [s1] + [s2], ops[1..][1..][1..], tr2);
    assert ops[1..][1..][1..][1..] == rest;
    assert tr2.text == "" + "x" == "x";
    UserTextMatches(plan, tr2);
  }

  /** With a `gs` in a dropped block a kept operator runs under another alpha than it did
      in the input: here a rule, half transparent before and opaque after. */
  lemma LeakyBlockChangesMeaning(env: Env, plan: Plan)
    requires plan.userNeedle == "x" && plan.hintAlpha == 1.0
    ensures var res := Some(Resources(map[], map["g" := ExtGState(Alpha(0.5), Absent)], [], 0));
      var ops, t := Leaky("g", [Other(0)]), Start(IDENTITY, 1.0);
      && Filtered(env, res, plan, ops).kept == [Other(0)] == ops[4..]
      && Run(ops[..4], res, t).cur.alpha == 0.5 && Run([], res, t).cur.alpha == 1.0
  {
    hide Filtered, FromOutside, Segments;
    var res := Some(Resources(map[], map["g" := ExtGState(Alpha(0.5), Absent)], [], 0));
    var ops, t := Leaky("g", [Other(0)]), Start(IDENTITY, 1.0);
    AtStart(env, res, plan, ops);
    assert ops[0..] == ops;
    LeakyBlockDropped(env, res, plan, "g", [Other(0)], t);
    var t' := WithAlpha(t, 0.5);
    StepOutside(env, res, plan, [Other(0)], t');
    assert [Other(0)][1..] == [];
    AtEnd(env, res, plan, [], 0, TraceStart(t'));
    var block := ops[..4];
    assert block == [BeginText, SetState("g"), ShowText("x"), EndText];
    RunSnoc(block, 3, res, t);
    RunSnoc(block, 2, res, t);
    RunSnoc(block, 1, res, t);
    RunSnoc(block, 0, res, t);
    assert block[..0] == [] && block[..4] == block;
  }
}
