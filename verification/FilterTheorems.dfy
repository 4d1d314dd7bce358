/** What the rewrite pass guarantees about the stream it returns. */
module FilterTheorems {
  import opened Wrappers
  import opened Matrices
  import opened Content
  import opened GraphicsState
  import opened Filter

  function Flatten(segs: seq<Segment>): seq<Op> {
    if segs == [] then [] else segs[0].ops + Flatten(segs[1..])
  }

  lemma {:induction false} SegmentsCoverStream(env: Env, res: Option<Resources>, plan: Plan, ops: seq<Op>, t: Tracker)
    ensures var segs := Segments(env, res, plan, ops, t);
      && Flatten(segs) == ops
      && forall k :: 0 <= k < |segs| ==> segs[k].ops != []
    decreases |ops|
  {
    if ops != [] {
      var s := NextSegment(env, res, plan, ops, t);
      SegmentsCoverStream(env, res, plan, ops[|s.ops|..], After(s, res, t));
    }
  }

  // ---- The pass deletes `removed` disjoint contiguous segments ----

  /** Start and end of every dropped segment, for segments starting at `offset`. */
  function Cuts(segs: seq<Segment>, offset: nat): seq<(nat, nat)> {
    if segs == [] then []
    else
      var end := offset + |segs[0].ops|;
      (if segs[0].verdict.Keep? then [] else [(offset, end)]) + Cuts(segs[1..], end)
  }

  ghost predicate Disjoint(cuts: seq<(nat, nat)>, from: nat, to: nat) {
    && (forall k :: 0 <= k < |cuts| ==> from <= cuts[k].0 < cuts[k].1 <= to)
    && (forall k :: 0 < k < |cuts| ==> cuts[k - 1].1 <= cuts[k].0)
  }

  /** The operators from position `from` on, without those inside a cut. */
  function Without(ops: seq<Op>, cuts: seq<(nat, nat)>, from: nat): seq<Op>
    requires from <= |ops| && Disjoint(cuts, from, |ops|)
    decreases |cuts|
  {
    if cuts == [] then ops[from..]
    else
      assert Disjoint(cuts[1..], cuts[0].1, |ops|) by { CutsIncrease(cuts, from, |ops|); }
      ops[from..cuts[0].0] + Without(ops, cuts[1..], cuts[0].1)
  }

  lemma {:induction false} CutsIncrease(cuts: seq<(nat, nat)>, from: nat, to: nat)
    requires cuts != [] && Disjoint(cuts, from, to)
    ensures Disjoint(cuts[1..], cuts[0].1, to)
  {
    var rest := cuts[1..];
    if rest != [] {
      assert rest[0] == cuts[1] && cuts[0].1 <= cuts[1].0;
      assert forall k :: 0 < k < |rest| ==> rest[k - 1] == cuts[k] && rest[k] == cuts[k + 1];
      assert Disjoint(rest, from, to);
      CutsIncrease(rest, from, to);
      assert forall k :: 1 <= k < |rest| ==> rest[k] == rest[1..][k - 1];
    }
  }

  lemma {:induction false} CutsAreDisjoint(segs: seq<Segment>, offset: nat)
    requires forall k :: 0 <= k < |segs| ==> segs[k].ops != []
    ensures Disjoint(Cuts(segs, offset), offset, offset + |Flatten(segs)|)
    ensures |Cuts(segs, offset)| == Summary(segs).removed
  {
    if segs != [] {
      CutsAreDisjoint(segs[1..], offset + |segs[0].ops|);
    }
  }

  lemma {:induction false} CutsDescribe(ops: seq<Op>, segs: seq<Segment>, offset: nat)
    requires offset <= |ops| && ops[offset..] == Flatten(segs)
    requires forall k :: 0 <= k < |segs| ==> segs[k].ops != []
    ensures Disjoint(Cuts(segs, offset), offset, |ops|)
    ensures Without(ops, Cuts(segs, offset), offset) == Summary(segs).kept
  {
    hide Disjoint, Without;
    if segs == [] {
      NothingCut(ops, offset);
    } else {
      var s, end := segs[0], offset + |segs[0].ops|;
      SplitOff(ops, offset, s.ops, Flatten(segs[1..]));
      CutsDescribe(ops, segs[1..], end);
      var rest := Cuts(segs[1..], end);
      if s.verdict.Keep? {
        assert Cuts(segs, offset) == rest;
        WithoutFrom(ops, rest, offset, end);
      } else {
        assert Cuts(segs, offset) == [(offset, end)] + rest;
        WithoutCut(ops, rest, offset, end);
      }
    }
  }

  lemma NothingCut(ops: seq<Op>, from: nat)
    requires from <= |ops|
    ensures Disjoint([], from, |ops|) && Without(ops, [], from) == ops[from..]
  {
  }

  lemma WithoutCut(ops: seq<Op>, rest: seq<(nat, nat)>, from: nat, to: nat)
    requires from < to <= |ops| && Disjoint(rest, to, |ops|)
    ensures Disjoint([(from, to)] + rest, from, |ops|)
    ensures Without(ops, [(from, to)] + rest, from) == Without(ops, rest, to)
  {
    assert ([(from, to)] + rest)[1..] == rest;
    assert ops[from..from] == [];
  }

  lemma SplitOff(ops: seq<Op>, offset: nat, first: seq<Op>, rest: seq<Op>)
    requires offset <= |ops| && ops[offset..] == first + rest
    ensures offset + |first| <= |ops|
    ensures ops[offset..offset + |first|] == first && ops[offset + |first|..] == rest
  {
    var n := |first|;
    assert ops[offset..][..n] == first && ops[offset..][n..] == rest;
  }

  /** A stretch before the first cut is kept whole. */
  lemma WithoutFrom(ops: seq<Op>, cuts: seq<(nat, nat)>, from: nat, to: nat)
    requires from <= to <= |ops| && Disjoint(cuts, to, |ops|)
    ensures Disjoint(cuts, from, |ops|) && Without(ops, cuts, from) == ops[from..to] + Without(ops, cuts, to)
  {
    hide Without, Disjoint;
    DisjointEarlier(cuts, from, to, |ops|);
    WithoutStep(ops, cuts, from);
    WithoutStep(ops, cuts, to);
    if cuts == [] {
      assert ops[from..] == ops[from..to] + ops[to..];
    } else {
      assert ops[from..cuts[0].0] == ops[from..to] + ops[to..cuts[0].0];
    }
  }

  lemma DisjointEarlier(cuts: seq<(nat, nat)>, from: nat, to: nat, end: nat)
    requires from <= to && Disjoint(cuts, to, end)
    ensures Disjoint(cuts, from, end)
  {
  }

  lemma WithoutStep(ops: seq<Op>, cuts: seq<(nat, nat)>, from: nat)
    requires from <= |ops| && Disjoint(cuts, from, |ops|)
    ensures cuts == [] ==> Without(ops, cuts, from) == ops[from..]
    ensures cuts != [] ==> Disjoint(cuts[1..], cuts[0].1, |ops|)
    ensures cuts != [] ==> from <= cuts[0].0 < cuts[0].1 <= |ops|
    ensures cuts != [] ==> Without(ops, cuts, from) == ops[from..cuts[0].0] + Without(ops, cuts[1..], cuts[0].1)
  {
    if cuts != [] {
      CutsIncrease(cuts, from, |ops|);
    }
  }

  /** The output is the input without exactly `removed` disjoint non-empty cuts. */
  lemma FilterDeletesSegments(env: Env, res: Option<Resources>, plan: Plan, ops: seq<Op>)
    ensures var out := Filtered(env, res, plan, ops);
            var cuts := Cuts(PlanSegments(env, res, plan, ops), 0);
      && Disjoint(cuts, 0, |ops|)
      && |cuts| == out.removed
      && Without(ops, cuts, 0) == out.kept
  {
    SegmentsCoverStream(env, res, plan, ops, Start(IDENTITY, plan.hintAlpha));
    assert ops[0..] == ops;
    CutsDescribe(ops, PlanSegments(env, res, plan, ops), 0);
    CutsAreDisjoint(PlanSegments(env, res, plan, ops), 0);
  }

  lemma {:induction false} WithoutShortens(ops: seq<Op>, cuts: seq<(nat, nat)>, from: nat)
    requires from <= |ops| && Disjoint(cuts, from, |ops|)
    ensures |Without(ops, cuts, from)| + |cuts| <= |ops| - from
    decreases |cuts|
  {
    if cuts != [] {
      CutsIncrease(cuts, from, |ops|);
      WithoutShortens(ops, cuts[1..], cuts[0].1);
    }
  }

  /** A stream is written back exactly when something was removed from it, and the
      removals counted for the user's own text are among those counted. */
  lemma RemovedZeroIffUnchanged(env: Env, res: Option<Resources>, plan: Plan, ops: seq<Op>)
    ensures var out := Filtered(env, res, plan, ops);
      && (out.removed == 0 <==> out.kept == ops)
      && out.userHits <= out.removed
      && |out.kept| + out.removed <= |ops|
  {
    FilterDeletesSegments(env, res, plan, ops);
    var segs := PlanSegments(env, res, plan, ops);
    WithoutShortens(ops, Cuts(segs, 0), 0);
    HitsAreRemovals(segs);
  }

  lemma {:induction false} HitsAreRemovals(segs: seq<Segment>)
    ensures Summary(segs).userHits <= Summary(segs).removed
  {
    if segs != [] {
      HitsAreRemovals(segs[1..]);
    }
  }

  // ---- Proper nesting is preserved ----

  datatype Bracket = SaveBracket | TextBracket | MarkBracket

  /** One operator against the stack of open brackets; text objects do not nest. */
  function NestStep(op: Op, open: seq<Bracket>): Option<seq<Bracket>> {
    match op
    case Save => Some(open + [SaveBracket])
    case BeginText => if TextBracket in open then None else Some(open + [TextBracket])
    case BeginMarkedProps(_) => Some(open + [MarkBracket])
    case BeginMarked => Some(open + [MarkBracket])
    case Restore => Close(SaveBracket, open)
    case EndText => Close(TextBracket, open)
    case EndMarked => Close(MarkBracket, open)
    case _ => Some(open)
  }

  function Close(kind: Bracket, open: seq<Bracket>): Option<seq<Bracket>> {
    if open != [] && open[|open| - 1] == kind then Some(open[..|open| - 1]) else None
  }

  function Nest(ops: seq<Op>, open: seq<Bracket>): Option<seq<Bracket>> {
    if ops == [] then Some(open)
    else match NestStep(ops[0], open)
      case Some(next) => Nest(ops[1..], next)
      case None => None
  }

  /** q/Q, BT/ET and BDC-or-BMC/EMC are matched and properly nested. */
  predicate ProperlyNested(ops: seq<Op>) {
    Nest(ops, []) == Some([])
  }

  lemma {:induction false} NestConcat(a: seq<Op>, b: seq<Op>, open: seq<Bracket>)
    ensures Nest(a + b, open) == match Nest(a, open) case Some(mid) => Nest(b, mid) case None => None
  {
    if a == [] {
      assert a + b == b;
    } else {
      assert (a + b)[1..] == a[1..] + b;
      match NestStep(a[0], open) {
        case Some(next) => NestConcat(a[1..], b, next);
        case None =>
      }
    }
  }

  function Count(b: Bracket, open: seq<Bracket>): nat {
    if open == [] then 0
    else Count(b, open[..|open| - 1]) + if open[|open| - 1] == b then 1 else 0
  }

  lemma {:induction false} CountFirst(b: Bracket, open: seq<Bracket>)
    requires open != [] && open[0] == b
    ensures Count(b, open) > 0
  {
    if |open| > 1 {
      CountFirst(b, open[..|open| - 1]);
    }
  }

  lemma CountPush(b: Bracket, open: seq<Bracket>, top: Bracket)
    ensures Count(b, open + [top]) == Count(b, open) + if top == b then 1 else 0
  {
    assert (open + [top])[..|open|] == open;
  }

  /** Skipping to the matching `EMC` of a properly nested stream closes every bracket
      opened on the way; if the skipped content changes the state only between its
      own saves and restores, it is self-contained. */
  lemma {:induction false} SkippedIsBalanced(ops: seq<Op>, depth: nat, base: seq<Bracket>, mine: seq<Bracket>)
    requires mine != [] && mine[0] == MarkBracket && Count(MarkBracket, mine) == depth
    requires Nest(ops, base + mine) == Some([])
    ensures var skipped := ops[..SkipLength(ops, depth)];
      && Nest(skipped, base + mine) == Some(base)
      && (Sheltered(skipped, Count(SaveBracket, mine)) ==> SelfContained(skipped, Count(SaveBracket, mine)))
    decreases |ops|
  {
    CountFirst(MarkBracket, mine);
    var op, open := ops[0], base + mine;
    var depth' := SkipDepth(op, depth);
    var skipped := ops[..SkipLength(ops, depth)];
    var rest := ops[1..][..SkipLength(ops[1..], depth')];
    assert skipped == [op] + rest;
    assert skipped[1..] == rest;
    var next := NestStep(op, open).value;
    if op.Save? || op.BeginText? || op.BeginMarked? || op.BeginMarkedProps? {
      var top := if op.Save? then SaveBracket else if op.BeginText? then TextBracket else MarkBracket;
      assert next == base + (mine + [top]);
      CountPush(MarkBracket, mine, top);
      CountPush(SaveBracket, mine, top);
      SkippedIsBalanced(ops[1..], depth', base, mine + [top]);
    } else if op.Restore? || op.EndText? || op.EndMarked? {
      var mine' := mine[..|mine| - 1];
      assert next == base + mine';
      if mine' == [] {
        assert base + mine' == base;
      } else {
        if depth' == 0 { CountFirst(MarkBracket, mine'); }
        SkippedIsBalanced(ops[1..], depth', base, mine');
      }
    } else {
      SkippedIsBalanced(ops[1..], depth, base, mine);
    }
  }

  /** The state changes only inside `q .. Q`. */
  predicate Sheltered(ops: seq<Op>, depth: nat) {
    if ops == [] then true
    else match ops[0]
      case Save => Sheltered(ops[1..], depth + 1)
      case Restore => Sheltered(ops[1..], if depth > 0 then depth - 1 else 0)
      case Concat(_) => depth > 0 && Sheltered(ops[1..], depth)
      case SetState(_) => depth > 0 && Sheltered(ops[1..], depth)
      case _ => Sheltered(ops[1..], depth)
  }

  /** The first `ET` of a properly nested stream closes everything since its `BT`. */
  lemma {:induction false} TextBlockIsBalanced(ops: seq<Op>, base: seq<Bracket>, mine: seq<Bracket>)
    requires mine != [] && mine[0] == TextBracket && Count(TextBracket, mine) == 1 && TextBracket !in base
    requires Nest(ops, base + mine) == Some([])
    ensures EndText in ops && Nest(ops[..UntilEndText(ops)], base + mine) == Some(base)
    decreases |ops|
  {
    var op, open := ops[0], base + mine;
    var body := ops[..UntilEndText(ops)];
    assert body[0] == op;
    var next := NestStep(op, open).value;
    if op.EndText? {
      assert next == base + mine[..|mine| - 1];
      if |mine| > 1 {
        CountFirst(TextBracket, mine[..|mine| - 1]);
      } else {
        assert next == base;
        assert body[1..] == [];
      }
    } else {
      assert body[1..] == ops[1..][..UntilEndText(ops[1..])];
      assert TextBracket in open by { assert open[|base|] == TextBracket; }
      if op.Save? || op.BeginMarked? || op.BeginMarkedProps? {
        var top := if op.Save? then SaveBracket else MarkBracket;
        assert next == base + (mine + [top]);
        CountPush(TextBracket, mine, top);
        TextBlockIsBalanced(ops[1..], base, mine + [top]);
      } else if op.Restore? || op.EndMarked? {
        assert next == base + mine[..|mine| - 1];
        TextBlockIsBalanced(ops[1..], base, mine[..|mine| - 1]);
      } else {
        TextBlockIsBalanced(ops[1..], base, mine);
      }
    }
  }

  /** Every dropped segment of a properly nested stream is balanced by itself. */
  lemma DroppedIsBalanced(env: Env, res: Option<Resources>, plan: Plan, ops: seq<Op>, t: Tracker, open: seq<Bracket>)
    requires ops != [] && Nest(ops, open) == Some([])
    requires !NextSegment(env, res, plan, ops, t).verdict.Keep?
    ensures var s := NextSegment(env, res, plan, ops, t);
      && Nest(s.ops, open) == Some(open)
      && (s.verdict.DropMarked? && Sheltered(s.ops, 0) ==> SelfContained(s.ops, 0))
  {
    hide SkipLength, UntilEndText, Strips, TextVerdict, SelfContained, Sheltered, Nest, TextSegment;
    var s := NextSegment(env, res, plan, ops, t);
    if Strips(res, plan, ops[0]) {
      SkipFromMark(res, plan, ops, open);
    } else if ops[0].BeginText? {
      BlockFromBegin(ops, open);
      assert s.ops == [ops[0]] + ops[1..][..UntilEndText(ops[1..])];
    } else {
      assert s.ops == [ops[0]];
      DrawIsBalanced(ops[0], open);
    }
  }

  lemma DrawIsBalanced(op: Op, open: seq<Bracket>)
    requires op.Draw? || op.InlineImage?
    ensures Nest([op], open) == Some(open)
  {
    assert [op][1..] == [];
    assert Nest([op], open) == Nest([op][1..], open);
  }

  lemma SkipFromMark(res: Option<Resources>, plan: Plan, ops: seq<Op>, open: seq<Bracket>)
    requires ops != [] && Strips(res, plan, ops[0]) && Nest(ops, open) == Some([])
    ensures var gone := ops[..1 + SkipLength(ops[1..], 1)];
      Nest(gone, open) == Some(open) && (Sheltered(gone, 0) ==> SelfContained(gone, 0))
  {
    hide SkipLength;
    var n := SkipLength(ops[1..], 1);
    var gone := ops[..1 + n];
    assert gone[0] == ops[0] && gone[1..] == ops[1..][..n];
    CountPush(MarkBracket, [], MarkBracket);
    CountPush(SaveBracket, [], MarkBracket);
    assert [] + [MarkBracket] == [MarkBracket];
    SkippedIsBalanced(ops[1..], 1, open, [MarkBracket]);
  }

  lemma BlockFromBegin(ops: seq<Op>, open: seq<Bracket>)
    requires ops != [] && ops[0].BeginText? && Nest(ops, open) == Some([])
    ensures Nest([ops[0]] + ops[1..][..UntilEndText(ops[1..])], open) == Some(open)
  {
    hide UntilEndText;
    var block := [ops[0]] + ops[1..][..UntilEndText(ops[1..])];
    assert block[1..] == ops[1..][..UntilEndText(ops[1..])];
    CountPush(TextBracket, [], TextBracket);
    assert [] + [TextBracket] == [TextBracket];
    TextBlockIsBalanced(ops[1..], open, [TextBracket]);
  }

  lemma {:induction false} NestingOfKept(env: Env, res: Option<Resources>, plan: Plan, ops: seq<Op>, t: Tracker,
                                         open: seq<Bracket>)
    requires Nest(ops, open) == Some([])
    ensures Nest(Summary(Segments(env, res, plan, ops, t)).kept, open) == Some([])
    decreases |ops|
  {
    hide NextSegment, NestStep, After, Run, SelfContained, Sheltered;
    if ops != [] {
      var s := NextSegment(env, res, plan, ops, t);
      var rest := ops[|s.ops|..];
      var segs := Segments(env, res, plan, rest, After(s, res, t));
      assert ops == s.ops + rest;
      NestConcat(s.ops, rest, open);
      SummaryFirst(s, segs);
      if s.verdict.Keep? {
        var mid := Nest(s.ops, open).value;
        NestingOfKept(env, res, plan, rest, After(s, res, t), mid);
        NestConcat(s.ops, Summary(segs).kept, open);
      } else {
        DroppedIsBalanced(env, res, plan, ops, t, open);
        NestingOfKept(env, res, plan, rest, After(s, res, t), open);
      }
    }
  }

  /** A properly nested stream stays properly nested. */
  lemma FilterPreservesNesting(env: Env, res: Option<Resources>, plan: Plan, ops: seq<Op>)
    requires ProperlyNested(ops)
    ensures ProperlyNested(Filtered(env, res, plan, ops).kept)
  {
    NestingOfKept(env, res, plan, ops, Start(IDENTITY, plan.hintAlpha), []);
  }
}
