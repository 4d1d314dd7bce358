/** The part of the graphics state the watermark remover tracks: the current
    transformation matrix and the fill alpha, with the `q`/`Q` stack. */
module GraphicsState {
  import opened Wrappers
  import opened Matrices
  import opened Content

  datatype GState = GState(ctm: Matrix, alpha: real)

  datatype Tracker = Tracker(stack: seq<GState>, cur: GState)

  function Start(ctm: Matrix, alpha: real): Tracker {
    Tracker([], GState(ctm, alpha))
  }

  /** Effect of one operator; a `Q` with nothing to restore is ignored. */
  function Track(op: Op, res: Option<Resources>, t: Tracker): Tracker {
    match op
    case Save => Tracker(t.stack + [t.cur], t.cur)
    case Restore =>
      if t.stack == [] then t
      else Tracker(t.stack[..|t.stack| - 1], t.stack[|t.stack| - 1])
    case Concat(m) => t.(cur := t.cur.(ctm := MatMul(m, t.cur.ctm)))
    case SetState(name) => t.(cur := t.cur.(alpha := AlphaAfter(res, name, t.cur.alpha)))
    case _ => t
  }

  function Run(ops: seq<Op>, res: Option<Resources>, t: Tracker): Tracker {
    if ops == [] then t else Run(ops[1..], res, Track(ops[0], res, t))
  }

  lemma {:induction false} RunConcat(a: seq<Op>, b: seq<Op>, res: Option<Resources>, t: Tracker)
    ensures Run(a + b, res, t) == Run(b, res, Run(a, res, t))
  {
    if a == [] {
      assert a + b == b;
    } else {
      assert (a + b)[1..] == a[1..] + b;
      RunConcat(a[1..], b, res, Track(a[0], res, t));
    }
  }

  lemma RunNothing(res: Option<Resources>, t: Tracker)
    ensures Run([], res, t) == t
  {
  }

  lemma RunSnoc(ops: seq<Op>, n: nat, res: Option<Resources>, t: Tracker)
    requires n < |ops|
    ensures Run(ops[..n + 1], res, t) == Track(ops[n], res, Run(ops[..n], res, t))
  {
    assert ops[..n + 1] == ops[..n] + [ops[n]];
    RunConcat(ops[..n], [ops[n]], res, t);
    var u := Run(ops[..n], res, t);
    assert Run([ops[n]], res, u) == Run([], res, Track(ops[n], res, u));
  }

  // ---- Segments that leave the tracked state as they found it ----

  /** A segment entered with `depth` of its own saves outstanding closes them all,
      never restores past its start, and changes the state only inside a save. */
  predicate SelfContained(ops: seq<Op>, depth: nat) {
    if ops == [] then depth == 0
    else match ops[0]
      case Save => SelfContained(ops[1..], depth + 1)
      case Restore => depth > 0 && SelfContained(ops[1..], depth - 1)
      case Concat(_) => depth > 0 && SelfContained(ops[1..], depth)
      case SetState(_) => depth > 0 && SelfContained(ops[1..], depth)
      case _ => SelfContained(ops[1..], depth)
  }

  /** No `q`, `Q`, `cm` or `gs` at all: what ISO 32000-1, section 9.4.1 suggests of a
      text object (it does allow `gs` there). */
  predicate StateFree(ops: seq<Op>) {
    forall i :: 0 <= i < |ops| ==>
      !ops[i].Save? && !ops[i].Restore? && !ops[i].Concat? && !ops[i].SetState?
  }

  lemma {:induction false} StateFreeIsSelfContained(ops: seq<Op>)
    requires StateFree(ops)
    ensures SelfContained(ops, 0)
  {
    if ops != [] {
      assert !ops[0].Save? && !ops[0].Restore? && !ops[0].Concat? && !ops[0].SetState?;
      StateFreeIsSelfContained(ops[1..]);
    }
  }

  lemma SelfContainedIsNeutral(ops: seq<Op>, res: Option<Resources>, t: Tracker)
    requires SelfContained(ops, 0)
    ensures Run(ops, res, t) == t
  {
    SelfContainedReturns(ops, [], res, t, t);
  }

  /** Running a self-contained remainder unwinds the saves made since `base`. */
  lemma {:induction false} SelfContainedReturns(ops: seq<Op>, saved: seq<GState>, res: Option<Resources>,
                                                base: Tracker, t: Tracker)
    requires SelfContained(ops, |saved|)
    requires t.stack == base.stack + saved
    requires if saved == [] then t.cur == base.cur else saved[0] == base.cur
    ensures Run(ops, res, t) == base
  {
    if ops != [] {
      var t' := Track(ops[0], res, t);
      match ops[0]
      case Save =>
        assert t'.stack == base.stack + (saved + [t.cur]);
        SelfContainedReturns(ops[1..], saved + [t.cur], res, base, t');
      case Restore =>
        assert t'.stack == base.stack + saved[..|saved| - 1];
        SelfContainedReturns(ops[1..], saved[..|saved| - 1], res, base, t');
      case _ =>
        SelfContainedReturns(ops[1..], saved, res, base, t');
    }
  }

  // ---- The tracked matrix is the product of the cm operators still in force ----

  /** Nesting depth of `q`/`Q` before operator `n`, ignoring unmatched `Q`s. */
  function Depth(ops: seq<Op>, n: nat): nat
    requires n <= |ops|
  {
    if n == 0 then 0
    else
      var d := Depth(ops, n - 1);
      if ops[n - 1].Save? then d + 1
      else if ops[n - 1].Restore? && d > 0 then d - 1
      else d
  }

  /** `Q` at `k` restores what `q` at `j` saved. */
  ghost predicate Matches(ops: seq<Op>, j: nat, k: nat)
    requires j < k < |ops|
  {
    && ops[j].Save? && ops[k].Restore?
    && Depth(ops, k + 1) == Depth(ops, j)
    && forall m :: j < m <= k ==> Depth(ops, j) < Depth(ops, m)
  }

  /** The effect of operator `i` is not undone before operator `n`: the nesting
      never falls below the depth at which it ran. */
  ghost predicate Live(ops: seq<Op>, i: nat, n: nat)
    requires i <= n <= |ops|
  {
    forall m :: i <= m <= n ==> Depth(ops, i) <= Depth(ops, m)
  }

  /** Being undone is being enclosed by a matching `q`/`Q` pair. */
  lemma UndoneIffEnclosed(ops: seq<Op>, i: nat, n: nat)
    requires i < n <= |ops| && ops[i].Concat?
    ensures !Live(ops, i, n) <==> exists j: nat, k: nat :: j < i && i < k < n && Matches(ops, j, k)
  {
    if !Live(ops, i, n) {
      var k := FirstBelow(ops, i, n);
      var j := LastBelow(ops, i, Depth(ops, i));
      assert forall m :: j < m <= k ==> Depth(ops, j) < Depth(ops, m);
      assert Matches(ops, j, k);
    }
    if j: nat, k: nat :| j < i && i < k < n && Matches(ops, j, k) {
      assert Depth(ops, k + 1) < Depth(ops, i);
    }
  }

  /** The restore at which the depth first falls below that of `i`. */
  lemma FirstBelow(ops: seq<Op>, i: nat, n: nat) returns (k: nat)
    requires i < n <= |ops| && !Live(ops, i, n)
    ensures i <= k < n && ops[k].Restore? && Depth(ops, k + 1) == Depth(ops, i) - 1
    ensures forall m :: i <= m <= k ==> Depth(ops, i) <= Depth(ops, m)
  {
    k := i;
    while Depth(ops, i) <= Depth(ops, k + 1)
      invariant i <= k < n
      invariant forall m :: i <= m <= k ==> Depth(ops, i) <= Depth(ops, m)
      decreases n - k
    {
      k := k + 1;
    }
    DepthStep(ops, k);
  }

  lemma DepthStep(ops: seq<Op>, n: nat)
    requires n < |ops|
    ensures Depth(ops, n + 1) ==
      if ops[n].Save? then Depth(ops, n) + 1
      else if ops[n].Restore? && Depth(ops, n) > 0 then Depth(ops, n) - 1
      else Depth(ops, n)
  {
  }

  /** The save at which the depth last rose to `d` before `i`. */
  lemma LastBelow(ops: seq<Op>, i: nat, d: nat) returns (j: nat)
    requires i <= |ops| && 0 < d == Depth(ops, i)
    ensures j < i && ops[j].Save? && Depth(ops, j) == d - 1
    ensures forall m :: j < m <= i ==> d <= Depth(ops, m)
  {
    j := i - 1;
    while d <= Depth(ops, j)
      invariant 0 <= j < i
      invariant forall m :: j < m <= i ==> d <= Depth(ops, m)
      decreases j
    {
      j := j - 1;
    }
    DepthStep(ops, j);
  }

  /** Ordered product of the matrices of the live `cm` operators among the first
      `k`, the most recent one applied first, on top of `base`. */
  ghost function LiveProduct(ops: seq<Op>, n: nat, k: nat, base: Matrix): Matrix
    requires k <= n <= |ops|
  {
    if k == 0 then base
    else
      var rest := LiveProduct(ops, n, k - 1, base);
      if ops[k - 1].Concat? && Live(ops, k - 1, n) then MatMul(ops[k - 1].m, rest) else rest
  }

  /** As `LiveProduct`, restricted to operators that ran at depth at most `level`. */
  ghost function LevelProduct(ops: seq<Op>, n: nat, k: nat, level: nat, base: Matrix): Matrix
    requires k <= n <= |ops|
  {
    if k == 0 then base
    else
      var rest := LevelProduct(ops, n, k - 1, level, base);
      if ops[k - 1].Concat? && Live(ops, k - 1, n) && Depth(ops, k - 1) <= level
      then MatMul(ops[k - 1].m, rest) else rest
  }

  lemma {:induction false} LevelProductNext(ops: seq<Op>, n: nat, k: nat, level: nat, base: Matrix)
    requires k <= n < |ops| && level <= Depth(ops, n + 1)
    ensures LevelProduct(ops, n + 1, k, level, base) == LevelProduct(ops, n, k, level, base)
  {
    if k > 0 {
      LevelProductNext(ops, n, k - 1, level, base);
      if Depth(ops, k - 1) <= level {
        assert Live(ops, k - 1, n + 1) <==> Live(ops, k - 1, n);
      }
    }
  }

  lemma {:induction false} LevelProductAll(ops: seq<Op>, n: nat, k: nat, level: nat, base: Matrix)
    requires k <= n <= |ops| && Depth(ops, n) <= level
    ensures LevelProduct(ops, n, k, level, base) == LiveProduct(ops, n, k, base)
  {
    if k > 0 {
      LevelProductAll(ops, n, k - 1, level, base);
    }
  }

  /** Every saved matrix is the product of the operators live at its level. */
  lemma {:induction false} StackHoldsLevels(ops: seq<Op>, n: nat, res: Option<Resources>, start: Tracker)
    requires n <= |ops| && start.stack == []
    ensures var t := Run(ops[..n], res, start);
      && |t.stack| == Depth(ops, n)
      && t.cur.ctm == LevelProduct(ops, n, n, Depth(ops, n), start.cur.ctm)
      && forall l :: 0 <= l < Depth(ops, n) ==> t.stack[l].ctm == LevelProduct(ops, n, n, l, start.cur.ctm)
  {
    if n > 0 {
      var base := start.cur.ctm;
      StackHoldsLevels(ops, n - 1, res, start);
      RunSnoc(ops, n - 1, res, start);
      var d, d' := Depth(ops, n - 1), Depth(ops, n);
      var p: nat := n - 1;
      forall l: nat | l <= d'
        ensures LevelProduct(ops, n, p, l, base) == LevelProduct(ops, p, p, l, base)
      {
        LevelProductNext(ops, p, p, l, base);
      }
      LevelProductAll(ops, n - 1, n - 1, d, base);
      LevelProductAll(ops, n - 1, n - 1, if d <= d' then d' else d, base);
      if ops[n - 1].Concat? {
        assert Live(ops, n - 1, n);
      }
    }
  }

  /** At every point of a stream the tracked matrix is the ordered product of exactly
      the `cm` matrices not undone by a matching `Q`. */
  lemma TrackedMatrixIsLiveProduct(ops: seq<Op>, n: nat, res: Option<Resources>, start: Tracker)
    requires n <= |ops| && start.stack == []
    ensures Run(ops[..n], res, start).cur.ctm == LiveProduct(ops, n, n, start.cur.ctm)
  {
    StackHoldsLevels(ops, n, res, start);
    LevelProductAll(ops, n, n, Depth(ops, n), start.cur.ctm);
  }

  // ---- The tracked alpha is the last one set by a gs still in force ----

  /** A present fill entry decides, even when malformed; the stroke entry counts only
      without one; a state that sets neither changes nothing. */
  lemma AlphaEntryDecides(res: Resources, name: Name, current: real)
    ensures name !in res.states ==> AlphaAfter(Some(res), name, current) == current
    ensures name in res.states ==>
      var s, after := res.states[name], AlphaAfter(Some(res), name, current);
      && (forall v :: s.fill == Alpha(v) ==> after == v)
      && (s.fill.Malformed? ==> after == current)
      && (forall v :: s.fill.Absent? && s.stroke == Alpha(v) ==> after == v)
      && (s.fill.Absent? && !s.stroke.Alpha? ==> after == current)
    ensures AlphaAfter(None, name, current) == current
  {
  }

  /** The alpha left by the live `gs` operators among the first `k`, in order. */
  ghost function LiveAlpha(ops: seq<Op>, n: nat, k: nat, res: Option<Resources>, base: real): real
    requires k <= n <= |ops|
  {
    if k == 0 then base
    else
      var rest := LiveAlpha(ops, n, k - 1, res, base);
      if ops[k - 1].SetState? && Live(ops, k - 1, n) then AlphaAfter(res, ops[k - 1].state, rest) else rest
  }

  /** As `LiveAlpha`, restricted to operators that ran at depth at most `level`. */
  ghost function LevelAlpha(ops: seq<Op>, n: nat, k: nat, level: nat, res: Option<Resources>, base: real): real
    requires k <= n <= |ops|
  {
    if k == 0 then base
    else
      var rest := LevelAlpha(ops, n, k - 1, level, res, base);
      if ops[k - 1].SetState? && Live(ops, k - 1, n) && Depth(ops, k - 1) <= level
      then AlphaAfter(res, ops[k - 1].state, rest) else rest
  }

  lemma {:induction false} LevelAlphaNext(ops: seq<Op>, n: nat, k: nat, level: nat, res: Option<Resources>, base: real)
    requires k <= n < |ops| && level <= Depth(ops, n + 1)
    ensures LevelAlpha(ops, n + 1, k, level, res, base) == LevelAlpha(ops, n, k, level, res, base)
  {
    hide AlphaAfter;
    if k > 0 {
      LevelAlphaNext(ops, n, k - 1, level, res, base);
      if Depth(ops, k - 1) <= level {
        assert Live(ops, k - 1, n + 1) <==> Live(ops, k - 1, n);
      }
    }
  }

  lemma {:induction false} LevelAlphaAll(ops: seq<Op>, n: nat, k: nat, level: nat, res: Option<Resources>, base: real)
    requires k <= n <= |ops| && Depth(ops, n) <= level
    ensures LevelAlpha(ops, n, k, level, res, base) == LiveAlpha(ops, n, k, res, base)
  {
    hide AlphaAfter;
    if k > 0 {
      LevelAlphaAll(ops, n, k - 1, level, res, base);
    }
  }

  lemma {:induction false} StackHoldsAlphas(ops: seq<Op>, n: nat, res: Option<Resources>, start: Tracker)
    requires n <= |ops| && start.stack == []
    ensures var t := Run(ops[..n], res, start);
      && |t.stack| == Depth(ops, n)
      && t.cur.alpha == LevelAlpha(ops, n, n, Depth(ops, n), res, start.cur.alpha)
      && forall l :: 0 <= l < Depth(ops, n) ==> t.stack[l].alpha == LevelAlpha(ops, n, n, l, res, start.cur.alpha)
  {
    hide AlphaAfter;
    if n > 0 {
      var base := start.cur.alpha;
      StackHoldsAlphas(ops, n - 1, res, start);
      RunSnoc(ops, n - 1, res, start);
      var d, d' := Depth(ops, n - 1), Depth(ops, n);
      var p: nat := n - 1;
      forall l: nat | l <= d'
        ensures LevelAlpha(ops, n, p, l, res, base) == LevelAlpha(ops, p, p, l, res, base)
      {
        LevelAlphaNext(ops, p, p, l, res, base);
      }
      LevelAlphaAll(ops, n - 1, n - 1, d, res, base);
      LevelAlphaAll(ops, n - 1, n - 1, if d <= d' then d' else d, res, base);
      if ops[n - 1].SetState? {
        assert Live(ops, n - 1, n);
      }
    }
  }

  /** At every point of a stream the tracked alpha is what exactly the `gs` operators not
      undone by a matching `Q` leave, applied in order. */
  lemma TrackedAlphaIsLive(ops: seq<Op>, n: nat, res: Option<Resources>, start: Tracker)
    requires n <= |ops| && start.stack == []
    ensures Run(ops[..n], res, start).cur.alpha == LiveAlpha(ops, n, n, res, start.cur.alpha)
  {
    StackHoldsAlphas(ops, n, res, start);
    LevelAlphaAll(ops, n, n, Depth(ops, n), res, start.cur.alpha);
  }
}
