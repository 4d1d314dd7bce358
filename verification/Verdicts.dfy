/** What the rewrite drops, said in terms of the operators themselves. */
module Verdicts {
  import opened Wrappers
  import opened Matrices
  import opened Content
  import opened GraphicsState
  import opened Filter
  import opened Scan
  import opened Agreement
  import opened FormGraph

  // ---- The traits of a text block ----

  /** All text shown by some operators, in order. */
  function Shown(ops: seq<Op>): string {
    if ops == [] then "" else Shown(ops[..|ops| - 1]) + ShownBy(ops[|ops| - 1])
  }

  function ShownBy(op: Op): string {
    if op.ShowText? then op.text else ""
  }

  /** The text matrix before operator `i` of a block: the last one set, if any. */
  function TextMatrixAt(ops: seq<Op>, i: nat): Matrix
    requires i <= |ops|
  {
    if i == 0 then IDENTITY
    else if ops[i - 1].TextMatrix? then ops[i - 1].m
    else TextMatrixAt(ops, i - 1)
  }

  /** Operator `i` shows text that lies diagonally on the page. */
  ghost predicate ShowsDiagonal(env: Env, res: Option<Resources>, ops: seq<Op>, t: Tracker, i: nat)
    requires i < |ops|
  {
    ops[i].ShowText? && env.diagonal(MatMul(TextMatrixAt(ops, i), Run(ops[..i], res, t).cur.ctm))
  }

  /** Operator `i` shows text under an alpha of at most `a`. */
  ghost predicate ShowsBelow(res: Option<Resources>, ops: seq<Op>, t: Tracker, a: real, i: nat)
    requires i < |ops|
  {
    ops[i].ShowText? && Run(ops[..i], res, t).cur.alpha <= a
  }

  ghost predicate TraceOf(env: Env, res: Option<Resources>, ops: seq<Op>, t: Tracker, tr: Trace) {
    && tr.t == Run(ops, res, t) && tr.tm == TextMatrixAt(ops, |ops|)
    && tr.text == Shown(ops)
    && (tr.diagonal <==> exists i :: 0 <= i < |ops| && ShowsDiagonal(env, res, ops, t, i))
    && LeastAlpha(res, ops, t, tr.alpha)
  }

  lemma {:induction false} TextMatrixBefore(ops: seq<Op>, last: Op, i: nat)
    requires i <= |ops|
    ensures TextMatrixAt(ops + [last], i) == TextMatrixAt(ops, i)
  {
    if i > 0 {
      TextMatrixBefore(ops, last, i - 1);
    }
  }

  /** Earlier operators show what they showed before one more follows. */
  lemma ShowsBefore(env: Env, res: Option<Resources>, ops: seq<Op>, last: Op, t: Tracker, i: nat, a: real)
    requires i < |ops|
    ensures (ops + [last])[..i] == ops[..i]
    ensures ShowsDiagonal(env, res, ops + [last], t, i) <==> ShowsDiagonal(env, res, ops, t, i)
    ensures ShowsBelow(res, ops + [last], t, a, i) <==> ShowsBelow(res, ops, t, a, i)
  {
    hide Run, MatMul;
    assert (ops + [last])[..i] == ops[..i];
    TextMatrixBefore(ops, last, i);
  }

  lemma ShowsLast(env: Env, res: Option<Resources>, ops: seq<Op>, last: Op, t: Tracker, a: real)
    ensures ShowsDiagonal(env, res, ops + [last], t, |ops|) <==>
      last.ShowText? && env.diagonal(MatMul(TextMatrixAt(ops, |ops|), Run(ops, res, t).cur.ctm))
    ensures ShowsBelow(res, ops + [last], t, a, |ops|) <==> last.ShowText? && Run(ops, res, t).cur.alpha <= a
  {
    hide Run, MatMul;
    assert (ops + [last])[..|ops|] == ops;
    TextMatrixBefore(ops, last, |ops|);
  }

  lemma DiagonalMore(env: Env, res: Option<Resources>, ops: seq<Op>, last: Op, t: Tracker)
    ensures (exists i :: 0 <= i < |ops| + 1 && ShowsDiagonal(env, res, ops + [last], t, i)) <==>
      || (exists i :: 0 <= i < |ops| && ShowsDiagonal(env, res, ops, t, i))
      || ShowsDiagonal(env, res, ops + [last], t, |ops|)
  {
    hide ShowsDiagonal;
    forall i: nat | i < |ops|
      ensures ShowsDiagonal(env, res, ops + [last], t, i) <==> ShowsDiagonal(env, res, ops, t, i)
    {
      ShowsBefore(env, res, ops, last, t, i, 0.0);
    }
  }

  lemma BelowMore(res: Option<Resources>, ops: seq<Op>, last: Op, t: Tracker, a: real)
    ensures (exists i :: 0 <= i < |ops| + 1 && ShowsBelow(res, ops + [last], t, a, i)) <==>
      || (exists i :: 0 <= i < |ops| && ShowsBelow(res, ops, t, a, i))
      || ShowsBelow(res, ops + [last], t, a, |ops|)
  {
    forall i: nat | i < |ops| ensures ShowsBelow(res, ops + [last], t, a, i) <==> ShowsBelow(res, ops, t, a, i) {
      assert (ops + [last])[..i] == ops[..i];
    }
  }

  /** Alpha at most that of the block's `BT` and of everything shown, and no less. */
  ghost predicate LeastAlpha(res: Option<Resources>, ops: seq<Op>, t: Tracker, a: real) {
    && a <= t.cur.alpha
    && (forall i :: 0 <= i < |ops| && ops[i].ShowText? ==> a <= Run(ops[..i], res, t).cur.alpha)
    && (a == t.cur.alpha || exists i :: 0 <= i < |ops| && ShowsBelow(res, ops, t, a, i))
  }

  lemma LeastMore(res: Option<Resources>, ops: seq<Op>, last: Op, t: Tracker, a: real)
    requires LeastAlpha(res, ops, t, a)
    ensures LeastAlpha(res, ops + [last], t, if last.ShowText? then Min(a, Run(ops, res, t).cur.alpha) else a)
  {
    var all, n := ops + [last], |ops|;
    var b := if last.ShowText? then Min(a, Run(ops, res, t).cur.alpha) else a;
    assert all[..n] == ops;
    forall i | 0 <= i < |all| && all[i].ShowText? ensures b <= Run(all[..i], res, t).cur.alpha {
      assert i < n ==> all[..i] == ops[..i] && all[i] == ops[i];
    }
    BelowMore(res, ops, last, t, b);
    if a != t.cur.alpha && b == a {
      var i :| 0 <= i < |ops| && ShowsBelow(res, ops, t, a, i);
      assert ShowsBelow(res, ops, t, b, i);
    } else if b != a {
      assert ShowsBelow(res, all, t, b, n);
    }
    hide Run;
  }

  lemma TraceOfMore(env: Env, res: Option<Resources>, ops: seq<Op>, last: Op, t: Tracker, tr: Trace)
    requires TraceOf(env, res, ops, t, tr)
    ensures TraceOf(env, res, ops + [last], t, TraceStep(env, res, tr, last))
  {
    var all, n := ops + [last], |ops|;
    assert all[..n] == ops && all[..|all| - 1] == ops && all[..|all|] == all;
    RunSnoc(all, n, res, t);
    TextMatrixBefore(ops, last, n);
    hide Run, MatMul, AlphaAfter, LeastAlpha;
    DiagonalMore(env, res, ops, last, t);
    ShowsLast(env, res, ops, last, t, tr.alpha);
    LeastMore(res, ops, last, t, tr.alpha);
    hide ShowsDiagonal, ShowsBelow;
  }

  /** A text block's accumulated traits: the text it shows, whether any of it lies
      diagonally, and the least alpha at its `BT` or under which it shows text. */
  lemma {:induction false} TraceMeaning(env: Env, res: Option<Resources>, ops: seq<Op>, t: Tracker)
    ensures TraceOf(env, res, ops, t, TraceRun(env, res, TraceStart(t), ops))
  {
    hide TraceOf, TraceStep;
    if ops == [] {
      NothingTraced(env, res, t);
    } else {
      var n := |ops| - 1;
      TraceMeaning(env, res, ops[..n], t);
      TraceRunSnoc(env, res, TraceStart(t), ops[..n], ops[n]);
      TraceOfMore(env, res, ops[..n], ops[n], t, TraceRun(env, res, TraceStart(t), ops[..n]));
      assert ops == ops[..n] + [ops[n]];
    }
  }

  lemma NothingTraced(env: Env, res: Option<Resources>, t: Tracker)
    ensures TraceOf(env, res, [], t, TraceRun(env, res, TraceStart(t), []))
  {
  }

  // ---- Which text blocks are dropped ----

  /** `part` occurs in `s`. */
  ghost predicate Occurs(part: string, s: string) {
    exists a, b :: s == a + part + b
  }

  lemma ContainsIffOccurs(s: string, part: string)
    ensures Contains(s, part) <==> Occurs(part, s)
  {
    if i :| 0 <= i <= |s| && part <= s[i..] {
      assert s == s[..i] + part + s[i + |part|..];
    }
    if a, b :| s == a + part + b {
      assert s[|a|..] == part + b;
      assert part <= s[|a|..];
    }
  }

  /** Some text of the block is shown with an alpha below 0.999, or its `BT` stands there. */
  ghost predicate IsTransparentBlock(res: Option<Resources>, body: seq<Op>, t: Tracker) {
    t.cur.alpha < 0.999
    || exists i :: 0 <= i < |body| && body[i].ShowText? && Run(body[..i], res, t).cur.alpha < 0.999
  }

  ghost predicate IsDiagonalBlock(env: Env, res: Option<Resources>, body: seq<Op>, t: Tracker) {
    exists i :: 0 <= i < |body| && ShowsDiagonal(env, res, body, t, i)
  }

  lemma LeastAlphaTransparent(res: Option<Resources>, body: seq<Op>, t: Tracker, a: real)
    requires LeastAlpha(res, body, t, a)
    ensures a < 0.999 <==> IsTransparentBlock(res, body, t)
  {
    hide Run;
    if a < 0.999 && a != t.cur.alpha {
      var i :| 0 <= i < |body| && ShowsBelow(res, body, t, a, i);
      assert Run(body[..i], res, t).cur.alpha < 0.999;
    }
  }

  ghost predicate MatchesUser(plan: Plan, body: seq<Op>) {
    plan.userNeedle != "" && Occurs(plan.userNeedle, Normalise(Shown(body)))
  }

  ghost predicate MatchesNeedle(env: Env, res: Option<Resources>, plan: Plan, body: seq<Op>, t: Tracker) {
    && Normalise(Shown(body)) in plan.detection.needles
    && (plan.hintDiagonal || plan.hintAlpha < 0.999
        || IsDiagonalBlock(env, res, body, t) || IsTransparentBlock(res, body, t))
  }

  lemma BlockVerdict(env: Env, res: Option<Resources>, plan: Plan, body: seq<Op>, t: Tracker)
    ensures TextVerdict(plan, TraceRun(env, res, TraceStart(t), body)) ==
      if MatchesUser(plan, body) then DropUserText
      else if MatchesNeedle(env, res, plan, body, t) then DropDetectedText
      else Keep
  {
    hide Run, TraceRun, Normalise, Contains, Occurs, LeastAlpha, IsTransparentBlock, Shown, ShowsDiagonal;
    TraceMeaning(env, res, body, t);
    var tr := TraceRun(env, res, TraceStart(t), body);
    LeastAlphaTransparent(res, body, t, tr.alpha);
    ContainsIffOccurs(Normalise(tr.text), plan.userNeedle);
  }

  /** A text block is dropped for the user's text exactly when it is closed and what it shows,
      without blanks and in lower case, contains that text; else as detected exactly when it
      is closed, shows a needle, and some trait, its own or the plan's, marks it; no other
      text block is dropped. */
  lemma TextBlockVerdict(env: Env, res: Option<Resources>, plan: Plan, ops: seq<Op>, t: Tracker, k: nat)
    requires var segs := Segments(env, res, plan, ops, t);
      k < |segs| && segs[k].ops != [] && segs[k].ops[0].BeginText?
    ensures var segs := Segments(env, res, plan, ops, t);
      var body, here := segs[k].ops[1..], Tracked(segs[..k], res, t);
      segs[k].verdict ==
        if EndText !in body then Keep
        else if MatchesUser(plan, body) then DropUserText
        else if MatchesNeedle(env, res, plan, body, here) then DropDetectedText
        else Keep
  {
    hide Run, TraceRun, TextVerdict, MatchesUser, MatchesNeedle, Segments, Tracked, Offset;
    var segs := Segments(env, res, plan, ops, t);
    TextSegmentAt(env, res, plan, ops, t, k);
    BlockVerdict(env, res, plan, segs[k].ops[1..], Tracked(segs[..k], res, t));
  }

  // ---- Which marked content is stripped ----

  ghost predicate Mentions(s: string) {
    Occurs("watermark", Lower(s))
  }

  /** The properties a marked-content operand stands for. */
  ghost predicate Refers(res: Option<Resources>, operand: PropertiesOperand, p: Properties) {
    || operand == Inline(p)
    || (operand.Named? && res.Some? && operand.name in res.value.properties && res.value.properties[operand.name] == p)
  }

  /** A group, or a member of a membership dictionary, that mentions a watermark. */
  ghost predicate LayerMentions(p: Properties) {
    if p.members.Some? then exists i :: 0 <= i < |p.members.value| && Mentions(p.members.value[i])
    else Mentions(p.name)
  }

  /** A watermark artifact always, and a watermark layer when layers are stripped. */
  ghost predicate IsStripped(res: Option<Resources>, stripLayers: bool, op: Op) {
    && op.BeginMarkedProps? && op.mark.Some?
    && exists p :: Refers(res, op.mark.value.operand, p) && IsMarked(op.mark.value.tag, stripLayers, p)
  }

  ghost predicate IsMarked(tag: string, stripLayers: bool, p: Properties) {
    || (tag == "/Artifact" && (p.subtype == "/Watermark" || Mentions(p.name)))
    || (stripLayers && tag == "/OC" && LayerMentions(p))
  }

  lemma LayerIff(p: Properties)
    ensures IsWatermarkLayer(Some(p)) <==> LayerMentions(p)
  {
    hide Contains, Occurs, Lower;
    if p.members.Some? {
      forall i | 0 <= i < |p.members.value|
        ensures NamesWatermark(p.members.value[i]) <==> Mentions(p.members.value[i])
      {
        ContainsIffOccurs(Lower(p.members.value[i]), "watermark");
      }
    } else {
      ContainsIffOccurs(Lower(p.name), "watermark");
    }
  }

  lemma StripsIff(res: Option<Resources>, plan: Plan, op: Op)
    ensures Strips(res, plan, op) <==> IsStripped(res, plan.stripLayers, op)
    ensures Strips(res, plan, op) ==> op.BeginMarkedProps?
  {
    hide Contains, Occurs, Lower, IsWatermarkLayer, IsWatermarkArtifact, LayerMentions, Mentions;
    MissingMarksNothing();
    if op.BeginMarkedProps? && op.mark.Some? {
      var props := ResolveProperties(res, op.mark.value.operand);
      assert forall p :: Refers(res, op.mark.value.operand, p) ==> props == Some(p);
      if props.Some? {
        LayerIff(props.value);
        ArtifactIff(props.value);
        assert props == Some(props.value) && Refers(res, op.mark.value.operand, props.value);
        assert IsStripped(res, plan.stripLayers, op) <==> IsMarked(op.mark.value.tag, plan.stripLayers, props.value);
      }
    }
  }

  lemma MissingMarksNothing()
    ensures !IsWatermarkLayer(None) && !IsWatermarkArtifact(None)
  {
  }

  lemma ArtifactIff(p: Properties)
    ensures IsWatermarkArtifact(Some(p)) <==> p.subtype == "/Watermark" || Mentions(p.name)
  {
    ContainsIffOccurs(Lower(p.name), "watermark");
  }

  /** Marked-content operators opened but not closed. */
  function MarkBalance(ops: seq<Op>): int {
    if ops == [] then 0
    else
      var op := ops[|ops| - 1];
      MarkBalance(ops[..|ops| - 1])
      + if op.BeginMarkedProps? || op.BeginMarked? then 1 else if op.EndMarked? then -1 else 0
  }

  lemma {:induction false} BalanceFirst(op: Op, ops: seq<Op>)
    ensures MarkBalance([op] + ops) == MarkBalance([op]) + MarkBalance(ops)
  {
    if ops == [] {
      assert [op] + [] == [op];
    } else {
      var n := |ops| - 1;
      assert ([op] + ops)[..n + 1] == [op] + ops[..n];
      BalanceFirst(op, ops[..n]);
    }
  }

  lemma BalanceOne(op: Op)
    ensures MarkBalance([op]) == if op.BeginMarkedProps? || op.BeginMarked? then 1 else if op.EndMarked? then -1 else 0
  {
    assert [op][..0] == [];
  }

  lemma {:induction false} SkipEndsAtMatch(ops: seq<Op>, depth: nat)
    requires depth > 0
    ensures var n := SkipLength(ops, depth);
      && (forall m :: 0 <= m < n ==> depth + MarkBalance(ops[..m]) > 0)
      && (depth + MarkBalance(ops[..n]) == 0 || (n == |ops| && depth + MarkBalance(ops) > 0))
    decreases |ops|
  {
    if ops != [] {
      var op, rest, d := ops[0], ops[1..], SkipDepth(ops[0], depth);
      var n := SkipLength(rest, d);
      BalanceOne(op);
      if d > 0 {
        SkipEndsAtMatch(rest, d);
      }
      forall m: nat | m <= |rest| ensures MarkBalance(ops[..m + 1]) == MarkBalance([op]) + MarkBalance(rest[..m]) {
        assert ops[..m + 1] == [op] + rest[..m];
        BalanceFirst(op, rest[..m]);
      }
      forall m | 0 <= m < n + 1 ensures depth + MarkBalance(ops[..m]) > 0 {
        if m > 0 {
          assert MarkBalance(ops[..m - 1 + 1]) == MarkBalance([op]) + MarkBalance(rest[..m - 1]);
        }
      }
      assert rest[..|rest|] == rest && ops[..|ops|] == ops;
    }
  }

  /** A segment is stripped exactly when it opens with the `BDC` of a watermark artifact or,
      when layers are stripped, layer; it ends with the `EMC` that closes it, or with the
      stream. */
  lemma StrippedSegment(env: Env, res: Option<Resources>, plan: Plan, ops: seq<Op>, t: Tracker, k: nat)
    requires k < |Segments(env, res, plan, ops, t)|
    ensures var s := Segments(env, res, plan, ops, t)[k];
      && s.ops != []
      && (s.verdict.DropMarked? <==> IsStripped(res, plan.stripLayers, s.ops[0]))
      && (s.verdict.DropMarked? ==> ClosesItself(s.ops) || (EndsStream(env, res, plan, ops, t, k) && StaysOpen(s.ops)))
  {
    hide Run, Segments, Tracked, Offset, Strips, IsStripped, TextVerdict, TraceRun, UntilEndText, DrawVerdict,
         ClosesItself,
         StaysOpen, SkipLength;
    var segs := Segments(env, res, plan, ops, t);
    SegmentAt(env, res, plan, ops, t, k);
    var rest := ops[Offset(segs, k)..];
    StripsIff(res, plan, rest[0]);
    if Strips(res, plan, rest[0]) {
      MarksOfSkip(rest);
    }
  }

  ghost predicate EndsStream(env: Env, res: Option<Resources>, plan: Plan, ops: seq<Op>, t: Tracker, k: nat)
    requires k < |Segments(env, res, plan, ops, t)|
  {
    var segs := Segments(env, res, plan, ops, t);
    Offset(segs, k) + |segs[k].ops| == |ops|
  }

  /** Only the last operator closes what the first opens. */
  ghost predicate ClosesItself(ops: seq<Op>) {
    ops != [] && MarkBalance(ops) == 0 && forall m :: 0 < m < |ops| ==> MarkBalance(ops[..m]) > 0
  }

  ghost predicate StaysOpen(ops: seq<Op>) {
    forall m :: 0 < m <= |ops| ==> MarkBalance(ops[..m]) > 0
  }

  lemma MarksOfSkip(ops: seq<Op>)
    requires ops != [] && ops[0].BeginMarkedProps?
    ensures var s := ops[..1 + SkipLength(ops[1..], 1)]; ClosesItself(s) || (s == ops && StaysOpen(s))
  {
    var rest := ops[1..];
    var n := SkipLength(rest, 1);
    var s := ops[..1 + n];
    SkipEndsAtMatch(rest, 1);
    BalanceOne(ops[0]);
    forall m: nat | m <= n ensures MarkBalance(s[..m + 1]) == 1 + MarkBalance(rest[..m]) {
      assert s[..m + 1] == [ops[0]] + rest[..m];
      BalanceFirst(ops[0], rest[..m]);
    }
    assert s[..n + 1] == s;
    forall m | 0 < m < |s| ensures MarkBalance(s[..m]) > 0 {
      assert MarkBalance(s[..m - 1 + 1]) == 1 + MarkBalance(rest[..m - 1]);
    }
    assert n == |rest| ==> s == ops && rest[..n] == rest;
  }

  // ---- What is counted ----

  ghost function Removals(segs: seq<Segment>): set<int> {
    set k | 0 <= k < |segs| && !segs[k].verdict.Keep?
  }

  ghost function UserHits(segs: seq<Segment>): set<int> {
    set k | 0 <= k < |segs| && segs[k].verdict.DropUserText?
  }

  lemma OneMoreDropped(segs: seq<Segment>, s: Segment)
    ensures |Removals(segs + [s])| == |Removals(segs)| + if s.verdict.Keep? then 0 else 1
    ensures |UserHits(segs + [s])| == |UserHits(segs)| + if s.verdict.DropUserText? then 1 else 0
  {
    var n: int := |segs|;
    assert Removals(segs + [s]) == Removals(segs) + if s.verdict.Keep? then {} else {n};
    assert UserHits(segs + [s]) == UserHits(segs) + if s.verdict.DropUserText? then {n} else {};
  }

  /** Removals and user hits are the numbers of segments dropped, and dropped for the user. */
  lemma {:induction false} CountsAreSegments(segs: seq<Segment>)
    ensures Summary(segs).removed == |Removals(segs)|
    ensures Summary(segs).userHits == |UserHits(segs)|
  {
    hide Removals, UserHits;
    if segs == [] {
      NoneDropped();
    } else {
      var n := |segs| - 1;
      CountsAreSegments(segs[..n]);
      SummaryLast(segs[..n], segs[n]);
      OneMoreDropped(segs[..n], segs[n]);
      assert segs == segs[..n] + [segs[n]];
    }
  }

  lemma NoneDropped()
    ensures Removals([]) == {} && UserHits([]) == {}
  {
  }

  lemma {:induction false} SummaryLast(segs: seq<Segment>, s: Segment)
    ensures var before, after := Summary(segs), Summary(segs + [s]);
      && after.removed == before.removed + (if s.verdict.Keep? then 0 else 1)
      && after.userHits == before.userHits + (if s.verdict.DropUserText? then 1 else 0)
  {
    var all := segs + [s];
    if segs == [] {
      assert all[1..] == [];
    } else {
      assert all[1..] == segs[1..] + [s];
      SummaryLast(segs[1..], s);
    }
  }

  // ---- Comparison form ----

  /** Text is compared character by character: blanks vanish, capitals become small. */
  lemma {:induction false} NormaliseConcat(a: string, b: string)
    ensures Normalise(a + b) == Normalise(a) + Normalise(b)
  {
    if a == "" {
      assert a + b == b;
    } else {
      assert (a + b)[1..] == a[1..] + b;
      NormaliseConcat(a[1..], b);
    }
  }

  lemma NormaliseChar(c: char)
    ensures c == ' ' || '\t' <= c <= '\r' ==> Normalise([c]) == ""
    ensures 'A' <= c <= 'Z' ==> Normalise([c]) == [(c as int - 'A' as int + 'a' as int) as char]
    ensures c != ' ' && !('\t' <= c <= '\r') && !('A' <= c <= 'Z') ==> Normalise([c]) == [c]
  {
    assert [c][1..] == "";
    assert Normalise("") == "";
  }

  // ---- Which draws are dropped ----

  lemma {:induction false} FoundIff(entries: seq<(Name, ObjectId)>, name: Name, id: ObjectId)
    requires DistinctNames(entries)
    ensures FindXObject(entries, name) == Some(id) <==> exists i :: 0 <= i < |entries| && entries[i] == (name, id)
  {
    if entries != [] {
      var rest := entries[1..];
      FoundIff(rest, name, id);
      assert forall i :: 0 <= i < |rest| ==> rest[i] == entries[i + 1];
      if i :| 0 <= i < |entries| && entries[i] == (name, id) {
        assert i > 0 ==> rest[i - 1] == entries[i];
      }
    }
  }

  ghost predicate OnWatermarkLayer(oc: Option<Properties>) {
    oc.Some? && LayerMentions(oc.value)
  }

  /** A named draw is dropped exactly when the name belongs to an object on a watermark layer,
      if layers are stripped, or to a condemned image. */
  lemma DrawDroppedIff(env: Env, res: Resources, plan: Plan, name: Name)
    requires DistinctNames(res.xobjects)
    ensures DrawVerdict(env, Some(res), plan, Draw(name)).DropDraw? <==>
      exists i :: 0 <= i < |res.xobjects| && res.xobjects[i].0 == name && IsCondemned(env, plan, res.xobjects[i].1)
  {
    hide IsWatermarkLayer, LayerMentions;
    MissingMarksNothing();
    forall id: ObjectId ensures FindXObject(res.xobjects, name) == Some(id) <==>
      exists i :: 0 <= i < |res.xobjects| && res.xobjects[i] == (name, id)
    {
      FoundIff(res.xobjects, name, id);
    }
    var found := XObjectNamed(env.objects, Some(res), name);
    if found.Some? {
      var oc := env.objects[found.value].oc;
      if oc.Some? { LayerIff(oc.value); }
    }
  }

  ghost predicate IsCondemned(env: Env, plan: Plan, id: ObjectId) {
    && id in env.objects
    && (|| (plan.stripLayers && OnWatermarkLayer(env.objects[id].oc))
        || (env.objects[id].Image? && env.objects[id].digest in plan.detection.images))
  }

  /** An inline image is dropped exactly when it is a condemned one; nothing else is. */
  lemma OtherOperatorsDropped(env: Env, res: Option<Resources>, plan: Plan, op: Op)
    requires !op.Draw?
    ensures DrawVerdict(env, res, plan, op).DropDraw? <==>
      exists d :: op == InlineImage(Some(d)) && d in plan.detection.images
  {
    if op.InlineImage? && op.digest.Some? {
      assert op == InlineImage(Some(op.digest.value));
    }
  }

  // ---- The size the scan reports ----

  /** The font size before operator `i` of a block, `font` before the block. */
  function FontAt(ops: seq<Op>, i: nat, font: real): real
    requires i <= |ops|
  {
    if i == 0 then font
    else if ops[i - 1].SelectFont? then ops[i - 1].size
    else FontAt(ops, i - 1, font)
  }

  /** The effective size of what operator `i` shows. */
  ghost function SizeAt(env: Env, res: Option<Resources>, ops: seq<Op>, t: Tracker, font: real, i: nat): real
    requires i < |ops|
  {
    FontAt(ops, i, font) * env.scale(MatMul(TextMatrixAt(ops, i), Run(ops[..i], res, t).cur.ctm))
  }

  ghost predicate ShowsAtLeast(env: Env, res: Option<Resources>, ops: seq<Op>, t: Tracker, font: real, a: real, i: nat)
    requires i < |ops|
  {
    ops[i].ShowText? && a <= SizeAt(env, res, ops, t, font, i)
  }

  ghost predicate ShowsAtMost(env: Env, res: Option<Resources>, ops: seq<Op>, t: Tracker, font: real, a: real, i: nat)
    requires i < |ops|
  {
    ops[i].ShowText? ==> SizeAt(env, res, ops, t, font, i) <= a
  }

  ghost predicate LargestSize(env: Env, res: Option<Resources>, ops: seq<Op>, t: Tracker, font: real, a: real) {
    && 0.0 <= a && (forall i :: 0 <= i < |ops| ==> ShowsAtMost(env, res, ops, t, font, a, i))
    && (a == 0.0 || exists i :: 0 <= i < |ops| && ShowsAtLeast(env, res, ops, t, font, a, i))
  }

  lemma {:induction false} FontBefore(ops: seq<Op>, last: Op, i: nat, font: real)
    requires i <= |ops|
    ensures FontAt(ops + [last], i, font) == FontAt(ops, i, font)
  {
    if i > 0 {
      FontBefore(ops, last, i - 1, font);
    }
  }

  lemma SizeBefore(env: Env, res: Option<Resources>, ops: seq<Op>, last: Op, t: Tracker, font: real, i: nat)
    requires i < |ops|
    ensures (ops + [last])[i] == ops[i]
    ensures SizeAt(env, res, ops + [last], t, font, i) == SizeAt(env, res, ops, t, font, i)
  {
    hide Run, MatMul;
    assert (ops + [last])[..i] == ops[..i];
    TextMatrixBefore(ops, last, i);
    FontBefore(ops, last, i, font);
  }

  lemma SizeLast(env: Env, res: Option<Resources>, ops: seq<Op>, last: Op, t: Tracker, font: real)
    ensures SizeAt(env, res, ops + [last], t, font, |ops|)
         == FontAt(ops, |ops|, font) * env.scale(MatMul(TextMatrixAt(ops, |ops|), Run(ops, res, t).cur.ctm))
  {
    hide Run, MatMul;
    assert (ops + [last])[..|ops|] == ops;
    TextMatrixBefore(ops, last, |ops|);
    FontBefore(ops, last, |ops|, font);
  }

  lemma LargestMore(env: Env, res: Option<Resources>, ops: seq<Op>, last: Op, t: Tracker, font: real, a: real)
    requires LargestSize(env, res, ops, t, font, a)
    ensures LargestSize(env, res, ops + [last], t, font,
      if last.ShowText? then Max(a, SizeAt(env, res, ops + [last], t, font, |ops|)) else a)
  {
    hide SizeAt;
    var all, n := ops + [last], |ops|;
    var b := if last.ShowText? then Max(a, SizeAt(env, res, all, t, font, n)) else a;
    forall i | 0 <= i < |all| ensures ShowsAtMost(env, res, all, t, font, b, i) {
      if i < n {
        SizeBefore(env, res, ops, last, t, font, i);
        assert ShowsAtMost(env, res, ops, t, font, a, i);
      }
    }
    if b != a {
      assert ShowsAtLeast(env, res, all, t, font, b, n);
    } else if a != 0.0 {
      var i :| 0 <= i < n && ShowsAtLeast(env, res, ops, t, font, a, i);
      SizeBefore(env, res, ops, last, t, font, i);
      assert ShowsAtLeast(env, res, all, t, font, b, i);
    }
  }

  /** Inside a text block the scan's size is the largest font size times scale of anything
      shown, the font being the one selected last, in the block or before it. */
  lemma {:induction false} ScanSizeMeaning(env: Env, res: Option<Resources>, s: ScanState, ops: seq<Op>)
    requires PlainBody(ops)
    ensures var start, end := ScanStep(env, res, s, BeginText), ScanRun(env, res, ScanStep(env, res, s, BeginText),
        ops);
      && end.inText && end.font == FontAt(ops, |ops|, s.font) && end.tm == TextMatrixAt(ops, |ops|)
      && end.t == Run(ops, res, s.t)
      && LargestSize(env, res, ops, s.t, s.font, end.size)
  {
    hide Run, MatMul, LargestSize, ScanStep;
    var start := ScanStep(env, res, s, BeginText);
    BlockStarts(env, res, s);
    if ops == [] {
      NothingSized(env, res, s.t, s.font);
    } else {
      var n := |ops| - 1;
      var before, last := ops[..n], ops[n];
      ScanSizeMeaning(env, res, s, before);
      assert ops == before + [last];
      ScanRunConcat(env, res, start, before, [last]);
      var mid := ScanRun(env, res, start, before);
      ScanRunOne(env, res, mid, last);
      ScanStepSize(env, res, mid, last);
      SizeLast(env, res, before, last, s.t, s.font);
      LargestMore(env, res, before, last, s.t, s.font, mid.size);
      TextMatrixBefore(before, last, n);
      FontBefore(before, last, n, s.font);
      var size := SizeAt(env, res, before + [last], s.t, s.font, n);
      assert ScanStep(env, res, mid, last).size == if last.ShowText? then Max(mid.size, size) else mid.size;
      hide SizeAt, Max;
    }
  }

  lemma ScanRunOne(env: Env, res: Option<Resources>, s: ScanState, op: Op)
    ensures ScanRun(env, res, s, [op]) == ScanStep(env, res, s, op)
  {
    hide ScanStep;
    assert [op][1..] == [];
    assert ScanRun(env, res, ScanStep(env, res, s, op), []) == ScanStep(env, res, s, op);
  }

  lemma BlockStarts(env: Env, res: Option<Resources>, s: ScanState)
    ensures var start := ScanStep(env, res, s, BeginText);
      start.inText && start.font == s.font && start.tm == IDENTITY && start.size == 0.0 && start.t == s.t
    ensures forall t :: Run([], res, t) == t
    ensures forall u :: ScanRun(env, res, u, []) == u
  {
  }

  lemma NothingSized(env: Env, res: Option<Resources>, t: Tracker, font: real)
    ensures LargestSize(env, res, [], t, font, 0.0)
  {
  }

  lemma ScanStepSize(env: Env, res: Option<Resources>, s: ScanState, op: Op)
    requires s.inText && !op.BeginText? && !op.EndText?
    ensures var next := ScanStep(env, res, s, op);
      && next.inText
      && next.tm == (if op.TextMatrix? then op.m else s.tm)
      && next.font == (if op.SelectFont? then op.size else s.font)
      && next.size == (if op.ShowText? then Max(s.size, s.font * env.scale(MatMul(s.tm, s.t.cur.ctm))) else s.size)
  {
    hide MatMul, AlphaAfter;
  }
}
