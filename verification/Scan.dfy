/** The analysis pass: an interpreter that walks page streams and the forms they
    draw, and reports the traits of every text block, image and form. */
module Scan {
  import opened Wrappers
  import opened Matrices
  import opened Content
  import opened GraphicsState
  import opened Filter
  import opened Sink

  /** Forms nested deeper than this are not entered. */
  const MAX_FORM_DEPTH := 6

  /** Decoded content streams of the forms; absent when a stream cannot be decoded. */
  type Streams = map<ObjectId, seq<Op>>

  /** A page's content: missing, undecodable, or a sequence of operators. */
  datatype Contents = NoContents | Unreadable | Decoded(ops: seq<Op>)

  datatype Page = Page(contents: Contents, resources: Option<Resources>, box: Box)

  datatype ScanState = ScanState(
    t: Tracker, tm: Matrix, font: real, inText: bool,
    text: string, diagonal: bool, alpha: real, size: real)

  function ScanStart(ctm: Matrix, alpha: real): ScanState {
    ScanState(Start(ctm, alpha), IDENTITY, 0.0, false, "", false, 1.0, 0.0)
  }

  function ScanStep(env: Env, res: Option<Resources>, s: ScanState, op: Op): ScanState {
    var t := Track(op, res, s.t);
    match op
    case BeginText => ScanState(t, IDENTITY, s.font, true, "", false, t.cur.alpha, 0.0)
    case TextMatrix(m) => s.(tm := m)
    case SelectFont(size) => s.(font := size)
    case ShowText(text) =>
      if !s.inText then s
      else
        var render := MatMul(s.tm, t.cur.ctm);
        s.(text := s.text + text,
           diagonal := s.diagonal || env.diagonal(render),
           alpha := Min(s.alpha, t.cur.alpha),
           size := Max(s.size, s.font * env.scale(render)))
    case EndText => s.(inText := false)
    case _ => s.(t := t)
  }

  function ScanRun(env: Env, res: Option<Resources>, s: ScanState, ops: seq<Op>): (r: ScanState)
    ensures r.t == Run(ops, res, s.t)
    decreases |ops|
  {
    if ops == [] then s else ScanRun(env, res, ScanStep(env, res, s, ops[0]), ops[1..])
  }

  /** Where in the document a stream is being scanned. */
  datatype Place = Place(page: nat, box: Box, depth: nat, path: set<ObjectId>)

  function FormResources(form: XObject, outer: Option<Resources>): Option<Resources>
    requires form.Form?
  {
    if form.resources.Some? then form.resources else outer
  }

  function FormStart(form: XObject, s: ScanState): ScanState
    requires form.Form?
  {
    var m := if form.matrix.Some? then form.matrix.value else IDENTITY;
    ScanStart(MatMul(m, s.t.cur.ctm), s.t.cur.alpha)
  }

  /** What one operator reports, given the state before it. */
  function Report(env: Env, streams: Streams, res: Option<Resources>, s: ScanState, op: Op, at: Place): seq<Observation>
    decreases if at.depth < MAX_FORM_DEPTH then MAX_FORM_DEPTH - at.depth else 0, 0
  {
    match op
    case EndText =>
      var norm := Normalise(s.text);
      if s.inText && norm != "" then [TextSeen(at.page, norm, s.diagonal, s.alpha, s.size)] else []
    case Draw(name) =>
      var id := XObjectNamed(env.objects, res, name);
      if id.None? then []
      else
        var x := env.objects[id.value];
        var g := s.t.cur;
        if x.Image? then [ImageSeen(at.page, x.digest, g.ctm, g.alpha, x.softMask, at.box)]
        else if x.Form? && at.depth < MAX_FORM_DEPTH && id.value !in at.path then
          [FormSeen(id.value, g.alpha, env.diagonal(g.ctm))] +
          if id.value !in streams then []
          else ScanAll(env, streams, FormResources(x, res), FormStart(x, s), streams[id.value],
                       at.(depth := at.depth + 1, path := at.path + {id.value}))
        else []
    case InlineImage(digest) =>
      if digest.Some? then [ImageSeen(at.page, digest.value, s.t.cur.ctm, s.t.cur.alpha, false, at.box)] else []
    case _ => []
  }

  /** Everything a stream reports. */
  function ScanAll(env: Env, streams: Streams, res: Option<Resources>, s: ScanState, ops: seq<Op>,
                   at: Place): seq<Observation>
    decreases if at.depth < MAX_FORM_DEPTH then MAX_FORM_DEPTH - at.depth else 0, 1, |ops|
  {
    if ops == [] then []
    else
      var head := Report(env, streams, res, s, ops[0], at);
      head + ScanAll(env, streams, res, ScanStep(env, res, s, ops[0]), ops[1..], at)
  }

  /** The walk as the source runs it, feeding the sink; forms recurse. */
  method ScanOperations(env: Env, streams: Streams, operations: seq<Op>, res: Option<Resources>,
                        sink: DetectionSink, ctm0: Matrix, alpha0: real, at: Place)
    requires sink.Valid()
    modifies sink
    ensures sink.Valid()
    ensures sink.history == old(sink.history)
      + ScanAll(env, streams, res, ScanStart(ctm0, alpha0), operations, at)
    decreases if at.depth < MAX_FORM_DEPTH then MAX_FORM_DEPTH - at.depth else 0, 1
  {
    hide Report, Track, ScanStep, ScanAll, XObjectNamed, Normalise, MatMul, AlphaAfter, FindXObject, Run,
         DetectionSink.Valid;
    var stack: seq<GState> := [];
    var ctm, alpha := ctm0, alpha0;
    var tm, fontSize, inText := IDENTITY, 0.0, false;
    var blockText, blockDiagonal, blockAlpha, blockSize := "", false, 1.0, 0.0;
    ghost var goal := old(sink.history) + ScanAll(env, streams, res, ScanStart(ctm0, alpha0), operations, at);
    assert operations[0..] == operations;

    for i := 0 to |operations|
      invariant sink.Valid()
      invariant goal == sink.history + ScanAll(env, streams, res,
        ScanState(Tracker(stack, GState(ctm, alpha)), tm, fontSize, inText, blockText, blockDiagonal, blockAlpha,
                  blockSize),
        operations[i..], at)
    {
      var op := operations[i];
      ghost var s := ScanState(Tracker(stack, GState(ctm, alpha)), tm, fontSize, inText, blockText, blockDiagonal,
                               blockAlpha, blockSize);
      ghost var before := sink.history;
      ScanAllStep(env, streams, res, s, operations[i..], at);
      assert operations[i..][0] == op && operations[i..][1..] == operations[i + 1..];
      ScanStepCases(env, res, s, op);
      if !op.Draw? { ReportCases(env, streams, res, s, op, at); }
      match op {
        case Save => stack := stack + [GState(ctm, alpha)];
        case Restore =>
          if stack != [] {
            var top := stack[|stack| - 1];
            stack, ctm, alpha := stack[..|stack| - 1], top.ctm, top.alpha;
          }
        case Concat(m) => ctm := MatMul(m, ctm);
        case SetState(name) => alpha := AlphaAfter(res, name, alpha);
        case BeginText =>
          inText, tm, blockText, blockDiagonal, blockAlpha, blockSize := true, IDENTITY, "", false, alpha, 0.0;
        case TextMatrix(m) => tm := m;
        case SelectFont(size) => fontSize := size;
        case ShowText(text) =>
          if inText {
            blockText := blockText + text;
            var render := MatMul(tm, ctm);
            blockDiagonal := blockDiagonal || env.diagonal(render);
            blockAlpha := Min(blockAlpha, alpha);
            blockSize := Max(blockSize, fontSize * env.scale(render));
          }
        case EndText =>
          if inText {
            inText := false;
            var norm := Normalise(blockText);
            if norm != "" {
              sink.Text(at.page, norm, blockDiagonal, blockAlpha, blockSize);
            }
          }
        case Draw(name) => ScanDraw(env, streams, name, res, sink, ctm, alpha, at, s);
        case InlineImage(digest) =>
          if digest.Some? {
            sink.Image(at.page, digest.value, ctm, alpha, false, at.box);
          }
        case _ =>
      }
      ghost var report := Report(env, streams, res, s, op, at);
      assert sink.history == before + report;
      ghost var s' := ScanState(Tracker(stack, GState(ctm, alpha)), tm, fontSize, inText, blockText, blockDiagonal,
                                blockAlpha, blockSize);
      assert s' == ScanStep(env, res, s, op);
      AppendAssociative(before, report, ScanAll(env, streams, res, s', operations[i + 1..], at));
    }
    ScanAllEnd(env, streams, res, operations[|operations|..], at);
  }

  /** The `Do` branch: observe an image, or observe a form and walk into it. */
  method ScanDraw(env: Env, streams: Streams, name: Name, res: Option<Resources>, sink: DetectionSink,
                  ctm: Matrix, alpha: real, at: Place, ghost s: ScanState)
    requires sink.Valid() && s.t.cur == GState(ctm, alpha)
    modifies sink
    ensures sink.Valid()
    ensures sink.history == old(sink.history) + Report(env, streams, res, s, Draw(name), at)
    decreases if at.depth < MAX_FORM_DEPTH then MAX_FORM_DEPTH - at.depth else 0, 0
  {
    hide Report, ScanAll, MatMul, XObjectNamed, DetectionSink.Valid;
    ReportDraw(env, streams, res, s, name, at);
    var id := XObjectNamed(env.objects, res, name);
    if id.None? {
      return;
    }
    var x := env.objects[id.value];
    if x.Image? {
      sink.Image(at.page, x.digest, ctm, alpha, x.softMask, at.box);
    } else if x.Form? && at.depth < MAX_FORM_DEPTH && id.value !in at.path {
      sink.Form(id.value, alpha, env.diagonal(ctm));
      if id.value in streams {
        var inner := MatMul(if x.matrix.Some? then x.matrix.value else IDENTITY, ctm);
        ScanOperations(env, streams, streams[id.value], FormResources(x, res), sink, inner, alpha,
                       at.(depth := at.depth + 1, path := at.path + {id.value}));
      }
    }
  }

  /** `Report` for the operators that do not draw an XObject. */
  lemma ReportCases(env: Env, streams: Streams, res: Option<Resources>, s: ScanState, op: Op, at: Place)
    requires !op.Draw?
    ensures Report(env, streams, res, s, op, at) ==
      if op.EndText? && s.inText && Normalise(s.text) != "" then
        [TextSeen(at.page, Normalise(s.text), s.diagonal, s.alpha, s.size)]
      else if op.InlineImage? && op.digest.Some? then
        [ImageSeen(at.page, op.digest.value, s.t.cur.ctm, s.t.cur.alpha, false, at.box)]
      else []
  {
  }

  /** `Report` for `Do`. */
  lemma ReportDraw(env: Env, streams: Streams, res: Option<Resources>, s: ScanState, name: Name, at: Place)
    ensures var r := Report(env, streams, res, s, Draw(name), at);
      var id := XObjectNamed(env.objects, res, name);
      if id.None? then r == []
      else
        var x, g := env.objects[id.value], s.t.cur;
        if x.Image? then r == [ImageSeen(at.page, x.digest, g.ctm, g.alpha, x.softMask, at.box)]
        else if x.Form? && at.depth < MAX_FORM_DEPTH && id.value !in at.path then
          var seen := [FormSeen(id.value, g.alpha, env.diagonal(g.ctm))];
          if id.value !in streams then r == seen
          else r == seen + ScanAll(env, streams, FormResources(x, res), FormStart(x, s), streams[id.value],
                                   at.(depth := at.depth + 1, path := at.path + {id.value}))
        else r == []
  {
  }

  /** `ScanStep` operator by operator, in the loop's own terms. */
  lemma ScanStepCases(env: Env, res: Option<Resources>, s: ScanState, op: Op)
    ensures ScanStep(env, res, s, op) ==
      var g := s.t.cur;
      if op.BeginText? then ScanState(s.t, IDENTITY, s.font, true, "", false, g.alpha, 0.0)
      else if op.TextMatrix? then s.(tm := op.m)
      else if op.SelectFont? then s.(font := op.size)
      else if op.ShowText? && s.inText then
        var render := MatMul(s.tm, g.ctm);
        s.(text := s.text + op.text, diagonal := s.diagonal || env.diagonal(render),
           alpha := Min(s.alpha, g.alpha), size := Max(s.size, s.font * env.scale(render)))
      else if op.EndText? then s.(inText := false)
      else if op.Save? then s.(t := Tracker(s.t.stack + [g], g))
      else if op.Restore? && s.t.stack != [] then
        s.(t := Tracker(s.t.stack[..|s.t.stack| - 1], s.t.stack[|s.t.stack| - 1]))
      else if op.Concat? then s.(t := Tracker(s.t.stack, GState(MatMul(op.m, g.ctm), g.alpha)))
      else if op.SetState? then s.(t := Tracker(s.t.stack, GState(g.ctm, AlphaAfter(res, op.state, g.alpha))))
      else s
  {
  }

  lemma AppendAssociative(a: seq<Observation>, b: seq<Observation>, c: seq<Observation>)
    ensures a + (b + c) == a + b + c
  {
  }

  lemma ScanAllStep(env: Env, streams: Streams, res: Option<Resources>, s: ScanState, ops: seq<Op>, at: Place)
    requires ops != []
    ensures ScanAll(env, streams, res, s, ops, at)
         == Report(env, streams, res, s, ops[0], at)
            + ScanAll(env, streams, res, ScanStep(env, res, s, ops[0]), ops[1..], at)
  {
  }

  lemma ScanAllEnd(env: Env, streams: Streams, res: Option<Resources>, ops: seq<Op>, at: Place)
    requires ops == []
    ensures forall s :: ScanAll(env, streams, res, s, ops, at) == []
  {
  }

  function PageReport(env: Env, streams: Streams, page: Page, index: nat): seq<Observation> {
    if !page.contents.Decoded? then []
    else
      var at := Place(index, page.box, 0, {});
      ScanAll(env, streams, page.resources, ScanStart(IDENTITY, 1.0), page.contents.ops, at)
  }

  function DocumentReport(env: Env, streams: Streams, pages: seq<Page>): seq<Observation> {
    if pages == [] then []
    else
      var last := |pages| - 1;
      DocumentReport(env, streams, pages[..last]) + PageReport(env, streams, pages[last], last)
  }

  /** Scan all pages, then decide. */
  method AnalyseDocument(env: Env, streams: Streams, pages: seq<Page>) returns (d: Detection)
    ensures IsDecision(env, streams, pages, d)
  {
    var sink := new DetectionSink(|pages|, env.diagonal);
    for i := 0 to |pages|
      invariant sink.Valid() && sink.history == DocumentReport(env, streams, pages[..i])
    {
      assert pages[..i + 1][..i] == pages[..i];
      if pages[i].contents.Decoded? {
        ScanOperations(env, streams, pages[i].contents.ops, pages[i].resources, sink, IDENTITY, 1.0,
                       Place(i, pages[i].box, 0, {}));
      }
    }
    assert pages[..|pages|] == pages;
    d := sink.Decide();
  }

  ghost predicate IsDecision(env: Env, streams: Streams, pages: seq<Page>, d: Detection) {
    var h := DocumentReport(env, streams, pages);
    var texts, images := TextsOf(h), ImagesOf(env.diagonal, h);
    && IsTop((set n | n in texts && TextRule(|pages|, texts[n])), map n | n in texts :: |texts[n].pages|, d.needles)
    && IsTop((set g | g in images && ImageRule(|pages|, images[g])), map g | g in images :: |images[g].pages|, d.images)
    && d.hints == HintsOf(h)
  }

  /** A decided needle was recorded somewhere in the document and passes the rule. */
  lemma NeedleWasRecorded(env: Env, streams: Streams, pages: seq<Page>, d: Detection, norm: string)
    requires IsDecision(env, streams, pages, d) && norm in d.needles
    ensures MIN_AUTO_TEXT <= |norm| <= MAX_AUTO_TEXT
    ensures exists o :: o in DocumentReport(env, streams, pages) && Recorded(o) && o.norm == norm
  {
    var h := DocumentReport(env, streams, pages);
    TextRecordMeaning(h, norm);
    SightingsSound(h, norm);
    var s := Sightings(h, norm);
    assert s[0] in s;
  }

  /** A form's stream starts in the drawer's state, its own points mapped by its matrix
      first, with its own resources when it has any. */
  lemma FormStartMeaning(form: XObject, s: ScanState, outer: Option<Resources>, x: real, y: real)
    requires form.Form?
    ensures var inner := FormStart(form, s);
      var p := if form.matrix.Some? then Apply(form.matrix.value, x, y) else (x, y);
      && inner.t.stack == [] && inner.t.cur.alpha == s.t.cur.alpha && !inner.inText
      && Apply(inner.t.cur.ctm, x, y) == Apply(s.t.cur.ctm, p.0, p.1)
    ensures form.resources.Some? ==> FormResources(form, outer) == form.resources
    ensures form.resources.None? ==> FormResources(form, outer) == outer
  {
    var m := if form.matrix.Some? then form.matrix.value else IDENTITY;
    MulActsInOrder(m, s.t.cur.ctm, x, y);
    hide MatMul;
  }

  /** A form is observed where it is drawn, at most six deep and never inside itself, and what
      its stream then reports follows; any other draw reports an image or nothing. */
  lemma DrawReports(env: Env, streams: Streams, res: Option<Resources>, s: ScanState, name: Name, at: Place)
    ensures var id := XObjectNamed(env.objects, res, name);
      var r := Report(env, streams, res, s, Draw(name), at);
      && (id.Some? && env.objects[id.value].Form? ==>
            (r != [] <==> at.depth <= 5 && id.value !in at.path)
            && (r != [] ==> r[0] == FormSeen(id.value, s.t.cur.alpha, env.diagonal(s.t.cur.ctm)))
            && (r != [] && id.value in streams ==>
                  r[1..] == FromForm(env, streams, res, s, id.value, at)))
      && (id.Some? && env.objects[id.value].Image? ==>
            r == [ImageSeen(at.page, env.objects[id.value].digest, s.t.cur.ctm, s.t.cur.alpha,
                            env.objects[id.value].softMask, at.box)])
      && (id.None? ==> r == [])
  {
    hide Report, ScanAll;
    ReportDraw(env, streams, res, s, name, at);
  }

  /** What a form's stream reports, one level deeper and with the form on the path. */
  ghost function FromForm(env: Env, streams: Streams, res: Option<Resources>, s: ScanState, id: ObjectId, at: Place)
    : seq<Observation>
    requires id in env.objects && env.objects[id].Form? && id in streams
  {
    var form, inside := env.objects[id], Place(at.page, at.box, at.depth + 1, at.path + {id});
    ScanAll(env, streams, FormResources(form, res), FormStart(form, s), streams[id], inside)
  }

  /** No full-page image is ever among the targets decided on. */
  lemma FullPageImagesAreSpared(env: Env, streams: Streams, pages: seq<Page>, d: Detection, digest: Digest)
    requires IsDecision(env, streams, pages, d)
    requires var h := DocumentReport(env, streams, pages);
      && (forall o :: o in h && o.ImageSeen? && o.digest == digest ==>
            !env.diagonal(o.ctm) && Abs(Det(o.ctm)) > 0.9 * PageArea(o.box))
      && AtMostTwice(Draws(h, digest))
    ensures digest !in d.images
  {
    hide ImageRule, TextRule, Det, Abs, PageArea, AtMostTwice;
    var h := DocumentReport(env, streams, pages);
    if digest in ImagesOf(env.diagonal, h) {
      FullPageImageSurvives(env.diagonal, |pages|, h, digest);
    }
  }

  /** At most eight strings and eight images are decided on; a candidate is left out only for
      eight others seen on at least as many pages. */
  lemma AtMostEight(env: Env, streams: Streams, pages: seq<Page>, d: Detection, norm: string)
    requires IsDecision(env, streams, pages, d)
    ensures |d.needles| <= 8 && |d.images| <= 8
    ensures var h := DocumentReport(env, streams, pages);
      norm in TextsOf(h) && TextRule(|pages|, TextsOf(h)[norm]) && norm !in d.needles ==>
        |d.needles| == 8 && forall n :: n in d.needles ==> |PagesOf(Sightings(h, norm))| <= |PagesOf(Sightings(h, n))|
  {
    hide TextRule, ImageRule, PagesOf, DocumentReport, TextsOf;
    var h := DocumentReport(env, streams, pages);
    var texts := TextsOf(h);
    var all := set n | n in texts && TextRule(|pages|, texts[n]);
    if norm in all && norm !in d.needles {
      TextRecordMeaning(h, norm);
      if |all| <= 8 {
        SubsetOfSameSize(d.needles, all);
      }
      forall n | n in d.needles ensures |PagesOf(Sightings(h, norm))| <= |PagesOf(Sightings(h, n))| {
        TextRecordMeaning(h, n);
        assert norm in all - d.needles;
      }
    }
  }

  lemma SubsetOfSameSize<T>(a: set<T>, b: set<T>)
    requires a <= b
    ensures |a| <= |b| && (|a| == |b| ==> a == b)
  {
    assert b == a + (b - a);
    assert |b| == |a| + |b - a|;
  }

  /** A readable inline image is observed where it stands, without a soft mask; operators other
      than a closing `ET`, a draw and such an image report nothing. */
  lemma InlineImagesAreSeen(env: Env, streams: Streams, res: Option<Resources>, s: ScanState, op: Op, at: Place)
    ensures forall d :: op == InlineImage(Some(d)) ==>
      Report(env, streams, res, s, op, at) == [ImageSeen(at.page, d, s.t.cur.ctm, s.t.cur.alpha, false, at.box)]
    ensures !op.Draw? && !op.EndText? && !(op.InlineImage? && op.digest.Some?) ==>
      Report(env, streams, res, s, op, at) == []
  {
    hide ScanAll;
    if !op.Draw? {
      ReportCases(env, streams, res, s, op, at);
    }
  }
}
