/** Trait observations and the decisions drawn from them. */
module Sink {
  import opened Matrices
  import opened Content
  import opened Filter

  const MIN_AUTO_TEXT := 2
  const MAX_AUTO_TEXT := 80
  const STRONG_DIAGONAL_SIZE: real := 24.0
  const STRONG_ALPHA_SIZE: real := 30.0
  const TILE_COUNT := 3
  const IMAGE_BIG_RATIO: real := 0.15
  const IMAGE_MAX_RATIO: real := 0.9
  const MAX_AUTO_TARGETS := 8

  datatype Box = Box(x0: real, y0: real, x1: real, y1: real)

  datatype Observation =
    | TextSeen(page: nat, norm: string, diagonal: bool, alpha: real, size: real)
    | ImageSeen(page: nat, digest: Digest, ctm: Matrix, alpha: real, softMask: bool, box: Box)
    | FormSeen(key: ObjectId, alpha: real, diagonal: bool)

  datatype TextRecord = TextRecord(pages: set<nat>, counts: map<nat, nat>, strong: bool)

  datatype ImageRecord = ImageRecord(
    pages: set<nat>, counts: map<nat, nat>,
    diagonal: bool, transparent: bool, centered: bool, big: bool)

  /** Plain text and text of unlikely length is never a candidate. */
  predicate Recorded(o: Observation) {
    && o.TextSeen?
    && MIN_AUTO_TEXT <= |o.norm| <= MAX_AUTO_TEXT
    && (o.diagonal || o.alpha < OPAQUE_ALPHA)
  }

  predicate IsStrong(o: Observation)
    requires o.TextSeen?
  {
    var transparent := o.alpha < OPAQUE_ALPHA;
    || (o.diagonal && transparent)
    || (o.diagonal && o.size >= STRONG_DIAGONAL_SIZE)
    || (transparent && o.size >= STRONG_ALPHA_SIZE)
  }

  function CountOf(counts: map<nat, nat>, page: nat): nat {
    if page in counts then counts[page] else 0
  }

  function Bump(counts: map<nat, nat>, page: nat): map<nat, nat> {
    counts[page := CountOf(counts, page) + 1]
  }

  function Ratio(o: Observation): real
    requires o.ImageSeen?
  {
    Abs(Det(o.ctm)) / Max((o.box.x1 - o.box.x0) * (o.box.y1 - o.box.y0), 1.0)
  }

  /** Does the drawn unit square's bounding box contain the page's centre? */
  predicate IsCentered(o: Observation)
    requires o.ImageSeen?
  {
    var m := o.ctm;
    var x, y := (o.box.x0 + o.box.x1) / 2.0, (o.box.y0 + o.box.y1) / 2.0;
    && Min(Min(m.e, m.a + m.e), Min(m.c + m.e, m.a + m.c + m.e)) <= x
    && x <= Max(Max(m.e, m.a + m.e), Max(m.c + m.e, m.a + m.c + m.e))
    && Min(Min(m.f, m.b + m.f), Min(m.d + m.f, m.b + m.d + m.f)) <= y
    && y <= Max(Max(m.f, m.b + m.f), Max(m.d + m.f, m.b + m.d + m.f))
    && Ratio(o) <= IMAGE_MAX_RATIO
  }

  predicate IsBig(o: Observation)
    requires o.ImageSeen?
  {
    IMAGE_BIG_RATIO <= Ratio(o) <= IMAGE_MAX_RATIO
  }

  predicate IsTransparent(o: Observation)
    requires o.ImageSeen?
  {
    o.alpha < OPAQUE_ALPHA || o.softMask
  }

  const NO_TEXT := TextRecord({}, map[], false)
  const NO_IMAGE := ImageRecord({}, map[], false, false, false, false)

  function Sighted(r: TextRecord, o: Observation): TextRecord
    requires o.TextSeen?
  {
    TextRecord(r.pages + {o.page}, Bump(r.counts, o.page), r.strong || IsStrong(o))
  }

  function Drawn(diagonal: Matrix -> bool, r: ImageRecord, o: Observation): ImageRecord
    requires o.ImageSeen?
  {
    ImageRecord(
      r.pages + {o.page}, Bump(r.counts, o.page),
      r.diagonal || diagonal(o.ctm), r.transparent || IsTransparent(o),
      r.centered || IsCentered(o), r.big || IsBig(o))
  }

  function AddText(texts: map<string, TextRecord>, o: Observation): map<string, TextRecord> {
    if !Recorded(o) then texts
    else
      texts[o.norm := Sighted(if o.norm in texts then texts[o.norm] else NO_TEXT, o)]
  }

  function AddImage(diagonal: Matrix -> bool, images: map<Digest, ImageRecord>, o: Observation)
    : map<Digest, ImageRecord>
  {
    if !o.ImageSeen? then images
    else
      images[o.digest := Drawn(diagonal, if o.digest in images then images[o.digest] else NO_IMAGE, o)]
  }

  function AddForm(hints: map<ObjectId, (real, bool)>, o: Observation): map<ObjectId, (real, bool)> {
    if !o.FormSeen? then hints
    else
      var h := if o.key in hints then hints[o.key] else (1.0, false);
      hints[o.key := (Min(h.0, o.alpha), h.1 || o.diagonal)]
  }

  ghost function TextsOf(h: seq<Observation>): map<string, TextRecord> {
    if h == [] then map[] else AddText(TextsOf(h[..|h| - 1]), h[|h| - 1])
  }

  ghost function ImagesOf(diagonal: Matrix -> bool, h: seq<Observation>): map<Digest, ImageRecord> {
    if h == [] then map[] else AddImage(diagonal, ImagesOf(diagonal, h[..|h| - 1]), h[|h| - 1])
  }

  ghost function HintsOf(h: seq<Observation>): map<ObjectId, (real, bool)> {
    if h == [] then map[] else AddForm(HintsOf(h[..|h| - 1]), h[|h| - 1])
  }

  // ---- What the accumulated records mean ----

  /** The recorded sightings of one string. */
  ghost function Sightings(h: seq<Observation>, norm: string): seq<Observation> {
    if h == [] then []
    else
      var o := h[|h| - 1];
      Sightings(h[..|h| - 1], norm) + if Recorded(o) && o.norm == norm then [o] else []
  }

  /** How many observations of `s` lie on `page`. */
  ghost function OnPage(s: seq<Observation>, page: nat): nat {
    if s == [] then 0
    else
      var o := s[|s| - 1];
      OnPage(s[..|s| - 1], page) + if !o.FormSeen? && o.page == page then 1 else 0
  }

  ghost function PagesOf(s: seq<Observation>): set<nat> {
    set o | o in s && !o.FormSeen? :: o.page
  }

  lemma {:induction false} SightingsSound(h: seq<Observation>, norm: string)
    ensures forall o :: o in Sightings(h, norm) <==> o in h && Recorded(o) && o.norm == norm
  {
    if h != [] {
      SightingsSound(h[..|h| - 1], norm);
      assert h == h[..|h| - 1] + [h[|h| - 1]];
    }
  }

  /** A text record is exactly the statistics of the recorded sightings of its string. */
  ghost predicate SummarisesText(r: TextRecord, s: seq<Observation>) {
    && r.pages == PagesOf(s)
    && (forall p: nat :: CountOf(r.counts, p) == OnPage(s, p))
    && (r.strong <==> exists o :: o in s && o.TextSeen? && IsStrong(o))
  }

  /** Pages and counts after one more observation. */
  lemma OneMore(counts: map<nat, nat>, s: seq<Observation>, o: Observation)
    requires !o.FormSeen? && forall p: nat :: CountOf(counts, p) == OnPage(s, p)
    ensures PagesOf(s + [o]) == PagesOf(s) + {o.page}
    ensures forall p: nat :: CountOf(Bump(counts, o.page), p) == OnPage(s + [o], p)
    ensures forall x :: x in s + [o] <==> x in s || x == o
  {
    var all := s + [o];
    assert all[..|all| - 1] == s && all[|all| - 1] == o;
    forall p: nat ensures CountOf(Bump(counts, o.page), p) == OnPage(all, p) {
      assert OnPage(all, p) == OnPage(s, p) + if o.page == p then 1 else 0;
    }
  }

  lemma SummarisesTextMore(r: TextRecord, s: seq<Observation>, o: Observation)
    requires SummarisesText(r, s) && o.TextSeen?
    ensures SummarisesText(Sighted(r, o), s + [o])
  {
    hide IsStrong, PagesOf, OnPage, Bump, CountOf;
    OneMore(r.counts, s, o);
  }

  lemma SummarisesNone(diagonal: Matrix -> bool)
    ensures SummarisesText(NO_TEXT, []) && Summarises(diagonal, NO_IMAGE, [])
  {
    assert PagesOf([]) == {};
  }

  /** A string is recorded exactly when it was sighted, and its record summarises its sightings. */
  lemma {:induction false} TextRecordMeaning(h: seq<Observation>, norm: string)
    ensures norm in TextsOf(h) <==> Sightings(h, norm) != []
    ensures norm in TextsOf(h) ==> SummarisesText(TextsOf(h)[norm], Sightings(h, norm))
  {
    hide SummarisesText, Sighted, IsStrong;
    if h != [] {
      var before, o := h[..|h| - 1], h[|h| - 1];
      TextRecordMeaning(before, norm);
      SummarisesNone(m => false);
      if Recorded(o) && o.norm == norm {
        var texts := TextsOf(before);
        SummarisesTextMore(if norm in texts then texts[norm] else NO_TEXT, Sightings(before, norm), o);
      } else {
        assert Sightings(h, norm) == Sightings(before, norm);
      }
    }
  }

  /** The draws of one image. */
  ghost function Draws(h: seq<Observation>, digest: Digest): seq<Observation> {
    if h == [] then []
    else
      var o := h[|h| - 1];
      Draws(h[..|h| - 1], digest) + if o.ImageSeen? && o.digest == digest then [o] else []
  }

  lemma {:induction false} DrawsSound(h: seq<Observation>, digest: Digest)
    ensures forall o :: o in Draws(h, digest) <==> o in h && o.ImageSeen? && o.digest == digest
  {
    if h != [] {
      DrawsSound(h[..|h| - 1], digest);
      assert h == h[..|h| - 1] + [h[|h| - 1]];
    }
  }

  /** An image record is exactly the statistics of the draws of its image. */
  ghost predicate Summarises(diagonal: Matrix -> bool, r: ImageRecord, s: seq<Observation>) {
    && r.pages == PagesOf(s)
    && (forall p: nat :: CountOf(r.counts, p) == OnPage(s, p))
    && (r.diagonal <==> exists o :: o in s && o.ImageSeen? && diagonal(o.ctm))
    && (r.transparent <==> exists o :: o in s && o.ImageSeen? && IsTransparent(o))
    && (r.centered <==> exists o :: o in s && o.ImageSeen? && IsCentered(o))
    && (r.big <==> exists o :: o in s && o.ImageSeen? && IsBig(o))
  }

  lemma SummarisesMore(diagonal: Matrix -> bool, r: ImageRecord, s: seq<Observation>, o: Observation)
    requires Summarises(diagonal, r, s) && o.ImageSeen?
    ensures Summarises(diagonal, Drawn(diagonal, r, o), s + [o])
  {
    hide IsTransparent, IsCentered, IsBig, PagesOf, OnPage, Bump, CountOf;
    OneMore(r.counts, s, o);
  }

  /** An image is recorded exactly when it was drawn, and its record summarises its draws. */
  lemma {:induction false} ImageRecordMeaning(diagonal: Matrix -> bool, h: seq<Observation>, digest: Digest)
    ensures var images, s := ImagesOf(diagonal, h), Draws(h, digest);
      && (digest in images <==> s != [])
      && (digest in images ==> Summarises(diagonal, images[digest], s))
  {
    hide Summarises, Drawn;
    if h != [] {
      var before, o := h[..|h| - 1], h[|h| - 1];
      ImageRecordMeaning(diagonal, before, digest);
      SummarisesNone(diagonal);
      if o.ImageSeen? && o.digest == digest {
        var images := ImagesOf(diagonal, before);
        SummarisesMore(diagonal, if digest in images then images[digest] else NO_IMAGE, Draws(before, digest), o);
      } else {
        assert Draws(h, digest) == Draws(before, digest);
      }
    }
  }

  /** The observations of one form. */
  ghost function FormSites(h: seq<Observation>, key: ObjectId): seq<Observation> {
    if h == [] then []
    else
      var o := h[|h| - 1];
      FormSites(h[..|h| - 1], key) + if o.FormSeen? && o.key == key then [o] else []
  }

  lemma {:induction false} FormSitesSound(h: seq<Observation>, key: ObjectId)
    ensures forall o :: o in FormSites(h, key) <==> o in h && o.FormSeen? && o.key == key
  {
    if h != [] {
      FormSitesSound(h[..|h| - 1], key);
      assert h == h[..|h| - 1] + [h[|h| - 1]];
    }
  }

  /** The least alpha of the draw sites, at most 1, and whether any was diagonal. */
  ghost predicate SummarisesSites(hint: (real, bool), s: seq<Observation>) {
    && hint.0 <= 1.0 && (forall o :: o in s && o.FormSeen? ==> hint.0 <= o.alpha)
    && (hint.0 == 1.0 || exists o :: o in s && o.FormSeen? && o.alpha == hint.0)
    && (hint.1 <==> exists o :: o in s && o.FormSeen? && o.diagonal)
  }

  lemma SummarisesSitesMore(hint: (real, bool), s: seq<Observation>, o: Observation)
    requires SummarisesSites(hint, s) && o.FormSeen?
    ensures SummarisesSites((Min(hint.0, o.alpha), hint.1 || o.diagonal), s + [o])
  {
    assert forall x :: x in s + [o] <==> x in s || x == o;
  }

  /** A form is hinted exactly when it was drawn, and its hint summarises its draw sites. */
  lemma {:induction false} HintMeaning(h: seq<Observation>, key: ObjectId)
    ensures key in HintsOf(h) <==> FormSites(h, key) != []
    ensures key in HintsOf(h) ==> SummarisesSites(HintsOf(h)[key], FormSites(h, key))
  {
    hide SummarisesSites;
    if h != [] {
      var before, o := h[..|h| - 1], h[|h| - 1];
      HintMeaning(before, key);
      if o.FormSeen? && o.key == key {
        NoSites();
        var hints := HintsOf(before);
        SummarisesSitesMore(if key in hints then hints[key] else (1.0, false), FormSites(before, key), o);
      } else {
        assert FormSites(h, key) == FormSites(before, key);
      }
    }
  }

  lemma NoSites()
    ensures SummarisesSites((1.0, false), [])
  {
  }

  predicate CoversEnoughPages(totalPages: nat, pages: set<nat>) {
    totalPages >= 2 && |pages| >= if (totalPages + 1) / 2 > 2 then (totalPages + 1) / 2 else 2
  }

  predicate TextRule(totalPages: nat, r: TextRecord) {
    || r.strong
    || (exists p :: p in r.counts && r.counts[p] >= TILE_COUNT)
    || CoversEnoughPages(totalPages, r.pages)
  }

  predicate ImageRule(totalPages: nat, r: ImageRecord) {
    || r.diagonal
    || (r.transparent && (r.centered || r.big || exists p :: p in r.counts && r.counts[p] >= TILE_COUNT))
    || (CoversEnoughPages(totalPages, r.pages) && r.centered && r.big)
  }

  /** The rule in terms of the observations themselves. */
  lemma TextRuleMeaning(totalPages: nat, h: seq<Observation>, norm: string)
    requires norm in TextsOf(h)
    ensures var s := Sightings(h, norm);
      TextRule(totalPages, TextsOf(h)[norm]) <==>
        || (exists o :: o in s && o.TextSeen? && IsStrong(o))
        || (exists p: nat :: OnPage(s, p) >= TILE_COUNT)
        || CoversEnoughPages(totalPages, PagesOf(s))
  {
    TextRecordMeaning(h, norm);
    TiledIff(TextsOf(h)[norm].counts, Sightings(h, norm));
  }

  /** The image rule in terms of the draws themselves. */
  lemma ImageRuleMeaning(diagonal: Matrix -> bool, totalPages: nat, h: seq<Observation>, digest: Digest)
    requires digest in ImagesOf(diagonal, h)
    ensures var s := Draws(h, digest);
      var centered := exists o :: o in s && o.ImageSeen? && IsCentered(o);
      var big := exists o :: o in s && o.ImageSeen? && IsBig(o);
      ImageRule(totalPages, ImagesOf(diagonal, h)[digest]) <==>
        || (exists o :: o in s && o.ImageSeen? && diagonal(o.ctm))
        || ((exists o :: o in s && o.ImageSeen? && IsTransparent(o))
            && (centered || big || exists p: nat :: OnPage(s, p) >= TILE_COUNT))
        || (CoversEnoughPages(totalPages, PagesOf(s)) && centered && big)
  {
    hide IsCentered, IsBig, IsTransparent;
    ImageRecordMeaning(diagonal, h, digest);
    TiledIff(ImagesOf(diagonal, h)[digest].counts, Draws(h, digest));
  }

  lemma TiledIff(counts: map<nat, nat>, s: seq<Observation>)
    requires forall p: nat :: CountOf(counts, p) == OnPage(s, p)
    ensures (exists p :: p in counts && counts[p] >= TILE_COUNT) <==> exists p: nat :: OnPage(s, p) >= TILE_COUNT
  {
    if p: nat :| OnPage(s, p) >= TILE_COUNT {
      assert CountOf(counts, p) >= TILE_COUNT;
      assert p in counts && counts[p] >= TILE_COUNT;
    }
    if p :| p in counts && counts[p] >= TILE_COUNT {
      assert OnPage(s, p) == CountOf(counts, p) >= TILE_COUNT;
      assert exists q: nat :: OnPage(s, q) >= TILE_COUNT;
    }
  }

  // ---- The thresholds, in figures ----

  /** Area of the page, at least 1. */
  function PageArea(box: Box): real {
    Max((box.x1 - box.x0) * (box.y1 - box.y0), 1.0)
  }

  /** Some corner of the drawn unit square lies at or below `x` in its first coordinate,
      some at or above; likewise for `y`. */
  ghost predicate Surrounds(m: Matrix, x: real, y: real) {
    && (exists u, v :: IsCorner(u, v) && Apply(m, u, v).0 <= x)
    && (exists u, v :: IsCorner(u, v) && x <= Apply(m, u, v).0)
    && (exists u, v :: IsCorner(u, v) && Apply(m, u, v).1 <= y)
    && (exists u, v :: IsCorner(u, v) && y <= Apply(m, u, v).1)
  }

  ghost predicate IsCorner(u: real, v: real) {
    (u == 0.0 || u == 1.0) && (v == 0.0 || v == 1.0)
  }

  lemma Corners(m: Matrix)
    ensures IsCorner(0.0, 0.0) && Apply(m, 0.0, 0.0) == (m.e, m.f)
    ensures IsCorner(1.0, 0.0) && Apply(m, 1.0, 0.0) == (m.a + m.e, m.b + m.f)
    ensures IsCorner(0.0, 1.0) && Apply(m, 0.0, 1.0) == (m.c + m.e, m.d + m.f)
    ensures IsCorner(1.0, 1.0) && Apply(m, 1.0, 1.0) == (m.a + m.c + m.e, m.b + m.d + m.f)
    ensures forall u, v :: IsCorner(u, v) ==>
      (u, v) == (0.0, 0.0) || (u, v) == (1.0, 0.0) || (u, v) == (0.0, 1.0) || (u, v) == (1.0, 1.0)
  {
  }

  lemma MinOfFour(p: real, q: real, r: real, s: real, x: real)
    ensures Min(Min(p, q), Min(r, s)) <= x <==> p <= x || q <= x || r <= x || s <= x
    ensures x <= Max(Max(p, q), Max(r, s)) <==> x <= p || x <= q || x <= r || x <= s
  {
  }

  lemma SurroundsIff(m: Matrix, x: real, y: real)
    ensures Surrounds(m, x, y) <==>
      && Min(Min(m.e, m.a + m.e), Min(m.c + m.e, m.a + m.c + m.e)) <= x
      && x <= Max(Max(m.e, m.a + m.e), Max(m.c + m.e, m.a + m.c + m.e))
      && Min(Min(m.f, m.b + m.f), Min(m.d + m.f, m.b + m.d + m.f)) <= y
      && y <= Max(Max(m.f, m.b + m.f), Max(m.d + m.f, m.b + m.d + m.f))
  {
    Corners(m);
    MinOfFour(m.e, m.a + m.e, m.c + m.e, m.a + m.c + m.e, x);
    MinOfFour(m.f, m.b + m.f, m.d + m.f, m.b + m.d + m.f, y);
    hide Apply, IsCorner, Min, Max;
  }

  lemma RatioBounds(o: Observation, r: real)
    requires o.ImageSeen?
    ensures Ratio(o) <= r <==> Abs(Det(o.ctm)) <= r * PageArea(o.box)
    ensures r <= Ratio(o) <==> r * PageArea(o.box) <= Abs(Det(o.ctm))
  {
    var area, d := PageArea(o.box), Abs(Det(o.ctm));
    assert area >= 1.0;
    QuotientOrder(d, area, r);
  }

  lemma QuotientOrder(d: real, area: real, r: real)
    requires area > 0.0
    ensures d / area <= r <==> d <= r * area
    ensures r <= d / area <==> r * area <= d
  {
    var q := d / area;
    assert q * area == d;
    assert (r - q) * area == r * area - d;
  }

  /** An image is centred when it surrounds the middle of the page and covers at most 0.9
      of it, and big when it covers between 0.15 and 0.9 of it. */
  lemma CentredAndBigMeaning(o: Observation)
    requires o.ImageSeen?
    ensures IsCentered(o) <==>
      && Surrounds(o.ctm, (o.box.x0 + o.box.x1) / 2.0, (o.box.y0 + o.box.y1) / 2.0)
      && Abs(Det(o.ctm)) <= 0.9 * PageArea(o.box)
    ensures IsBig(o) <==> 0.15 * PageArea(o.box) <= Abs(Det(o.ctm)) <= 0.9 * PageArea(o.box)
    ensures IsTransparent(o) <==> o.alpha < 0.999 || o.softMask
  {
    hide Surrounds, Ratio, PageArea, Abs, Det;
    SurroundsIff(o.ctm, (o.box.x0 + o.box.x1) / 2.0, (o.box.y0 + o.box.y1) / 2.0);
    RatioBounds(o, 0.9);
    RatioBounds(o, 0.15);
  }

  ghost predicate AtMostTwice(s: seq<Observation>) {
    forall p: nat :: OnPage(s, p) <= 2
  }

  /** A full-page image, such as a scan, is never chosen: none of its draws is diagonal, all
      cover more than 0.9 of their page, and no page draws it three times. */
  lemma FullPageImageSurvives(diagonal: Matrix -> bool, totalPages: nat, h: seq<Observation>, digest: Digest)
    requires digest in ImagesOf(diagonal, h)
    requires forall o :: o in h && o.ImageSeen? && o.digest == digest ==>
      !diagonal(o.ctm) && Abs(Det(o.ctm)) > 0.9 * PageArea(o.box)
    requires AtMostTwice(Draws(h, digest))
    ensures !ImageRule(totalPages, ImagesOf(diagonal, h)[digest])
  {
    hide ImageRule, ImagesOf, IsCentered, IsBig, IsTransparent, Det, Abs, PageArea, Surrounds, OnPage, PagesOf;
    ImageRuleMeaning(diagonal, totalPages, h, digest);
    DrawsSound(h, digest);
    forall o | o in Draws(h, digest) ensures !diagonal(o.ctm) && !IsCentered(o) && !IsBig(o) {
      CentredAndBigMeaning(o);
    }
  }

  /** At least two pages, and at least half of all. */
  lemma CoversEnoughMeaning(totalPages: nat, pages: set<nat>)
    ensures CoversEnoughPages(totalPages, pages) <==>
      totalPages >= 2 && |pages| >= 2 && 2 * |pages| >= totalPages
  {
  }

  /** Recorded: 2 to 80 characters, diagonal or transparent. Strong: both traits, or diagonal
      from size 24, or transparent from size 30. */
  lemma RecordedAndStrongMeaning(o: Observation)
    requires o.TextSeen?
    ensures Recorded(o) <==> 2 <= |o.norm| <= 80 && (o.diagonal || o.alpha < 0.999)
    ensures IsStrong(o) <==>
      (o.alpha < 0.999 || o.size >= 24.0) && (o.diagonal || o.size >= 30.0) && (o.diagonal || o.alpha < 0.999)
  {
  }

  /** A string is a candidate exactly when it was recorded, and was strong once, was sighted
      three times on one page, or was sighted on at least two and at least half of the pages. */
  lemma TextCandidateIff(totalPages: nat, h: seq<Observation>, norm: string)
    ensures norm in TextsOf(h) && TextRule(totalPages, TextsOf(h)[norm]) <==>
      var s := Sightings(h, norm);
      && s != []
      && (|| (exists o :: o in s && o.TextSeen? && IsStrong(o))
          || (exists p: nat :: OnPage(s, p) >= 3)
          || (totalPages >= 2 && |PagesOf(s)| >= 2 && 2 * |PagesOf(s)| >= totalPages))
  {
    hide TextRule, TextsOf, IsStrong, OnPage, PagesOf, SummarisesText;
    TextRecordMeaning(h, norm);
    if norm in TextsOf(h) {
      TextRuleMeaning(totalPages, h, norm);
      CoversEnoughMeaning(totalPages, PagesOf(Sightings(h, norm)));
    }
  }

  /** `best` is a selection of the at most eight heaviest members of `all`. */
  ghost predicate IsTop<K(!new)>(all: set<K>, weight: map<K, nat>, best: set<K>)
    requires all <= weight.Keys
  {
    && best <= all
    && |best| == (if |all| > MAX_AUTO_TARGETS then MAX_AUTO_TARGETS else |all|)
    && forall a, b :: a in best && b in all - best ==> weight[b] <= weight[a]
  }

  lemma HeaviestExists<K>(s: set<K>, weight: map<K, nat>) returns (h: K)
    requires s != {} && s <= weight.Keys
    ensures h in s && forall k :: k in s ==> weight[k] <= weight[h]
  {
    h :| h in s;
    if s != {h} {
      var g := HeaviestExists(s - {h}, weight);
      if weight[h] < weight[g] { h := g; }
    }
  }

  /** The eight highest-ranked targets when there are more; ties are broken arbitrarily. */
  method TopTargets<K(!new, ==)>(all: set<K>, weight: map<K, nat>) returns (best: set<K>)
    requires all <= weight.Keys
    ensures IsTop(all, weight, best)
  {
    if |all| <= MAX_AUTO_TARGETS {
      return all;
    }
    best := {};
    var rest := all;
    while |best| < MAX_AUTO_TARGETS
      invariant best <= all && rest == all - best && |best| <= MAX_AUTO_TARGETS
      invariant |rest| == |all| - |best|
      invariant forall a, b :: a in best && b in rest ==> weight[b] <= weight[a]
      decreases MAX_AUTO_TARGETS - |best|
    {
      ghost var h := HeaviestExists(rest, weight);
      var next :| next in rest && forall k :: k in rest ==> weight[k] <= weight[next];
      best, rest := best + {next}, rest - {next};
    }
  }

  class DetectionSink {
    const totalPages: nat
    const diagonal: Matrix -> bool
    var texts: map<string, TextRecord>
    var images: map<Digest, ImageRecord>
    var hints: map<ObjectId, (real, bool)>
    ghost var history: seq<Observation>

    ghost predicate Valid()
      reads this
    {
      texts == TextsOf(history) && images == ImagesOf(diagonal, history) && hints == HintsOf(history)
    }

    constructor (totalPages: nat, diagonal: Matrix -> bool)
      ensures Valid() && history == [] && this.totalPages == totalPages && this.diagonal == diagonal
    {
      this.totalPages, this.diagonal := totalPages, diagonal;
      texts, images, hints, history := map[], map[], map[], [];
    }

    method Text(page: nat, norm: string, diagonal: bool, alpha: real, size: real)
      requires Valid()
      modifies this
      ensures Valid() && history == old(history) + [TextSeen(page, norm, diagonal, alpha, size)]
    {
      ghost var o := TextSeen(page, norm, diagonal, alpha, size);
      history := history + [o];
      assert history[..|history| - 1] == old(history);
      if !(MIN_AUTO_TEXT <= |norm| <= MAX_AUTO_TEXT) {
        return;
      }
      var transparent := alpha < OPAQUE_ALPHA;
      if !(diagonal || transparent) {
        return;
      }
      var record := if norm in texts then texts[norm] else NO_TEXT;
      record := record.(pages := record.pages + {page}, counts := Bump(record.counts, page));
      if (diagonal && transparent)
        || (diagonal && size >= STRONG_DIAGONAL_SIZE)
        || (transparent && size >= STRONG_ALPHA_SIZE)
      {
        record := record.(strong := true);
      }
      texts := texts[norm := record];
    }

    method Image(page: nat, digest: Digest, ctm: Matrix, alpha: real, softMask: bool, box: Box)
      requires Valid()
      modifies this
      ensures Valid() && history == old(history) + [ImageSeen(page, digest, ctm, alpha, softMask, box)]
    {
      var o := ImageSeen(page, digest, ctm, alpha, softMask, box);
      history := history + [o];
      assert history[..|history| - 1] == old(history);
      images := AddImage(diagonal, images, o);
    }

    method Form(key: ObjectId, alpha: real, diagonal: bool)
      requires Valid()
      modifies this
      ensures Valid() && history == old(history) + [FormSeen(key, alpha, diagonal)]
    {
      history := history + [FormSeen(key, alpha, diagonal)];
      assert history[..|history| - 1] == old(history);
      var hint := if key in hints then hints[key] else (1.0, false);
      hints := hints[key := (Min(hint.0, alpha), hint.1 || diagonal)];
    }

    /** Choose the targets among the records that pass their rule. */
    method Decide() returns (d: Detection)
      requires Valid()
      ensures var texts, images := TextsOf(history), ImagesOf(diagonal, history);
        && IsTop((set n | n in texts && TextRule(totalPages, texts[n])), map n | n in texts :: |texts[n].pages|,
                 d.needles)
        && IsTop((set g | g in images && ImageRule(totalPages, images[g])), map g | g in images :: |images[g].pages|,
                 d.images)
        && d.hints == HintsOf(history)
    {
      var needles := set n | n in texts && TextRule(totalPages, texts[n]);
      var chosen := set g | g in images && ImageRule(totalPages, images[g]);
      needles := TopTargets(needles, map n | n in texts :: |texts[n].pages|);
      chosen := TopTargets(chosen, map g | g in images :: |images[g].pages|);
      d := Detection(needles, chosen, hints);
    }
  }
}
