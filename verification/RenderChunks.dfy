/** Rendering a large document in page ranges, several at a time, against rendering it in
    one go. */
module RenderChunks {
  import opened Wrappers

  datatype PageImage = PageImage(number: int, pixels: int)

  /** The document as the renderer sees it: how many pages it really has, which of them
      the renderer fails on, and what each page looks like. */
  datatype Document = Document(pages: nat, broken: set<int>, look: int -> int)

  /** The external renderer takes a last page below 1 or past the end for the end. */
  function LastRendered(doc: Document, last: int): int {
    if last < 1 || last > doc.pages then doc.pages else last
  }

  ghost predicate Renders(doc: Document, first: int, last: int) {
    first <= LastRendered(doc, last) && forall p :: first <= p <= LastRendered(doc, last) ==> p !in doc.broken
  }

  function Images(doc: Document, first: int, last: int): (r: seq<PageImage>)
    requires first <= last + 1
    ensures |r| == last - first + 1
    ensures forall i :: 0 <= i < |r| ==> r[i] == PageImage(first + i, doc.look(first + i))
  {
    seq(last - first + 1, i => PageImage(first + i, doc.look(first + i)))
  }

  /** One call of the renderer: numbered images in page order, or nothing on failure. */
  method RenderRange(doc: Document, first: int, last: int) returns (r: Option<seq<PageImage>>)
    ensures r.Some? <==> Renders(doc, first, last)
    ensures r.Some? ==> r.value == Images(doc, first, LastRendered(doc, last))
  {
    var end := LastRendered(doc, last);
    if first > end {
      return None;
    }
    var images: seq<PageImage> := [];
    for p := first to end + 1
      invariant forall q :: first <= q < p ==> q !in doc.broken
      invariant images == Images(doc, first, p - 1)
    {
      if p in doc.broken {
        return None;
      }
      images := images + [PageImage(p, doc.look(p))];
    }
    return Some(images);
  }

  // ---- Cutting a range into chunks ----

  datatype Range = Range(first: int, last: int)

  /** Non-empty ranges that follow each other from `start` to `end`. */
  ghost predicate Tiles(ranges: seq<Range>, start: int, end: int) {
    && (forall i :: 0 <= i < |ranges| ==> ranges[i].first <= ranges[i].last)
    && (forall i :: 0 < i < |ranges| ==> ranges[i].first == ranges[i - 1].last + 1)
    && if ranges == [] then start == end + 1
       else ranges[0].first == start && ranges[|ranges| - 1].last == end
  }

  /** Ceiling division. */
  function CeilDiv(a: nat, b: nat): (r: nat)
    requires b > 0
    ensures a <= r * b < a + b && (a > 0 ==> r > 0)
  {
    CeilDivBounds(a, b);
    if a % b == 0 then a / b else a / b + 1
  }

  lemma CeilDivBounds(a: nat, b: nat)
    requires b > 0
    ensures var r := if a % b == 0 then a / b else a / b + 1;
      a <= r * b < a + b && (a > 0 ==> r > 0)
  {
    assert a == a / b * b + a % b;
    assert (a / b + 1) * b == a / b * b + b;
  }

  lemma ProductOrder(x: int, y: int, d: nat)
    requires x * d < y * d
    ensures x < y
  {
    assert (y - x) * d == y * d - x * d;
  }

  /** Where the last chunk starts. */
  function LastStart(start: int, end: int, workers: nat): int
    requires start <= end && workers > 0
  {
    var chunk := CeilDiv(end - start + 1, workers);
    if chunk == 0 then start else start + (end - start) / chunk * chunk
  }

  /** At most `workers` chunks of `chunk` pages each, the last one possibly shorter. */
  method SplitRange(start: int, end: int, workers: nat) returns (ranges: seq<Range>)
    requires start <= end && workers > 0
    ensures Tiles(ranges, start, end) && 0 < |ranges| <= workers
    ensures ranges[|ranges| - 1].first == LastStart(start, end, workers)
  {
    hide CeilDiv;
    var chunk := CeilDiv(end - start + 1, workers);
    ranges := Cut(start, end, chunk);
    CountChunks(end - start + 1, |ranges|, chunk, workers);
  }

  method Cut(start: int, end: int, chunk: nat) returns (ranges: seq<Range>)
    requires start <= end && chunk > 0
    ensures Tiles(ranges, start, end) && ranges != []
    ensures ranges[|ranges| - 1].first == start + (|ranges| - 1) * chunk <= end < start + |ranges| * chunk
  {
    hide Tiles;
    ranges := [];
    var next := start;
    NoTiles(start);
    while next <= end
      invariant next == start + |ranges| * chunk
      invariant Tiles(ranges, start, if next <= end then next - 1 else end)
      invariant ranges != [] ==> ranges[|ranges| - 1].first == next - chunk <= end
      decreases end + 1 - next
    {
      var range := Range(next, if next + chunk - 1 < end then next + chunk - 1 else end);
      OneMoreTile(ranges, start, range);
      OneMoreProduct(|ranges|, chunk);
      ranges := ranges + [range];
      next := next + chunk;
    }
    OneMoreProduct(|ranges| - 1, chunk);
  }

  lemma OneMoreProduct(n: nat, d: nat)
    ensures (n + 1) * d == n * d + d
  {
  }

  lemma NoTiles(start: int)
    ensures Tiles([], start, start - 1)
  {
  }

  lemma OneMoreTile(ranges: seq<Range>, start: int, range: Range)
    requires Tiles(ranges, start, range.first - 1) && range.first <= range.last
    ensures Tiles(ranges + [range], start, range.last)
  {
  }

  lemma CountChunks(span: nat, n: nat, chunk: nat, workers: nat)
    requires chunk > 0 && span > 0 && span <= chunk * workers
    requires (n - 1) * chunk < span <= n * chunk
    ensures n <= workers && (span - 1) / chunk == n - 1
  {
    ProductOrder(n - 1, workers, chunk);
    var q := (span - 1) / chunk;
    assert q * chunk <= span - 1 < (q + 1) * chunk;
    ProductOrder(n - 1, q + 1, chunk);
    ProductOrder(q, n, chunk);
  }

  // ---- The images in page order ----

  function Insert(images: seq<PageImage>, x: PageImage): seq<PageImage> {
    if images == [] || images[|images| - 1].number <= x.number then images + [x]
    else Insert(images[..|images| - 1], x) + [images[|images| - 1]]
  }

  /** A stable sort by page number. */
  function SortByNumber(images: seq<PageImage>): seq<PageImage> {
    if images == [] then []
    else Insert(SortByNumber(images[..|images| - 1]), images[|images| - 1])
  }

  lemma {:induction false} SortedStays(images: seq<PageImage>)
    requires forall i, j :: 0 <= i < j < |images| ==> images[i].number <= images[j].number
    ensures SortByNumber(images) == images
  {
    if images != [] {
      var n := |images| - 1;
      SortedStays(images[..n]);
      assert images == images[..n] + [images[n]];
    }
  }

  // ---- The two ways of rendering ----

  /** The images of the pages `start..done`, all of which the renderer can render. */
  ghost predicate Rendered(doc: Document, start: int, done: int, images: seq<PageImage>) {
    start <= done + 1 && images == Images(doc, start, done) && forall p :: start <= p <= done ==> p !in doc.broken
  }

  ghost function DoneAfter(doc: Document, start: int, ranges: seq<Range>, i: nat): int
    requires i <= |ranges|
  {
    if i == 0 then start - 1 else LastRendered(doc, ranges[i - 1].last)
  }

  lemma Extends(doc: Document, start: int, range: Range, images: seq<PageImage>, more: seq<PageImage>)
    requires Rendered(doc, start, range.first - 1, images) && Renders(doc, range.first, range.last)
    requires more == Images(doc, range.first, LastRendered(doc, range.last))
    ensures Rendered(doc, start, LastRendered(doc, range.last), images + more)
  {
  }

  lemma ImagesSorted(doc: Document, first: int, last: int)
    requires first <= last + 1
    ensures SortByNumber(Images(doc, first, last)) == Images(doc, first, last)
  {
    SortedStays(Images(doc, first, last));
  }

  lemma ChunkFails(doc: Document, start: int, end: int, range: Range)
    requires 1 <= start <= range.first <= range.last <= end && !Renders(doc, range.first, range.last)
    ensures range.first > doc.pages || !Renders(doc, start, end)
  {
  }

  /** All pages from `start` to `end`, chunk by chunk, put into page order. */
  method RenderChunked(doc: Document, start: int, end: int, workers: nat) returns (r: Option<seq<PageImage>>)
    requires 1 <= start <= end && workers > 0
    ensures r.Some? <==> Renders(doc, start, end) && LastStart(start, end, workers) <= doc.pages
    ensures r.Some? ==> r.value == Images(doc, start, LastRendered(doc, end))
  {
    hide LastStart, Images, Tiles, SortByNumber;
    var ranges := SplitRange(start, end, workers);
    var images: seq<PageImage> := [];
    for i := 0 to |ranges|
      invariant Rendered(doc, start, DoneAfter(doc, start, ranges, i), images)
      invariant i > 0 ==> ranges[i - 1].first <= doc.pages
    {
      RangesClimb(ranges, start, end, i);
      var chunk := RenderRange(doc, ranges[i].first, ranges[i].last);
      if chunk.None? {
        ChunkFails(doc, start, end, ranges[i]);
        return None;
      }
      if i > 0 {
        RangesClimb(ranges, start, end, i - 1);
      }
      assert DoneAfter(doc, start, ranges, i) == ranges[i].first - 1;
      Extends(doc, start, ranges[i], images, chunk.value);
      images := images + chunk.value;
    }
    RangesClimb(ranges, start, end, |ranges| - 1);
    ImagesSorted(doc, start, LastRendered(doc, end));
    return Some(SortByNumber(images));
  }

  lemma {:induction false} RangesClimb(ranges: seq<Range>, start: int, end: int, i: nat)
    requires Tiles(ranges, start, end) && i < |ranges|
    ensures start <= ranges[i].first <= ranges[i].last <= end
    ensures ranges[i].first <= ranges[|ranges| - 1].first && ranges[|ranges| - 1].last == end
    ensures ranges[i].first == if i == 0 then start else ranges[i - 1].last + 1
  {
    ClimbTo(ranges, start, end, i);
    ClimbFrom(ranges, start, end, i);
  }

  lemma {:induction false} ClimbTo(ranges: seq<Range>, start: int, end: int, i: nat)
    requires Tiles(ranges, start, end) && i < |ranges|
    ensures start <= ranges[i].first
  {
    if i > 0 {
      ClimbTo(ranges, start, end, i - 1);
    }
  }

  lemma {:induction false} ClimbFrom(ranges: seq<Range>, start: int, end: int, i: nat)
    requires Tiles(ranges, start, end) && i < |ranges|
    ensures ranges[i].first <= ranges[|ranges| - 1].first && ranges[i].last <= end
    decreases |ranges| - i
  {
    if i < |ranges| - 1 {
      ClimbFrom(ranges, start, end, i + 1);
    }
  }

  function Start(firstPage: nat): int {
    if firstPage == 0 then 1 else firstPage
  }

  function End(total: nat, lastPage: nat): int {
    if lastPage == 0 || lastPage > total then total else lastPage
  }

  /** Small spans in one call, larger ones in chunks; a page bound of 0 is absent.
      The images are those of one serial call; the one case in which chunks fail and the
      serial call does not is a caller's page count so high that the last chunk lies
      wholly past the end of the document. */
  method RenderAuto(doc: Document, total: nat, firstPage: nat, lastPage: nat, threshold: nat, workers: int)
    returns (r: Option<seq<PageImage>>)
    ensures var start, end := Start(firstPage), End(total, lastPage);
      r.Some? ==> Renders(doc, start, end) && r.value == Images(doc, start, LastRendered(doc, end))
    ensures var start, end, w := Start(firstPage), End(total, lastPage), if workers < 1 then 1 else workers;
      Renders(doc, start, end) ==>
        (r.None? <==> end - start + 1 > threshold && LastStart(start, end, w) > doc.pages)
  {
    var start, end := Start(firstPage), End(total, lastPage);
    var span := if end - start + 1 < 0 then 0 else end - start + 1;
    if span <= threshold {
      r := RenderRange(doc, start, end);
    } else {
      r := RenderChunked(doc, start, end, if workers < 1 then 1 else workers);
    }
  }

  /** The pages asked for: from the first page, or 1, to the last page, or all, as far as the
      caller says the document goes. */
  lemma BoundsMeaning(total: nat, firstPage: nat, lastPage: nat, p: int)
    ensures Start(firstPage) <= p <= End(total, lastPage) <==>
      (if firstPage == 0 then 1 <= p else firstPage <= p) && p <= total && (lastPage != 0 ==> p <= lastPage)
  {
  }
}
