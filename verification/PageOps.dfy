/** Page-level operations over a document as a sequence of pages. */
module PageOps {
  import opened Wrappers
  import PS = PageSelection

  /** A page: its content, kept abstract, and its /Rotate entry. */
  datatype Page = Page(content: nat, rotation: int)

  type Pdf = seq<Page>

  datatype Error =
    | NoPages
    | BadSelection(error: PS.SelectionError)
    | NoRanges
    | BadAngle
    | DeletesEverything
    | BadOrder

  predicate Valid(numbers: seq<int>, total: nat) {
    forall i :: 0 <= i < |numbers| ==> 1 <= numbers[i] <= total
  }

  lemma SelectionIsValid(spec: string, total: nat)
    requires PS.Selection(spec, total).Success?
    ensures Valid(PS.Selection(spec, total).value, total) && PS.Selection(spec, total).value != []
  {
    var pages := PS.Selection(spec, total).value;
    var bad := set p | p in pages && (p < 1 || p > total);
    assert bad == {};
    forall i | 0 <= i < |pages| ensures 1 <= pages[i] <= total {
      assert pages[i] !in bad;
    }
  }

  /** The numbered pages, in the order given. */
  function Picked(doc: Pdf, numbers: seq<int>): (r: Pdf)
    requires Valid(numbers, |doc|)
    ensures |r| == |numbers|
  {
    seq(|numbers|, i requires 0 <= i < |numbers| => doc[numbers[i] - 1])
  }

  /** The pages whose 1-based number is not doomed. */
  function Remaining(doc: Pdf, doomed: set<int>): Pdf {
    if doc == [] then []
    else
      var last := |doc| - 1;
      Remaining(doc[..last], doomed) + if |doc| in doomed then [] else [doc[last]]
  }

  function Concat(docs: seq<Pdf>): Pdf {
    if docs == [] then [] else Concat(docs[..|docs| - 1]) + docs[|docs| - 1]
  }

  // ---- The operations ----

  method MergePdfs(sources: seq<Pdf>) returns (r: Result<Pdf, Error>)
    ensures [] in sources ==> r == Failure(NoPages)
    ensures [] !in sources ==> r == Success(Concat(sources))
  {
    var writer: Pdf := [];
    for i := 0 to |sources|
      invariant [] !in sources[..i] && writer == Concat(sources[..i])
    {
      if sources[i] == [] {
        return Failure(NoPages);
      }
      assert sources[..i + 1][..i] == sources[..i];
      writer := writer + sources[i];
    }
    assert sources[..|sources|] == sources;
    return Success(writer);
  }

  method PickPages(doc: Pdf, numbers: seq<int>) returns (writer: Pdf)
    requires Valid(numbers, |doc|)
    ensures writer == Picked(doc, numbers)
  {
    writer := [];
    for i := 0 to |numbers|
      invariant writer == Picked(doc, numbers)[..i]
    {
      writer := writer + [doc[numbers[i] - 1]];
    }
  }

  /** Selections of the parts: one page each, or one range specification each. */
  function Selections(total: nat, ranges: seq<string>, everyPage: bool): Result<seq<seq<int>>, Error> {
    if everyPage then Success(seq(total, n => [n + 1]))
    else if ranges == [] then Failure(NoRanges)
    else ParseAll(total, ranges)
  }

  function ParseAll(total: nat, ranges: seq<string>): Result<seq<seq<int>>, Error> {
    if ranges == [] then Success([])
    else match PS.Selection(ranges[0], total)
      case Failure(e) => Failure(BadSelection(e))
      case Success(pages) =>
        match ParseAll(total, ranges[1..])
        case Failure(e) => Failure(e)
        case Success(rest) => Success([pages] + rest)
  }

  lemma {:induction false} ParsedAreValid(total: nat, ranges: seq<string>)
    requires ParseAll(total, ranges).Success?
    ensures forall k :: 0 <= k < |ParseAll(total, ranges).value| ==>
      Valid(ParseAll(total, ranges).value[k], total) && ParseAll(total, ranges).value[k] != []
  {
    if ranges != [] {
      SelectionIsValid(ranges[0], total);
      ParsedAreValid(total, ranges[1..]);
    }
  }

  lemma SelectionsAreValid(total: nat, ranges: seq<string>, everyPage: bool)
    requires Selections(total, ranges, everyPage).Success?
    ensures forall k :: 0 <= k < |Selections(total, ranges, everyPage).value| ==>
      Valid(Selections(total, ranges, everyPage).value[k], total) && Selections(total, ranges, everyPage).value[k] != []
  {
    if !everyPage {
      ParsedAreValid(total, ranges);
    }
  }

  method SplitPdf(doc: Pdf, ranges: seq<string>, everyPage: bool) returns (r: Result<seq<Pdf>, Error>)
    ensures doc == [] ==> r == Failure(NoPages)
    ensures doc != [] ==> match Selections(|doc|, ranges, everyPage)
      case Failure(e) => r == Failure(e)
      case Success(selections) => r.Success? && IsSplit(doc, selections, r.value)
  {
    if doc == [] {
      return Failure(NoPages);
    }
    var selected := Selections(|doc|, ranges, everyPage);
    if selected.Failure? {
      return Failure(selected.error);
    }
    SelectionsAreValid(|doc|, ranges, everyPage);
    var selections, parts: seq<Pdf> := selected.value, [];
    for i := 0 to |selections|
      invariant |parts| == i
      invariant forall k :: 0 <= k < i ==> Valid(selections[k], |doc|) && parts[k] == Picked(doc, selections[k])
    {
      var part := PickPages(doc, selections[i]);
      parts := parts + [part];
    }
    return Success(parts);
  }

  ghost predicate IsSplit(doc: Pdf, selections: seq<seq<int>>, parts: seq<Pdf>) {
    && |parts| == |selections|
    && forall k :: 0 <= k < |parts| ==> Valid(selections[k], |doc|) && parts[k] == Picked(doc, selections[k])
  }

  method DeletePages(doc: Pdf, spec: string) returns (r: Result<Pdf, Error>)
    ensures r == Deleted(doc, spec)
  {
    if doc == [] {
      return Failure(NoPages);
    }
    var selection := PS.ParsePageSelection(spec, |doc|);
    if selection.Failure? {
      return Failure(BadSelection(selection.error));
    }
    var doomed := set p | p in selection.value;
    if |doomed| >= |doc| {
      return Failure(DeletesEverything);
    }
    var writer: Pdf := [];
    for i := 0 to |doc|
      invariant writer == Remaining(doc[..i], doomed)
    {
      assert doc[..i + 1][..i] == doc[..i];
      if i + 1 !in doomed {
        writer := writer + [doc[i]];
      }
    }
    assert doc[..|doc|] == doc;
    return Success(writer);
  }

  function Deleted(doc: Pdf, spec: string): Result<Pdf, Error> {
    if doc == [] then Failure(NoPages)
    else match PS.Selection(spec, |doc|)
      case Failure(e) => Failure(BadSelection(e))
      case Success(pages) =>
        var doomed := set p | p in pages;
        if |doomed| >= |doc| then Failure(DeletesEverything) else Success(Remaining(doc, doomed))
  }

  method ExtractPages(doc: Pdf, spec: string) returns (r: Result<Pdf, Error>)
    ensures r == Extracted(doc, spec)
  {
    if doc == [] {
      return Failure(NoPages);
    }
    var selection := PS.ParsePageSelection(spec, |doc|);
    if selection.Failure? {
      return Failure(BadSelection(selection.error));
    }
    SelectionIsValid(spec, |doc|);
    var writer := PickPages(doc, selection.value);
    return Success(writer);
  }

  function Extracted(doc: Pdf, spec: string): Result<Pdf, Error> {
    if doc == [] then Failure(NoPages)
    else match PS.Selection(spec, |doc|)
      case Failure(e) => Failure(BadSelection(e))
      case Success(pages) =>
        SelectionIsValid(spec, |doc|);
        Success(Picked(doc, pages))
  }

  /** `sorted(order) == [1, .., total]`. */
  predicate IsPermutation(order: seq<int>, total: nat) {
    multiset(order) == multiset(PS.Range(1, total))
  }

  method ReorderPages(doc: Pdf, order: seq<int>) returns (r: Result<Pdf, Error>)
    ensures r == Reordered(doc, order)
  {
    if doc == [] {
      return Failure(NoPages);
    }
    if !IsPermutation(order, |doc|) {
      return Failure(BadOrder);
    }
    PermutationIsValid(order, |doc|);
    var writer := PickPages(doc, order);
    return Success(writer);
  }

  function Reordered(doc: Pdf, order: seq<int>): Result<Pdf, Error> {
    if doc == [] then Failure(NoPages)
    else if !IsPermutation(order, |doc|) then Failure(BadOrder)
    else
      PermutationIsValid(order, |doc|);
      Success(Picked(doc, order))
  }

  lemma PermutationIsValid(order: seq<int>, total: nat)
    requires IsPermutation(order, total)
    ensures Valid(order, total) && |order| == total
  {
    assert |multiset(order)| == |order|;
    assert |multiset(PS.Range(1, total))| == total;
    forall i | 0 <= i < |order| ensures 1 <= order[i] <= total {
      assert order[i] in multiset(order);
      assert order[i] in PS.Range(1, total);
    }
  }

  datatype Parity = All | Odd | Even

  predicate Matches(number: nat, selected: seq<int>, everyPage: bool, applyTo: Parity) {
    (everyPage || number in selected) && (applyTo.Odd? ==> number % 2 == 1) && (applyTo.Even? ==> number % 2 == 0)
  }

  /** Pages turned by `angle` where they match. */
  function Turned(doc: Pdf, angle: int, selected: seq<int>, everyPage: bool, applyTo: Parity): (r: Pdf)
    ensures |r| == |doc|
  {
    seq(|doc|, i requires 0 <= i < |doc| =>
      if Matches(i + 1, selected, everyPage, applyTo) then doc[i].(rotation := doc[i].rotation + angle) else doc[i])
  }

  /** An empty specification selects every page. */
  method RotatePdf(doc: Pdf, angle: int, spec: string, applyTo: Parity) returns (r: Result<Pdf, Error>)
    ensures angle % 90 != 0 || angle % 360 == 0 ==> r == Failure(BadAngle)
    ensures angle % 90 == 0 && angle % 360 != 0 ==>
      if doc == [] then r == Failure(NoPages)
      else if spec == "" then r == Success(Turned(doc, angle, [], true, applyTo))
      else match PS.Selection(spec, |doc|)
        case Failure(e) => r == Failure(BadSelection(e))
        case Success(pages) => r == Success(Turned(doc, angle, pages, false, applyTo))
  {
    if angle % 90 != 0 || angle % 360 == 0 {
      return Failure(BadAngle);
    }
    if doc == [] {
      return Failure(NoPages);
    }
    var selected, everyPage := [], true;
    if spec != "" {
      var selection := PS.ParsePageSelection(spec, |doc|);
      if selection.Failure? {
        return Failure(BadSelection(selection.error));
      }
      selected, everyPage := selection.value, false;
    }
    var writer := TurnPages(doc, angle, selected, everyPage, applyTo);
    return Success(writer);
  }

  method TurnPages(doc: Pdf, angle: int, selected: seq<int>, everyPage: bool, applyTo: Parity) returns (writer: Pdf)
    ensures writer == Turned(doc, angle, selected, everyPage, applyTo)
  {
    writer := [];
    for i := 0 to |doc|
      invariant writer == Turned(doc, angle, selected, everyPage, applyTo)[..i]
    {
      var page := doc[i];
      if Matches(i + 1, selected, everyPage, applyTo) {
        page := page.(rotation := page.rotation + angle);
      }
      writer := writer + [page];
    }
  }

  // ---- How they fit together ----

  function ConcatNumbers(selections: seq<seq<int>>): seq<int> {
    if selections == [] then [] else ConcatNumbers(selections[..|selections| - 1]) + selections[|selections| - 1]
  }

  lemma {:induction false} ConcatOfPicked(doc: Pdf, selections: seq<seq<int>>, parts: seq<Pdf>)
    requires IsSplit(doc, selections, parts)
    ensures Valid(ConcatNumbers(selections), |doc|) && Concat(parts) == Picked(doc, ConcatNumbers(selections))
  {
    if selections != [] {
      var n := |selections| - 1;
      ConcatOfPicked(doc, selections[..n], parts[..n]);
      PickedConcat(doc, ConcatNumbers(selections[..n]), selections[n]);
    }
  }

  lemma PickedConcat(doc: Pdf, a: seq<int>, b: seq<int>)
    requires Valid(a, |doc|) && Valid(b, |doc|)
    ensures Valid(a + b, |doc|) && Picked(doc, a + b) == Picked(doc, a) + Picked(doc, b)
  {
  }

  /** Splitting by selections that concatenate to 1..N and merging the parts again is
      the identity: the merge accepts every part and returns the document. */
  lemma SplitThenMerge(doc: Pdf, ranges: seq<string>, everyPage: bool, parts: seq<Pdf>)
    requires Selections(|doc|, ranges, everyPage).Success?
    requires IsSplit(doc, Selections(|doc|, ranges, everyPage).value, parts)
    requires ConcatNumbers(Selections(|doc|, ranges, everyPage).value) == PS.Range(1, |doc|)
    ensures [] !in parts && Concat(parts) == doc
  {
    hide Concat, ConcatNumbers, Selections;
    var selections := Selections(|doc|, ranges, everyPage).value;
    SelectionsAreValid(|doc|, ranges, everyPage);
    ConcatOfPicked(doc, selections, parts);
    PickedAll(doc);
    assert forall k :: 0 <= k < |parts| ==> |parts[k]| == |selections[k]| > 0;
  }

  lemma PickedAll(doc: Pdf)
    ensures Valid(PS.Range(1, |doc|), |doc|) && Picked(doc, PS.Range(1, |doc|)) == doc
  {
    RangeAt(1, |doc|);
  }

  lemma {:induction false} RangeAt(start: int, end: int)
    requires start <= end + 1
    ensures |PS.Range(start, end)| == end - start + 1
    ensures forall i :: 0 <= i < |PS.Range(start, end)| ==> PS.Range(start, end)[i] == start + i
    decreases end - start + 1
  {
    if start <= end {
      RangeAt(start + 1, end);
    }
  }

  /** One-page parts concatenate to 1..N, so the every-page split always merges back. */
  lemma EveryPageCovers(total: nat)
    ensures ConcatNumbers(seq(total, n => [n + 1])) == PS.Range(1, total)
  {
    EveryPageUpTo(total, total);
    RangeAt(1, total);
    assert seq(total, n => [n + 1])[..total] == seq(total, n => [n + 1]);
  }

  lemma {:induction false} EveryPageUpTo(total: nat, k: nat)
    requires k <= total
    ensures var c := ConcatNumbers(seq(total, n => [n + 1])[..k]);
      |c| == k && forall i :: 0 <= i < k ==> c[i] == i + 1
  {
    if k > 0 {
      EveryPageUpTo(total, k - 1);
      var all: seq<seq<int>> := seq(total, n => [n + 1]);
      assert all[..k][..k - 1] == all[..k - 1];
      assert all[..k][k - 1] == [k];
    }
  }

  ghost predicate Distinct(xs: seq<int>) {
    forall i, j :: 0 <= i < j < |xs| ==> xs[i] != xs[j]
  }

  lemma {:induction false} DistinctCounts(xs: seq<int>)
    requires Distinct(xs)
    ensures forall x :: multiset(xs)[x] <= 1
  {
    if xs != [] {
      var n := |xs| - 1;
      DistinctCounts(xs[..n]);
      assert xs == xs[..n] + [xs[n]];
    }
  }

  /** A permutation lists every page number exactly once. */
  lemma PermutationIff(order: seq<int>, total: nat)
    ensures IsPermutation(order, total) <==> |order| == total && forall k :: 1 <= k <= total ==> k in order
  {
    var range := PS.Range(1, total);
    RangeAt(1, total);
    forall k ensures multiset(range)[k] == if 1 <= k <= total then 1 else 0 {
      DistinctCounts(range);
      assert k in multiset(range) <==> k in range;
    }
    forall k ensures k in multiset(order) <==> k in order { }
    if IsPermutation(order, total) {
      PermutationIsValid(order, total);
      forall k | 1 <= k <= total ensures k in order {
        assert multiset(order)[k] == 1;
      }
    } else if |order| == total && forall k :: 1 <= k <= total ==> k in order {
      SameSize(multiset(range), multiset(order));
    }
  }

  lemma SameSize(a: multiset<int>, b: multiset<int>)
    requires |a| == |b| && forall k :: a[k] <= b[k]
    ensures a == b
  {
    var extra := b - a;
    forall k ensures (a + extra)[k] == b[k] {
      assert a[k] <= b[k];
    }
    assert a + extra == b;
    assert |extra| == 0;
  }

  function IndexOf(xs: seq<int>, x: int): (i: nat)
    requires x in xs
    ensures i < |xs| && xs[i] == x
  {
    if xs[0] == x then 0 else 1 + IndexOf(xs[1..], x)
  }

  /** The order that undoes `order`: page k goes back to where it was listed. */
  function Inverse(order: seq<int>, total: nat): (r: seq<int>)
    requires forall k :: 1 <= k <= total ==> k in order
    ensures |r| == total && forall i :: 0 <= i < total ==> 1 <= r[i] <= |order| && order[r[i] - 1] == i + 1
  {
    seq(total, i requires 0 <= i < total => IndexOf(order, i + 1) + 1)
  }

  lemma PermutationDistinct(order: seq<int>, total: nat)
    requires IsPermutation(order, total)
    ensures Distinct(order)
  {
    RangeAt(1, total);
    DistinctCounts(PS.Range(1, total));
    forall i, j | 0 <= i < j < |order| ensures order[i] != order[j] {
      assert order == order[..j] + order[j..];
      assert order[i] in multiset(order[..j]) && order[j] in multiset(order[j..]);
      assert multiset(order) == multiset(order[..j]) + multiset(order[j..]);
      assert multiset(order)[order[i]] <= 1;
    }
  }

  lemma InverseIsPermutation(order: seq<int>, total: nat)
    requires IsPermutation(order, total)
    ensures forall k :: 1 <= k <= total ==> k in order
    ensures IsPermutation(Inverse(order, total), total)
  {
    PermutationIff(order, total);
    PermutationIsValid(order, total);
    PermutationDistinct(order, total);
    var inverse := Inverse(order, total);
    forall k | 1 <= k <= total ensures k in inverse {
      var i := order[k - 1] - 1;
      assert order[inverse[i] - 1] == order[k - 1];
      assert inverse[i] == k;
    }
    PermutationIff(inverse, total);
  }

  /** Reordering by an order and then by its inverse is the identity. */
  lemma ReorderUndone(doc: Pdf, order: seq<int>)
    requires doc != [] && IsPermutation(order, |doc|)
    ensures forall k :: 1 <= k <= |doc| ==> k in order
    ensures Reordered(doc, order).Success?
    ensures Reordered(Reordered(doc, order).value, Inverse(order, |doc|)) == Success(doc)
  {
    hide IsPermutation;
    var total := |doc|;
    InverseIsPermutation(order, total);
    PermutationIsValid(order, total);
    PermutationIsValid(Inverse(order, total), total);
    PickedBack(doc, order, Inverse(order, total));
  }

  lemma PickedBack(doc: Pdf, order: seq<int>, inverse: seq<int>)
    requires |order| == |inverse| == |doc| && Valid(order, |doc|) && Valid(inverse, |doc|)
    requires forall i :: 0 <= i < |doc| ==> order[inverse[i] - 1] == i + 1
    ensures Picked(Picked(doc, order), inverse) == doc
  {
  }

  function AsSet(numbers: seq<int>): set<int> {
    set p | p in numbers
  }

  lemma {:induction false} RemainingMinusOne(doc: Pdf, doomed: set<int>, x: nat)
    requires 1 <= x <= |doc| && x !in doomed
    ensures multiset(Remaining(doc, doomed)) == multiset(Remaining(doc, doomed + {x})) + multiset{doc[x - 1]}
  {
    hide Remaining;
    var last := |doc| - 1;
    RemainingSnoc(doc, doomed);
    RemainingSnoc(doc, doomed + {x});
    if x == |doc| {
      RemainingIgnores(doc[..last], doomed, x);
    } else {
      RemainingMinusOne(doc[..last], doomed, x);
    }
  }

  function LastUnless(doc: Pdf, doomed: set<int>): Pdf
    requires doc != []
  {
    if |doc| in doomed then [] else [doc[|doc| - 1]]
  }

  lemma RemainingSnoc(doc: Pdf, doomed: set<int>)
    requires doc != []
    ensures Remaining(doc, doomed) == Remaining(doc[..|doc| - 1], doomed) + LastUnless(doc, doomed)
  {
  }

  lemma {:induction false} RemainingIgnores(doc: Pdf, doomed: set<int>, x: nat)
    requires x > |doc|
    ensures Remaining(doc, doomed + {x}) == Remaining(doc, doomed)
  {
    if doc != [] {
      RemainingIgnores(doc[..|doc| - 1], doomed, x);
    }
  }

  lemma {:induction false} RemainingNone(doc: Pdf)
    ensures Remaining(doc, {}) == doc
  {
    if doc != [] {
      RemainingNone(doc[..|doc| - 1]);
    }
  }

  lemma {:induction false} DistinctPartition(doc: Pdf, numbers: seq<int>)
    requires Valid(numbers, |doc|) && Distinct(numbers)
    ensures multiset(Remaining(doc, AsSet(numbers))) + multiset(Picked(doc, numbers)) == multiset(doc)
  {
    if numbers == [] {
      RemainingNone(doc);
      assert AsSet(numbers) == {};
    } else {
      var n := |numbers| - 1;
      var front, x := numbers[..n], numbers[n];
      DistinctPartition(doc, front);
      assert AsSet(numbers) == AsSet(front) + {x};
      RemainingMinusOne(doc, AsSet(front), x);
      assert Picked(doc, numbers) == Picked(doc, front) + [doc[x - 1]];
    }
  }

  lemma {:induction false} RemainingLength(doc: Pdf, numbers: seq<int>)
    requires Valid(numbers, |doc|)
    ensures |Remaining(doc, AsSet(numbers))| + |numbers| == |doc| <==> Distinct(numbers)
    ensures |Remaining(doc, AsSet(numbers))| + |numbers| >= |doc|
  {
    hide Remaining;
    if numbers == [] {
      RemainingNone(doc);
      assert AsSet(numbers) == {};
    } else {
      var n := |numbers| - 1;
      var front, x := numbers[..n], numbers[n];
      RemainingLength(doc, front);
      assert numbers == front + [x];
      assert AsSet(numbers) == AsSet(front) + {x};
      DistinctSnoc(front, x);
      if x in front {
        assert AsSet(numbers) == AsSet(front);
      } else {
        RemainingMinusOne(doc, AsSet(front), x);
        assert |multiset(Remaining(doc, AsSet(front)))| == |multiset(Remaining(doc, AsSet(numbers)))| + 1;
      }
    }
  }

  lemma DistinctSnoc(front: seq<int>, x: int)
    ensures Distinct(front + [x]) <==> Distinct(front) && x !in front
  {
    var numbers, n := front + [x], |front|;
    if Distinct(numbers) {
      assert forall k :: 0 <= k < n ==> numbers[k] == front[k] && numbers[k] != numbers[n];
    }
  }

  /** What delete keeps and what extract takes partition the pages of a document exactly
      when the selection has no duplicate. */
  lemma DeleteAndExtractPartition(doc: Pdf, spec: string)
    requires Deleted(doc, spec).Success?
    ensures Extracted(doc, spec).Success?
    ensures multiset(Deleted(doc, spec).value) + multiset(Extracted(doc, spec).value) == multiset(doc)
      <==> Distinct(PS.Selection(spec, |doc|).value)
  {
    var numbers := PS.Selection(spec, |doc|).value;
    SelectionIsValid(spec, |doc|);
    RemainingLength(doc, numbers);
    assert AsSet(numbers) == set p | p in numbers;
    var kept, taken := Deleted(doc, spec).value, Extracted(doc, spec).value;
    if Distinct(numbers) {
      DistinctPartition(doc, numbers);
    } else {
      assert |multiset(kept) + multiset(taken)| == |kept| + |taken|;
      assert |multiset(doc)| == |doc|;
    }
  }

  /** Turning the same pages back restores the document. */
  lemma TurnedBack(doc: Pdf, angle: int, selected: seq<int>, everyPage: bool, applyTo: Parity)
    ensures Turned(Turned(doc, angle, selected, everyPage, applyTo), -angle, selected, everyPage, applyTo) == doc
  {
  }

  // ---- What the operations do, page by page ----

  /** Split into every page: part `i` is page `i` alone. */
  lemma SplitIntoPages(doc: Pdf, ranges: seq<string>, parts: seq<Pdf>)
    requires Selections(|doc|, ranges, true).Success?
    requires IsSplit(doc, Selections(|doc|, ranges, true).value, parts)
    ensures |parts| == |doc| && forall i :: 0 <= i < |doc| ==> parts[i] == [doc[i]]
  {
  }

  /** Split by ranges: part `i` is what the i-th range selects; the first range that is
      rejected rejects the split. */
  lemma {:induction false} SplitByRanges(total: nat, ranges: seq<string>)
    ensures match ParseAll(total, ranges)
      case Success(selections) => |selections| == |ranges|
        && forall i :: 0 <= i < |ranges| ==> PS.Selection(ranges[i], total) == Success(selections[i])
      case Failure(e) => exists k :: 0 <= k < |ranges| && RejectedAt(total, ranges, k, e)
  {
    hide PS.Selection;
    if ranges != [] {
      var rest := ranges[1..];
      SplitByRanges(total, rest);
      assert forall i :: 0 <= i < |rest| ==> rest[i] == ranges[i + 1];
      match ParseAll(total, ranges) {
        case Success(selections) =>
          forall i | 0 <= i < |ranges| ensures PS.Selection(ranges[i], total) == Success(selections[i]) {
            assert i > 0 ==> rest[i - 1] == ranges[i];
          }
        case Failure(e) =>
          if PS.Selection(ranges[0], total).Failure? {
            assert RejectedAt(total, ranges, 0, e);
          } else {
            var k :| 0 <= k < |rest| && RejectedAt(total, rest, k, e);
            forall i | 0 <= i < k + 1 ensures PS.Selection(ranges[i], total).Success? {
              assert i > 0 ==> rest[i - 1] == ranges[i];
            }
            assert RejectedAt(total, ranges, k + 1, e);
          }
      }
    }
  }

  ghost predicate RejectedAt(total: nat, ranges: seq<string>, k: nat, e: Error) {
    && k < |ranges| && (forall i :: 0 <= i < k ==> PS.Selection(ranges[i], total).Success?)
    && PS.Selection(ranges[k], total).Failure? && e == BadSelection(PS.Selection(ranges[k], total).error)
  }

  /** Splitting asks for ranges unless every page is wanted. */
  lemma SplitChoices(total: nat, ranges: seq<string>)
    ensures Selections(total, ranges, true).Success?
    ensures Selections(total, [], false) == Failure(NoRanges)
    ensures ranges != [] ==> Selections(total, ranges, false) == ParseAll(total, ranges)
  {
  }

  /** A page turns by the angle exactly when it is selected, or all are, and its number has the
      parity asked for; nothing else about a page changes. */
  lemma TurnedPages(doc: Pdf, angle: int, selected: seq<int>, everyPage: bool, applyTo: Parity, i: nat)
    requires i < |doc|
    ensures var page := Turned(doc, angle, selected, everyPage, applyTo)[i];
      var turns := (everyPage || exists j :: 0 <= j < |selected| && selected[j] == i + 1)
        && match applyTo case All => true case Odd => i % 2 == 0 case Even => i % 2 == 1;
      page.content == doc[i].content && page.rotation == doc[i].rotation + if turns then angle else 0
  {
  }

  /** The numbers not doomed, increasing. */
  function Survivors(total: nat, doomed: set<int>): seq<int> {
    if total == 0 then [] else Survivors(total - 1, doomed) + if total in doomed then [] else [total as int]
  }

  lemma {:induction false} SurvivorsMeaning(total: nat, doomed: set<int>)
    ensures var s := Survivors(total, doomed);
      && (forall p :: p in s <==> 1 <= p <= total && p !in doomed)
      && (forall i, j :: 0 <= i < j < |s| ==> s[i] < s[j])
  {
    if total > 0 {
      SurvivorsMeaning(total - 1, doomed);
      var before := Survivors(total - 1, doomed);
      assert forall i :: 0 <= i < |before| ==> before[i] in before;
    }
  }

  /** Delete keeps exactly the other pages, in order. */
  lemma {:induction false} RemainingInOrder(doc: Pdf, doomed: set<int>)
    ensures Valid(Survivors(|doc|, doomed), |doc|)
    ensures Remaining(doc, doomed) == Picked(doc, Survivors(|doc|, doomed))
  {
    hide Picked;
    SurvivorsMeaning(|doc|, doomed);
    if doc != [] {
      var last := |doc| - 1;
      RemainingInOrder(doc[..last], doomed);
      PickedFromFront(doc, Survivors(last, doomed));
      RemainingSnoc(doc, doomed);
      if |doc| in doomed {
        assert Survivors(last, doomed) + [] == Survivors(last, doomed);
      } else {
        PickedConcat(doc, Survivors(last, doomed), [|doc|]);
        PickedOne(doc, |doc|);
      }
    } else {
      PickedNone(doc);
    }
  }

  lemma PickedFromFront(doc: Pdf, numbers: seq<int>)
    requires doc != [] && Valid(numbers, |doc| - 1)
    ensures Valid(numbers, |doc|) && Picked(doc, numbers) == Picked(doc[..|doc| - 1], numbers)
  {
  }

  lemma PickedOne(doc: Pdf, n: int)
    requires 1 <= n <= |doc|
    ensures Valid([n], |doc|) && Picked(doc, [n]) == [doc[n - 1]]
  {
  }

  lemma PickedNone(doc: Pdf)
    ensures Valid([], |doc|) && Picked(doc, []) == []
  {
  }

  /** Delete refuses exactly a selection of every page. */
  lemma DeleteRefusesAll(doc: Pdf, spec: string)
    requires doc != [] && PS.Selection(spec, |doc|).Success?
    ensures Deleted(doc, spec) == Failure(DeletesEverything) <==>
      forall p :: 1 <= p <= |doc| ==> p in PS.Selection(spec, |doc|).value
  {
    var numbers := PS.Selection(spec, |doc|).value;
    SelectionIsValid(spec, |doc|);
    hide Remaining, PS.Selection, Numbers;
    var doomed := set p | p in numbers;
    assert forall p :: p in doomed <==> p in numbers;
    assert forall p :: p in doomed ==> 1 <= p <= |doc|;
    NumbersUpTo(|doc|);
    assert doomed == Numbers(|doc|) <==> forall p :: 1 <= p <= |doc| ==> p in numbers;
    CoversAll(doomed, Numbers(|doc|));
  }

  lemma CoversAll(some: set<int>, all: set<int>)
    requires some <= all
    ensures |some| >= |all| <==> some == all
  {
    assert all == some + (all - some);
    assert |all| == |some| + |all - some|;
  }

  function Numbers(n: nat): set<int> {
    if n == 0 then {} else Numbers(n - 1) + {n as int}
  }

  lemma {:induction false} NumbersUpTo(n: nat)
    ensures |Numbers(n)| == n && forall p :: p in Numbers(n) <==> 1 <= p <= n
  {
    if n > 0 {
      NumbersUpTo(n - 1);
    }
  }
}
