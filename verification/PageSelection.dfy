/** The two parsers of page selections such as "1,3-5". Text is ASCII: other decimal
    digits and blanks that Python accepts are not modelled. */
module PageSelection {
  import opened Wrappers
  import opened Decimals

  datatype SelectionError = Invalid | Empty | OutOfRange(pages: set<int>)

  // ---- Python's string operations ----

  function RemoveSpaces(s: string): string {
    if s == "" then "" else (if s[0] == ' ' then "" else [s[0]]) + RemoveSpaces(s[1..])
  }

  function Split(s: string, sep: char): (parts: seq<string>)
    ensures parts != []
  {
    if s == "" then [""]
    else
      var rest := Split(s[1..], sep);
      if s[0] == sep then [""] + rest else [[s[0]] + rest[0]] + rest[1..]
  }

  /** Index of the first `c`; `|s|` when there is none. */
  function IndexOf(s: string, c: char): (i: nat)
    ensures i <= |s| && (i < |s| ==> s[i] == c) && (c in s <==> i < |s|)
  {
    if s == "" || s[0] == c then 0 else 1 + IndexOf(s[1..], c)
  }

  predicate IsBlank(c: char) {
    c == ' ' || 9 <= c as int <= 13 || 28 <= c as int <= 31
  }

  function StripLeft(s: string): string {
    if s != "" && IsBlank(s[0]) then StripLeft(s[1..]) else s
  }

  function StripRight(s: string): string {
    if s != "" && IsBlank(s[|s| - 1]) then StripRight(s[..|s| - 1]) else s
  }

  /** Digits, with single underscores allowed between them. */
  function Unsigned(s: string): Option<nat> {
    if s == "" || !IsDigit(s[|s| - 1]) then None
    else
      var d := DigitValue(s[|s| - 1]);
      var front := s[..|s| - 1];
      if front == "" then Some(d)
      else
        var head := Unsigned(if front[|front| - 1] == '_' then front[..|front| - 1] else front);
        if head.Some? then Some(10 * head.value + d) else None
  }

  /** `int(s)`; `None` for a ValueError. */
  function ParseInt(s: string): Option<int> {
    var core := StripRight(StripLeft(s));
    if core == "" then None
    else if core[0] == '-' || core[0] == '+' then
      match Unsigned(core[1..])
      case Some(n) => var m: int := n; Some(if core[0] == '-' then -m else m)
      case None => None
    else match Unsigned(core)
      case Some(n) => Some(n)
      case None => None
  }

  /** `range(start, end + 1)`. */
  function Range(start: int, end: int): (r: seq<int>)
    ensures forall p :: p in r <==> start <= p <= end
    ensures start <= end ==> |r| == end - start + 1
    decreases end - start
  {
    if start > end then [] else [start] + Range(start + 1, end)
  }

  /** One comma-separated part: a number, or two joined by the first dash. */
  function ParsePart(part: string): Option<seq<int>> {
    if '-' in part then
      var i := IndexOf(part, '-');
      var start, end := ParseInt(part[..i]), ParseInt(part[i + 1..]);
      if start.Some? && end.Some? then Some(Range(start.value, end.value)) else None
    else match ParseInt(part)
      case Some(n) => Some([n])
      case None => None
  }

  // ---- The two parsers ----

  /** All pages of a list of parts, in order, skipping empty parts. */
  function PagesOf(parts: seq<string>): Option<seq<int>> {
    if parts == [] then Some([])
    else
      var front, last := PagesOf(parts[..|parts| - 1]), parts[|parts| - 1];
      if front.None? then None
      else if last == "" then front
      else match ParsePart(last)
        case Some(pages) => Some(front.value + pages)
        case None => None
  }

  /** What the first parser returns: page numbers in the order written, all in range. */
  function Selection(spec: string, total: nat): Result<seq<int>, SelectionError> {
    match PagesOf(Split(RemoveSpaces(spec), ','))
    case None => Failure(Invalid)
    case Some(pages) =>
      if pages == [] then Failure(Empty)
      else
        var bad := set p | p in pages && (p < 1 || p > total);
        if bad != {} then Failure(OutOfRange(bad)) else Success(pages)
  }

  method ParsePageSelection(spec: string, total: nat) returns (r: Result<seq<int>, SelectionError>)
    ensures r == Selection(spec, total)
  {
    hide ParseInt, Split, RemoveSpaces, IndexOf, PagesOf, Range;
    var pages: seq<int> := [];
    var parts := Split(RemoveSpaces(spec), ',');
    assert PagesOf(parts[..0]) == Some([]) by { NoPagesYet(parts[..0]); }
    for i := 0 to |parts|
      invariant PagesOf(parts[..i]) == Some(pages)
    {
      PagesOfSnoc(parts, i);
      var part := parts[i];
      if part == "" {
        continue;
      }
      if '-' in part {
        var dash := IndexOf(part, '-');
        var start, end := ParseInt(part[..dash]), ParseInt(part[dash + 1..]);
        if start.None? || end.None? {
          FailureSticks(parts, i + 1);
          return Failure(Invalid);
        }
        pages := pages + Range(start.value, end.value);
      } else {
        var n := ParseInt(part);
        if n.None? {
          FailureSticks(parts, i + 1);
          return Failure(Invalid);
        }
        pages := pages + [n.value];
      }
    }
    assert parts[..|parts|] == parts;
    if pages == [] {
      return Failure(Empty);
    }
    var outOfRange := set p | p in pages && (p < 1 || p > total);
    if outOfRange != {} {
      return Failure(OutOfRange(outOfRange));
    }
    return Success(pages);
  }

  lemma NoPagesYet(none: seq<string>)
    requires none == []
    ensures PagesOf(none) == Some([])
  {
  }

  lemma PagesOfSnoc(parts: seq<string>, i: nat)
    requires i < |parts|
    ensures PagesOf(parts[..i + 1]) ==
      var front, part := PagesOf(parts[..i]), parts[i];
      if front.None? || part == "" then front
      else if ParsePart(part).None? then None
      else Some(front.value + ParsePart(part).value)
  {
    assert parts[..i + 1][..i] == parts[..i];
  }

  lemma {:induction false} FailureSticks(parts: seq<string>, n: nat)
    requires n <= |parts| && PagesOf(parts[..n]) == None
    ensures PagesOf(parts) == None
    decreases |parts| - n
  {
    if n == |parts| {
      assert parts[..n] == parts;
    } else {
      assert parts[..n + 1][..n] == parts[..n];
      FailureSticks(parts, n + 1);
    }
  }

  /** The pages the second parser selects with its parts; `None` for a ValueError. */
  function SelectedBy(parts: seq<string>): Option<set<int>> {
    if parts == [] then Some({})
    else
      var front, last := SelectedBy(parts[..|parts| - 1]), ParsePart(parts[|parts| - 1]);
      if front.None? || last.None? then None
      else Some(front.value + set p | p in last.value)
  }

  /** What the second parser selects; a missing or empty specification selects every page. */
  datatype PageFilter = EveryPage | Only(pages: set<int>) | Rejected

  function RangeFilter(spec: string): PageFilter {
    if spec == "" then EveryPage
    else match SelectedBy(Split(spec, ','))
      case Some(pages) => Only(pages)
      case None => Rejected
  }

  predicate Admits(f: PageFilter, page: int) {
    f.EveryPage? || (f.Only? && page in f.pages)
  }

  method ParsePageRange(spec: string) returns (f: PageFilter)
    ensures f == RangeFilter(spec)
  {
    if spec == "" {
      return EveryPage;
    }
    var selected: set<int> := {};
    var parts := Split(spec, ',');
    for i := 0 to |parts|
      invariant SelectedBy(parts[..i]) == Some(selected)
    {
      assert parts[..i + 1][..i] == parts[..i];
      var pages := ParsePart(parts[i]);
      if pages.None? {
        RejectionSticks(parts, i + 1);
        return Rejected;
      }
      selected := selected + set p | p in pages.value;
    }
    assert parts[..|parts|] == parts;
    return Only(selected);
  }

  lemma {:induction false} RejectionSticks(parts: seq<string>, n: nat)
    requires n <= |parts| && SelectedBy(parts[..n]) == None
    ensures SelectedBy(parts) == None
    decreases |parts| - n
  {
    if n == |parts| {
      assert parts[..n] == parts;
    } else {
      assert parts[..n + 1][..n] == parts[..n];
      RejectionSticks(parts, n + 1);
    }
  }

  // ---- Printing and parsing ----

  /** "3,1,2" for [3, 1, 2]. */
  function Print(pages: seq<nat>): string
    requires pages != []
  {
    if |pages| == 1 then Decimal(pages[0]) else Decimal(pages[0]) + "," + Print(pages[1..])
  }

  function Printed(pages: seq<nat>): (parts: seq<string>)
    ensures |parts| == |pages|
  {
    seq(|pages|, i requires 0 <= i < |pages| => Decimal(pages[i]))
  }

  lemma {:induction false} SplitWithout(a: string, rest: string, sep: char)
    requires sep !in a
    ensures Split(a + [sep] + rest, sep) == [a] + Split(rest, sep)
    ensures Split(a, sep) == [a]
  {
    if a == "" {
      assert a + [sep] + rest == [sep] + rest;
    } else {
      SplitWithout(a[1..], rest, sep);
      assert (a + [sep] + rest)[1..] == a[1..] + [sep] + rest;
      assert [a[0]] + a[1..] == a;
    }
  }

  lemma {:induction false} NoSpaces(s: string)
    requires ' ' !in s
    ensures RemoveSpaces(s) == s
  {
    if s != "" {
      NoSpaces(s[1..]);
    }
  }

  lemma {:induction false} PrintSplits(pages: seq<nat>)
    requires pages != []
    ensures Split(Print(pages), ',') == Printed(pages) && ' ' !in Print(pages)
  {
    var d := Decimal(pages[0]);
    assert ',' !in d && ' ' !in d;
    if |pages| == 1 {
      SplitWithout(d, "", ',');
    } else {
      PrintSplits(pages[1..]);
      SplitWithout(d, Print(pages[1..]), ',');
      assert Printed(pages) == [d] + Printed(pages[1..]);
    }
  }

  lemma {:induction false} UnsignedDigits(s: string)
    requires s != "" && AllDigits(s)
    ensures Unsigned(s) == Some(Value(s))
  {
    var front := s[..|s| - 1];
    if front != "" {
      assert IsDigit(front[|front| - 1]);
      UnsignedDigits(front);
    } else {
      assert Value(front) == 0;
    }
  }

  lemma ParseDecimal(n: nat)
    ensures ParsePart(Decimal(n)) == Some([n])
  {
    var d := Decimal(n);
    assert IsDigit(d[0]) && IsDigit(d[|d| - 1]);
    assert StripRight(StripLeft(d)) == d;
    UnsignedDigits(d);
    ValueOfDecimal(n);
    assert '-' !in d;
  }

  lemma {:induction false} PagesOfPrinted(pages: seq<nat>)
    ensures PagesOf(Printed(pages)) == Some(AsInts(pages))
  {
    if pages != [] {
      var n := |pages| - 1;
      PagesOfPrinted(pages[..n]);
      assert Printed(pages)[..n] == Printed(pages[..n]);
      ParseDecimal(pages[n]);
      assert AsInts(pages) == AsInts(pages[..n]) + [pages[n]];
    }
  }

  function AsInts(pages: seq<nat>): (r: seq<int>)
    ensures |r| == |pages|
  {
    seq(|pages|, i requires 0 <= i < |pages| => pages[i] as int)
  }

  /** Printing any non-empty list of valid page numbers and parsing it gives the list back. */
  lemma ParsePrint(pages: seq<nat>, total: nat)
    requires pages != [] && forall i :: 0 <= i < |pages| ==> 1 <= pages[i] <= total
    ensures Selection(Print(pages), total) == Success(AsInts(pages))
  {
    PrintSplits(pages);
    NoSpaces(Print(pages));
    PagesOfPrinted(pages);
    var ints := AsInts(pages);
    assert forall p :: p in ints ==> 1 <= p <= total;
    assert (set p | p in ints && (p < 1 || p > total)) == {};
  }

  // ---- The parsers agree where both accept ----

  lemma {:induction false} RemoveSpacesConcat(a: string, b: string)
    ensures RemoveSpaces(a + b) == RemoveSpaces(a) + RemoveSpaces(b)
  {
    if a == "" {
      assert a + b == b;
    } else {
      assert (a + b)[1..] == a[1..] + b;
      RemoveSpacesConcat(a[1..], b);
    }
  }

  predicate AllBlank(s: string) {
    forall i :: 0 <= i < |s| ==> IsBlank(s[i])
  }

  /** Surrounding blanks do not matter to `Strip`. */
  lemma {:induction false} StripSurrounded(a: string, core: string, b: string)
    requires AllBlank(a) && AllBlank(b)
    requires core != "" && !IsBlank(core[0]) && !IsBlank(core[|core| - 1])
    ensures StripRight(StripLeft(a + core + b)) == core
  {
    if a != "" {
      assert (a + core + b)[1..] == a[1..] + core + b;
      StripSurrounded(a[1..], core, b);
    } else {
      assert a + core + b == core + b;
      StripRightOnly(core, b);
    }
  }

  lemma {:induction false} StripRightOnly(core: string, b: string)
    requires AllBlank(b) && core != "" && !IsBlank(core[|core| - 1])
    ensures StripRight(core + b) == core
  {
    if b == "" {
      assert core + b == core;
    } else {
      assert (core + b)[..|core + b| - 1] == core + b[..|b| - 1];
      StripRightOnly(core, b[..|b| - 1]);
    }
  }

  lemma {:induction false} StripLeftParts(s: string) returns (a: string)
    ensures AllBlank(a) && s == a + StripLeft(s) && (StripLeft(s) != "" ==> !IsBlank(StripLeft(s)[0]))
  {
    if s != "" && IsBlank(s[0]) {
      a := StripLeftParts(s[1..]);
      a := [s[0]] + a;
    } else {
      a := "";
    }
  }

  lemma {:induction false} StripRightParts(s: string) returns (b: string)
    ensures AllBlank(b) && s == StripRight(s) + b
    ensures StripRight(s) != "" ==> !IsBlank(StripRight(s)[|StripRight(s)| - 1])
  {
    if s != "" && IsBlank(s[|s| - 1]) {
      b := StripRightParts(s[..|s| - 1]);
      b := b + [s[|s| - 1]];
      assert s == s[..|s| - 1] + [s[|s| - 1]];
    } else {
      b := "";
    }
  }

  lemma {:induction false} BlankStaysBlank(a: string)
    requires AllBlank(a)
    ensures AllBlank(RemoveSpaces(a))
  {
    if a != "" {
      BlankStaysBlank(a[1..]);
    }
  }

  lemma {:induction false} UnsignedHasNoSpace(s: string)
    requires Unsigned(s).Some?
    ensures ' ' !in s
  {
    var front := s[..|s| - 1];
    assert s == front + [s[|s| - 1]];
    if front != "" {
      if front[|front| - 1] == '_' {
        UnsignedHasNoSpace(front[..|front| - 1]);
        assert front == front[..|front| - 1] + ['_'];
      } else {
        UnsignedHasNoSpace(front);
      }
    }
  }

  lemma CoreHasNoSpace(core: string)
    requires core != ""
    requires Unsigned(if core[0] == '-' || core[0] == '+' then core[1..] else core).Some?
    ensures ' ' !in core
  {
    if core[0] == '-' || core[0] == '+' {
      UnsignedHasNoSpace(core[1..]);
      assert core == [core[0]] + core[1..];
    } else {
      UnsignedHasNoSpace(core);
    }
  }

  /** An accepted number keeps its value when spaces are removed first. */
  lemma ParseIntWithoutSpaces(s: string)
    requires ParseInt(s).Some?
    ensures ParseInt(RemoveSpaces(s)) == ParseInt(s) && RemoveSpaces(s) != ""
  {
    hide StripLeft, StripRight, RemoveSpaces, Unsigned;
    var left := StripLeft(s);
    var a := StripLeftParts(s);
    var b := StripRightParts(left);
    var core := StripRight(left);
    assert s == a + core + b;
    CoreHasNoSpace(core);
    assert core[0] == left[0];
    NoSpaces(core);
    RemoveSpacesConcat(a + core, b);
    RemoveSpacesConcat(a, core);
    BlankStaysBlank(a);
    BlankStaysBlank(b);
    StripSurrounded(RemoveSpaces(a), core, RemoveSpaces(b));
  }

  lemma {:induction false} IndexOfFirst(a: string, rest: string, c: char)
    requires c !in a
    ensures IndexOf(a + [c] + rest, c) == |a|
  {
    if a != "" {
      assert (a + [c] + rest)[1..] == a[1..] + [c] + rest;
      IndexOfFirst(a[1..], rest, c);
    }
  }

  lemma {:induction false} IndexOfIsFirst(s: string, c: char)
    ensures c !in s[..IndexOf(s, c)]
  {
    if s != "" && s[0] != c {
      IndexOfIsFirst(s[1..], c);
      assert s[..IndexOf(s, c)] == [s[0]] + s[1..][..IndexOf(s[1..], c)];
    }
  }

  lemma {:induction false} RemoveSpacesKeeps(s: string, c: char)
    requires c != ' '
    ensures c in RemoveSpaces(s) <==> c in s
  {
    if s != "" {
      RemoveSpacesKeeps(s[1..], c);
      assert s == [s[0]] + s[1..];
    }
  }

  /** Removing spaces does not move the first dash between the two halves. */
  lemma DashSurvives(s: string)
    requires '-' in s
    ensures var i, t := IndexOf(s, '-'), RemoveSpaces(s);
      && '-' in t
      && t[..IndexOf(t, '-')] == RemoveSpaces(s[..i]) && t[IndexOf(t, '-') + 1..] == RemoveSpaces(s[i + 1..])
  {
    hide IndexOf, RemoveSpaces;
    var i := IndexOf(s, '-');
    var a, b := RemoveSpaces(s[..i]), RemoveSpaces(s[i + 1..]);
    assert s == s[..i] + ['-'] + s[i + 1..];
    RemoveSpacesConcat(s[..i] + ['-'], s[i + 1..]);
    RemoveSpacesConcat(s[..i], ['-']);
    NoSpaces(['-']);
    IndexOfIsFirst(s, '-');
    RemoveSpacesKeeps(s[..i], '-');
    IndexOfFirst(a, b, '-');
    assert RemoveSpaces(s) == a + ['-'] + b;
    RemoveSpacesKeeps(s, '-');
  }

  lemma ParsePartWithoutSpaces(part: string)
    requires ParsePart(part).Some?
    ensures ParsePart(RemoveSpaces(part)) == ParsePart(part) && RemoveSpaces(part) != ""
  {
    RemoveSpacesKeeps(part, '-');
    if '-' in part {
      DashSurvives(part);
      var i := IndexOf(part, '-');
      ParseIntWithoutSpaces(part[..i]);
      ParseIntWithoutSpaces(part[i + 1..]);
    } else {
      ParseIntWithoutSpaces(part);
    }
  }

  function EachWithoutSpaces(parts: seq<string>): (r: seq<string>)
    ensures |r| == |parts|
  {
    seq(|parts|, i requires 0 <= i < |parts| => RemoveSpaces(parts[i]))
  }

  lemma {:induction false} SplitWithoutSpaces(s: string)
    ensures Split(RemoveSpaces(s), ',') == EachWithoutSpaces(Split(s, ','))
  {
    if s != "" {
      SplitWithoutSpaces(s[1..]);
      var rest := Split(s[1..], ',');
      if s[0] == ',' {
        assert RemoveSpaces(s) == [','] + RemoveSpaces(s[1..]);
      } else if s[0] == ' ' {
        assert RemoveSpaces(s) == RemoveSpaces(s[1..]);
        assert RemoveSpaces([' '] + rest[0]) == RemoveSpaces(rest[0]) by { assert ([' '] + rest[0])[1..] == rest[0]; }
      } else {
        assert RemoveSpaces(s) == [s[0]] + RemoveSpaces(s[1..]);
        assert RemoveSpaces(s)[1..] == RemoveSpaces(s[1..]);
        assert ([s[0]] + rest[0])[1..] == rest[0];
      }
    }
  }

  lemma {:induction false} SamePages(parts: seq<string>)
    requires SelectedBy(parts).Some?
    ensures PagesOf(EachWithoutSpaces(parts)).Some?
    ensures (set p | p in PagesOf(EachWithoutSpaces(parts)).value) == SelectedBy(parts).value
  {
    if parts != [] {
      var n := |parts| - 1;
      SamePages(parts[..n]);
      assert EachWithoutSpaces(parts)[..n] == EachWithoutSpaces(parts[..n]);
      ParsePartWithoutSpaces(parts[n]);
    }
  }

  /** Both parsers select the same page set on every specification they both accept. */
  lemma ParsersAgree(spec: string, total: nat)
    requires Selection(spec, total).Success? && !RangeFilter(spec).Rejected?
    ensures forall p :: Admits(RangeFilter(spec), p) <==> p in Selection(spec, total).value
  {
    if spec == "" {
      EmptyIsRejected(total);
    } else {
      SplitWithoutSpaces(spec);
      SamePages(Split(spec, ','));
    }
  }

  lemma EmptyIsRejected(total: nat)
    ensures Selection("", total) == Failure(Empty)
  {
    assert Split(RemoveSpaces(""), ',') == [""];
    assert [""][..0] == [];
    assert PagesOf([""]) == Some([]);
  }

  /** Whatever the second parser accepts, other than the empty specification, the first
      parser accepts too, unless it selects no page or one outside the document. */
  lemma RangeAcceptedBySelection(spec: string, total: nat)
    requires RangeFilter(spec).Only?
    ensures Selection(spec, total).Success? <==>
      RangeFilter(spec).pages != {} && forall p :: p in RangeFilter(spec).pages ==> 1 <= p <= total
  {
    hide Split, RemoveSpaces, PagesOf, SelectedBy;
    SplitWithoutSpaces(spec);
    SamePages(Split(spec, ','));
    var pages := PagesOf(Split(RemoveSpaces(spec), ',')).value;
    var bad := set p | p in pages && (p < 1 || p > total);
    assert pages != [] ==> pages[0] in pages;
    assert forall p :: p in RangeFilter(spec).pages <==> p in pages;
    assert forall p :: p in bad <==> p in pages && (p < 1 || p > total);
  }
}
