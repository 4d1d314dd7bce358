/** Selections written as lists of numbers and ranges, and what they denote. */
module PageItems {
  import opened Wrappers
  import opened Decimals
  import opened PageSelection

  // ---- What a specification denotes ----

  /** A number, or all numbers from `a` to `b`. */
  datatype Item = One(n: nat) | Span(a: nat, b: nat)

  function PrintItem(item: Item): string {
    match item
    case One(n) => Decimal(n)
    case Span(a, b) => Decimal(a) + "-" + Decimal(b)
  }

  /** "3,1-5,7" for a list of items. */
  function PrintItems(items: seq<Item>): string
    requires items != []
  {
    if |items| == 1 then PrintItem(items[0]) else PrintItem(items[0]) + "," + PrintItems(items[1..])
  }

  /** The pages of an item: itself, or `b - a + 1` of them, the i-th being `a + i`. */
  function Denoted(item: Item): seq<int> {
    match item
    case One(n) => [n as int]
    case Span(a, b) => if a <= b then seq(b - a + 1, i => a + i) else []
  }

  function AllDenoted(items: seq<Item>): seq<int> {
    if items == [] then [] else AllDenoted(items[..|items| - 1]) + Denoted(items[|items| - 1])
  }

  lemma ParseDigits(n: nat)
    ensures ParseInt(Decimal(n)) == Some(n)
  {
    var d := Decimal(n);
    assert IsDigit(d[0]) && IsDigit(d[|d| - 1]);
    assert StripRight(StripLeft(d)) == d;
    UnsignedDigits(d);
    ValueOfDecimal(n);
  }

  lemma {:induction false} RangeEntries(start: int, end: int)
    ensures Range(start, end) == if start <= end then seq(end - start + 1, i => start + i) else []
    decreases end - start
  {
    if start <= end {
      RangeEntries(start + 1, end);
    }
  }

  lemma ParseItem(item: Item)
    ensures PrintItem(item) != "" && ',' !in PrintItem(item) && ' ' !in PrintItem(item)
    ensures ParsePart(PrintItem(item)) == Some(Denoted(item))
  {
    hide ParsePart, ParseInt, Range, Decimal, Denoted, PrintItem;
    match item
    case One(n) => OneItem(n);
    case Span(a, b) => SpanItem(a, b);
  }

  lemma OneItem(n: nat)
    ensures PrintItem(One(n)) == Decimal(n) && Denoted(One(n)) == [n]
    ensures Decimal(n) != "" && ',' !in Decimal(n) && ' ' !in Decimal(n) && ParsePart(Decimal(n)) == Some([n])
  {
    ParseDecimal(n);
    NoMarks(n);
  }

  lemma SpanItem(a: nat, b: nat)
    ensures var text := PrintItem(Span(a, b));
      text != "" && ',' !in text && ' ' !in text && ParsePart(text) == Some(Denoted(Span(a, b)))
  {
    hide ParsePart, ParseInt, Range, Decimal;
    NoMarks(a);
    NoMarks(b);
    NoneInJoin(Decimal(a), Decimal(b), ',');
    NoneInJoin(Decimal(a), Decimal(b), ' ');
    ParseDash(Decimal(a), Decimal(b));
    ParseDigits(a);
    ParseDigits(b);
    RangeEntries(a, b);
  }

  lemma NoneInJoin(s: string, t: string, c: char)
    requires c !in s && c !in t && c != '-'
    ensures c !in s + "-" + t
  {
    var text := s + "-" + t;
    forall i | 0 <= i < |text| ensures text[i] != c {
      if i < |s| { assert text[i] == s[i]; }
      else if i > |s| { assert text[i] == t[i - |s| - 1]; }
    }
  }

  lemma NoMarks(n: nat)
    ensures '-' !in Decimal(n) && ',' !in Decimal(n) && ' ' !in Decimal(n)
  {
    var d := Decimal(n);
    assert forall i :: 0 <= i < |d| ==> IsDigit(d[i]);
  }

  lemma ParseDash(s: string, t: string)
    requires '-' !in s
    ensures ParsePart(s + "-" + t) ==
      match (ParseInt(s), ParseInt(t))
      case (Some(a), Some(b)) => Some(Range(a, b))
      case _ => None
  {
    hide ParseInt, Range, IndexOf;
    var part := s + "-" + t;
    IndexOfFirst(s, t, '-');
    assert part[..|s|] == s && part[|s| + 1..] == t && part[|s|] == '-';
  }

  function EachPrinted(items: seq<Item>): (parts: seq<string>)
    ensures |parts| == |items|
  {
    seq(|items|, i requires 0 <= i < |items| => PrintItem(items[i]))
  }

  lemma {:induction false} ItemsSplit(items: seq<Item>)
    requires items != []
    ensures Split(PrintItems(items), ',') == EachPrinted(items) && ' ' !in PrintItems(items)
    ensures PrintItems(items) != ""
  {
    hide ParsePart, PrintItem, Denoted, Split;
    var d := PrintItem(items[0]);
    ParseItem(items[0]);
    if |items| == 1 {
      SplitWithout(d, "", ',');
    } else {
      ItemsSplit(items[1..]);
      SplitWithout(d, PrintItems(items[1..]), ',');
      assert EachPrinted(items) == [d] + EachPrinted(items[1..]);
    }
  }

  lemma {:induction false} PagesOfItems(items: seq<Item>)
    ensures PagesOf(EachPrinted(items)) == Some(AllDenoted(items))
    ensures SelectedBy(EachPrinted(items)) == Some(set p | p in AllDenoted(items))
  {
    hide ParsePart, PrintItem, Denoted;
    if items == [] {
      assert (set p | p in AllDenoted(items)) == {};
    } else {
      var n := |items| - 1;
      PagesOfItems(items[..n]);
      assert EachPrinted(items)[..n] == EachPrinted(items[..n]);
      ParseItem(items[n]);
      SetOfConcat(AllDenoted(items[..n]), Denoted(items[n]));
    }
  }

  lemma SetOfConcat(a: seq<int>, b: seq<int>)
    ensures (set p | p in a + b) == (set p | p in a) + set p | p in b
  {
  }

  /** The item lies within a document of `total` pages. */
  predicate Within(item: Item, total: nat) {
    match item
    case One(n) => 1 <= n <= total
    case Span(a, b) => 1 <= a <= b <= total
  }

  lemma {:induction false} DenotedWithin(items: seq<Item>, total: nat)
    requires forall i :: 0 <= i < |items| ==> Within(items[i], total)
    ensures forall p :: p in AllDenoted(items) ==> 1 <= p <= total
    ensures items != [] ==> AllDenoted(items) != []
  {
    if items != [] {
      DenotedWithin(items[..|items| - 1], total);
      assert Within(items[|items| - 1], total);
    }
  }

  /** A list of numbers and ranges denotes each number, and each range's pages, in the order
      written: so the first parser returns them, and the second admits exactly them. */
  lemma ParseItems(items: seq<Item>, total: nat)
    requires items != [] && forall i :: 0 <= i < |items| ==> Within(items[i], total)
    ensures Selection(PrintItems(items), total) == Success(AllDenoted(items))
    ensures RangeFilter(PrintItems(items)) == Only(set p | p in AllDenoted(items))
  {
    hide Split, RemoveSpaces, PagesOf, SelectedBy, AllDenoted;
    ItemsSplit(items);
    NoSpaces(PrintItems(items));
    PagesOfItems(items);
    DenotedWithin(items, total);
    assert (set p | p in AllDenoted(items) && (p < 1 || p > total)) == {};
  }

  /** "a-b" is the pages from a to b, each once. */
  lemma ParseSpan(a: nat, b: nat, total: nat)
    requires 1 <= a <= b <= total
    ensures var r := Selection(Decimal(a) + "-" + Decimal(b), total);
      r.Success? && |r.value| == b - a + 1 && forall i :: 0 <= i <= b - a ==> r.value[i] == a + i
  {
    var items := [Span(a, b)];
    ParseItems(items, total);
    assert items[..0] == [];
    assert AllDenoted(items) == AllDenoted([]) + Denoted(Span(a, b)) == Denoted(Span(a, b));
    assert PrintItems(items) == PrintItem(Span(a, b));
  }

  /** Python's integers: a sign, and blanks around. */
  lemma SignsAndBlanks(n: nat, a: string, b: string)
    requires AllBlank(a) && AllBlank(b)
    ensures ParseInt(a + Decimal(n) + b) == Some(n)
    ensures ParseInt(a + ("-" + Decimal(n)) + b) == Some(0 - n as int)
    ensures ParseInt(a + ("+" + Decimal(n)) + b) == Some(n)
  {
    hide StripLeft, StripRight, ParseInt, Decimal;
    var d := Decimal(n);
    assert IsDigit(d[0]) && IsDigit(d[|d| - 1]);
    UnsignedDigits(d);
    ValueOfDecimal(n);
    StripSurrounded(a, d, b);
    ParseCore(a + d + b, d);
    StripSurrounded(a, "-" + d, b);
    SignedCore(a + ("-" + d) + b, '-', d);
    StripSurrounded(a, "+" + d, b);
    SignedCore(a + ("+" + d) + b, '+', d);
  }

  lemma ParseCore(s: string, core: string)
    requires StripRight(StripLeft(s)) == core && core != "" && IsDigit(core[0])
    ensures ParseInt(s) == match Unsigned(core) case Some(n) => Some(n) case None => None
  {
  }

  lemma SignedCore(s: string, sign: char, digits: string)
    requires StripRight(StripLeft(s)) == [sign] + digits && (sign == '-' || sign == '+')
    ensures ParseInt(s) ==
      match Unsigned(digits)
      case Some(n) => Some(if sign == '-' then 0 - n as int else n)
      case None => None
  {
    assert ([sign] + digits)[1..] == digits;
  }

  /** A single underscore between digits does not count. */
  lemma {:induction false} UnderscoreIgnored(a: string, b: string)
    requires a != "" && b != "" && AllDigits(a) && AllDigits(b)
    ensures Unsigned(a + "_" + b) == Some(Value(a + b))
  {
    var s, n := a + "_" + b, |b| - 1;
    var front := s[..|s| - 1];
    assert s[|s| - 1] == b[n] && front == a + "_" + b[..n];
    assert (a + b)[..|a + b| - 1] == a + b[..n] && (a + b)[|a + b| - 1] == b[n];
    if n == 0 {
      assert front[|front| - 1] == '_' && front[..|front| - 1] == a;
      assert a + b[..n] == a;
      UnsignedDigits(a);
    } else {
      assert front[|front| - 1] == b[n - 1] && IsDigit(b[n - 1]);
      UnderscoreIgnored(a, b[..n]);
    }
  }

  /** The first parser skips empty parts; the second rejects them. */
  lemma {:induction false} EmptyParts(a: seq<string>, b: seq<string>)
    ensures PagesOf(a + [""] + b) == PagesOf(a + b)
    ensures SelectedBy(a + [""] + b) == None
  {
    var all := a + [""] + b;
    if b == [] {
      assert all[..|a|] == a && all[|a|] == "" && a + b == a;
      assert ParsePart("") == None;
    } else {
      var n := |b| - 1;
      EmptyParts(a, b[..n]);
      assert all[..|all| - 1] == a + [""] + b[..n] && all[|all| - 1] == b[n];
      assert (a + b)[..|a + b| - 1] == a + b[..n] && (a + b)[|a + b| - 1] == b[n];
    }
  }

  /** What the first parser accepts lies in the document; it rejects a selection for exactly
      the selected pages that do not. */
  lemma SelectionErrors(spec: string, total: nat)
    ensures match Selection(spec, total)
      case Success(pages) => pages != [] && forall i :: 0 <= i < |pages| ==> 1 <= pages[i] <= total
      case Failure(Invalid) => PagesOf(Split(RemoveSpaces(spec), ',')).None?
      case Failure(Empty) => PagesOf(Split(RemoveSpaces(spec), ',')) == Some([])
      case Failure(OutOfRange(bad)) =>
        var pages := PagesOf(Split(RemoveSpaces(spec), ','));
        bad != {} && pages.Some? && forall p :: p in bad <==> p in pages.value && !(1 <= p <= total)
  {
    hide PagesOf, Split, RemoveSpaces;
    var r := Selection(spec, total);
    if r.Success? {
      var bad := set p | p in r.value && (p < 1 || p > total);
      assert bad == {};
      forall i | 0 <= i < |r.value| ensures 1 <= r.value[i] <= total {
        assert r.value[i] !in bad;
      }
    }
  }

  /** The second parser takes an empty specification for every page. */
  lemma EmptyAdmitsAll(page: int)
    ensures Admits(RangeFilter(""), page)
  {
  }
}
