/** Re-sorting the children of OOXML property elements into schema order. */
module PropertyOrder {

  const PPR_ORDER: seq<string> := [
    "pStyle", "keepNext", "keepLines", "pageBreakBefore", "framePr",
    "widowControl", "numPr", "suppressLineNumbers", "pBdr", "shd", "tabs",
    "suppressAutoHyphens", "kinsoku", "wordWrap", "overflowPunct",
    "topLinePunct", "autoSpaceDE", "autoSpaceDN", "bidi", "adjustRightInd",
    "snapToGrid", "spacing", "ind", "contextualSpacing", "mirrorIndents",
    "suppressOverlap", "jc", "textDirection", "textAlignment",
    "textboxTightWrap", "outlineLvl", "divId", "cnfStyle", "rPr", "sectPr",
    "pPrChange"]

  const RPR_ORDER: seq<string> := [
    "rStyle", "rFonts", "b", "bCs", "i", "iCs", "caps", "smallCaps", "strike",
    "dstrike", "outline", "shadow", "emboss", "imprint", "noProof",
    "snapToGrid", "vanish", "webHidden", "color", "spacing", "w", "kern",
    "position", "sz", "szCs", "highlight", "u", "effect", "bdr", "shd",
    "fitText", "vertAlign", "rtl", "cs", "em", "lang", "eastAsianLayout",
    "specVanish", "oMath"]

  type Rank = map<string, nat>

  /** Position of every tag in a schema order. */
  function RankOf(order: seq<string>): Rank {
    if order == [] then map[]
    else RankOf(order[..|order| - 1])[order[|order| - 1] := |order| - 1]
  }

  /** Sort key of child `i`: its rank; for an unrecognised tag the rank of the child just
      before it, if that one is recognised, else -1. */
  function Key(rank: Rank, tags: seq<string>, i: nat): int
    requires i < |tags|
  {
    if tags[i] in rank then rank[tags[i]]
    else if i > 0 && tags[i - 1] in rank then rank[tags[i - 1]]
    else -1
  }

  function Keys(rank: Rank, tags: seq<string>): (keys: seq<int>)
    ensures |keys| == |tags|
  {
    seq(|tags|, i requires 0 <= i < |tags| => Key(rank, tags, i))
  }

  /** (key, index) comparison. */
  predicate Before(keys: seq<int>, i: nat, j: nat)
    requires i < |keys| && j < |keys|
  {
    keys[i] < keys[j] || (keys[i] == keys[j] && i < j)
  }

  /** `order` lists the first `n` indices, each once, by (key, index). */
  ghost predicate IsOrder(keys: seq<int>, order: seq<nat>, n: nat)
    requires n <= |keys|
  {
    && |order| == n
    && (forall p :: 0 <= p < n ==> order[p] < n)
    && (forall i: nat :: i < n ==> i in order)
    && forall p, q :: 0 <= p < q < n ==> Before(keys, order[p], order[q])
  }

  /** Insert index `k`, larger than all in `order`, behind every key not above its own. */
  function Insert(keys: seq<int>, order: seq<nat>, k: nat): (r: seq<nat>)
    requires k < |keys| && forall p :: 0 <= p < |order| ==> order[p] < |keys|
    ensures |r| == |order| + 1
    ensures forall i :: i in r <==> i in order || i == k
  {
    if order == [] || keys[order[|order| - 1]] <= keys[k] then order + [k]
    else
      var last := |order| - 1;
      assert order == order[..last] + [order[last]];
      Insert(keys, order[..last], k) + [order[last]]
  }

  /** Indices below `n`, by (key, index). */
  ghost predicate SortedBelow(keys: seq<int>, order: seq<nat>, n: nat)
    requires n <= |keys|
  {
    && (forall p :: 0 <= p < |order| ==> order[p] < n)
    && forall p, q :: 0 <= p < q < |order| ==> Before(keys, order[p], order[q])
  }

  lemma SortedSnoc(keys: seq<int>, order: seq<nat>, i: nat, n: nat)
    requires n <= |keys| && SortedBelow(keys, order, n) && i < n
    requires forall p :: 0 <= p < |order| ==> Before(keys, order[p], i)
    ensures SortedBelow(keys, order + [i], n)
  {
    hide Before;
  }

  lemma {:induction false} InsertKeepsSorted(keys: seq<int>, order: seq<nat>, k: nat)
    requires k < |keys| && SortedBelow(keys, order, k)
    ensures SortedBelow(keys, Insert(keys, order, k), k + 1)
  {
    if order == [] || keys[order[|order| - 1]] <= keys[k] {
      SortedSnoc(keys, order, k, k + 1);
    } else {
      var last := |order| - 1;
      InsertKeepsSorted(keys, order[..last], k);
      var init := Insert(keys, order[..last], k);
      forall p | 0 <= p < |init| ensures Before(keys, init[p], order[last]) {
        assert init[p] in init;
        if init[p] != k { var m :| 0 <= m < last && order[m] == init[p]; }
      }
      SortedSnoc(keys, init, order[last], k + 1);
    }
  }

  lemma InsertIsOrder(keys: seq<int>, before: seq<nat>, k: nat)
    requires k < |keys| && IsOrder(keys, before, k)
    ensures IsOrder(keys, Insert(keys, before, k), k + 1)
  {
    hide Insert, Before;
    InsertKeepsSorted(keys, before, k);
  }

  /** The stable order of the first `n` indices by key. */
  function Order(keys: seq<int>, n: nat): (order: seq<nat>)
    requires n <= |keys|
    ensures IsOrder(keys, order, n)
  {
    if n == 0 then []
    else
      var before := Order(keys, n - 1);
      InsertIsOrder(keys, before, n - 1);
      Insert(keys, before, n - 1)
  }

  /** In an order, coming first means having the smaller (key, index). */
  lemma OrderRespects(keys: seq<int>, order: seq<nat>, n: nat, p: nat, q: nat)
    requires n <= |keys| && IsOrder(keys, order, n) && p < n && q < n
    ensures Before(keys, order[p], order[q]) <==> p < q
  {
    if q < p { assert Before(keys, order[q], order[p]); }
  }

  lemma PositionOf(order: seq<nat>, i: nat) returns (p: nat)
    requires i in order
    ensures p < |order| && order[p] == i
  {
    p :| 0 <= p < |order| && order[p] == i;
  }

  class Node {
    const tag: string
    constructor (tag: string) { this.tag := tag; }
  }

  function Tags(nodes: seq<Node>): (tags: seq<string>)
    ensures |tags| == |nodes|
  {
    seq(|nodes|, i requires 0 <= i < |nodes| => nodes[i].tag)
  }

  function Pick<T>(xs: seq<T>, order: seq<nat>): (r: seq<T>)
    requires forall p :: 0 <= p < |order| ==> order[p] < |xs|
    ensures |r| == |order|
  {
    seq(|order|, p requires 0 <= p < |order| => xs[order[p]])
  }

  function OrderOf(rank: Rank, tags: seq<string>): (order: seq<nat>)
    ensures IsOrder(Keys(rank, tags), order, |tags|)
  {
    Order(Keys(rank, tags), |tags|)
  }

  function Reordered(rank: Rank, nodes: seq<Node>): (r: seq<Node>)
    ensures |r| == |nodes|
  {
    Pick(nodes, OrderOf(rank, Tags(nodes)))
  }

  ghost predicate Distinct<T>(xs: seq<T>) {
    forall i, j :: 0 <= i < j < |xs| ==> xs[i] != xs[j]
  }

  // ---- What the order guarantees ----

  /** Nothing is dropped or duplicated. */
  lemma ReorderedIsPermutation(rank: Rank, nodes: seq<Node>)
    requires Distinct(nodes)
    ensures Distinct(Reordered(rank, nodes))
    ensures |Reordered(rank, nodes)| == |nodes| && forall p :: 0 <= p < |nodes| ==> Reordered(rank, nodes)[p] in nodes
    ensures forall i :: 0 <= i < |nodes| ==> nodes[i] in Reordered(rank, nodes)
  {
    var order := OrderOf(rank, Tags(nodes));
    var r := Reordered(rank, nodes);
    forall p, q | 0 <= p < q < |r| ensures r[p] != r[q] {
      assert Before(Keys(rank, Tags(nodes)), order[p], order[q]);
    }
    forall i: nat | i < |nodes| ensures nodes[i] in r {
      var p := PositionOf(order, i);
      assert r[p] == nodes[i];
    }
  }

  /** Recognised tags come out in schema order, equal tags in their original order. */
  lemma RecognisedInSchemaOrder(rank: Rank, tags: seq<string>, p: nat, q: nat)
    requires p < q < |tags|
    requires var order := OrderOf(rank, tags); tags[order[p]] in rank && tags[order[q]] in rank
    ensures var order := OrderOf(rank, tags);
      && rank[tags[order[p]]] <= rank[tags[order[q]]]
      && (rank[tags[order[p]]] == rank[tags[order[q]]] ==> order[p] < order[q])
  {
    assert Before(Keys(rank, tags), OrderOf(rank, tags)[p], OrderOf(rank, tags)[q]);
  }

  /** An unrecognised tag right after a recognised one still directly follows it. */
  lemma FollowerStaysAttached(rank: Rank, tags: seq<string>, i: nat) returns (p: nat)
    requires i + 1 < |tags| && tags[i] in rank && tags[i + 1] !in rank
    ensures var order := OrderOf(rank, tags); p + 1 < |order| && order[p] == i && order[p + 1] == i + 1
  {
    hide OrderOf;
    var n, keys, order := |tags|, Keys(rank, tags), OrderOf(rank, tags);
    p := PositionOf(order, i);
    var q := PositionOf(order, i + 1);
    assert keys[i] == keys[i + 1];
    OrderRespects(keys, order, n, p, q);
    OrderRespects(keys, order, n, p, p + 1);
    OrderRespects(keys, order, n, p + 1, q);
  }

  lemma InsertLast(keys: seq<int>, order: seq<nat>, k: nat)
    requires k < |keys| && forall p :: 0 <= p < |order| ==> order[p] < |keys|
    requires order != [] ==> keys[order[|order| - 1]] <= keys[k]
    ensures Insert(keys, order, k) == order + [k]
  {
  }

  /** A non-decreasing key sequence is already in order. */
  lemma {:induction false} SortedIsIdentity(keys: seq<int>, n: nat)
    requires n <= |keys| && forall i, j :: 0 <= i < j < |keys| ==> keys[i] <= keys[j]
    ensures Order(keys, n) == seq(n, i => i)
  {
    hide Insert;
    if n > 0 {
      SortedIsIdentity(keys, n - 1);
      InsertLast(keys, Order(keys, n - 1), n - 1);
    }
  }

  /** Child `i` keeps its key when the children are re-sorted. */
  lemma KeyKept(rank: Rank, tags: seq<string>, p: nat)
    requires p < |tags|
    ensures var order := OrderOf(rank, tags);
      Key(rank, Pick(tags, order), p) == Key(rank, tags, order[p])
  {
    var keys, order := Keys(rank, tags), OrderOf(rank, tags);
    var sorted := Pick(tags, order);
    var i := order[p];
    if tags[i] !in rank {
      if i > 0 && tags[i - 1] in rank {
        var q := FollowerStaysAttached(rank, tags, i - 1);
        OrderRespects(keys, order, |tags|, p, q + 1);
        OrderRespects(keys, order, |tags|, q + 1, p);
      } else if p > 0 {
        assert Before(keys, order[p - 1], i);
        assert keys[order[p - 1]] <= -1;
      }
    }
  }

  lemma SecondPassKeys(rank: Rank, tags: seq<string>)
    ensures var again := Keys(rank, Pick(tags, OrderOf(rank, tags)));
      forall p, q :: 0 <= p < q < |again| ==> again[p] <= again[q]
  {
    var order := OrderOf(rank, tags);
    var again := Keys(rank, Pick(tags, order));
    forall p, q | 0 <= p < q < |again| ensures again[p] <= again[q] {
      KeyKept(rank, tags, p);
      KeyKept(rank, tags, q);
      assert Before(Keys(rank, tags), order[p], order[q]);
    }
  }

  /** A second run changes nothing. */
  lemma ReorderingIsIdempotent(rank: Rank, nodes: seq<Node>)
    ensures Reordered(rank, Reordered(rank, nodes)) == Reordered(rank, nodes)
  {
    var tags := Tags(nodes);
    var once := Reordered(rank, nodes);
    assert Tags(once) == Pick(tags, OrderOf(rank, tags));
    SecondPassKeys(rank, tags);
    SortedIsIdentity(Keys(rank, Tags(once)), |once|);
  }

  /** The source documents that unrecognised tags keep their relative position. Two of
      them do exactly when the earlier one's key is not above the later one's. */
  lemma UnrecognisedKeepOrderIff(rank: Rank, tags: seq<string>, i: nat, j: nat)
    requires i < j < |tags| && tags[i] !in rank && tags[j] !in rank
    ensures (exists p, q :: 0 <= p < q < |tags| && OrderOf(rank, tags)[p] == i && OrderOf(rank, tags)[q] == j)
      <==> Key(rank, tags, i) <= Key(rank, tags, j)
  {
    hide OrderOf;
    var n, keys, order := |tags|, Keys(rank, tags), OrderOf(rank, tags);
    var p := PositionOf(order, i);
    var q := PositionOf(order, j);
    OrderRespects(keys, order, n, p, q);
    if a: nat, b: nat :| a < b < n && order[a] == i && order[b] == j {
      OrderRespects(keys, order, n, a, b);
    }
  }

  /** So the documented promise fails: whenever two unrecognised tags follow a recognised
      one, the second is moved in front of the first. */
  lemma SecondFollowerOvertakes(rank: Rank, tags: seq<string>, i: nat)
    requires i + 2 < |tags| && tags[i] in rank && tags[i + 1] !in rank && tags[i + 2] !in rank
    ensures !exists p, q :: 0 <= p < q < |tags| && OrderOf(rank, tags)[p] == i + 1 && OrderOf(rank, tags)[q] == i + 2
  {
    hide OrderOf;
    UnrecognisedKeepOrderIff(rank, tags, i + 1, i + 2);
  }

  /** The rank of a schema tag is its position. */
  lemma {:induction false} RankOfIsPosition(order: seq<string>, i: nat)
    requires Distinct(order) && i < |order|
    ensures order[i] in RankOf(order) && RankOf(order)[order[i]] == i
  {
    var last := |order| - 1;
    if i < last {
      RankOfIsPosition(order[..last], i);
    }
  }

  // ---- The element, re-sorted in place ----

  /** `xs` without the element `x`. */
  function Removed<T(==)>(xs: seq<T>, x: T): seq<T> {
    if xs == [] then [] else if xs[0] == x then Removed(xs[1..], x) else [xs[0]] + Removed(xs[1..], x)
  }

  function RemovedAll<T(==)>(xs: seq<T>, gone: seq<T>): seq<T> {
    if gone == [] then xs else Removed(RemovedAll(xs, gone[..|gone| - 1]), gone[|gone| - 1])
  }

  lemma {:induction false} RemovedContents<T>(xs: seq<T>, x: T, y: T)
    ensures y in Removed(xs, x) <==> y in xs && y != x
  {
    if xs != [] {
      RemovedContents(xs[1..], x, y);
    }
  }

  lemma {:induction false} RemovedAbsent<T>(xs: seq<T>, x: T)
    requires x !in xs
    ensures Removed(xs, x) == xs
  {
    if xs != [] {
      RemovedAbsent(xs[1..], x);
    }
  }

  lemma {:induction false} RemovedConcat<T>(a: seq<T>, b: seq<T>, x: T)
    ensures Removed(a + b, x) == Removed(a, x) + Removed(b, x)
  {
    if a == [] {
      assert a + b == b;
    } else {
      assert (a + b)[1..] == a[1..] + b;
      RemovedConcat(a[1..], b, x);
    }
  }

  lemma {:induction false} RemovedAllContents<T>(xs: seq<T>, gone: seq<T>, y: T)
    ensures y in RemovedAll(xs, gone) <==> y in xs && y !in gone
  {
    if gone != [] {
      var n := |gone| - 1;
      RemovedAllContents(xs, gone[..n], y);
      RemovedContents(RemovedAll(xs, gone[..n]), gone[n], y);
      assert gone == gone[..n] + [gone[n]];
    }
  }

  /** After appending the first `i` sorted children, the rest are still in place before them. */
  lemma AppendStep(original: seq<Node>, ordered: seq<Node>, i: nat)
    requires i < |ordered| && Distinct(ordered)
    ensures Removed(RemovedAll(original, ordered[..i]) + ordered[..i], ordered[i]) + [ordered[i]]
         == RemovedAll(original, ordered[..i + 1]) + ordered[..i + 1]
  {
    var x := ordered[i];
    RemovedConcat(RemovedAll(original, ordered[..i]), ordered[..i], x);
    RemovedAbsent(ordered[..i], x);
    assert ordered[..i + 1] == ordered[..i] + [x];
    assert ordered[..i + 1][..i] == ordered[..i];
  }

  lemma NothingLeft(original: seq<Node>, ordered: seq<Node>)
    requires forall i :: 0 <= i < |original| ==> original[i] in ordered
    ensures RemovedAll(original, ordered) == []
  {
    var rest := RemovedAll(original, ordered);
    if rest != [] {
      RemovedAllContents(original, ordered, rest[0]);
    }
  }

  class Element {
    const rank: Rank
    var children: seq<Node>

    constructor Paragraph(children: seq<Node>)
      ensures this.rank == RankOf(PPR_ORDER) && this.children == children
    {
      this.rank, this.children := RankOf(PPR_ORDER), children;
    }

    constructor Run(children: seq<Node>)
      ensures this.rank == RankOf(RPR_ORDER) && this.children == children
    {
      this.rank, this.children := RankOf(RPR_ORDER), children;
    }

    /** Appending a node that is already a child moves it to the end. */
    method Append(child: Node)
      modifies this
      ensures children == Removed(old(children), child) + [child]
    {
      children := Removed(children, child) + [child];
    }

    /** One element: appending each child in sorted order realises exactly that order. */
    method Normalize() returns (fixed: bool)
      requires Distinct(children)
      modifies this
      ensures children == Reordered(rank, old(children))
      ensures fixed <==> children != old(children)
    {
      hide Reordered, Removed, RemovedAll;
      if |children| < 2 {
        ShortIsOrdered(rank, children);
        return false;
      }
      ghost var original := children;
      var ordered := Reordered(rank, children);
      if ordered == children {
        return false;
      }
      ReorderedIsPermutation(rank, original);
      assert RemovedAll(original, ordered[..0]) + ordered[..0] == original by {
        NothingRemoved(original, ordered[..0]);
      }
      for i := 0 to |ordered|
        invariant children == RemovedAll(original, ordered[..i]) + ordered[..i]
      {
        AppendStep(original, ordered, i);
        Append(ordered[i]);
      }
      assert ordered[..|ordered|] == ordered;
      NothingLeft(original, ordered);
      return true;
    }
  }

  lemma ShortIsOrdered(rank: Rank, nodes: seq<Node>)
    requires |nodes| < 2
    ensures Reordered(rank, nodes) == nodes
  {
  }

  lemma NothingRemoved(original: seq<Node>, none: seq<Node>)
    requires none == []
    ensures RemovedAll(original, none) + none == original
  {
  }

  /** Every property element of the document; returns how many had to be fixed. */
  method NormalizePropertyOrder(elements: seq<Element>) returns (fixed: nat)
    requires Distinct(elements) && forall i :: 0 <= i < |elements| ==> Distinct(elements[i].children)
    modifies elements
    ensures forall i :: 0 <= i < |elements| ==>
      elements[i].children == Reordered(elements[i].rank, old(elements[i].children))
    ensures fixed == |set i | 0 <= i < |elements| && elements[i].children != old(elements[i].children)|
  {
    hide Reordered;
    fixed := 0;
    ghost var changed: set<int> := {};
    for n := 0 to |elements|
      invariant forall i :: 0 <= i < n ==>
        elements[i].children == Reordered(elements[i].rank, old(elements[i].children))
      invariant forall i :: n <= i < |elements| ==> elements[i].children == old(elements[i].children)
      invariant forall i :: i in changed <==> 0 <= i < n && elements[i].children != old(elements[i].children)
      invariant fixed == |changed|
    {
      var one := elements[n].Normalize();
      if one {
        fixed := fixed + 1;
        changed := changed + {n};
      }
    }
    assert changed == set i | 0 <= i < |elements| && elements[i].children != old(elements[i].children);
  }

  /** An unrecognised tag without a recognised one right before it comes in front of every
      recognised tag. */
  lemma UnattachedComeFirst(rank: Rank, tags: seq<string>, p: nat, q: nat)
    requires p < |tags| && q < |tags|
    requires var order := OrderOf(rank, tags);
      tags[order[p]] !in rank && (order[p] == 0 || tags[order[p] - 1] !in rank) && tags[order[q]] in rank
    ensures p < q
  {
    OrderRespects(Keys(rank, tags), OrderOf(rank, tags), |tags|, p, q);
  }

  /** A recognised tag with what follows it keeps together in schema order: of two recognised
      tags of different rank the follower of the lower comes before the higher. */
  lemma FollowersInOrder(rank: Rank, tags: seq<string>, i: nat, j: nat) returns (p: nat, q: nat)
    requires i + 1 < |tags| && j < |tags| && tags[i] in rank && tags[i + 1] !in rank && tags[j] in rank
    requires rank[tags[i]] < rank[tags[j]]
    ensures p < q < |tags| && OrderOf(rank, tags)[p] == i + 1 && OrderOf(rank, tags)[q] == j
  {
    hide OrderOf;
    p := PositionOf(OrderOf(rank, tags), i + 1);
    q := PositionOf(OrderOf(rank, tags), j);
    OrderRespects(Keys(rank, tags), OrderOf(rank, tags), |tags|, p, q);
  }
}
