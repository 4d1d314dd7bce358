/** Names inside a ZIP download: later duplicates are numbered. */
module ZipNames {
  import opened Decimals

  /** Position of the last dot; `|s|` when there is none. */
  function LastDot(s: string): (i: nat)
    ensures i <= |s| && (i < |s| ==> s[i] == '.')
    ensures forall k :: i < k < |s| ==> s[k] != '.'
    ensures i == |s| ==> '.' !in s
  {
    if s == "" then 0
    else if s[|s| - 1] == '.' then |s| - 1
    else
      var i := LastDot(s[..|s| - 1]);
      if i == |s| - 1 then |s| else i
  }

  /** The name tried with counter `k`; counter 0 is the original name itself. */
  function Candidate(name: string, k: nat): string {
    if k == 0 then name
    else
      var i := LastDot(name);
      if i < |name| then name[..i] + " (" + Decimal(k) + ")." + name[i + 1..]
      else name + " (" + Decimal(k) + ")"
  }

  lemma CandidateInjective(name: string, j: nat, k: nat)
    requires Candidate(name, j) == Candidate(name, k)
    ensures j == k
  {
    var i := LastDot(name);
    var pre := name[..i] + " (";
    var post := if i < |name| then ")." + name[i + 1..] else ")";
    assert forall n: nat :: n > 0 ==> Candidate(name, n) == pre + Decimal(n) + post;
    assert |pre| + |post| > |name|;
    if j > 0 && k > 0 {
      var s, t := Candidate(name, j), Candidate(name, k);
      assert s[|pre|..|s| - |post|] == Decimal(j);
      assert t[|pre|..|t| - |post|] == Decimal(k);
      DecimalInjective(j, k);
    }
  }

  /** `chosen` is the first candidate for `name` that is not yet used. */
  ghost predicate FirstFree(name: string, used: set<string>, chosen: string) {
    exists k: nat :: chosen == Candidate(name, k) && chosen !in used
      && forall j: nat :: j < k ==> Candidate(name, j) in used
  }

  function Range(names: seq<string>): set<string> {
    set s | s in names
  }

  /** Every entry keeps its place and takes the first free candidate for its name. */
  ghost predicate Deduplicated(names: seq<string>, arcnames: seq<string>) {
    && |arcnames| == |names|
    && forall i :: 0 <= i < |names| ==> FirstFree(names[i], Range(arcnames[..i]), arcnames[i])
  }

  /** Deduplicated names are pairwise distinct, and a name seen for the first time that no
      numbered name has taken is kept as it is. */
  lemma DeduplicatedNames(names: seq<string>, arcnames: seq<string>)
    requires Deduplicated(names, arcnames)
    ensures forall i, j :: 0 <= i < j < |arcnames| ==> arcnames[i] != arcnames[j]
    ensures forall i :: 0 <= i < |names| ==> (arcnames[i] == names[i] <==> names[i] !in arcnames[..i])
  {
    forall i, j | 0 <= i < j < |arcnames| ensures arcnames[i] != arcnames[j] {
      assert FirstFree(names[j], Range(arcnames[..j]), arcnames[j]);
      assert arcnames[..j][i] in Range(arcnames[..j]);
    }
    forall i | 0 <= i < |names| ensures arcnames[i] == names[i] <==> names[i] !in arcnames[..i] {
      var used := Range(arcnames[..i]);
      assert names[i] in arcnames[..i] <==> names[i] in used;
      assert Candidate(names[i], 0) == names[i];
      assert FirstFree(names[i], used, arcnames[i]);
    }
  }

  lemma FirstFreeUnique(name: string, used: set<string>, x: string, y: string)
    requires FirstFree(name, used, x) && FirstFree(name, used, y)
    ensures x == y
  {
    var j: nat :| x == Candidate(name, j) && x !in used && forall m: nat :: m < j ==> Candidate(name, m) in used;
    var k: nat :| y == Candidate(name, k) && y !in used && forall m: nat :: m < k ==> Candidate(name, m) in used;
    assert j == k;
  }

  /** The rule determines the result, so any other way of numbering would differ. */
  lemma {:induction false} DeduplicationUnique(names: seq<string>, a: seq<string>, b: seq<string>)
    requires Deduplicated(names, a) && Deduplicated(names, b)
    ensures a == b
  {
    hide FirstFree;
    if names != [] {
      var n := |names| - 1;
      forall i | 0 <= i < n
        ensures FirstFree(names[..n][i], Range(a[..n][..i]), a[..n][i])
        ensures FirstFree(names[..n][i], Range(b[..n][..i]), b[..n][i])
      {
        assert a[..n][..i] == a[..i] && b[..n][..i] == b[..i];
      }
      DeduplicationUnique(names[..n], a[..n], b[..n]);
      FirstFreeUnique(names[n], Range(a[..n]), a[n], b[n]);
    }
  }

  /** The inner loop. It terminates for every name and every set of used names: each
      numbered candidate it skips is a different used name. */
  method FreeName(originalName: string, usedNames: set<string>) returns (arcname: string)
    ensures FirstFree(originalName, usedNames, arcname)
  {
    arcname := originalName;
    var counter: nat := 1;
    ghost var left := usedNames;  // used names not yet skipped
    while arcname in usedNames
      invariant counter > 0 && arcname == Candidate(originalName, counter - 1)
      invariant forall k: nat :: k < counter - 1 ==> Candidate(originalName, k) in usedNames
      invariant left <= usedNames
      invariant forall s :: s in usedNames && s !in left ==>
        exists k: nat :: k < counter - 1 && s == Candidate(originalName, k)
      decreases |left|
    {
      assert arcname in left by {
        if k: nat :| k < counter - 1 && arcname == Candidate(originalName, k) {
          CandidateInjective(originalName, k, counter - 1);
        }
      }
      left := left - {arcname};
      var dot := LastDot(originalName);
      arcname := if dot < |originalName|
                 then originalName[..dot] + " (" + Decimal(counter) + ")." + originalName[dot + 1..]
                 else originalName + " (" + Decimal(counter) + ")";
      counter := counter + 1;
    }
  }

  /** The archive names of a bundle, in order. */
  method DeduplicateNames(names: seq<string>) returns (deduped: seq<string>)
    ensures Deduplicated(names, deduped)
  {
    hide FirstFree;
    deduped := [];
    var usedNames: set<string> := {};
    for i := 0 to |names|
      invariant |deduped| == i && usedNames == Range(deduped)
      invariant forall k :: 0 <= k < i ==> FirstFree(names[k], Range(deduped[..k]), deduped[k])
    {
      var arcname := FreeName(names[i], usedNames);
      ghost var before := deduped;
      usedNames := usedNames + {arcname};
      deduped := deduped + [arcname];
      assert deduped[..i] == before;
      assert forall k :: 0 <= k < i ==> deduped[..k] == before[..k];
    }
  }

  /** The number goes in front of the last dot, with a blank and in parentheses, or at the end
      of a name without one; counter 0 stands for the name itself. */
  lemma CandidateShape(stem: string, suffix: string, k: nat)
    requires k > 0 && '.' !in suffix
    ensures Candidate(stem + "." + suffix, k) == stem + " (" + Decimal(k) + ")." + suffix
    ensures '.' !in stem ==> Candidate(stem, k) == stem + " (" + Decimal(k) + ")"
    ensures Candidate(stem, 0) == stem
  {
    hide Decimal;
    var name := stem + "." + suffix;
    assert name[|stem|] == '.' && name[..|stem|] == stem && name[|stem| + 1..] == suffix;
    forall i | |stem| < i < |name| ensures name[i] != '.' {
      assert name[i] == suffix[i - |stem| - 1];
    }
    assert LastDot(name) == |stem|;
  }
}
