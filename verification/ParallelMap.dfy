/** Running a per-file operation over a job's inputs: the sequential loop, and the form
    that runs operations concurrently and collects them as they finish. */
module ParallelMap {
  import opened Wrappers

  /** Outputs on success, and the progress values reported on the way. */
  datatype Outcome<+P, +E> = Outcome(result: Result<seq<P>, E>, progress: seq<nat>)

  /** Progress after `done` of `total` files. */
  function ProgressAt(done: nat, total: nat, ceiling: nat): nat
    requires total > 0
  {
    Quotient(done * ceiling, total)
  }

  /** Exact division, rounded down. */
  function Quotient(x: nat, d: nat): (q: nat)
    requires d > 0
    ensures d * q <= x < d * (q + 1)
  {
    x / d
  }

  function Reports(done: nat, total: nat, ceiling: nat): (r: seq<nat>)
    requires done <= total
    ensures |r| == done
  {
    seq(done, i requires 0 <= i < done => ProgressAt(i + 1, total, ceiling))
  }

  function Flatten<P>(results: seq<seq<P>>): seq<P> {
    if results == [] then [] else Flatten(results[..|results| - 1]) + results[|results| - 1]
  }

  /** The values of the first `n` operations, all of which succeed. */
  function Values<P, E>(ops: seq<Result<seq<P>, E>>): seq<seq<P>>
    requires AllSucceed(ops)
  {
    seq(|ops|, i requires 0 <= i < |ops| => ops[i].value)
  }

  predicate AllSucceed<P, E>(ops: seq<Result<seq<P>, E>>) {
    forall i :: 0 <= i < |ops| ==> ops[i].Success?
  }

  /** The sequential loop; `ops[i]` is what the operation yields on input `i`. */
  method ProcessEachInput<P, E>(ops: seq<Result<seq<P>, E>>, ceiling: nat) returns (o: Outcome<P, E>)
    ensures IsSequential(ops, ceiling, o)
  {
    hide Flatten, Values, ProgressAt;
    var produced: seq<P> := [];
    var progress: seq<nat> := [];
    NoValues(ops[..0]);
    for i := 0 to |ops|
      invariant AllSucceed(ops[..i]) && produced == Flatten(Values(ops[..i]))
      invariant progress == Reports(i, |ops|, ceiling)
    {
      if ops[i].Failure? {
        return Outcome(Failure(ops[i].error), progress);
      }
      ValuesSnoc(ops, i);
      produced := produced + ops[i].value;
      progress := progress + [ProgressAt(i + 1, |ops|, ceiling)];
    }
    assert ops[..|ops|] == ops;
    o := Outcome(Success(produced), progress);
  }

  lemma NoValues<P, E>(none: seq<Result<seq<P>, E>>)
    requires none == []
    ensures Flatten(Values(none)) == []
  {
  }

  lemma ValuesSnoc<P, E>(ops: seq<Result<seq<P>, E>>, i: nat)
    requires i < |ops| && AllSucceed(ops[..i + 1])
    ensures AllSucceed(ops[..i]) && Flatten(Values(ops[..i + 1])) == Flatten(Values(ops[..i])) + ops[i].value
  {
    assert forall k :: 0 <= k < i ==> ops[..i][k] == ops[..i + 1][k];
    assert ops[..i + 1][i] == ops[i];
    assert Values(ops[..i + 1])[..i] == Values(ops[..i]);
  }

  /** All outputs in input order, or the error of the first failing input. */
  ghost predicate IsSequential<P, E>(ops: seq<Result<seq<P>, E>>, ceiling: nat, o: Outcome<P, E>) {
    if AllSucceed(ops) then
      o == Outcome(Success(Flatten(Values(ops))), Reports(|ops|, |ops|, ceiling))
    else
      exists k :: 0 <= k < |ops| && AllSucceed(ops[..k]) && ops[k].Failure?
        && o == Outcome(Failure(ops[k].error), Reports(k, |ops|, ceiling))
  }

  /** `order` is a completion order: every input finishes exactly once. */
  ghost predicate IsCompletionOrder(order: seq<nat>, n: nat) {
    && |order| == n
    && (forall p :: 0 <= p < n ==> order[p] < n)
    && (forall i: nat :: i < n ==> i in order)
  }

  /** The first failure in completion order is raised, after the progress made until then. */
  ghost predicate FirstToFail<P, E>(ops: seq<Result<seq<P>, E>>, ceiling: nat, order: seq<nat>, o: Outcome<P, E>)
    requires IsCompletionOrder(order, |ops|)
  {
    exists p :: 0 <= p < |order|
      && (forall k :: 0 <= k < p ==> ops[order[k]].Success?)
      && ops[order[p]].Failure?
      && o == Outcome(Failure(ops[order[p]].error), Reports(p, |ops|, ceiling))
  }

  /** The concurrent form: results are stored at their input's index as they finish in
      `order`; the first failure to finish is raised. With one worker it is the loop above. */
  method ProcessEachInputParallel<P, E>(ops: seq<Result<seq<P>, E>>, ceiling: nat, maxWorkers: nat, order: seq<nat>)
    returns (o: Outcome<P, E>)
    requires IsCompletionOrder(order, |ops|)
    ensures if AllSucceed(ops) || |ops| <= 1 || maxWorkers <= 1 then IsSequential(ops, ceiling, o)
            else FirstToFail(ops, ceiling, order, o)
  {
    var workers := if |ops| < maxWorkers then |ops| else maxWorkers;
    if workers <= 1 {
      o := ProcessEachInput(ops, ceiling);
      return;
    }
    var results: seq<Option<seq<P>>> := seq(|ops|, i => None);
    var completed := 0;
    var progress: seq<nat> := [];
    for p := 0 to |order|
      invariant |results| == |ops| && completed == p
      invariant forall k :: 0 <= k < p ==> ops[order[k]].Success? && results[order[k]] == Some(ops[order[k]].value)
      invariant forall i: nat :: i < |ops| && i !in order[..p] ==> results[i] == None
      invariant progress == Reports(p, |ops|, ceiling)
    {
      var index := order[p];
      if ops[index].Failure? {
        return Outcome(Failure(ops[index].error), progress);
      }
      results := results[index := Some(ops[index].value)];
      completed := completed + 1;
      progress := progress + [ProgressAt(completed, |ops|, ceiling)];
    }
    forall i: nat | i < |ops| ensures ops[i].Success? && results[i] == Some(ops[i].value) {
      assert i in order;
      var p :| 0 <= p < |order| && order[p] == i;
    }
    var produced: seq<P> := [];
    for i := 0 to |results|
      invariant produced == Flatten(Values(ops[..i]))
    {
      ValuesSnoc(ops, i);
      if results[i].Some? {
        produced := produced + results[i].value;
      }
    }
    assert ops[..|ops|] == ops;
    o := Outcome(Success(produced), progress);
  }

  ghost predicate IsFirstFailure<P, E>(ops: seq<Result<seq<P>, E>>, k: nat) {
    k < |ops| && ops[k].Failure? && forall i :: 0 <= i < k ==> ops[i].Success?
  }

  ghost predicate IsFirstToFail<P, E>(ops: seq<Result<seq<P>, E>>, order: seq<nat>, k: nat)
    requires IsCompletionOrder(order, |ops|)
  {
    exists p :: 0 <= p < |order| && order[p] == k && ops[k].Failure?
      && forall i :: 0 <= i < p ==> ops[order[i]].Success?
  }

  /** What the two forms raise when an operation fails. */
  lemma ErrorsRaised<P, E>(ops: seq<Result<seq<P>, E>>, ceiling: nat, order: seq<nat>,
                           a: Outcome<P, E>, b: Outcome<P, E>, j: nat, k: nat)
    requires !AllSucceed(ops) && IsCompletionOrder(order, |ops|)
    requires IsSequential(ops, ceiling, a) && FirstToFail(ops, ceiling, order, b)
    requires IsFirstFailure(ops, j) && IsFirstToFail(ops, order, k)
    ensures a.result == Failure(ops[j].error) && b.result == Failure(ops[k].error)
  {
    var i :| 0 <= i < |ops| && AllSucceed(ops[..i]) && ops[i].Failure?
      && a == Outcome(Failure(ops[i].error), Reports(i, |ops|, ceiling));
    assert forall x :: 0 <= x < i ==> ops[..i][x].Success? && ops[..i][x] == ops[x];
    assert i == j;
    var p :| 0 <= p < |order| && (forall k :: 0 <= k < p ==> ops[order[k]].Success?) && ops[order[p]].Failure?
      && b == Outcome(Failure(ops[order[p]].error), Reports(p, |ops|, ceiling));
    var q :| 0 <= q < |order| && order[q] == k && ops[k].Failure? && forall i :: 0 <= i < q ==> ops[order[i]].Success?;
    assert p == q;
  }

  /** Whatever the completion order, both forms raise the same error. */
  ghost predicate AlwaysAgree<P(!new), E(!new)>(ops: seq<Result<seq<P>, E>>, ceiling: nat) {
    forall order, a, b :: Possible(ops, ceiling, order, a, b) ==> a.result == b.result
  }

  /** Outcomes of the two forms for one completion order. */
  ghost predicate Possible<P, E>(ops: seq<Result<seq<P>, E>>, ceiling: nat, order: seq<nat>,
                                 a: Outcome<P, E>, b: Outcome<P, E>)
  {
    IsCompletionOrder(order, |ops|) && IsSequential(ops, ceiling, a) && FirstToFail(ops, ceiling, order, b)
  }

  /** All failing operations fail with the same error. */
  ghost predicate OneError<P, E>(ops: seq<Result<seq<P>, E>>) {
    forall i,
        j :: 0 <= i < |ops| && 0 <= j < |ops| && ops[i].Failure? && ops[j].Failure? ==> ops[i].error == ops[j].error
  }

  lemma FirstFailureExists<P, E>(ops: seq<Result<seq<P>, E>>) returns (j: nat)
    requires !AllSucceed(ops)
    ensures IsFirstFailure(ops, j)
  {
    j := 0;
    while ops[j].Success?
      invariant j < |ops| && forall i :: 0 <= i < j ==> ops[i].Success?
      decreases |ops| - j
    {
      j := j + 1;
    }
  }

  /** A completion order in which input `k` finishes first. */
  function FinishingFirst(n: nat, k: nat): (order: seq<nat>)
    requires k < n
    ensures |order| == n && order[0] == k
  {
    seq(n, i => if i == 0 then k else if i == k then 0 else i)
  }

  lemma FinishingFirstIsOrder(n: nat, k: nat)
    requires k < n
    ensures IsCompletionOrder(FinishingFirst(n, k), n)
  {
    var order := FinishingFirst(n, k);
    forall i: nat | i < n ensures i in order {
      assert order[if i == k then 0 else if i == 0 then k else i] == i;
    }
  }

  lemma SequentialFailure<P, E>(ops: seq<Result<seq<P>, E>>, ceiling: nat, j: nat)
    requires IsFirstFailure(ops, j)
    ensures IsSequential(ops, ceiling, Outcome(Failure(ops[j].error), Reports(j, |ops|, ceiling)))
  {
    assert AllSucceed(ops[..j]);
  }

  /** When an operation fails, both forms raise the same error for every completion order
      exactly when all failing operations carry the same error. */
  lemma ErrorsAgreeIff<P(!new), E(!new)>(ops: seq<Result<seq<P>, E>>, ceiling: nat)
    requires !AllSucceed(ops)
    ensures AlwaysAgree(ops, ceiling) <==> OneError(ops)
  {
    hide IsCompletionOrder, IsSequential, FirstToFail, Reports;
    var j := FirstFailureExists(ops);
    if OneError(ops) {
      forall order, a, b | Possible(ops, ceiling, order, a, b)
        ensures a.result == b.result
      {
        var k := FailsFirst(ops, ceiling, order, b);
        ErrorsRaised(ops, ceiling, order, a, b, j, k);
        SameError(ops, order, j, k);
      }
    }
    if AlwaysAgree(ops, ceiling) {
      forall k: nat | k < |ops| && ops[k].Failure? ensures ops[k].error == ops[j].error {
        var order := FinishingFirst(|ops|, k);
        FinishingFirstIsOrder(|ops|, k);
        SequentialFailure(ops, ceiling, j);
        FailsAtOnce(ops, ceiling, order);
        assert Possible(ops, ceiling, order, Outcome(Failure(ops[j].error), Reports(j, |ops|, ceiling)),
                        Outcome(Failure(ops[k].error), Reports(0, |ops|, ceiling)));
      }
    }
  }

  lemma SameError<P, E>(ops: seq<Result<seq<P>, E>>, order: seq<nat>, j: nat, k: nat)
    requires OneError(ops) && IsFirstFailure(ops, j) && IsCompletionOrder(order, |ops|) && IsFirstToFail(ops, order, k)
    ensures k < |ops| && ops[k].Failure? && ops[j].error == ops[k].error
  {
  }

  lemma FailsFirst<P, E>(ops: seq<Result<seq<P>, E>>, ceiling: nat, order: seq<nat>, b: Outcome<P, E>) returns (k: nat)
    requires IsCompletionOrder(order, |ops|) && FirstToFail(ops, ceiling, order, b)
    ensures IsFirstToFail(ops, order, k)
  {
    var p :| 0 <= p < |order| && (forall k :: 0 <= k < p ==> ops[order[k]].Success?) && ops[order[p]].Failure?
      && b == Outcome(Failure(ops[order[p]].error), Reports(p, |ops|, ceiling));
    k := order[p];
  }

  lemma FailsAtOnce<P, E>(ops: seq<Result<seq<P>, E>>, ceiling: nat, order: seq<nat>)
    requires IsCompletionOrder(order, |ops|) && order != [] && ops[order[0]].Failure?
    ensures FirstToFail(ops, ceiling, order, Outcome(Failure(ops[order[0]].error), Reports(0, |ops|, ceiling)))
  {
  }

  /** Such an input and completion order in which they differ. */
  lemma ErrorsMayDiffer(a: Outcome<int, string>, b: Outcome<int, string>)
    requires var ops := [Failure("first"), Failure("second")];
      IsSequential(ops, 90, a) && IsCompletionOrder([1, 0], 2) && FirstToFail(ops, 90, [1, 0], b)
    ensures a.result == Failure("first") && b.result == Failure("second")
  {
    var ops: seq<Result<seq<int>, string>>, order: seq<nat> := [Failure("first"), Failure("second")], [1, 0];
    assert order[0] == 1 && IsFirstToFail(ops, order, 1);
    ErrorsRaised(ops, 90, order, a, b, 0, 1);
  }

  /** After `i + 1` of `total` files the report is that share of the ceiling, rounded down. */
  lemma ProgressIsShare(total: nat, ceiling: nat, i: nat)
    requires i < total
    ensures var r := Reports(total, total, ceiling)[i];
      r * total <= (i + 1) * ceiling < (r + 1) * total
  {
    hide Quotient;
  }

  /** On success the reported progress never decreases and ends at the ceiling. */
  lemma ProgressClimbs(total: nat, ceiling: nat)
    requires total > 0
    ensures var r := Reports(total, total, ceiling);
      && (forall i, j :: 0 <= i < j < total ==> r[i] <= r[j] <= ceiling)
      && r[total - 1] == ceiling
  {
    hide ProgressAt;
    var r := Reports(total, total, ceiling);
    forall i, j | 0 <= i < j < total ensures r[i] <= r[j] <= ceiling {
      ProgressMonotone(i + 1, j + 1, total, ceiling);
      ProgressMonotone(j + 1, total, total, ceiling);
      ProgressEnds(total, ceiling);
    }
    ProgressEnds(total, ceiling);
  }

  lemma ProgressMonotone(x: nat, y: nat, total: nat, ceiling: nat)
    requires x <= y && total > 0
    ensures ProgressAt(x, total, ceiling) <= ProgressAt(y, total, ceiling)
  {
    assert y * ceiling == x * ceiling + (y - x) * ceiling;
    QuotientMonotone(x * ceiling, y * ceiling, total);
  }

  lemma QuotientMonotone(x: nat, y: nat, d: nat)
    requires d > 0 && x <= y
    ensures Quotient(x, d) <= Quotient(y, d)
  {
    hide Quotient;
    MulOrder(d, Quotient(x, d), Quotient(y, d) + 1);
  }

  /** Multiplication by a positive number reflects the order. */
  lemma MulOrder(d: nat, x: nat, y: nat)
    requires d > 0 && d * x < d * y
    ensures x < y
  {
    assert d * (y - x) == d * y - d * x;
  }

  lemma ProgressEnds(total: nat, ceiling: nat)
    requires total > 0
    ensures ProgressAt(total, total, ceiling) == ceiling
  {
    hide Quotient;
    var q := Quotient(total * ceiling, total);
    MulOrder(total, ceiling, q + 1);
    MulOrder(total, q, ceiling + 1);
  }
}
