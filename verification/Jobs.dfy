/** The life of one background job: submitted, picked up by a worker that runs a tool of
    unknown behaviour, and expired by the cleanup scheduler. */
module Jobs {
  import opened Wrappers

  datatype Status = Pending | Queued | Processing | Completed | Failed | Cancelled | Expired

  predicate IsTerminal(s: Status) {
    s.Completed? || s.Failed? || s.Cancelled? || s.Expired?
  }

  const MESSAGE_LIMIT: nat := 2000

  const TIMEOUT_MESSAGE: string :=
    "Processing took too long and was stopped. Very large or "
    + "complex files can exceed the server's time limit \U{2014} try a "
    + "smaller file or split it into parts."

  const FAILURE_MESSAGE: string :=
    "The converter could not process this file. It may be "
    + "corrupted, password-protected, or use features the "
    + "converter does not support."

  const MISSING_MESSAGE: string := "One or more input files are no longer available."

  const QUEUE_MESSAGE: string := "The processing queue is unavailable. Try again later."

  /** A file linked to a job at a position. */
  datatype Link = Link(position: nat, file: nat)

  /** What subscribers of a job are told. */
  datatype Event = Event(status: Status, progress: int, errorCode: Option<string>)

  datatype Row = Row(
    status: Status,
    progress: int,
    errorCode: Option<string>,
    errorMessage: string,
    outputs: seq<Link>,
    expiresAt: Option<int>)

  // ---- What can happen while a job runs ----

  datatype Input = Present | Missing | Unresolvable(text: string)

  datatype Exn = ProcessingError(code: string, message: string) | CommandError(timedOut: bool)
    | OtherError(text: string)

  /** Importing one produced file into storage. */
  datatype Import = Stored(file: nat) | ImportFails(text: string)

  /** How a processor ends. `Exits` stands for what `except Exception` does not catch. */
  datatype Ending = Returns(produced: seq<Import>) | Raises(exn: Exn) | Exits

  /** One run: the state of the inputs, whether a workspace can be made, the progress the
      processor reports and how it ends. */
  datatype Run = Run(inputs: seq<Input>, workspaceError: Option<string>, reports: seq<int>, ending: Ending)

  // ---- What a run comes to ----

  datatype Verdict = Succeeds | FailsWith(code: string, message: string) | Dangles

  function Clamp(progress: int): (r: int)
    ensures 0 <= r <= 100
    ensures 0 <= progress <= 100 ==> r == progress
  {
    if progress < 0 then 0 else if progress > 100 then 100 else progress
  }

  function Truncated(message: string): string {
    if |message| > MESSAGE_LIMIT then message[..MESSAGE_LIMIT] else message
  }

  /** The exception the first input that cannot be resolved raises. */
  function FirstUnresolvable(inputs: seq<Input>): Option<string> {
    if inputs == [] then None
    else if inputs[0].Unresolvable? then Some(inputs[0].text)
    else FirstUnresolvable(inputs[1..])
  }

  predicate ProcessorRuns(run: Run) {
    (forall i :: 0 <= i < |run.inputs| ==> run.inputs[i].Present?) && run.workspaceError.None?
  }

  /** The files imported before the first import that fails. */
  function Imported(produced: seq<Import>): seq<nat> {
    if produced == [] || produced[0].ImportFails? then [] else [produced[0].file] + Imported(produced[1..])
  }

  function FirstImportError(produced: seq<Import>): Option<string> {
    if produced == [] then None
    else if produced[0].ImportFails? then Some(produced[0].text)
    else FirstImportError(produced[1..])
  }

  function VerdictOf(e: Exn): Verdict {
    match e
    case ProcessingError(code, message) => FailsWith(code, message)
    case CommandError(timedOut) =>
      FailsWith(if timedOut then "PROCESSING_TIMEOUT" else "PROCESSING_FAILED",
                if timedOut then TIMEOUT_MESSAGE else FAILURE_MESSAGE)
    case OtherError(text) => FailsWith("INTERNAL_SERVER_ERROR", "Unexpected error: " + text)
  }

  function VerdictOn(run: Run): Verdict {
    if FirstUnresolvable(run.inputs).Some? then VerdictOf(OtherError(FirstUnresolvable(run.inputs).value))
    else if Missing in run.inputs then FailsWith("FILE_EXPIRED", MISSING_MESSAGE)
    else if run.workspaceError.Some? then VerdictOf(OtherError(run.workspaceError.value))
    else match run.ending
      case Raises(e) => VerdictOf(e)
      case Exits => Dangles
      case Returns(produced) =>
        if produced == [] then FailsWith("PROCESSING_FAILED", "The tool produced no output.")
        else match FirstImportError(produced)
          case Some(text) => VerdictOf(OtherError(text))
          case None => Succeeds
  }

  function LinksOf(files: seq<nat>): (r: seq<Link>)
    ensures |r| == |files|
  {
    seq(|files|, i requires 0 <= i < |files| => Link(i, files[i]))
  }

  function OutputsOf(run: Run): seq<Link> {
    if ProcessorRuns(run) && run.ending.Returns? then LinksOf(Imported(run.ending.produced)) else []
  }

  /** The progress on the row when the processor ends. */
  function LastReport(run: Run): int {
    if ProcessorRuns(run) && run.reports != [] then Clamp(run.reports[|run.reports| - 1]) else 0
  }

  /** The row after a worker picks the job up; a terminal job is left alone. */
  function PickedUp(row: Row, run: Run): Row {
    if IsTerminal(row.status) then row
    else
      var linked := row.(progress := LastReport(run), outputs := row.outputs + OutputsOf(run));
      match VerdictOn(run)
      case Succeeds => linked.(status := Completed, progress := 100)
      case FailsWith(code, message) =>
        linked.(status := Failed, errorCode := Some(code), errorMessage := Truncated(message))
      case Dangles => linked.(status := Processing)
  }

  /** The events of a run: pick-up, each report, and the row as the run leaves it. */
  function Announced(row: Row, run: Run): seq<Event> {
    if IsTerminal(row.status) then []
    else
      var end := PickedUp(row, run);
      [Event(Processing, 0, None)]
      + (if ProcessorRuns(run) then ReportEvents(run.reports) else [])
      + [Event(end.status, end.progress, end.errorCode)]
  }

  function ReportEvents(reports: seq<int>): (r: seq<Event>)
    ensures |r| == |reports|
  {
    seq(|reports|, i requires 0 <= i < |reports| => Event(Processing, Clamp(reports[i]), None))
  }

  function DispatchFailed(row: Row): Row {
    row.(status := Failed, errorCode := Some("SERVICE_UNAVAILABLE"),
         errorMessage := QUEUE_MESSAGE)
  }

  predicate IsExpired(row: Row, now: int) {
    (row.status.Completed? || row.status.Failed? || row.status.Cancelled?)
    && row.expiresAt.Some? && row.expiresAt.value < now
  }

  function Swept(row: Row, now: int): Row {
    if IsExpired(row, now) then row.(status := Expired) else row
  }

  function Created(expiresAt: int): Row {
    Row(Queued, 0, None, "", [], Some(expiresAt))
  }

  // ---- The job row and the code that drives it ----

  /** Dispatching a job: whether a worker gets to run it, and whether the call raises. */
  datatype Dispatch = Dispatch(delivered: bool, raises: bool)

  /** How the worker's `try` block ends. */
  datatype Attempt = Done | Raised(exn: Exn) | Exited

  class Job {
    var status: Status
    var progress: int
    var errorCode: Option<string>
    var errorMessage: string
    var outputs: seq<Link>
    var inputs: seq<Link>
    var expiresAt: Option<int>
    var events: seq<Event>

    function Current(): Row
      reads this
    {
      Row(status, progress, errorCode, errorMessage, outputs, expiresAt)
    }

    /** Persist a job, link its inputs and mark it queued. */
    constructor (files: seq<nat>, expiresAt: int)
      ensures Current() == Created(expiresAt) && inputs == LinksOf(files) && events == []
    {
      status, progress, errorCode, errorMessage := Pending, 0, None, "";
      outputs, events, this.expiresAt := [], [], Some(expiresAt);
      inputs := [];
      new;
      for position := 0 to |files|
        invariant Current() == Created(expiresAt).(status := Pending) && events == []
        invariant inputs == LinksOf(files)[..position]
      {
        inputs := inputs + [Link(position, files[position])];
      }
      status := Queued;
    }

    /** Hand a queued job over; when the call raises, the row is read afresh and failed. */
    method Submit(dispatch: Dispatch, run: Run)
      modifies this
      ensures var ran := if dispatch.delivered then PickedUp(old(Current()), run) else old(Current());
        Current() == if dispatch.raises then DispatchFailed(ran) else ran
      ensures events == old(events) + if dispatch.delivered then Announced(old(Current()), run) else []
      ensures inputs == old(inputs)
    {
      if dispatch.delivered {
        RunToolJob(run);
      }
      if dispatch.raises {
        status, errorCode := Failed, Some("SERVICE_UNAVAILABLE");
        errorMessage := QUEUE_MESSAGE;
      }
    }

    method SetProgress(value: int)
      modifies this`progress
      ensures progress == Clamp(value)
    {
      var capped := if value < 100 then value else 100;
      progress := if capped > 0 then capped else 0;
    }

    method MarkProcessing()
      modifies this`status, this`progress
      ensures Current() == old(Current()).(status := Processing, progress := 0)
    {
      status, progress := Processing, 0;
    }

    method MarkCompleted()
      modifies this`status, this`progress
      ensures Current() == old(Current()).(status := Completed, progress := 100)
    {
      status, progress := Completed, 100;
    }

    method MarkFailed(code: string, message: string)
      modifies this`status, this`errorCode, this`errorMessage
      ensures Current() ==
        old(Current()).(status := Failed, errorCode := Some(code), errorMessage := Truncated(message))
    {
      status, errorCode := Failed, Some(code);
      errorMessage := if |message| > MESSAGE_LIMIT then message[..MESSAGE_LIMIT] else message;
    }

    method Publish(code: Option<string>)
      modifies this`events
      ensures events == old(events) + [Event(status, progress, code)]
    {
      events := events + [Event(status, progress, code)];
    }

    /** One delivery of the job to a worker. */
    method RunToolJob(run: Run)
      modifies this
      ensures Current() == PickedUp(old(Current()), run)
      ensures events == old(events) + Announced(old(Current()), run)
      ensures inputs == old(inputs)
    {
      hide VerdictOn, OutputsOf, LastReport, ProcessorRuns, ReportEvents;
      if IsTerminal(status) {
        return;
      }
      MarkProcessing();
      Publish(None);
      var attempt := Attempt(run);
      match attempt {
        case Done => MarkCompleted();
        case Raised(ProcessingError(code, message)) => MarkFailed(code, message);
        case Raised(CommandError(timedOut)) =>
          if timedOut {
            MarkFailed("PROCESSING_TIMEOUT", TIMEOUT_MESSAGE);
          } else {
            MarkFailed("PROCESSING_FAILED", FAILURE_MESSAGE);
          }
        case Raised(OtherError(text)) => MarkFailed("INTERNAL_SERVER_ERROR", "Unexpected error: " + text);
        case Exited =>
      }
      Publish(errorCode);
    }

    /** The guarded part of a run: everything from loading inputs to linking outputs. */
    method Attempt(run: Run) returns (a: Attempt)
      requires status == Processing && progress == 0
      modifies this`progress, this`outputs, this`events
      ensures progress == LastReport(run) && outputs == old(outputs) + OutputsOf(run)
      ensures events == old(events) + if ProcessorRuns(run) then ReportEvents(run.reports) else []
      ensures match a
        case Done => VerdictOn(run) == Succeeds
        case Exited => VerdictOn(run) == Dangles
        case Raised(e) => VerdictOn(run) == VerdictOf(e)
    {
      var unavailable := CheckInputs(run.inputs);
      if unavailable.Some? {
        return Raised(unavailable.value);
      }
      if run.workspaceError.Some? {
        return Raised(OtherError(run.workspaceError.value));
      }
      for i := 0 to |run.reports|
        invariant progress == if i == 0 then 0 else Clamp(run.reports[i - 1])
        invariant outputs == old(outputs) && events == old(events) + ReportEvents(run.reports)[..i]
      {
        SetProgress(run.reports[i]);
        Publish(None);
      }
      match run.ending {
        case Raises(e) => return Raised(e);
        case Exits => return Exited;
        case Returns(produced) =>
          if produced == [] {
            assert OutputsOf(run) == [];
            return Raised(ProcessingError("PROCESSING_FAILED", "The tool produced no output."));
          }
          var failed := RegisterOutputs(produced);
          return if failed.Some? then Raised(OtherError(failed.value)) else Done;
      }
    }

    /** Import produced files and link them, position by position. */
    method RegisterOutputs(produced: seq<Import>) returns (failed: Option<string>)
      modifies this`outputs
      ensures failed == FirstImportError(produced)
      ensures outputs == old(outputs) + LinksOf(Imported(produced))
    {
      ghost var linked: seq<nat> := [];
      for position := 0 to |produced|
        invariant |linked| == position && outputs == old(outputs) + LinksOf(linked)
        invariant Imported(produced) == linked + Imported(produced[position..])
        invariant FirstImportError(produced) == FirstImportError(produced[position..])
      {
        match produced[position] {
          case ImportFails(text) =>
            assert linked + [] == linked;
            return Some(text);
          case Stored(file) =>
            outputs := outputs + [Link(position, file)];
            assert LinksOf(linked + [file]) == LinksOf(linked) + [Link(position, file)];
            linked := linked + [file];
        }
      }
      assert linked + [] == linked;
      return None;
    }
  }

  /** Resolve every input, then see that all of them are there. */
  method CheckInputs(inputs: seq<Input>) returns (unavailable: Option<Exn>)
    ensures unavailable.None? <==> forall i :: 0 <= i < |inputs| ==> inputs[i].Present?
    ensures unavailable.None? ==> FirstUnresolvable(inputs).None? && Missing !in inputs
    ensures unavailable.Some? ==>
      match FirstUnresolvable(inputs)
      case Some(text) => unavailable.value == OtherError(text)
      case None => Missing in inputs && unavailable.value == ProcessingError("FILE_EXPIRED", MISSING_MESSAGE)
  {
    AllPresent(inputs);
    var missing := false;
    for i := 0 to |inputs|
      invariant FirstUnresolvable(inputs) == FirstUnresolvable(inputs[i..])
      invariant missing <==> Missing in inputs[..i]
    {
      if inputs[i].Unresolvable? {
        return Some(OtherError(inputs[i].text));
      }
      missing := missing || inputs[i].Missing?;
    }
    assert inputs[..|inputs|] == inputs;
    return if missing then Some(ProcessingError("FILE_EXPIRED", MISSING_MESSAGE)) else None;
  }

  /** Positions in the table of the jobs that have expired. */
  method ListExpired(jobs: seq<Job>, now: int) returns (expired: seq<nat>)
    ensures forall k :: 0 <= k < |expired| ==> expired[k] < |jobs|
    ensures forall k, l :: 0 <= k < l < |expired| ==> expired[k] < expired[l]
    ensures forall i: nat :: i < |jobs| ==> (i in expired <==> IsExpired(jobs[i].Current(), now))
  {
    expired := [];
    for i := 0 to |jobs|
      invariant forall k :: 0 <= k < |expired| ==> expired[k] < i
      invariant forall k, l :: 0 <= k < l < |expired| ==> expired[k] < expired[l]
      invariant forall k: nat :: k < i ==> (k in expired <==> IsExpired(jobs[k].Current(), now))
    {
      if IsExpired(jobs[i].Current(), now) {
        expired := expired + [i];
      }
    }
  }

  /** Mark expired every terminal job past its retention window; returns how many. */
  method CleanupExpired(jobs: seq<Job>, now: int) returns (count: nat)
    requires forall i, j :: 0 <= i < j < |jobs| ==> jobs[i] != jobs[j]
    modifies jobs
    ensures forall i :: 0 <= i < |jobs| ==> jobs[i].Current() == Swept(old(jobs[i].Current()), now)
    ensures count == |set i | 0 <= i < |jobs| && IsExpired(old(jobs[i].Current()), now)|
  {
    var expired := ListExpired(jobs, now);
    DistinctSize(expired);
    ghost var doomed := set i | 0 <= i < |jobs| && IsExpired(jobs[i].Current(), now);
    assert doomed == Positions(expired);
    count := MarkExpired(jobs, expired);
    assert doomed == set i | 0 <= i < |jobs| && IsExpired(old(jobs[i].Current()), now);
  }

  method MarkExpired(jobs: seq<Job>, expired: seq<nat>) returns (count: nat)
    requires forall i, j :: 0 <= i < j < |jobs| ==> jobs[i] != jobs[j]
    requires forall k :: 0 <= k < |expired| ==> expired[k] < |jobs|
    modifies jobs
    ensures count == |expired|
    ensures forall i :: 0 <= i < |jobs| ==>
      jobs[i].Current() == old(jobs[i].Current()).(status := if i in expired then Expired else old(jobs[i].status))
  {
    count := 0;
    for k := 0 to |expired|
      invariant count == k
      invariant forall i :: 0 <= i < |jobs| ==>
        jobs[i].Current() ==
        old(jobs[i].Current()).(status := if i in expired[..k] then Expired else old(jobs[i].status))
    {
      jobs[expired[k]].status := Expired;
      count := count + 1;
    }
    assert expired[..|expired|] == expired;
  }

  ghost function Positions(xs: seq<nat>): set<int> {
    set x: int | x in xs
  }

  lemma {:induction false} DistinctSize(xs: seq<nat>)
    requires forall k, l :: 0 <= k < l < |xs| ==> xs[k] < xs[l]
    ensures |Positions(xs)| == |xs|
  {
    if xs != [] {
      var n := |xs| - 1;
      DistinctSize(xs[..n]);
      OneMorePosition(xs[..n], xs[n]);
      assert xs == xs[..n] + [xs[n]];
    }
  }

  lemma OneMorePosition(xs: seq<nat>, x: nat)
    requires x !in xs
    ensures |Positions(xs + [x])| == |Positions(xs)| + 1
  {
    assert Positions(xs + [x]) == Positions(xs) + {x};
  }

  // ---- Whole lives ----

  /** Everything that can befall a row, in any order: deliveries (the queue redelivers a
      job whose worker died), a failed dispatch, a cancellation and a cleanup. */
  datatype LifeEvent = Pickup(run: Run) | DispatchError | Cancel | Sweep(now: int)

  function After(row: Row, e: LifeEvent): Row {
    match e
    case Pickup(run) => PickedUp(row, run)
    case DispatchError => DispatchFailed(row)
    case Cancel => if IsTerminal(row.status) then row else row.(status := Cancelled)
    case Sweep(now) => Swept(row, now)
  }

  function Life(expiresAt: int, history: seq<LifeEvent>): Row {
    if history == [] then Created(expiresAt)
    else After(Life(expiresAt, history[..|history| - 1]), history[|history| - 1])
  }

  /** Outputs sit at positions 0, 1, 2, ... */
  predicate InPositions(links: seq<Link>) {
    forall i :: 0 <= i < |links| ==> links[i].position == i
  }

  ghost predicate Sound(row: Row) {
    && 0 <= row.progress <= 100
    && |row.errorMessage| <= MESSAGE_LIMIT
    && InPositions(row.outputs)
    && !row.status.Pending?
    && (row.status.Completed? ==> row.progress == 100 && row.outputs != [] && row.errorCode.None?)
    && (row.status.Failed? ==> row.errorCode.Some?)
    && (!IsTerminal(row.status) || row.status.Cancelled? ==> row.outputs == [] && row.errorCode.None?)
  }

  lemma SuccessHasOutputs(run: Run)
    requires VerdictOn(run) == Succeeds
    ensures OutputsOf(run) != [] && |OutputsOf(run)| == |run.ending.produced|
  {
    AllPresent(run.inputs);
    AllImported(run.ending.produced);
  }

  lemma {:induction false} AllPresent(inputs: seq<Input>)
    ensures (forall i :: 0 <= i < |inputs| ==> inputs[i].Present?) <==>
      FirstUnresolvable(inputs).None? && Missing !in inputs
  {
    if inputs != [] {
      AllPresent(inputs[1..]);
      assert inputs == [inputs[0]] + inputs[1..];
    }
  }

  lemma {:induction false} AllImported(produced: seq<Import>)
    ensures FirstImportError(produced).None? ==> |Imported(produced)| == |produced|
  {
    if produced != [] {
      AllImported(produced[1..]);
    }
  }

  lemma PickupKeepsSound(row: Row, run: Run)
    requires Sound(row)
    ensures Sound(PickedUp(row, run))
  {
    AllPresent(run.inputs);
    if VerdictOn(run) == Succeeds {
      SuccessHasOutputs(run);
    }
  }

  /** Every row reached in any life: progress stays in 0..100, completed means progress
      100, no error and at least one output at positions 0..n-1, failed means an error code. */
  lemma {:induction false} LifeIsSound(expiresAt: int, history: seq<LifeEvent>)
    ensures Sound(Life(expiresAt, history))
  {
    hide PickedUp;
    if history != [] {
      var n := |history| - 1;
      LifeIsSound(expiresAt, history[..n]);
      if history[n].Pickup? {
        PickupKeepsSound(Life(expiresAt, history[..n]), history[n].run);
      }
    }
  }

  /** The run reaches its processor and that ends in something `except Exception` misses. */
  predicate LeavesDangling(run: Run) {
    ProcessorRuns(run) && run.ending.Exits?
  }

  /** A submitted job ends completed or failed, whatever its processor does, exactly when
      the dispatch raises or the job is delivered and not left dangling. */
  lemma CreatedJobsEnd(expiresAt: int, dispatch: Dispatch, run: Run)
    ensures var ran := if dispatch.delivered then PickedUp(Created(expiresAt), run) else Created(expiresAt);
      var row := if dispatch.raises then DispatchFailed(ran) else ran;
      row.status.Completed? || row.status.Failed? <==> dispatch.raises || (dispatch.delivered && !LeavesDangling(run))
  {
    AllPresent(run.inputs);
  }

  /** The last event of a run repeats the row, and is terminal unless the run dangles;
      every event before it says processing, and no event leaves 0..100. */
  lemma LastEventIsFinal(row: Row, run: Run)
    requires !IsTerminal(row.status)
    ensures Announced(row, run) != []
    ensures var last, end := Announced(row, run)[|Announced(row, run)| - 1], PickedUp(row, run);
      && last == Event(end.status, end.progress, end.errorCode)
      && (IsTerminal(last.status) <==> !LeavesDangling(run))
    ensures forall e :: e in Announced(row, run) ==> 0 <= e.progress <= 100
    ensures forall i :: 0 <= i < |Announced(row, run)| - 1 ==> Announced(row, run)[i].status.Processing?
  {
    AllPresent(run.inputs);
  }

  /** A job is completed exactly when the processor ran and every one of one or more
      produced files was imported; those files are then its outputs, in order. */
  lemma CompletedIff(row: Row, run: Run)
    requires !IsTerminal(row.status) && row.outputs == []
    ensures PickedUp(row, run).status.Completed? <==>
      ProcessorRuns(run) && run.ending.Returns? && run.ending.produced != []
      && forall i :: 0 <= i < |run.ending.produced| ==> run.ending.produced[i].Stored?
    ensures PickedUp(row, run).status.Completed? ==>
      var produced, outputs := run.ending.produced, PickedUp(row, run).outputs;
      |outputs| == |produced| && forall i :: 0 <= i < |produced| ==> outputs[i] == Link(i, produced[i].file)
  {
    AllPresent(run.inputs);
    if run.ending.Returns? {
      ImportedIff(run.ending.produced);
    }
  }

  lemma {:induction false} ImportedIff(produced: seq<Import>)
    ensures FirstImportError(produced).None? <==> forall i :: 0 <= i < |produced| ==> produced[i].Stored?
    ensures FirstImportError(produced).None? ==>
      |Imported(produced)| == |produced|
      && forall i :: 0 <= i < |produced| ==> Imported(produced)[i] == produced[i].file
  {
    if produced != [] {
      ImportedIff(produced[1..]);
      assert forall i :: 0 < i < |produced| ==> produced[i] == produced[1..][i - 1];
    }
  }

  /** A failed job keeps output links exactly when some but not all of its produced files
      could be imported, the first of them among those. */
  lemma FailedKeepsOutputsIff(row: Row, run: Run)
    requires !IsTerminal(row.status) && row.outputs == []
    ensures var end := PickedUp(row, run);
      end.status.Failed? && end.outputs != [] <==>
        ProcessorRuns(run) && run.ending.Returns? && run.ending.produced != [] && run.ending.produced[0].Stored?
        && exists i :: 0 <= i < |run.ending.produced| && run.ending.produced[i].ImportFails?
  {
    AllPresent(run.inputs);
    if run.ending.Returns? {
      ImportedIff(run.ending.produced);
    }
  }

  /** The code of a failed run: internal for anything unforeseen, in loading, in the workspace,
      in the processor or in the import; expired inputs; the processor's own code; a timeout
      or a failure of an external command; a failure for no output at all. */
  lemma FailureCodes(row: Row, run: Run)
    requires !IsTerminal(row.status)
    ensures var end := PickedUp(row, run);
      && ((exists i :: 0 <= i < |run.inputs| && run.inputs[i].Unresolvable?) ==>
            end.errorCode == Some("INTERNAL_SERVER_ERROR"))
      && ((forall i :: 0 <= i < |run.inputs| ==> !run.inputs[i].Unresolvable?) && Missing in run.inputs ==>
            end.errorCode == Some("FILE_EXPIRED"))
      && ((forall i :: 0 <= i < |run.inputs| ==> run.inputs[i].Present?) && run.workspaceError.Some? ==>
            end.errorCode == Some("INTERNAL_SERVER_ERROR"))
    ensures ProcessorRuns(run) ==>
      var code := PickedUp(row, run).errorCode;
      match run.ending
      case Raises(ProcessingError(own, message)) =>
        code == Some(own) && PickedUp(row, run).errorMessage <= message
      case Raises(CommandError(timedOut)) =>
        code == Some(if timedOut then "PROCESSING_TIMEOUT" else "PROCESSING_FAILED")
      case Raises(OtherError(_)) => code == Some("INTERNAL_SERVER_ERROR")
      case Returns(produced) =>
        if produced == [] then code == Some("PROCESSING_FAILED")
        else (exists i :: 0 <= i < |produced| && produced[i].ImportFails?) ==> code == Some("INTERNAL_SERVER_ERROR")
      case Exits => PickedUp(row, run).status.Processing?
  {
    FirstUnresolvableIff(run.inputs);
    AllPresent(run.inputs);
    if run.ending.Returns? {
      ImportedIff(run.ending.produced);
    }
  }

  lemma {:induction false} FirstUnresolvableIff(inputs: seq<Input>)
    ensures FirstUnresolvable(inputs).Some? <==> exists i :: 0 <= i < |inputs| && inputs[i].Unresolvable?
  {
    if inputs != [] {
      var rest := inputs[1..];
      FirstUnresolvableIff(rest);
      assert forall i :: 0 <= i < |rest| ==> rest[i] == inputs[i + 1];
      if i :| 0 <= i < |inputs| && inputs[i].Unresolvable? {
        assert i > 0 ==> rest[i - 1] == inputs[i];
      }
    }
  }

  /** An error message is kept up to its first 2000 characters. */
  lemma MessageIsCut(row: Row, run: Run)
    requires VerdictOn(run).FailsWith? && !IsTerminal(row.status)
    ensures var kept, message := PickedUp(row, run).errorMessage, VerdictOn(run).message;
      kept <= message && |kept| <= 2000
      && (|message| <= 2000 ==> kept == message) && (|message| > 2000 ==> |kept| == 2000)
  {
  }

  /** Progress is 100 for a completed run; otherwise it is the last report, cut to 0..100, or 0. */
  lemma ProgressLeft(row: Row, run: Run)
    requires !IsTerminal(row.status)
    ensures var p := PickedUp(row, run).progress;
      && (PickedUp(row, run).status.Completed? ==> p == 100)
      && (!PickedUp(row, run).status.Completed? && ProcessorRuns(run) && run.reports != [] ==>
            var last := run.reports[|run.reports| - 1];
            (last <= 0 && p == 0) || (last >= 100 && p == 100) || (0 <= last <= 100 && p == last))
      && (!PickedUp(row, run).status.Completed? && (!ProcessorRuns(run) || run.reports == []) ==> p == 0)
  {
  }

  /** A sweep expires exactly the ended jobs whose retention time is in the past; jobs without
      one, waiting, running or already expired are left. */
  lemma SweepMeaning(row: Row, now: int)
    ensures Swept(row, now).status.Expired? && !row.status.Expired? <==>
      (row.status == Completed || row.status == Failed || row.status == Cancelled)
      && exists t :: row.expiresAt == Some(t) && t < now
    ensures Swept(row, now) == row || Swept(row, now) == row.(status := Expired)
    ensures row.status.Pending? || row.status.Queued? || row.status.Processing? ==> Swept(row, now) == row
  {
    if row.expiresAt.Some? {
      assert row.expiresAt == Some(row.expiresAt.value);
    }
  }

  /** A failed dispatch fails the job as unavailable, with its progress and outputs as they are;
      a cancellation ends a job that has not ended, and no other. */
  lemma FailedDispatchAndCancel(row: Row)
    ensures var failed := After(row, DispatchError);
      && failed.status == Failed && failed.errorCode == Some("SERVICE_UNAVAILABLE")
      && failed.progress == row.progress && failed.outputs == row.outputs && failed.expiresAt == row.expiresAt
    ensures var s := row.status;
      if s.Completed? || s.Failed? || s.Cancelled? || s.Expired? then After(row, Cancel) == row
      else After(row, Cancel).status == Cancelled && After(row, Cancel).(status := s) == row
  {
  }

  /** A run announces its start, every report of the processor, cut to 0..100, and its end. */
  lemma ReportsAreAnnounced(row: Row, run: Run)
    requires !IsTerminal(row.status)
    ensures var events, n := Announced(row, run), if ProcessorRuns(run) then |run.reports| else 0;
      && |events| == n + 2 && events[0] == Event(Processing, 0, None)
      && forall i :: 0 <= i < n ==>
        && events[i + 1].status == Processing && events[i + 1].errorCode == None
        && (run.reports[i] <= 0 ==> events[i + 1].progress == 0)
        && (run.reports[i] >= 100 ==> events[i + 1].progress == 100)
        && (0 <= run.reports[i] <= 100 ==> events[i + 1].progress == run.reports[i])
  {
    hide PickedUp, ProcessorRuns;
    var events := Announced(row, run);
    if ProcessorRuns(run) {
      assert forall i :: 0 <= i < |run.reports| ==> events[i + 1] == Event(Processing, Clamp(run.reports[i]), None);
    }
  }

  /** Only the cleanup, to expired, or a failing dispatch changes a terminal job. */
  lemma TerminalIsFrozen(row: Row, e: LifeEvent)
    requires IsTerminal(row.status)
    ensures || After(row, e) == row
            || e.DispatchError?
            || (e.Sweep? && IsExpired(row, e.now) && After(row, e) == row.(status := Expired))
  {
  }

  predicate NoDispatchError(history: seq<LifeEvent>) {
    forall i :: 0 <= i < |history| ==> !history[i].DispatchError?
  }

  /** Once terminal, a job whose dispatch has not failed keeps everything but its status,
      and the status only ever changes to expired, only after the retention window. */
  lemma {:induction false} TerminalForever(expiresAt: int, before: seq<LifeEvent>, later: seq<LifeEvent>)
    requires IsTerminal(Life(expiresAt, before).status) && NoDispatchError(later)
    ensures var ended, now := Life(expiresAt, before), Life(expiresAt, before + later);
      now == ended || (now == ended.(status := Expired)
        && exists i :: 0 <= i < |later| && later[i].Sweep? && expiresAt < later[i].now)
  {
    if later == [] {
      assert before + later == before;
    } else {
      var n := |later| - 1;
      TerminalForever(expiresAt, before, later[..n]);
      assert (before + later)[..|before + later| - 1] == before + later[..n];
      ExpiryIsKept(expiresAt, before);
      TerminalIsFrozen(Life(expiresAt, before + later[..n]), later[n]);
    }
  }

  lemma {:induction false} ExpiryIsKept(expiresAt: int, history: seq<LifeEvent>)
    ensures Life(expiresAt, history).expiresAt == Some(expiresAt)
  {
    if history != [] {
      ExpiryIsKept(expiresAt, history[..|history| - 1]);
    }
  }

  /** A dispatch that runs the job and then raises fails a job that had completed. */
  lemma LateDispatchErrorOverwrites(expiresAt: int)
    ensures var done := Life(expiresAt, [Pickup(Run([], None, [], Returns([Stored(1)])))]);
      done.status.Completed? && After(done, DispatchError).status.Failed?
  {
    var run := Run([], None, [], Returns([Stored(1)]));
    CompletedIff(Created(expiresAt), run);
    assert [Pickup(run)][..0] == [];
  }

  // ---- Inputs keep their order ----

  predicate SortedByPosition(links: seq<Link>) {
    forall i, j :: 0 <= i < j < |links| ==> links[i].position <= links[j].position
  }

  /** However the database returns the links, sorting them by position gives the inputs
      in the order in which they were submitted. */
  lemma {:induction false} InputsInSubmittedOrder(files: seq<nat>, loaded: seq<Link>)
    requires multiset(loaded) == multiset(LinksOf(files)) && SortedByPosition(loaded)
    ensures loaded == LinksOf(files)
  {
    assert |multiset(loaded)| == |multiset(LinksOf(files))|;
    if files != [] {
      var n := |files| - 1;
      LastLinkIsLast(files, loaded);
      MultisetSnoc(loaded);
      MultisetSnoc(LinksOf(files));
      assert LinksOf(files)[..n] == LinksOf(files[..n]);
      CancelCommon(multiset(loaded[..n]), multiset(LinksOf(files[..n])), multiset{loaded[n]});
      InputsInSubmittedOrder(files[..n], loaded[..n]);
    }
  }

  lemma LastLinkIsLast(files: seq<nat>, loaded: seq<Link>)
    requires files != [] && |loaded| == |files|
    requires multiset(loaded) == multiset(LinksOf(files)) && SortedByPosition(loaded)
    ensures loaded[|files| - 1] == LinksOf(files)[|files| - 1]
  {
    var links, n := LinksOf(files), |files| - 1;
    assert links[n] in multiset(loaded) && loaded[n] in multiset(links);
    assert links[n] in loaded && loaded[n] in links;
  }

  lemma MultisetSnoc(links: seq<Link>)
    requires links != []
    ensures multiset(links) == multiset(links[..|links| - 1]) + multiset{links[|links| - 1]}
  {
    assert links == links[..|links| - 1] + [links[|links| - 1]];
  }

  lemma CancelCommon(a: multiset<Link>, b: multiset<Link>, c: multiset<Link>)
    requires a + c == b + c
    ensures a == b
  {
    forall x ensures a[x] == b[x] {
      assert (a + c)[x] == (b + c)[x];
    }
  }
}
