/** What the outside world does to the pool, read off a run move by move: the recorded
    history is exactly the outcomes of the conversions. */
module PoolOutcomes {
  import opened Wrappers
  import opened PoolHealth
  import opened PoolProtocol

  /** One move: a thread steps and the outside world decides how, or a server dies. */
  datatype Move = Moves(t: Tid, c: Choice) | Dies(server: ServerId)

  ghost predicate MoveTo(size: nat, s: State, m: Move, s': State)
    requires size > 0
  {
    match m
    case Moves(t, c) => Step(size, s, t, c) == Some(s')
    case Dies(v) => s' == s.(alive := s.alive - {v})
  }

  ghost predicate IsPlay(size: nat, run: seq<State>, moves: seq<Move>)
    requires size > 0
  {
    && |run| == |moves| + 1 && Init(run[0])
    && forall i :: 0 <= i < |moves| ==> MoveTo(size, run[i], moves[i], run[i + 1])
  }

  /** Plays are runs, and every run is the run of some play. */
  lemma PlayIsRun(size: nat, run: seq<State>, moves: seq<Move>)
    requires size > 0 && IsPlay(size, run, moves)
    ensures IsRun(size, run)
  {
    hide Step;
    forall i | 0 < i < |run| ensures Next(size, run[i - 1], run[i]) {
      assert MoveTo(size, run[i - 1], moves[i - 1], run[i - 1 + 1]);
    }
  }

  lemma {:induction false} RunIsPlayed(size: nat, run: seq<State>) returns (moves: seq<Move>)
    requires size > 0 && IsRun(size, run)
    ensures IsPlay(size, run, moves)
  {
    hide Step;
    var n := |run| - 1;
    if n == 0 {
      moves := [];
    } else {
      moves := RunIsPlayed(size, run[..n]);
      var m := MoveOf(size, run[n - 1], run[n]);
      moves := moves + [m];
    }
  }

  lemma MoveOf(size: nat, s: State, s': State) returns (m: Move)
    requires size > 0 && Next(size, s, s')
    ensures MoveTo(size, s, m, s')
  {
    hide Step;
    if t, c :| Step(size, s, t, c) == Some(s') {
      m := Moves(t, c);
    } else {
      var v :| s' == s.(alive := s.alive - {v});
      m := Dies(v);
    }
  }

  // ---- One move ----

  /** The conversion of the moving thread finishes. */
  ghost predicate Finishes(s: State, m: Move) {
    m.Moves? && m.t in s.pcs && s.pcs[m.t].Running? && m.c.result.Finished?
  }

  /** The client of the moving thread fails and its server turns out to be dead. */
  ghost predicate KillsServer(s: State, m: Move) {
    m.Moves? && m.t in s.pcs && s.pcs[m.t].Running? && m.c.result.Died? && s.pcs[m.t].server !in s.alive
  }

  /** The moving thread records the crash of its conversion. */
  ghost predicate Strikes(s: State, m: Move) {
    m.Moves? && m.t in s.pcs && s.pcs[m.t].Striking?
  }

  /** What a move adds to the history. */
  ghost function Adds(s: State, m: Move): seq<Event> {
    if Finishes(s, m) then [Converted] else if Strikes(s, m) then [Crash] else []
  }

  ghost function Pending(s: State): set<Tid> {
    set t | t in s.pcs && CrashPending(s.pcs[t])
  }

  lemma RunningMoves(s: State, t: Tid, c: Choice, slot: Slot, server: ServerId)
    requires t in s.pcs && s.pcs[t] == Running(slot, server)
    ensures var s' := StepRunning(s, t, c, slot, server);
      && s'.pcs == s.pcs[t := if c.result.Died? && server !in s.alive then Crashed(slot) else Idle]
      && s'.history == (if c.result.Finished? then s.history + [Converted] else s.history)
      && s'.strikes == (if c.result.Finished? && s.strikes > 0 then s.strikes - 1 else s.strikes)
  {
  }

  lemma CrashMoves(s: State, t: Tid, slot: Slot)
    requires StepCrashed(s, t, slot).Some?
    ensures var s' := StepCrashed(s, t, slot).value;
      s'.pcs == s.pcs[t := Striking(slot)] && s'.history == s.history && s'.strikes == s.strikes
  {
  }

  lemma StrikeMoves(s: State, t: Tid, slot: Slot)
    ensures var s' := StepStriking(s, t, slot);
      && t in s'.pcs && s'.pcs == s.pcs[t := s'.pcs[t]] && !CrashPending(s'.pcs[t])
      && s'.history == s.history + [Crash] && s'.strikes == s.strikes + 2
  {
  }

  /** A conversion that finishes adds exactly one success and repays one strike, never below
      zero; recording a crash adds exactly one and costs two; nothing else is recorded. */
  lemma MoveRecords(size: nat, s: State, m: Move, s': State)
    requires size > 0 && MoveTo(size, s, m, s')
    ensures s'.history == s.history + Adds(s, m)
    ensures s'.strikes ==
      if Finishes(s, m) then (if s.strikes > 0 then s.strikes - 1 else 0)
      else if Strikes(s, m) then s.strikes + 2
      else s.strikes
    ensures forall t :: t in s.pcs ==> t in s'.pcs
    ensures Pending(s') == (if Strikes(s, m) then Pending(s) - {m.t} else Pending(s))
      + if KillsServer(s, m) then {m.t} else {}
  {
    hide StepActivating, StepProbing, StepWaiting, StepProbeLocked, StepScanning, StepEnsuring, StepSpawning,
         StepReading,
         StepRunning, StepCrashed, StepStriking, StepTerminating, StepClearing;
    assert s.history + [] == s.history;
    if m.Moves? && m.t in s.pcs {
      match s.pcs[m.t]
      case Running(slot, server) => RunningMoves(s, m.t, m.c, slot, server);
      case Crashed(slot) => CrashMoves(s, m.t, slot);
      case Striking(slot) => StrikeMoves(s, m.t, slot);
      case _ =>
    }
  }

  // ---- Whole plays ----

  /** The outcomes of the first `n` moves, in order. */
  ghost function Recorded(run: seq<State>, moves: seq<Move>, n: nat): seq<Event>
    requires n <= |moves| && |run| == |moves| + 1
  {
    if n == 0 then [] else Recorded(run, moves, n - 1) + Adds(run[n - 1], moves[n - 1])
  }

  /** The history of a run is exactly the sequence of its outcomes. */
  lemma {:induction false} HistoryIsOutcomes(size: nat, run: seq<State>, moves: seq<Move>, n: nat)
    requires size > 0 && IsPlay(size, run, moves) && n <= |moves|
    ensures run[n].history == Recorded(run, moves, n)
  {
    hide MoveTo, Adds;
    if n > 0 {
      HistoryIsOutcomes(size, run, moves, n - 1);
      assert MoveTo(size, run[n - 1], moves[n - 1], run[n - 1 + 1]);
      MoveRecords(size, run[n - 1], moves[n - 1], run[n]);
    }
  }

  /** How many of the first `n` moves were conversions that killed their server. */
  ghost function Kills(run: seq<State>, moves: seq<Move>, n: nat): nat
    requires n <= |moves| && |run| == |moves| + 1
  {
    if n == 0 then 0 else Kills(run, moves, n - 1) + if KillsServer(run[n - 1], moves[n - 1]) then 1 else 0
  }

  ghost function Successes(run: seq<State>, moves: seq<Move>, n: nat): nat
    requires n <= |moves| && |run| == |moves| + 1
  {
    if n == 0 then 0 else Successes(run, moves, n - 1) + if Finishes(run[n - 1], moves[n - 1]) then 1 else 0
  }

  lemma CountSnoc(e: Event, h: seq<Event>, x: Event)
    ensures Count(e, h + [x]) == Count(e, h) + if x == e then 1 else 0
  {
    assert (h + [x])[..|h|] == h;
  }

  /** No crash is lost or recorded twice: conversions that killed their server are those
      recorded plus those whose thread is about to record one; successes are all recorded. */
  lemma {:induction false} CrashesAreConserved(size: nat, run: seq<State>, moves: seq<Move>, n: nat)
    requires size > 0 && IsPlay(size, run, moves) && n <= |moves|
    ensures Kills(run, moves, n) == Count(Crash, run[n].history) + |Pending(run[n])|
    ensures Successes(run, moves, n) == Count(Converted, run[n].history)
  {
    hide MoveTo, Count, Pending;
    if n == 0 {
      NothingPending(size, run, moves);
    } else {
      var s, m, s' := run[n - 1], moves[n - 1], run[n];
      CrashesAreConserved(size, run, moves, n - 1);
      assert MoveTo(size, run[n - 1], moves[n - 1], run[n - 1 + 1]);
      MoveRecords(size, s, m, s');
      if Finishes(s, m) {
        CountSnoc(Crash, s.history, Converted);
        CountSnoc(Converted, s.history, Converted);
      } else if Strikes(s, m) {
        CountSnoc(Crash, s.history, Crash);
        CountSnoc(Converted, s.history, Crash);
        StrikerIsPending(s, m);
      } else {
        assert s.history + [] == s.history;
        RunnerIsNotPending(s, m);
      }
    }
  }

  lemma NothingPending(size: nat, run: seq<State>, moves: seq<Move>)
    requires size > 0 && IsPlay(size, run, moves)
    ensures Pending(run[0]) == {} && Count(Crash, run[0].history) == 0 && Count(Converted, run[0].history) == 0
  {
  }

  lemma StrikerIsPending(s: State, m: Move)
    requires Strikes(s, m)
    ensures m.t in Pending(s)
  {
  }

  lemma RunnerIsNotPending(s: State, m: Move)
    ensures KillsServer(s, m) ==> m.t !in Pending(s)
  {
  }

  // ---- Choosing a slot, and shutting down ----

  /** A conversion settles on a slot that is idle at that moment, or, after finding none,
      on the next one in turn. */
  lemma PrefersIdleSlot(size: nat, s: State, t: Tid, pool: PoolId, index: nat)
    requires size > 0
    ensures var pc := StepScanning(size, s, t, pool, index).pcs[t];
      if index < size
      then (Slot(pool, index) !in s.held && pc == Waiting(Slot(pool, index), Conversion))
        || (Slot(pool, index) in s.held && pc == Scanning(pool, index + 1))
      else pc == Waiting(Slot(pool, s.roundRobin % size), Conversion)
  {
  }

  /** After a shutdown no server of the pool is left, stored or running, and no pool is
      published; servers of other pools are not touched. */
  lemma ShutdownEndsPool(s: State, t: Tid, slot: Slot)
    requires s.pool.Some?
    ensures var dying := StepTerminating(s, t, slot);
      var after := StepClearing(dying, t, slot);
      && (forall k :: k in s.servers && k.pool == s.pool.value ==> s.servers[k] !in after.alive && k !in after.servers)
      && (forall k :: k in s.servers && k.pool != s.pool.value ==>
            k in after.servers && after.servers[k] == s.servers[k])
      && after.pool == None
  {
  }

  /** A prewarm goes from slot to slot until all have a server. */
  lemma PrewarmGoesOn(size: nat, s: State, t: Tid, slot: Slot)
    requires slot in s.servers && s.servers[slot] in s.alive
    ensures StepEnsuring(size, s, t, slot, Prewarm).pcs[t] ==
      if slot.index + 1 < size then Waiting(Slot(slot.pool, slot.index + 1), Prewarm) else Idle
  {
  }

  /** Every candidate is tried once, each in a pool of its own, before the engine gives up;
      giving up, or having none to try, disables it. */
  lemma ProbesEachCandidate(s: State, t: Tid, c: Choice, job: Job, left: nat)
    ensures s.poolLock.None? && s.pool.None? && !s.disabled ==>
      var after := StepActivating(s, t, c, job);
      && after.Some? && (c.candidates == 0 ==> after.value.disabled && after.value.pcs[t] == Idle)
      && (c.candidates > 0 ==> !after.value.disabled && after.value.pcs[t] == Probing(job, c.candidates))
    ensures var after := StepProbing(s, t, job, left);
      && (left == 0 ==> after.Some? && after.value.disabled && after.value.poolLock.None? && after.value.pcs[t] == Idle)
      && (left > 0 && after.Some? ==>
            after.value.pcs[t] == ProbeLocked(job, left - 1, s.nextPool) && after.value.nextPool > s.nextPool)
    ensures var after := StepProbeLocked(s, t, c, job, left, s.nextPool);
      if c.starts then after.pool == Some(s.nextPool) && after.published == s.published + [s.nextPool]
      else after.pool == s.pool && after.pcs[t] == Probing(job, left)
  {
  }
}
