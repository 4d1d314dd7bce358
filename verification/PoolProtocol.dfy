/** The managed LibreOffice pool as a protocol: threads that activate the pool, convert
    or prewarm, record crashes and shut the pool down, one lock operation or shared
    access a step. Which thread moves, whether a server starts, dies or finishes, and
    how many launcher candidates exist, are all arbitrary. */
module PoolProtocol {
  import opened Wrappers
  import opened PoolHealth

  type Tid = nat
  type PoolId = nat
  type ServerId = nat

  datatype Slot = Slot(pool: PoolId, index: nat)

  datatype Job = Conversion | Prewarm

  datatype Pc =
    | Idle
    | Activating(job: Job)                             // wants the pool lock
    | Probing(job: Job, left: nat)                     // holds it, candidates left to try
    | ProbeLocked(job: Job, left: nat, probe: PoolId)  // also holds slot 0 of an unpublished pool, server starting
    | Scanning(pool: PoolId, index: nat)               // convert: looking for an idle slot
    | Waiting(slot: Slot, job: Job)                    // wants the slot lock
    | Ensuring(slot: Slot, job: Job)                   // holds it, about to check the server
    | Spawning(slot: Slot, job: Job)                   // a new server is starting
    | Reading(slot: Slot, job: Job)                    // server stored, about to be read back
    | Running(slot: Slot, server: ServerId)            // the client is converting
    | Crashed(slot: Slot)                              // the server died; wants the pool lock
    | Striking(slot: Slot)                             // holds pool and slot lock, records the crash
    | Terminating(slot: Slot)                          // shutdown, first half
    | Clearing(slot: Slot)                             // shutdown, second half

  datatype State = State(
    poolLock: Option<Tid>,
    held: map<Slot, Tid>,
    pool: Option<PoolId>,
    disabled: bool,
    strikes: nat,
    servers: map<Slot, ServerId>,
    alive: set<ServerId>,
    nextServer: ServerId,
    nextPool: PoolId,
    roundRobin: nat,
    pcs: map<Tid, Pc>,
    history: seq<Event>,          // every recorded conversion
    published: seq<PoolId>,       // every pool ever published
    owner: map<ServerId, Slot>)   // the slot each server was started for

  datatype ClientResult = Finished | Failed | Died

  /** How the outside world resolves a step. */
  datatype Choice = Choice(job: Job, candidates: nat, starts: bool, result: ClientResult)

  function At(s: State, t: Tid, pc: Pc): State {
    s.(pcs := s.pcs[t := pc])
  }

  function Release(s: State, slot: Slot): State {
    s.(held := s.held - {slot})
  }

  /** What a thread does with the pool activation returned. */
  function Enter(job: Job, pool: PoolId): Pc {
    match job
    case Conversion => Scanning(pool, 0)
    case Prewarm => Waiting(Slot(pool, 0), Prewarm)
  }

  function Start(s: State, slot: Slot): State {
    s.(servers := s.servers[slot := s.nextServer], alive := s.alive + {s.nextServer},
       nextServer := s.nextServer + 1, owner := s.owner[s.nextServer := slot])
  }

  /** The server is ensured: convert on it, or release and prewarm the next slot. */
  function Proceed(size: nat, s: State, t: Tid, slot: Slot, job: Job, server: ServerId): State {
    match job
    case Conversion => At(s, t, Running(slot, server))
    case Prewarm => NextPrewarm(size, s, t, slot)
  }

  function NextPrewarm(size: nat, s: State, t: Tid, slot: Slot): State {
    At(Release(s, slot), t,
       if slot.index + 1 < size then Waiting(Slot(slot.pool, slot.index + 1), Prewarm) else Idle)
  }

  // ---- The steps, one per program point; `None` means blocked ----

  /** The thread is neither converting nor about to. */
  predicate Settled(s: State, t: Tid) {
    t in s.pcs && !s.pcs[t].Reading? && !s.pcs[t].Running?
  }

  /** Only `t` moves, without recording anything and not to a crash still to be recorded. */
  predicate Quiet(s: State, s': State, t: Tid) {
    && s'.history == s.history && s'.strikes == s.strikes
    && t in s'.pcs && s'.pcs == s.pcs[t := s'.pcs[t]] && !CrashPending(s'.pcs[t])
  }

  predicate CrashPending(pc: Pc) {
    pc.Crashed? || pc.Striking?
  }

  function StepActivating(s: State, t: Tid, c: Choice, job: Job): (r: Option<State>)
    ensures r.Some? ==> Settled(r.value, t) && Quiet(s, r.value, t)
  {
    if s.poolLock.Some? then None
    else if s.pool.Some? then Some(At(s, t, Enter(job, s.pool.value)))
    else if s.disabled then Some(At(s, t, Idle))
    else if c.candidates == 0 then Some(At(s.(disabled := true), t, Idle))
    else Some(At(s.(poolLock := Some(t)), t, Probing(job, c.candidates)))
  }

  function StepProbing(s: State, t: Tid, job: Job, left: nat): (r: Option<State>)
    ensures r.Some? ==> Settled(r.value, t) && Quiet(s, r.value, t)
  {
    if left == 0 then Some(At(s.(disabled := true, poolLock := None), t, Idle))
    else
      var slot := Slot(s.nextPool, 0);
      if slot in s.held then None
      else
        var locked := s.(nextPool := s.nextPool + 1, held := s.held[slot := t]);
        Some(At(locked, t, ProbeLocked(job, left - 1, s.nextPool)))
  }

  function StepProbeLocked(s: State, t: Tid, c: Choice, job: Job, left: nat, probe: PoolId): (r: State)
    ensures Settled(r, t) && Quiet(s, r, t)
  {
    var slot := Slot(probe, 0);
    if c.starts then Publish(s, t, job, probe)
    else At(Release(s, slot), t, Probing(job, left))
  }

  function NextScan(s: State, pool: PoolId, index: nat): Pc {
    if Slot(pool, index) in s.held then Scanning(pool, index + 1) else Waiting(Slot(pool, index), Conversion)
  }

  function StepScanning(size: nat, s: State, t: Tid, pool: PoolId, index: nat): (r: State)
    requires size > 0
    ensures Settled(r, t) && Quiet(s, r, t)
  {
    if index < size then
      At(s, t, NextScan(s, pool, index))
    else
      At(s.(roundRobin := s.roundRobin + 1), t, Waiting(Slot(pool, s.roundRobin % size), Conversion))
  }

  function StepWaiting(s: State, t: Tid, slot: Slot, job: Job): (r: Option<State>)
    ensures r.Some? ==> Settled(r.value, t) && Quiet(s, r.value, t)
  {
    if slot in s.held then None
    else Some(At(s.(held := s.held[slot := t]), t, Ensuring(slot, job)))
  }

  function StepEnsuring(size: nat, s: State, t: Tid, slot: Slot, job: Job): (r: State)
    ensures Quiet(s, r, t)
  {
    if slot in s.servers && s.servers[slot] in s.alive
    then Proceed(size, s, t, slot, job, s.servers[slot])
    else At(s, t, Spawning(slot, job))
  }

  function StepSpawning(s: State, t: Tid, c: Choice, slot: Slot, job: Job): (r: State)
    ensures Quiet(s, r, t)
  {
    if c.starts then At(Start(s, slot), t, Reading(slot, job))
    else At(Release(s, slot), t, Idle)
  }

  /** After a shutdown in between there is no server to read back: a conversion fails,
      a prewarm, which ignores the server, goes on. */
  function StepReading(size: nat, s: State, t: Tid, slot: Slot, job: Job): (r: State)
    ensures Quiet(s, r, t)
  {
    if slot in s.servers then Proceed(size, s, t, slot, job, s.servers[slot])
    else if job.Prewarm? then NextPrewarm(size, s, t, slot)
    else At(Release(s, slot), t, Idle)
  }

  function StepRunning(s: State, t: Tid, c: Choice, slot: Slot, server: ServerId): (r: State)
    ensures Settled(r, t)
  {
    if c.result.Finished? then
      At(Release(s.(history := s.history + [Converted], strikes := NextScore(s.strikes, Converted)), slot), t, Idle)
    else if c.result.Died? && server !in s.alive then At(s, t, Crashed(slot))
    else At(Release(s, slot), t, Idle)
  }

  function StepCrashed(s: State, t: Tid, slot: Slot): (r: Option<State>)
    ensures r.Some? ==> Settled(r.value, t)
  {
    if s.poolLock.Some? then None else Some(At(s.(poolLock := Some(t)), t, Striking(slot)))
  }

  function StepStriking(s: State, t: Tid, slot: Slot): (r: State)
    ensures Settled(r, t)
  {
    var s' := s.(history := s.history + [Crash], strikes := NextScore(s.strikes, Crash));
    if s'.strikes < STRIKE_LIMIT || s.disabled then
      At(Release(s'.(poolLock := None), slot), t, Idle)
    else if s.pool.Some? then At(s'.(disabled := true), t, Terminating(slot))
    else At(Release(s'.(disabled := true, poolLock := None), slot), t, Idle)
  }

  function StepTerminating(s: State, t: Tid, slot: Slot): (r: State)
    ensures Settled(r, t) && Quiet(s, r, t)
  {
    var victims := set k | k in s.servers && s.pool == Some(k.pool) :: s.servers[k];
    At(s.(alive := s.alive - victims), t, Clearing(slot))
  }

  function StepClearing(s: State, t: Tid, slot: Slot): (r: State)
    ensures Settled(r, t) && Quiet(s, r, t)
  {
    var cleared := map k | k in s.servers && s.pool != Some(k.pool) :: s.servers[k];
    At(Release(s.(servers := cleared, pool := None, poolLock := None), slot), t, Idle)
  }

  /** One step of thread `t`. */
  function Step(size: nat, s: State, t: Tid, c: Choice): Option<State>
    requires size > 0
  {
    if t !in s.pcs then None
    else match s.pcs[t]
      case Idle => Some(At(s, t, Activating(c.job)))
      case Activating(job) => StepActivating(s, t, c, job)
      case Probing(job, left) => StepProbing(s, t, job, left)
      case ProbeLocked(job, left, probe) => Some(StepProbeLocked(s, t, c, job, left, probe))
      case Scanning(pool, index) => Some(StepScanning(size, s, t, pool, index))
      case Waiting(slot, job) => StepWaiting(s, t, slot, job)
      case Ensuring(slot, job) => Some(StepEnsuring(size, s, t, slot, job))
      case Spawning(slot, job) => Some(StepSpawning(s, t, c, slot, job))
      case Reading(slot, job) => Some(StepReading(size, s, t, slot, job))
      case Running(slot, server) => Some(StepRunning(s, t, c, slot, server))
      case Crashed(slot) => StepCrashed(s, t, slot)
      case Striking(slot) => Some(StepStriking(s, t, slot))
      case Terminating(slot) => Some(StepTerminating(s, t, slot))
      case Clearing(slot) => Some(StepClearing(s, t, slot))
  }

  ghost predicate Init(s: State) {
    && s.poolLock == None && s.held == map[] && s.pool == None && !s.disabled && s.strikes == 0
    && s.servers == map[] && s.owner == map[] && s.history == [] && s.published == []
    && forall t :: t in s.pcs ==> s.pcs[t].Idle?
  }

  ghost predicate Next(size: nat, s: State, s': State)
    requires size > 0
  {
    || (exists t, c :: Step(size, s, t, c) == Some(s'))
    || (exists v :: s' == s.(alive := s.alive - {v}))  // a server dies
  }

  ghost predicate IsRun(size: nat, run: seq<State>)
    requires size > 0
  {
    run != [] && Init(run[0]) && forall i :: 0 < i < |run| ==> Next(size, run[i - 1], run[i])
  }

  // ---- The invariant ----

  predicate HoldsPoolLock(pc: Pc) {
    pc.Probing? || pc.ProbeLocked? || pc.Striking? || pc.Terminating? || pc.Clearing?
  }

  function SlotHeld(pc: Pc): Option<Slot> {
    match pc
    case ProbeLocked(_, _, probe) => Some(Slot(probe, 0))
    case Ensuring(slot, _) => Some(slot)
    case Spawning(slot, _) => Some(slot)
    case Reading(slot, _) => Some(slot)
    case Running(slot, _) => Some(slot)
    case Crashed(slot) => Some(slot)
    case Striking(slot) => Some(slot)
    case Terminating(slot) => Some(slot)
    case Clearing(slot) => Some(slot)
    case _ => None
  }

  /** The slot a thread holds, or waits for, in the published pool. */
  function SlotUsed(pc: Pc): Option<Slot> {
    if pc.ProbeLocked? then None
    else if pc.Waiting? then Some(pc.slot)
    else SlotHeld(pc)
  }

  /** A slot's server was started for that slot, and server identities are not reused. */
  ghost predicate ServersMatch(servers: map<Slot, ServerId>, owner: map<ServerId, Slot>, nextServer: ServerId) {
    && (forall k :: k in servers ==> servers[k] in owner && owner[servers[k]] == k)
    && (forall v :: v in owner ==> v < nextServer)
  }

  /** The score follows the history; once a pool has been published the engine is
      disabled exactly when the score has reached the limit; before, nothing was recorded. */
  ghost predicate HealthMatches(strikes: nat, history: seq<Event>, published: seq<PoolId>, disabled: bool) {
    && strikes == Score(history)
    && (published == [] ==> history == [])
    && (published != [] ==> (disabled <==> ReachedLimit(history)))
  }

  ghost predicate PoolsMatch(s: State) {
    && |s.published| <= 1
    && (s.published != [] ==> s.published[0] < s.nextPool)
    && (s.pool.Some? ==> s.published == [s.pool.value])
    && (s.pool.Some? && s.disabled ==>
          s.poolLock.Some? && s.poolLock.value in s.pcs
          && (s.pcs[s.poolLock.value].Terminating? || s.pcs[s.poolLock.value].Clearing?))
    && (s.pool.None? && s.published != [] ==> s.disabled)
  }

  /** What holds of the shared state. */
  ghost predicate SharedOk(s: State) {
    && (s.poolLock.Some? ==> s.poolLock.value in s.pcs)
    && (forall k :: k in s.held ==> s.held[k] in s.pcs)
    && PoolsMatch(s)
    && ServersMatch(s.servers, s.owner, s.nextServer)
    && HealthMatches(s.strikes, s.history, s.published, s.disabled)
  }

  /** What holds of one thread: it holds exactly the locks its program point says, and
      the pool and server it uses are its own. */
  ghost predicate ThreadOk(size: nat, s: State, t: Tid)
    requires t in s.pcs
  {
    var pc := s.pcs[t];
    && (HoldsPoolLock(pc) <==> s.poolLock == Some(t))
    && (forall k :: k in s.held && s.held[k] == t ==> SlotHeld(pc) == Some(k))
    && (SlotHeld(pc).Some? ==> SlotHeld(pc).value in s.held && s.held[SlotHeld(pc).value] == t)
    && (pc.Probing? || pc.ProbeLocked? ==> s.pool == None && !s.disabled && s.published == [])
    && (pc.ProbeLocked? ==> pc.probe < s.nextPool)
    && (pc.Scanning? ==> s.published == [pc.pool])
    && (SlotUsed(pc).Some? ==> s.published == [SlotUsed(pc).value.pool] && SlotUsed(pc).value.index < size)
    && (pc.Terminating? || pc.Clearing? ==> s.pool.Some? && s.disabled)
    && (pc.Running? ==> pc.server in s.owner && s.owner[pc.server] == pc.slot)
  }

  ghost predicate Inv(size: nat, s: State) {
    SharedOk(s) && forall t :: t in s.pcs ==> ThreadOk(size, s, t)
  }

  /** A change by thread `t` that other threads cannot notice: it touches only locks that
      are free or `t`'s own, and publishes or disables only under the pool lock. */
  ghost predicate OthersUndisturbed(s: State, s': State, t: Tid) {
    && s'.pcs.Keys == s.pcs.Keys && (forall u :: u in s.pcs && u != t ==> s'.pcs[u] == s.pcs[u])
    && (s'.poolLock == s.poolLock || s.poolLock == None || s.poolLock == Some(t))
    && (s'.poolLock == s.poolLock || s'.poolLock == None || s'.poolLock == Some(t))
    && (forall k :: k in s.held && s.held[k] != t ==> k in s'.held && s'.held[k] == s.held[k])
    && (forall k :: k in s'.held && s'.held[k] != t ==> k in s.held && s.held[k] == s'.held[k])
    && s.nextPool <= s'.nextPool
    && (s'.published == s.published || (s.published == [] && s.poolLock == Some(t)))
    && ((s'.pool == s.pool && s'.disabled == s.disabled) || s.poolLock == None || s.poolLock == Some(t))
    && (forall v :: v in s.owner ==> v in s'.owner && s'.owner[v] == s.owner[v])
    && (forall k :: k in s'.servers ==>
          (k in s.servers && s'.servers[k] == s.servers[k]) || (k in s.held && s.held[k] == t))
    && (s.disabled ==> s'.disabled)
  }

  lemma LocalStepKeepsInv(size: nat, s: State, s': State, t: Tid)
    requires Inv(size, s) && t in s.pcs && OthersUndisturbed(s, s', t)
    requires SharedOk(s') && ThreadOk(size, s', t)
    ensures Inv(size, s')
  {
    hide SharedOk;
    forall u | u in s'.pcs ensures ThreadOk(size, s', u) {
      if u != t { assert ThreadOk(size, s, u); }
    }
  }

  ghost predicate LocalStep(size: nat, s: State, s': State, t: Tid) {
    t in s.pcs && OthersUndisturbed(s, s', t) && SharedOk(s') && ThreadOk(size, s', t)
  }

  lemma InitInv(size: nat, s: State)
    requires Init(s)
    ensures Inv(size, s)
  {
    assert Score([]) == 0;
  }

  /** A thread without the pool lock releases its slot, possibly having recorded a result. */
  lemma LeavesSlot(size: nat, s: State, t: Tid, slot: Slot, pc: Pc, history: seq<Event>, strikes: nat)
    requires SharedOk(s) && t in s.pcs && ThreadOk(size, s, t)
    requires SlotUsed(s.pcs[t]) == SlotHeld(s.pcs[t]) == Some(slot) && !HoldsPoolLock(s.pcs[t])
    requires pc.Idle? || (pc.Waiting? && pc.slot.pool == slot.pool && pc.slot.index < size)
    requires HealthMatches(strikes, history, s.published, s.disabled)
    ensures LocalStep(size, s, At(Release(s.(history := history, strikes := strikes), slot), t, pc), t)
  {
    hide ServersMatch, HealthMatches;
  }

  /** A thread without locks moves to a program point without locks. */
  lemma MovesFreely(size: nat, s: State, t: Tid, pc: Pc, roundRobin: nat)
    requires SharedOk(s) && t in s.pcs && ThreadOk(size, s, t)
    requires SlotHeld(s.pcs[t]) == None && !HoldsPoolLock(s.pcs[t])
    requires || pc.Idle? || pc.Activating?
             || (pc.Scanning? && s.published == [pc.pool])
             || (pc.Waiting? && s.published == [pc.slot.pool] && pc.slot.index < size)
    ensures LocalStep(size, s, At(s.(roundRobin := roundRobin), t, pc), t)
  {
    hide ServersMatch, HealthMatches;
  }

  /** Giving up on launchers disables the engine for good. */
  lemma GivesUp(size: nat, s: State, t: Tid)
    requires SharedOk(s) && t in s.pcs && ThreadOk(size, s, t) && SlotHeld(s.pcs[t]) == None
    requires s.pool == None && s.published == [] && (s.poolLock == None || s.poolLock == Some(t))
    ensures LocalStep(size, s, At(s.(disabled := true, poolLock := None), t, Idle), t)
  {
    hide ServersMatch, ReachedLimit, Score;
  }

  lemma TakesPoolLock(size: nat, s: State, t: Tid, job: Job, candidates: nat)
    requires SharedOk(s) && t in s.pcs && ThreadOk(size, s, t) && s.pcs[t] == Activating(job)
    requires s.poolLock == None && s.pool == None && !s.disabled
    ensures LocalStep(size, s, At(s.(poolLock := Some(t)), t, Probing(job, candidates)), t)
  {
    hide ServersMatch, HealthMatches;
  }

  lemma RejectsProbe(size: nat, s: State, t: Tid, job: Job, left: nat, probe: PoolId)
    requires SharedOk(s) && t in s.pcs && ThreadOk(size, s, t) && s.pcs[t] == ProbeLocked(job, left, probe)
    ensures LocalStep(size, s, At(Release(s, Slot(probe, 0)), t, Probing(job, left)), t)
  {
    hide ServersMatch, HealthMatches;
  }

  /** The probe's server has started and the pool is published. */
  function Publish(s: State, t: Tid, job: Job, probe: PoolId): State {
    var slot := Slot(probe, 0);
    At(Start(Release(s, slot), slot).(pool := Some(probe), published := s.published + [probe], poolLock := None),
       t, Enter(job, probe))
  }

  lemma PublishesProbe(size: nat, s: State, t: Tid, job: Job, left: nat, probe: PoolId)
    requires size > 0 && SharedOk(s) && t in s.pcs && ThreadOk(size, s, t) && s.pcs[t] == ProbeLocked(job, left, probe)
    ensures LocalStep(size, s, Publish(s, t, job, probe), t)
  {
    PublishUnnoticed(size, s, t, job, left, probe);
    PublishShared(size, s, t, job, left, probe);
    PublishThread(size, s, t, job, left, probe);
    hide Publish, OthersUndisturbed, SharedOk, ThreadOk;
  }

  lemma PublishUnnoticed(size: nat, s: State, t: Tid, job: Job, left: nat, probe: PoolId)
    requires SharedOk(s) && t in s.pcs && ThreadOk(size, s, t) && s.pcs[t] == ProbeLocked(job, left, probe)
    ensures OthersUndisturbed(s, Publish(s, t, job, probe), t)
  {
    hide HealthMatches, PoolsMatch;
  }

  lemma PublishShared(size: nat, s: State, t: Tid, job: Job, left: nat, probe: PoolId)
    requires SharedOk(s) && t in s.pcs && ThreadOk(size, s, t) && s.pcs[t] == ProbeLocked(job, left, probe)
    ensures SharedOk(Publish(s, t, job, probe))
  {
    hide ReachedLimit, Score;
    EmptyHistory();
    assert s.history == [];
  }

  lemma PublishThread(size: nat, s: State, t: Tid, job: Job, left: nat, probe: PoolId)
    requires size > 0 && SharedOk(s) && t in s.pcs && ThreadOk(size, s, t) && s.pcs[t] == ProbeLocked(job, left, probe)
    ensures ThreadOk(size, Publish(s, t, job, probe), t)
  {
    hide HealthMatches, PoolsMatch, ServersMatch;
  }

  lemma ProceedIsLocal(size: nat, s: State, t: Tid, slot: Slot, job: Job)
    requires SharedOk(s) && t in s.pcs && ThreadOk(size, s, t) && slot in s.servers
    requires s.pcs[t] == Ensuring(slot, job) || s.pcs[t] == Reading(slot, job)
    ensures LocalStep(size, s, Proceed(size, s, t, slot, job, s.servers[slot]), t)
  {
    hide LocalStep, ThreadOk, SharedOk, NextPrewarm;
    if job.Prewarm? {
      NextPrewarmIsLocal(size, s, t, slot);
    } else {
      StartsRunning(size, s, t, slot, job);
    }
  }

  lemma StartsRunning(size: nat, s: State, t: Tid, slot: Slot, job: Job)
    requires SharedOk(s) && t in s.pcs && ThreadOk(size, s, t) && slot in s.servers
    requires s.pcs[t] == Ensuring(slot, job) || s.pcs[t] == Reading(slot, job)
    ensures LocalStep(size, s, At(s, t, Running(slot, s.servers[slot])), t)
  {
    assert s.servers[slot] in s.owner && s.owner[s.servers[slot]] == slot;
    hide ServersMatch, HealthMatches;
  }

  lemma NextPrewarmIsLocal(size: nat, s: State, t: Tid, slot: Slot)
    requires SharedOk(s) && t in s.pcs && ThreadOk(size, s, t)
    requires SlotUsed(s.pcs[t]) == SlotHeld(s.pcs[t]) == Some(slot) && !HoldsPoolLock(s.pcs[t])
    ensures LocalStep(size, s, NextPrewarm(size, s, t, slot), t)
  {
    hide LocalStep, ThreadOk;
    var next := if slot.index + 1 < size then Waiting(Slot(slot.pool, slot.index + 1), Prewarm) else Idle;
    LeavesSlot(size, s, t, slot, next, s.history, s.strikes);
  }

  lemma StartIsLocal(size: nat, s: State, t: Tid, slot: Slot, job: Job)
    requires SharedOk(s) && t in s.pcs && ThreadOk(size, s, t) && s.pcs[t] == Spawning(slot, job)
    ensures LocalStep(size, s, At(Start(s, slot), t, Reading(slot, job)), t)
  {
    hide HealthMatches;
  }

  lemma IdleIsLocal(size: nat, s: State, t: Tid, job: Job)
    requires size > 0 && SharedOk(s) && t in s.pcs && ThreadOk(size, s, t) && s.pcs[t].Idle?
    ensures LocalStep(size, s, At(s, t, Activating(job)), t)
  {
    hide LocalStep;
    MovesFreely(size, s, t, Activating(job), s.roundRobin);
  }

  lemma ActivatingIsLocal(size: nat, s: State, t: Tid, c: Choice, job: Job)
    requires size > 0 && SharedOk(s) && t in s.pcs && ThreadOk(size, s, t) && s.pcs[t] == Activating(job)
    requires StepActivating(s, t, c, job).Some?
    ensures LocalStep(size, s, StepActivating(s, t, c, job).value, t)
  {
    if s.pool.Some? {
      MovesFreely(size, s, t, Enter(job, s.pool.value), s.roundRobin);
    } else if s.disabled {
      MovesFreely(size, s, t, Idle, s.roundRobin);
    } else if c.candidates == 0 {
      GivesUp(size, s, t);
    } else {
      TakesPoolLock(size, s, t, job, c.candidates);
    }
  }

  lemma ProbingIsLocal(size: nat, s: State, t: Tid, job: Job, left: nat)
    requires size > 0 && SharedOk(s) && t in s.pcs && ThreadOk(size, s, t) && s.pcs[t] == Probing(job, left)
    requires StepProbing(s, t, job, left).Some?
    ensures LocalStep(size, s, StepProbing(s, t, job, left).value, t)
  {
    if left == 0 {
      GivesUp(size, s, t);
    } else {
      LocksProbe(size, s, t, job, left);
    }
  }

  lemma LocksProbe(size: nat, s: State, t: Tid, job: Job, left: nat)
    requires SharedOk(s) && t in s.pcs && ThreadOk(size, s, t) && s.pcs[t] == Probing(job, left)
    requires left > 0 && Slot(s.nextPool, 0) !in s.held
    ensures LocalStep(size, s, StepProbing(s, t, job, left).value, t)
  {
    hide ServersMatch, HealthMatches;
  }

  lemma ProbeLockedIsLocal(size: nat, s: State, t: Tid, c: Choice, job: Job, left: nat, probe: PoolId)
    requires size > 0 && SharedOk(s) && t in s.pcs && ThreadOk(size, s, t) && s.pcs[t] == ProbeLocked(job, left, probe)
    ensures LocalStep(size, s, StepProbeLocked(s, t, c, job, left, probe), t)
  {
    if c.starts {
      PublishesProbe(size, s, t, job, left, probe);
    } else {
      RejectsProbe(size, s, t, job, left, probe);
    }
  }

  lemma ScanningIsLocal(size: nat, s: State, t: Tid, pool: PoolId, index: nat)
    requires size > 0 && SharedOk(s) && t in s.pcs && ThreadOk(size, s, t) && s.pcs[t] == Scanning(pool, index)
    ensures LocalStep(size, s, StepScanning(size, s, t, pool, index), t)
  {
    hide LocalStep;
    if index < size {
      MovesFreely(size, s, t, NextScan(s, pool, index), s.roundRobin);
    } else {
      MovesFreely(size, s, t, Waiting(Slot(pool, s.roundRobin % size), Conversion), s.roundRobin + 1);
    }
  }

  lemma WaitingIsLocal(size: nat, s: State, t: Tid, slot: Slot, job: Job)
    requires size > 0 && SharedOk(s) && t in s.pcs && ThreadOk(size, s, t) && s.pcs[t] == Waiting(slot, job)
    requires StepWaiting(s, t, slot, job).Some?
    ensures LocalStep(size, s, StepWaiting(s, t, slot, job).value, t)
  {
    hide ServersMatch, HealthMatches;
  }

  lemma EnsuringIsLocal(size: nat, s: State, t: Tid, slot: Slot, job: Job)
    requires size > 0 && SharedOk(s) && t in s.pcs && ThreadOk(size, s, t) && s.pcs[t] == Ensuring(slot, job)
    ensures LocalStep(size, s, StepEnsuring(size, s, t, slot, job), t)
  {
    if slot in s.servers && s.servers[slot] in s.alive {
      ProceedIsLocal(size, s, t, slot, job);
    } else {
      hide ServersMatch, HealthMatches;
    }
  }

  lemma SpawningIsLocal(size: nat, s: State, t: Tid, c: Choice, slot: Slot, job: Job)
    requires size > 0 && SharedOk(s) && t in s.pcs && ThreadOk(size, s, t) && s.pcs[t] == Spawning(slot, job)
    ensures LocalStep(size, s, StepSpawning(s, t, c, slot, job), t)
  {
    if c.starts {
      StartIsLocal(size, s, t, slot, job);
    } else {
      LeavesSlot(size, s, t, slot, Idle, s.history, s.strikes);
    }
  }

  lemma ReadingIsLocal(size: nat, s: State, t: Tid, slot: Slot, job: Job)
    requires size > 0 && SharedOk(s) && t in s.pcs && ThreadOk(size, s, t) && s.pcs[t] == Reading(slot, job)
    ensures LocalStep(size, s, StepReading(size, s, t, slot, job), t)
  {
    hide LocalStep, ThreadOk, Proceed, NextPrewarm;
    if slot in s.servers {
      ProceedIsLocal(size, s, t, slot, job);
    } else if job.Prewarm? {
      NextPrewarmIsLocal(size, s, t, slot);
    } else {
      LeavesSlot(size, s, t, slot, Idle, s.history, s.strikes);
    }
  }

  lemma RunningIsLocal(size: nat, s: State, t: Tid, c: Choice, slot: Slot, server: ServerId)
    requires size > 0 && SharedOk(s) && t in s.pcs && ThreadOk(size, s, t) && s.pcs[t] == Running(slot, server)
    ensures LocalStep(size, s, StepRunning(s, t, c, slot, server), t)
  {
    hide ServersMatch, ReachedLimit, Score;
    if c.result.Finished? {
      ScoreSnoc(s.history, Converted);
      LimitAfter(s.history, Converted);
      LeavesSlot(size, s, t, slot, Idle, s.history + [Converted], NextScore(s.strikes, Converted));
    } else if !c.result.Died? || server in s.alive {
      LeavesSlot(size, s, t, slot, Idle, s.history, s.strikes);
    }
  }

  lemma CrashedIsLocal(size: nat, s: State, t: Tid, slot: Slot)
    requires size > 0 && SharedOk(s) && t in s.pcs && ThreadOk(size, s, t) && s.pcs[t] == Crashed(slot)
    requires StepCrashed(s, t, slot).Some?
    ensures LocalStep(size, s, StepCrashed(s, t, slot).value, t)
  {
    hide ServersMatch, HealthMatches;
  }

  lemma StrikingIsLocal(size: nat, s: State, t: Tid, slot: Slot)
    requires size > 0 && SharedOk(s) && t in s.pcs && ThreadOk(size, s, t) && s.pcs[t] == Striking(slot)
    ensures LocalStep(size, s, StepStriking(s, t, slot), t)
  {
    StrikeUnnoticed(size, s, t, slot);
    StrikeShared(size, s, t, slot);
    StrikeThread(size, s, t, slot);
    hide StepStriking, OthersUndisturbed, SharedOk, ThreadOk;
  }

  lemma StrikeUnnoticed(size: nat, s: State, t: Tid, slot: Slot)
    requires SharedOk(s) && t in s.pcs && ThreadOk(size, s, t) && s.pcs[t] == Striking(slot)
    ensures OthersUndisturbed(s, StepStriking(s, t, slot), t)
  {
    hide HealthMatches, PoolsMatch, ServersMatch, NextScore;
  }

  lemma StrikeShared(size: nat, s: State, t: Tid, slot: Slot)
    requires SharedOk(s) && t in s.pcs && ThreadOk(size, s, t) && s.pcs[t] == Striking(slot)
    ensures SharedOk(StepStriking(s, t, slot))
  {
    StrikeRecorded(s);
    StrikePools(size, s, t, slot);
    hide HealthMatches, ServersMatch, PoolsMatch, NextScore;
  }

  lemma StrikePools(size: nat, s: State, t: Tid, slot: Slot)
    requires SharedOk(s) && t in s.pcs && ThreadOk(size, s, t) && s.pcs[t] == Striking(slot)
    ensures PoolsMatch(StepStriking(s, t, slot))
  {
    hide HealthMatches, ServersMatch, NextScore;
  }

  lemma StrikeThread(size: nat, s: State, t: Tid, slot: Slot)
    requires SharedOk(s) && t in s.pcs && ThreadOk(size, s, t) && s.pcs[t] == Striking(slot)
    ensures ThreadOk(size, StepStriking(s, t, slot), t)
  {
    hide HealthMatches, PoolsMatch, ServersMatch, NextScore;
  }

  /** Recording a crash keeps score and history in step. */
  lemma StrikeRecorded(s: State)
    requires HealthMatches(s.strikes, s.history, s.published, s.disabled) && s.published != []
    ensures var strikes := NextScore(s.strikes, Crash);
      HealthMatches(strikes, s.history + [Crash], s.published, s.disabled || strikes >= STRIKE_LIMIT)
  {
    hide ReachedLimit, Score;
    ScoreSnoc(s.history, Crash);
    LimitAfter(s.history, Crash);
  }

  lemma TerminatingIsLocal(size: nat, s: State, t: Tid, slot: Slot)
    requires size > 0 && SharedOk(s) && t in s.pcs && ThreadOk(size, s, t) && s.pcs[t] == Terminating(slot)
    ensures LocalStep(size, s, StepTerminating(s, t, slot), t)
  {
    hide ServersMatch, HealthMatches;
  }

  lemma ClearingIsLocal(size: nat, s: State, t: Tid, slot: Slot)
    requires size > 0 && SharedOk(s) && t in s.pcs && ThreadOk(size, s, t) && s.pcs[t] == Clearing(slot)
    ensures LocalStep(size, s, StepClearing(s, t, slot), t)
  {
    hide HealthMatches;
  }

  lemma StepIsLocal(size: nat, s: State, t: Tid, c: Choice)
    requires size > 0 && Inv(size, s) && Step(size, s, t, c).Some?
    ensures LocalStep(size, s, Step(size, s, t, c).value, t)
  {
    hide SharedOk, ThreadOk, LocalStep, StepActivating, StepProbing, StepProbeLocked, StepScanning, StepWaiting,
         StepEnsuring, StepSpawning, StepReading, StepRunning, StepCrashed, StepStriking, StepTerminating, StepClearing;
    match s.pcs[t]
    case Idle => IdleIsLocal(size, s, t, c.job);
    case Activating(job) => ActivatingIsLocal(size, s, t, c, job);
    case Probing(job, left) => ProbingIsLocal(size, s, t, job, left);
    case ProbeLocked(job, left, probe) => ProbeLockedIsLocal(size, s, t, c, job, left, probe);
    case Scanning(pool, index) => ScanningIsLocal(size, s, t, pool, index);
    case Waiting(slot, job) => WaitingIsLocal(size, s, t, slot, job);
    case Ensuring(slot, job) => EnsuringIsLocal(size, s, t, slot, job);
    case Spawning(slot, job) => SpawningIsLocal(size, s, t, c, slot, job);
    case Reading(slot, job) => ReadingIsLocal(size, s, t, slot, job);
    case Running(slot, server) => RunningIsLocal(size, s, t, c, slot, server);
    case Crashed(slot) => CrashedIsLocal(size, s, t, slot);
    case Striking(slot) => StrikingIsLocal(size, s, t, slot);
    case Terminating(slot) => TerminatingIsLocal(size, s, t, slot);
    case Clearing(slot) => ClearingIsLocal(size, s, t, slot);
  }

  lemma LimitAfter(h: seq<Event>, e: Event)
    ensures ReachedLimit(h + [e]) <==> ReachedLimit(h) || (e.Crash? && Score(h) + STRIKE_COST >= STRIKE_LIMIT)
  {
    if ReachedLimit(h) { ReachedStays(h, e); } else { FirstReached(h, e); }
  }

  lemma EmptyHistory()
    ensures !ReachedLimit([])
  {
    var h: seq<Event> := [];
    assert forall n :: 0 <= n <= |h| ==> h[..n] == [];
  }

  lemma NextKeepsInv(size: nat, s: State, s': State)
    requires size > 0 && Inv(size, s) && Next(size, s, s')
    ensures Inv(size, s')
  {
    hide Step, ThreadOk, SharedOk;
    if t, c :| Step(size, s, t, c) == Some(s') {
      StepIsLocal(size, s, t, c);
      LocalStepKeepsInv(size, s, s', t);
    } else {
      var v :| s' == s.(alive := s.alive - {v});
      DeathKeepsInv(size, s, v);
    }
  }

  lemma DeathKeepsInv(size: nat, s: State, v: ServerId)
    requires Inv(size, s)
    ensures Inv(size, s.(alive := s.alive - {v}))
  {
  }

  lemma {:induction false} RunKeepsInv(size: nat, run: seq<State>, n: nat)
    requires size > 0 && IsRun(size, run) && n < |run|
    ensures Inv(size, run[n])
  {
    if n == 0 {
      InitInv(size, run[0]);
    } else {
      RunKeepsInv(size, run, n - 1);
      NextKeepsInv(size, run[n - 1], run[n]);
    }
  }

  // ---- What every run satisfies ----

  ghost function InFlight(s: State): set<Tid> {
    set t | t in s.pcs && s.pcs[t].Running?
  }

  /** In every interleaving, including server death, respawn and a shutdown of the whole
      pool, two conversions in flight never use the same server, and at most `size` run. */
  lemma ConversionsAreExclusive(size: nat, run: seq<State>, n: nat)
    requires size > 0 && IsRun(size, run) && n < |run|
    ensures forall t, u :: t in InFlight(run[n]) && u in InFlight(run[n]) && t != u ==>
      run[n].pcs[t].server != run[n].pcs[u].server
    ensures |InFlight(run[n])| <= size
  {
    RunKeepsInv(size, run, n);
    var s := run[n];
    assert forall t :: t in InFlight(s) ==>
      SlotHeld(s.pcs[t]) == Some(s.pcs[t].slot) && SlotUsed(s.pcs[t]) == Some(s.pcs[t].slot);
    DistinctSlotsBound(s.pcs, InFlight(s), size);
  }

  /** Threads on distinct slots of one pool with `size` slots number at most `size`. */
  lemma {:induction false} DistinctSlotsBound(pcs: map<Tid, Pc>, ts: set<Tid>, size: nat)
    requires forall t :: t in ts ==> t in pcs && pcs[t].Running? && pcs[t].slot.index < size
    requires forall t, u :: t in ts && u in ts && t != u ==> pcs[t].slot.index != pcs[u].slot.index
    ensures |ts| <= size
  {
    if size == 0 {
      assert forall t :: t !in ts;
    } else if t :| t in ts && pcs[t].slot.index == size - 1 {
      DistinctSlotsBound(pcs, ts - {t}, size - 1);
    } else {
      DistinctSlotsBound(pcs, ts, size - 1);
    }
  }

  ghost predicate Blocked(s: State, t: Tid) {
    t in s.pcs && match s.pcs[t]
      case Activating(_) => s.poolLock.Some?
      case Crashed(_) => s.poolLock.Some?
      case Waiting(slot, _) => slot in s.held
      case _ => false
  }

  /** A thread inside the module that some outcome of the outside world lets move. */
  ghost predicate CanStep(size: nat, s: State, t: Tid)
    requires size > 0
  {
    t in s.pcs && !s.pcs[t].Idle? && exists c :: Step(size, s, t, c).Some?
  }

  /** The holder of the pool lock is never blocked: the only lock it takes belongs to a
      pool nobody else knows. */
  lemma PoolLockHolderSteps(size: nat, s: State)
    requires size > 0 && Inv(size, s) && s.poolLock.Some?
    ensures CanStep(size, s, s.poolLock.value)
  {
    var t := s.poolLock.value;
    assert ThreadOk(size, s, t);
    var c := Choice(Conversion, 0, true, Failed);
    NoLockOnNewPool(size, s);
    assert Step(size, s, t, c).Some?;
  }

  lemma NoLockOnNewPool(size: nat, s: State)
    requires Inv(size, s)
    ensures forall k :: k in s.held ==> k.pool < s.nextPool
  {
    forall k | k in s.held ensures k.pool < s.nextPool {
      var pc := s.pcs[s.held[k]];
      assert ThreadOk(size, s, s.held[k]);
      assert pc.ProbeLocked? || SlotUsed(pc) == Some(k);
    }
  }

  /** The thread that holds the lock a blocked thread waits for. */
  ghost function WaitsFor(s: State, t: Tid): Tid
    requires Blocked(s, t)
  {
    if s.pcs[t].Waiting? then s.held[s.pcs[t].slot] else s.poolLock.value
  }

  lemma SlotHolderSteps(size: nat, s: State, slot: Slot)
    requires size > 0 && Inv(size, s) && slot in s.held
    ensures CanStep(size, s, s.held[slot]) || (s.poolLock.Some? && s.pcs[s.held[slot]] == Crashed(slot))
  {
    var t := s.held[slot];
    assert ThreadOk(size, s, t);
    var c := Choice(Conversion, 0, true, Failed);
    assert SlotHeld(s.pcs[t]) == Some(slot);
    if s.poolLock.Some? && s.poolLock.value == t {
      PoolLockHolderSteps(size, s);
    } else if s.pcs[t] != Crashed(slot) || s.poolLock.None? {
      assert !HoldsPoolLock(s.pcs[t]);
      assert Step(size, s, t, c).Some?;
    }
  }

  /** The pool never deadlocks: in every reachable state in which a thread is blocked on a
      slot lock or on the pool lock, the thread it waits for can step, or waits itself
      for the holder of the pool lock, which can. So no chain of waiting threads closes. */
  lemma NeverDeadlocks(size: nat, run: seq<State>, n: nat, t: Tid)
    requires size > 0 && IsRun(size, run) && n < |run| && Blocked(run[n], t)
    ensures var s := run[n];
      var u := WaitsFor(s, t);
      || CanStep(size, s, u)
      || (Blocked(s, u) && s.poolLock == Some(WaitsFor(s, u)) && CanStep(size, s, WaitsFor(s, u)))
  {
    hide Step, Inv, CanStep;
    var s := run[n];
    RunKeepsInv(size, run, n);
    if s.poolLock.Some? {
      PoolLockHolderSteps(size, s);
    }
    if s.pcs[t].Waiting? {
      SlotHolderSteps(size, s, s.pcs[t].slot);
      HolderIsThread(size, s, s.pcs[t].slot);
    }
  }

  lemma HolderIsThread(size: nat, s: State, slot: Slot)
    requires Inv(size, s) && slot in s.held
    ensures s.held[slot] in s.pcs
  {
  }

  /** Blocked is exactly being unable to step whatever the outside world does. */
  lemma BlockedIffStuck(size: nat, run: seq<State>, n: nat, t: Tid)
    requires size > 0 && IsRun(size, run) && n < |run| && t in run[n].pcs
    ensures Blocked(run[n], t) <==> forall c :: Step(size, run[n], t, c).None?
  {
    RunKeepsInv(size, run, n);
    var s := run[n];
    var c := Choice(Conversion, 0, true, Failed);
    if s.pcs[t].Probing? {
      PoolLockHolderSteps(size, s);
    } else if !Blocked(s, t) {
      assert Step(size, s, t, c).Some?;
    }
  }

  /** Over every run: the score is the worst suffix of the recorded history, at most one
      pool is ever published, once one is, the engine is disabled exactly when the score
      has reached the limit, and disabling is final. */
  lemma RunsRespectHealth(size: nat, run: seq<State>, n: nat)
    requires size > 0 && IsRun(size, run) && n < |run|
    ensures var s := run[n];
      && IsWorstSuffix(s.history, s.strikes)
      && |s.published| <= 1
      && (s.published != [] ==> (s.disabled <==> ReachedLimit(s.history)))
      && (!s.disabled ==> 2 * Count(Crash, s.history) <= Count(Converted, s.history) + 5)
    ensures n + 1 < |run| && run[n].disabled ==> run[n + 1].disabled
  {
    hide Step, ReachedLimit, IsWorstSuffix, Score, Count;
    RunKeepsInv(size, run, n);
    var s := run[n];
    ScoreIsWorstSuffix(s.history);
    EmptyHistory();
    if !s.disabled {
      EnabledBoundsCrashes(s.history);
    }
    if n + 1 < |run| && s.disabled {
      DisabledStays(size, s, run[n + 1]);
    }
  }

  // ---- Healing, and its limits ----

  /** The step of another thread leaves the server of a held slot alone, or removes it. */
  lemma HeldSlotKeepsServer(size: nat, s: State, s': State, t: Tid, slot: Slot)
    requires size > 0 && Inv(size, s) && Next(size, s, s') && slot in s.held && s.held[slot] == t
    requires t in s.pcs && t in s'.pcs && s'.pcs[t] == s.pcs[t] && s.pcs[t].Reading?
    ensures slot in s'.servers ==> slot in s.servers && s'.servers[slot] == s.servers[slot]
  {
    hide SharedOk, ThreadOk, Step;
    if u, c :| Step(size, s, u, c) == Some(s') {
      StepIsLocal(size, s, u, c);
      if u == t {
        ReadingStep(size, s, s', t, c);
      }
    }
  }

  lemma HoldsItsSlot(size: nat, s: State, u: Tid)
    requires Inv(size, s) && u in s.pcs && SlotHeld(s.pcs[u]).Some?
    ensures SlotHeld(s.pcs[u]).value in s.held && s.held[SlotHeld(s.pcs[u]).value] == u
  {
    assert ThreadOk(size, s, u);
  }

  /** Thread `t` started the server of its slot at step `m` and has been reading it back
      ever since. */
  ghost predicate StartedAt(size: nat, run: seq<State>, m: nat, n: nat, t: Tid, slot: Slot)
    requires m < n < |run|
  {
    && t in run[m].pcs && run[m].pcs[t].Spawning? && run[m].pcs[t].slot == slot
    && (forall k :: m < k <= n ==> t in run[k].pcs && run[k].pcs[t].Reading? && run[k].pcs[t].slot == slot)
    && slot in run[m + 1].servers && run[m + 1].servers[slot] == run[m].nextServer
    && (slot in run[n].servers ==> run[n].servers[slot] == run[m].nextServer)
  }

  /** A server that is read back is the one just started for the slot. */
  lemma {:induction false} ReadsOwnServer(size: nat, run: seq<State>, n: nat, t: Tid)
    requires size > 0 && IsRun(size, run) && n < |run| && t in run[n].pcs && run[n].pcs[t].Reading?
    ensures exists m :: 0 <= m < n && StartedAt(size, run, m, n, t, run[n].pcs[t].slot)
  {
    hide Step, Inv, Next;
    var slot := run[n].pcs[t].slot;
    NotInitially(size, run, n, t);
    RunKeepsInv(size, run, n - 1);
    var s, s' := run[n - 1], run[n];
    assert Next(size, s, s');
    ReadingBefore(size, s, s', t);
    if s.pcs[t].Reading? {
      ReadsOwnServer(size, run, n - 1, t);
      var m :| 0 <= m < n - 1 && StartedAt(size, run, m, n - 1, t, slot);
      HoldsItsSlot(size, s, t);
      HeldSlotKeepsServer(size, s, s', t, slot);
      assert StartedAt(size, run, m, n, t, slot);
    } else {
      assert StartedAt(size, run, n - 1, n, t, slot);
    }
  }

  lemma NotInitially(size: nat, run: seq<State>, n: nat, t: Tid)
    requires size > 0 && IsRun(size, run) && n < |run| && t in run[n].pcs && run[n].pcs[t].Reading?
    ensures n > 0
  {
  }

  /** A thread gets to reading a server back by starting it. */
  lemma ReadingBefore(size: nat, s: State, s': State, t: Tid)
    requires size > 0 && Inv(size, s) && Next(size, s, s') && t in s'.pcs
    ensures t in s.pcs
    ensures s'.pcs[t].Reading? && s.pcs[t] != s'.pcs[t] ==>
      && s.pcs[t] == Spawning(s'.pcs[t].slot, s'.pcs[t].job)
      && s'.pcs[t].slot in s'.servers && s'.servers[s'.pcs[t].slot] == s.nextServer
  {
    hide SharedOk, ThreadOk, Step;
    if u, c :| Step(size, s, u, c) == Some(s') {
      StepIsLocal(size, s, u, c);
      if u == t && s'.pcs[t].Reading? {
        ReadingStep(size, s, s', t, c);
      }
    }
  }

  /** Only three program points lead to reading a server back or to converting. */
  lemma UnsettledStep(size: nat, s: State, s': State, t: Tid, c: Choice)
    requires size > 0 && Step(size, s, t, c) == Some(s') && t in s'.pcs && !Settled(s', t)
    ensures t in s.pcs
    ensures match s.pcs[t]
      case Ensuring(slot, job) => s' == StepEnsuring(size, s, t, slot, job)
      case Spawning(slot, job) => s' == StepSpawning(s, t, c, slot, job)
      case Reading(slot, job) => s' == StepReading(size, s, t, slot, job)
      case _ => false
  {
    hide StepActivating, StepProbing, StepWaiting, StepCrashed, StepProbeLocked, StepScanning, StepRunning,
         StepStriking,
         StepTerminating, StepClearing, StepEnsuring, StepSpawning, StepReading;
  }

  /** Where a check of the slot's server, a start and a reading back lead. */
  lemma EnsuringLeads(size: nat, s: State, t: Tid, slot: Slot, job: Job)
    ensures var s' := StepEnsuring(size, s, t, slot, job);
      && t in s'.pcs && !s'.pcs[t].Reading?
      && (s'.pcs[t].Running? ==>
            job.Conversion? && slot in s.servers && s.servers[slot] in s.alive
            && s'.pcs[t] == Running(slot, s.servers[slot]))
  {
  }

  lemma SpawningLeads(s: State, t: Tid, c: Choice, slot: Slot, job: Job)
    ensures var s' := StepSpawning(s, t, c, slot, job);
      && t in s'.pcs && !s'.pcs[t].Running?
      && (s'.pcs[t].Reading? ==>
            s'.pcs[t] == Reading(slot, job) && slot in s'.servers && s'.servers[slot] == s.nextServer)
  {
  }

  lemma ReadingLeads(size: nat, s: State, t: Tid, slot: Slot, job: Job)
    ensures var s' := StepReading(size, s, t, slot, job);
      && t in s'.pcs && !s'.pcs[t].Reading?
      && (s'.pcs[t].Running? ==> job.Conversion? && slot in s.servers && s'.pcs[t] == Running(slot, s.servers[slot]))
  {
  }

  /** Into what a step of one of the three leads. */
  lemma Leads(size: nat, s: State, s': State, t: Tid, c: Choice)
    requires size > 0 && Step(size, s, t, c) == Some(s') && t in s'.pcs && !Settled(s', t)
    ensures t in s.pcs
    ensures match s'.pcs[t]
      case Running(slot, server) =>
        && slot in s.servers && s.servers[slot] == server
        && (s.pcs[t] == Reading(slot, Conversion) || (s.pcs[t] == Ensuring(slot, Conversion) && server in s.alive))
      case Reading(slot, job) =>
        s.pcs[t] == Spawning(slot, job) && slot in s'.servers && s'.servers[slot] == s.nextServer
      case _ => true
  {
    hide Step, StepEnsuring, StepSpawning, StepReading;
    UnsettledStep(size, s, s', t, c);
    match s.pcs[t]
    case Ensuring(slot, job) => EnsuringLeads(size, s, t, slot, job);
    case Spawning(slot, job) => SpawningLeads(s, t, c, slot, job);
    case Reading(slot, job) => ReadingLeads(size, s, t, slot, job);
    case _ =>
  }

  lemma ReadingStep(size: nat, s: State, s': State, t: Tid, c: Choice)
    requires size > 0 && Step(size, s, t, c) == Some(s') && t in s'.pcs && s'.pcs[t].Reading?
    ensures t in s.pcs && s.pcs[t] == Spawning(s'.pcs[t].slot, s'.pcs[t].job)
    ensures s'.pcs[t].slot in s'.servers && s'.servers[s'.pcs[t].slot] == s.nextServer
  {
    hide Step;
    Leads(size, s, s', t, c);
  }

  /** A conversion heals a dead server before it starts, once: it starts on the server of its
      slot, alive at that very check, or on one just started for the slot. */
  lemma ConversionStartsHealed(size: nat, run: seq<State>, n: nat, t: Tid)
    requires size > 0 && IsRun(size, run) && n + 1 < |run| && t in run[n].pcs && t in run[n + 1].pcs
    ensures !run[n].pcs[t].Running? && run[n + 1].pcs[t].Running? ==>
      StartsOnLive(run, n, t, run[n + 1].pcs[t].slot, run[n + 1].pcs[t].server)
      || StartsOnNew(size, run, n, t, run[n + 1].pcs[t].slot, run[n + 1].pcs[t].server)
  {
    hide Step, Inv, StartedAt;
    RunKeepsInv(size, run, n);
    var s, s' := run[n], run[n + 1];
    assert Next(size, s, s');
    RunningBefore(size, s, s', t);
    if s.pcs[t].Reading? {
      ReadsOwnServer(size, run, n, t);
      var m :| 0 <= m < n && StartedAt(size, run, m, n, t, s.pcs[t].slot);
      ReadsStarted(size, run, m, n, t, s.pcs[t].slot);
    }
  }

  ghost predicate StartsOnLive(run: seq<State>, n: nat, t: Tid, slot: Slot, server: ServerId)
    requires n < |run| && t in run[n].pcs
  {
    && run[n].pcs[t] == Ensuring(slot, Conversion) && server in run[n].alive
    && slot in run[n].servers && run[n].servers[slot] == server
  }

  ghost predicate StartsOnNew(size: nat, run: seq<State>, n: nat, t: Tid, slot: Slot, server: ServerId)
    requires n < |run|
  {
    exists m :: 0 <= m < n && StartedAt(size, run, m, n, t, slot) && server == run[m].nextServer
  }

  lemma ReadsStarted(size: nat, run: seq<State>, m: nat, n: nat, t: Tid, slot: Slot)
    requires m < n < |run| && StartedAt(size, run, m, n, t, slot)
    ensures slot in run[n].servers ==> run[n].servers[slot] == run[m].nextServer
  {
  }

  lemma RunningBefore(size: nat, s: State, s': State, t: Tid)
    requires size > 0 && Inv(size, s) && Next(size, s, s') && t in s.pcs && t in s'.pcs
    ensures !s.pcs[t].Running? && s'.pcs[t].Running? ==>
      var slot, server := s'.pcs[t].slot, s'.pcs[t].server;
      && (s.pcs[t] == Ensuring(slot, Conversion) || s.pcs[t] == Reading(slot, Conversion))
      && slot in s.servers && s.servers[slot] == server
      && (s.pcs[t].Ensuring? ==> server in s.alive)
  {
    hide SharedOk, ThreadOk, Step;
    if u, c :| Step(size, s, u, c) == Some(s') {
      StepIsLocal(size, s, u, c);
      if u == t && s'.pcs[t].Running? {
        RunningStep(size, s, s', t, c);
      }
    }
  }

  lemma RunningStep(size: nat, s: State, s': State, t: Tid, c: Choice)
    requires size > 0 && Step(size, s, t, c) == Some(s') && t in s'.pcs && s'.pcs[t].Running?
    ensures t in s.pcs
    ensures var pc := s'.pcs[t];
      && (s.pcs[t] == Ensuring(pc.slot, Conversion) || s.pcs[t] == Reading(pc.slot, Conversion))
      && pc.slot in s.servers && s.servers[pc.slot] == pc.server
      && (s.pcs[t].Ensuring? ==> pc.server in s.alive)
  {
    hide Step;
    Leads(size, s, s', t, c);
  }

  predicate AfterCrash(pc: Pc) {
    pc.Crashed? || pc.Striking? || pc.Terminating? || pc.Clearing?
  }

  /** A conversion whose server died is not repeated: its thread leaves the pool, through
      `Idle`, before it converts again. */
  lemma {:induction false} CrashIsNotRetried(size: nat, run: seq<State>, i: nat, j: nat, t: Tid)
    requires size > 0 && IsRun(size, run) && i <= j < |run| && t in run[i].pcs && AfterCrash(run[i].pcs[t])
    ensures t in run[j].pcs && (AfterCrash(run[j].pcs[t]) || WasIdle(run, i, j, t))
  {
    hide Next, Inv, AfterCrash;
    if i < j {
      CrashIsNotRetried(size, run, i, j - 1, t);
      RunKeepsInv(size, run, j - 1);
      KeepsThread(size, run[j - 1], run[j], t);
    }
  }

  /** Between `i` and `j` the thread was idle. */
  ghost predicate WasIdle(run: seq<State>, i: nat, j: nat, t: Tid)
    requires j < |run|
  {
    exists m :: i < m <= j && t in run[m].pcs && run[m].pcs[t].Idle?
  }

  lemma KeepsThread(size: nat, s: State, s': State, t: Tid)
    requires size > 0 && Inv(size, s) && Next(size, s, s') && t in s.pcs
    ensures t in s'.pcs && (AfterCrash(s.pcs[t]) ==> AfterCrash(s'.pcs[t]) || s'.pcs[t].Idle?)
  {
    hide Step, SharedOk, ThreadOk;
    if u, c :| Step(size, s, u, c) == Some(s') {
      StepIsLocal(size, s, u, c);
      if u == t && AfterCrash(s.pcs[t]) {
        CrashStep(size, s, t, c);
      }
    }
  }

  lemma CrashStep(size: nat, s: State, t: Tid, c: Choice)
    requires size > 0 && t in s.pcs && AfterCrash(s.pcs[t]) && Step(size, s, t, c).Some?
    ensures var s' := Step(size, s, t, c).value;
      t in s'.pcs && (AfterCrash(s'.pcs[t]) || s'.pcs[t].Idle?)
  {
  }

  lemma Extend(run: seq<State>, t: Tid, c: Choice) returns (longer: seq<State>)
    requires IsRun(1, run) && Step(1, run[|run| - 1], t, c).Some?
    ensures IsRun(1, longer) && |longer| == |run| + 1 && longer[..|run|] == run
    ensures longer[|run|] == Step(1, run[|run| - 1], t, c).value
  {
    hide Step;
    longer := run + [Step(1, run[|run| - 1], t, c).value];
    assert Next(1, run[|run| - 1], longer[|run|]);
  }

  lemma Dies(run: seq<State>, v: ServerId) returns (longer: seq<State>)
    requires IsRun(1, run)
    ensures IsRun(1, longer) && |longer| == |run| + 1 && longer[..|run|] == run
    ensures var s := run[|run| - 1]; longer[|run|] == s.(alive := s.alive - {v})
  {
    hide Step;
    var s := run[|run| - 1];
    longer := run + [s.(alive := s.alive - {v})];
    assert Next(1, s, longer[|run|]);
  }

  const CRASHING := Choice(Conversion, 1, true, Died)
  const SLOT := Slot(0, 0)

  lemma RunToProbe() returns (run: seq<State>)
    ensures IsRun(1, run)
    ensures run[|run| - 1] == State(Some(0), map[SLOT := 0], None, false, 0, map[], {}, 0, 1, 0,
                                    map[0 := ProbeLocked(Conversion, 0, 0)], [], [], map[])
  {
    hide IsRun;
    run := [State(None, map[], None, false, 0, map[], {}, 0, 0, 0, map[0 := Idle], [], [], map[])];
    StartsRun(run);
    run := Extend(run, 0, CRASHING);
    run := Extend(run, 0, CRASHING);
    run := Extend(run, 0, CRASHING);
  }

  lemma RunToScan() returns (run: seq<State>)
    ensures IsRun(1, run)
    ensures run[|run| - 1] == State(None, map[], Some(0), false, 0, map[SLOT := 0], {0}, 1, 1, 0,
                                    map[0 := Waiting(SLOT, Conversion)], [], [0], map[0 := SLOT])
  {
    hide IsRun;
    run := RunToProbe();
    run := Extend(run, 0, CRASHING);
    assert run[|run| - 1].pcs[0] == Scanning(0, 0);
    run := Extend(run, 0, CRASHING);
  }

  lemma RunToConversion() returns (run: seq<State>)
    ensures IsRun(1, run)
    ensures run[|run| - 1] == State(None, map[SLOT := 0], Some(0), false, 0, map[SLOT := 0], {0}, 1, 1, 0,
                                    map[0 := Running(SLOT, 0)], [], [0], map[0 := SLOT])
  {
    hide IsRun;
    run := RunToScan();
    run := Extend(run, 0, CRASHING);
    assert run[|run| - 1].pcs[0] == Ensuring(SLOT, Conversion);
    run := Extend(run, 0, CRASHING);
  }

  /** Such a run: the first conversion's server dies, the crash is recorded and the thread
      is idle again, though the pool is still published and enabled. */
  lemma CrashAbandonsConversion() returns (run: seq<State>)
    ensures IsRun(1, run)
    ensures var s := run[|run| - 1];
      s.pcs == map[0 := Idle] && s.history == [Crash] && s.pool.Some? && !s.disabled
  {
    hide IsRun;
    run := RunToConversion();
    run := Dies(run, 0);
    assert run[|run| - 1].alive == {};
    run := Extend(run, 0, CRASHING);
    assert run[|run| - 1].pcs[0] == Crashed(SLOT);
    run := Extend(run, 0, CRASHING);
    assert run[|run| - 1].pcs[0] == Striking(SLOT);
    run := Extend(run, 0, CRASHING);
  }

  lemma StartsRun(run: seq<State>)
    requires |run| == 1 && Init(run[0])
    ensures IsRun(1, run)
  {
  }

  lemma DisabledStays(size: nat, s: State, s': State)
    requires size > 0 && Inv(size, s) && Next(size, s, s')
    ensures s.disabled ==> s'.disabled
  {
    hide Step, ThreadOk, SharedOk;
    if t, c :| Step(size, s, t, c) == Some(s') {
      StepIsLocal(size, s, t, c);
    }
  }
}
