/**
 Several processes changing one stored room: the lock with its lease, the load,
 the domain transition in memory, the saving script and the release, as a state
 machine whose steps interleave freely. The clock may advance, a process may
 give up, stop or lose a reply at any point, and the stored room may vanish.
 */
module RoomProtocol {
  import opened Wrappers
  import opened Decks
  import opened Summaries
  import opened RoomModel
  import RoomInvariants

  type Pid = nat

  /** The lock manager's settings; a lease lasts `timeout`. */
  datatype Config = Config(timeout: nat, maxRetries: nat)

  /** How a use case saves: over whatever is stored, or only over the version its caller expects. */
  datatype Mode = Always | IfVersion(expected: Option<nat>)

  datatype Job = Job(command: Command, mode: Mode)

  datatype Lease = Lease(token: int, expires: Time)

  /** `base` and `at` only record what a change was computed from; no step depends on them. */
  datatype Phase =
    | Waiting(attempts: nat)
    | Ready
    | Missing
    | Loaded(room: RoomView)
    | Mutated(room: RoomView, base: RoomView, at: Time)
    | Releasing
    | Finished

  /** One execution of a use case. A join that is rolled back has two jobs under one lock. */
  datatype Process = Process(jobs: seq<Job>, locked: bool, token: int, deadline: Time, phase: Phase)

  /** History: a change that reached the store, and the room it had been computed from. */
  datatype Commit = Commit(job: Job, base: RoomView, at: Time)

  datatype System = System(
    roomId: string,
    now: Time,
    lease: Option<Lease>,
    stored: Option<RoomView>,
    procs: map<Pid, Process>,
    log: seq<Commit>)

  datatype Step =
    | Tick(to: Time)
    | Spawn(p: Pid, process: Process)
    | TryAcquire(p: Pid)
    | AcquireUnheard(p: Pid)
    | Load(p: Pid)
    | Create(p: Pid)
    | Mutate(p: Pid)
    | Save(p: Pid, resume: bool)
    | GiveUp(p: Pid, resume: bool)
    | Release(p: Pid)
    | Crash(p: Pid)
    | CreateRoom(deckType: string)
    | LoseRoom

  // ---- single steps ---------------------------------------------------------

  predicate Free(s: System) {
    s.lease.None? || s.lease.value.expires <= s.now
  }

  predicate Started(process: Process) {
    process.jobs != [] && process.phase == if process.locked then Waiting(0) else Ready
  }

  predicate MayAttempt(cfg: Config, s: System, p: Pid) {
    p in s.procs && s.procs[p].phase.Waiting? && s.procs[p].phase.attempts < cfg.maxRetries
  }

  predicate Enabled(cfg: Config, s: System, step: Step) {
    match step
    case Tick(to) => s.now <= to
    case Spawn(p, process) => p !in s.procs && Started(process)
    case TryAcquire(p) => MayAttempt(cfg, s, p)
    case AcquireUnheard(p) => MayAttempt(cfg, s, p) && Free(s)
    case Load(p) => p in s.procs && s.procs[p].phase.Ready? && s.procs[p].jobs != []
    case Create(p) =>
      p in s.procs && s.procs[p].phase.Missing? && s.procs[p].jobs != [] && s.procs[p].jobs[0].command.Join?
    case Mutate(p) => p in s.procs && s.procs[p].phase.Loaded? && s.procs[p].jobs != []
    case Save(p, _) => p in s.procs && s.procs[p].phase.Mutated? && s.procs[p].jobs != []
    case GiveUp(p, _) => p in s.procs && !s.procs[p].phase.Finished?
    case Release(p) => p in s.procs && s.procs[p].locked && s.procs[p].phase.Releasing?
    case Crash(p) => p in s.procs
    case CreateRoom(_) => s.stored.None?
    case LoseRoom => true
  }

  /** The end of the protected operation: a locked process still has to release. */
  function End(process: Process): Process {
    process.(phase := if process.locked then Releasing else Finished)
  }

  function Proceed(process: Process, resume: bool): Process {
    if resume && |process.jobs| > 1 then process.(jobs := process.jobs[1..], phase := Ready) else End(process)
  }

  function With(s: System, p: Pid, process: Process): System {
    s.(procs := s.procs[p := process])
  }

  function Acquiring(cfg: Config, s: System, p: Pid): System
    requires p in s.procs && s.procs[p].phase.Waiting?
  {
    var process := s.procs[p];
    if Free(s) then
      var until := s.now + cfg.timeout;
      With(s, p, process.(deadline := until, phase := Ready)).(lease := Some(Lease(process.token, until)))
    else
      var attempts := process.phase.attempts + 1;
      With(s, p, process.(phase := if attempts < cfg.maxRetries then Waiting(attempts) else Finished))
  }

  function Loading(s: System, p: Pid): System
    requires p in s.procs && s.procs[p].jobs != []
  {
    var process := s.procs[p];
    With(s, p,
         match s.stored
         case None => if process.jobs[0].command.Join? then process.(phase := Missing) else End(process)
         case Some(r) => if StoriesHaveIds(r.stories) then process.(phase := Loaded(r)) else End(process))
  }

  /** Joining a missing room writes a new one without looking again. */
  function Creating(s: System, p: Pid): System
    requires p in s.procs
  {
    var r := NewRoom(s.roomId, FIBONACCI.id, s.now);
    With(s, p, s.procs[p].(phase := Loaded(r))).(stored := Some(r))
  }

  predicate Reconnects(r: RoomView, command: Command) {
    command.Join? && FindClient(r, command.client).Some?
  }

  function Mutating(s: System, p: Pid): System
    requires p in s.procs && s.procs[p].phase.Loaded? && s.procs[p].jobs != []
  {
    var process := s.procs[p];
    var base := process.phase.room;
    var command := process.jobs[0].command;
    var outcome := Apply(base, command, s.now);
    With(s, p,
         if outcome.error.Some? || Reconnects(base, command) then End(process)
         else process.(phase := Mutated(outcome.room, base, s.now)))
  }

  function Written(room: RoomView, version: nat): RoomView {
    room.(version := version, events := [])
  }

  function NextOf(stored: Option<RoomView>): nat {
    if stored.Some? then stored.value.version + 1 else 1
  }

  /** The version a saving script writes, or nothing when it refuses. */
  function NextVersion(stored: Option<RoomView>, mode: Mode): Option<nat> {
    match mode
    case Always => Some(NextOf(stored))
    case IfVersion(expected) =>
      if expected.Some? && stored.Some? && stored.value.version == expected.value then Some(expected.value + 1)
          else None
  }

  predicate Empties(process: Process)
    requires process.phase.Mutated? && process.jobs != []
  {
    process.jobs[0].command.RemoveClient? && process.phase.room.clients == []
  }

  function Saving(s: System, p: Pid, resume: bool): System
    requires p in s.procs && s.procs[p].phase.Mutated? && s.procs[p].jobs != []
  {
    var process := s.procs[p];
    var job := process.jobs[0];
    if Empties(process) then With(s, p, Proceed(process, resume)).(stored := None)
    else
      match NextVersion(s.stored, job.mode)
      case None => With(s, p, End(process))
      case Some(version) =>
        With(s, p, Proceed(process, resume)).(
        stored := Some(Written(process.phase.room, version)),
        log := s.log + [Commit(job, process.phase.base, process.phase.at)])
  }

  /** The release script deletes the lock only if it still holds this process's token. */
  function Unlocking(s: System, p: Pid): System
    requires p in s.procs
  {
    With(s, p, s.procs[p].(phase := Finished)).(
    lease := if !Free(s) && s.lease.value.token == s.procs[p].token then None else s.lease)
  }

  function Abandoning(s: System, p: Pid, resume: bool): System
    requires p in s.procs
  {
    var process := s.procs[p];
    With(s, p,
         if process.phase.Waiting? || process.phase.Releasing? then process.(phase := Finished)
         else Proceed(process, resume))
  }

  function Next(cfg: Config, s: System, step: Step): System
    requires Enabled(cfg, s, step)
  {
    match step
    case Tick(to) => s.(now := to)
    case Spawn(p, process) => With(s, p, process)
    case TryAcquire(p) => Acquiring(cfg, s, p)
    case AcquireUnheard(p) =>
      With(s, p, s.procs[p].(phase := Finished)).(lease := Some(Lease(s.procs[p].token, s.now + cfg.timeout)))
    case Load(p) => Loading(s, p)
    case Create(p) => Creating(s, p)
    case Mutate(p) => Mutating(s, p)
    case Save(p, resume) => Saving(s, p, resume)
    case GiveUp(p, resume) => Abandoning(s, p, resume)
    case Release(p) => Unlocking(s, p)
    case Crash(p) => With(s, p, s.procs[p].(phase := Finished))
    case CreateRoom(deckType) => s.(stored := Some(NewRoom(s.roomId, deckType, s.now)))
    case LoseRoom => s.(stored := None)
  }

  ghost predicate IsRun(cfg: Config, run: seq<System>, steps: seq<Step>) {
    && |run| == |steps| + 1
    && run[0].procs == map[] && run[0].log == []
    && (run[0].stored.Some? ==> run[0].stored.value.events == [])
    && forall i :: 0 <= i < |steps| ==> Enabled(cfg, run[i], steps[i]) && run[i + 1] == Next(cfg, run[i], steps[i])
  }

  // ---- the lease -------------------------------------------------------------

  /** Between a successful acquire and the end of the release. */
  predicate InSection(process: Process) {
    && process.locked
    && (process.phase.Ready? || process.phase.Missing? || process.phase.Loaded? || process.phase.Mutated?
        || process.phase.Releasing?)
  }

  predicate HoldsLease(s: System, p: Pid) {
    p in s.procs && InSection(s.procs[p]) && s.now < s.procs[p].deadline
  }

  ghost predicate DistinctTokens(s: System) {
    forall p, q :: p in s.procs && q in s.procs && p != q && s.procs[p].locked && s.procs[q].locked
                   ==> s.procs[p].token != s.procs[q].token
  }

  ghost predicate LeaseInv(s: System) {
    forall p :: HoldsLease(s, p) ==> s.lease == Some(Lease(s.procs[p].token, s.procs[p].deadline))
  }

  /** The step releases a lock that another process holds under the same token. */
  ghost predicate Collides(s: System, step: Step) {
    step.Release? && step.p in s.procs
    && exists q :: q != step.p && HoldsLease(s, q) && s.procs[q].token == s.procs[step.p].token
  }

  predicate IsLockStep(step: Step) {
    step.TryAcquire? || step.AcquireUnheard? || step.Release?
  }

  lemma OtherStepsKeepLease(cfg: Config, s: System, step: Step)
    requires Enabled(cfg, s, step) && !IsLockStep(step)
    ensures var s' := Next(cfg, s, step);
            s'.lease == s.lease
            && forall p :: HoldsLease(s', p) ==>
                 && HoldsLease(s, p) && s'.procs[p].token == s.procs[p].token
                 && s'.procs[p].deadline == s.procs[p].deadline
  {
    hide Apply, StoriesHaveIds, NewRoom, NextVersion, FindClient, Free;
  }

  lemma AcquireKeepsLease(cfg: Config, s: System, step: Step)
    requires Enabled(cfg, s, step) && LeaseInv(s) && (step.TryAcquire? || step.AcquireUnheard?)
    ensures LeaseInv(Next(cfg, s, step))
    ensures forall p :: HoldsLease(Next(cfg, s, step), p) ==> HoldsLease(s, p) || (p == step.p && Free(s))
  {
    var s' := Next(cfg, s, step);
    assert Free(s) ==> forall p :: !HoldsLease(s, p);
    assert forall p :: p in s.procs && p != step.p ==> s'.procs[p] == s.procs[p];
  }

  lemma ReleaseKeepsLease(cfg: Config, s: System, p: Pid)
    requires Enabled(cfg, s, Release(p)) && LeaseInv(s)
    ensures LeaseInv(Next(cfg, s, Release(p))) <==> !Collides(s, Release(p))
    ensures forall q :: HoldsLease(Next(cfg, s, Release(p)), q) <==> HoldsLease(s, q) && q != p
  {
    var s' := Next(cfg, s, Release(p));
    assert forall q :: q in s.procs && q != p ==> s'.procs[q] == s.procs[q];
    if Collides(s, Release(p)) {
      var q :| q != p && HoldsLease(s, q) && s.procs[q].token == s.procs[p].token;
      assert HoldsLease(s', q) && s'.lease == None;
    }
  }

  /** A step keeps every holder's lease in the store exactly when it does not release one under an equal token. */
  lemma StepKeepsLease(cfg: Config, s: System, step: Step)
    requires Enabled(cfg, s, step) && LeaseInv(s)
    ensures LeaseInv(Next(cfg, s, step)) <==> !Collides(s, step)
  {
    hide Enabled, Next, HoldsLease, Free;
    if step.Release? {
      ReleaseKeepsLease(cfg, s, step.p);
    } else if IsLockStep(step) {
      AcquireKeepsLease(cfg, s, step);
    } else {
      OtherStepsKeepLease(cfg, s, step);
    }
  }

  lemma DistinctTokensDoNotCollide(s: System, step: Step)
    requires DistinctTokens(s) && (step.Release? ==> step.p in s.procs && s.procs[step.p].locked)
    ensures !Collides(s, step)
  {
  }

  lemma {:induction false} RunKeepsLeaseUnless(cfg: Config, run: seq<System>, steps: seq<Step>, n: nat)
    requires IsRun(cfg, run, steps) && n < |run|
    requires forall i :: 0 <= i < n ==> !Collides(run[i], steps[i])
    ensures LeaseInv(run[n])
  {
    hide Enabled, Next, Collides;
    if n > 0 {
      RunKeepsLeaseUnless(cfg, run, steps, n - 1);
      StepKeepsLease(cfg, run[n - 1], steps[n - 1]);
    }
  }

  lemma RunKeepsLease(cfg: Config, run: seq<System>, steps: seq<Step>, n: nat)
    requires IsRun(cfg, run, steps) && n < |run|
    requires forall i :: 0 <= i < |run| ==> DistinctTokens(run[i])
    ensures LeaseInv(run[n])
  {
    forall i | 0 <= i < n
      ensures !Collides(run[i], steps[i])
    {
      assert Enabled(cfg, run[i], steps[i]);
      DistinctTokensDoNotCollide(run[i], steps[i]);
    }
    RunKeepsLeaseUnless(cfg, run, steps, n);
  }

  /**
   Main result, the exact condition: throughout a run every process inside its lease owns the lock in the store if and
   only if nobody ever releases a lock that another process holds under the same token.
   */
  lemma LeasesHoldIffNoCollision(cfg: Config, run: seq<System>, steps: seq<Step>)
    requires IsRun(cfg, run, steps)
    ensures (forall n :: 0 <= n < |run| ==> LeaseInv(run[n]))
       <==> (forall i :: 0 <= i < |steps| ==> !Collides(run[i], steps[i]))
  {
    hide Enabled, Next, Collides, LeaseInv;
    if forall i :: 0 <= i < |steps| ==> !Collides(run[i], steps[i]) {
      forall n | 0 <= n < |run| ensures LeaseInv(run[n]) {
        RunKeepsLeaseUnless(cfg, run, steps, n);
      }
    }
    if forall n :: 0 <= n < |run| ==> LeaseInv(run[n]) {
      forall i | 0 <= i < |steps| ensures !Collides(run[i], steps[i]) {
        assert LeaseInv(run[i]) && LeaseInv(run[i + 1]);
        StepKeepsLease(cfg, run[i], steps[i]);
      }
    }
  }

  /** Without such a release at most one process is inside its lease, whatever the tokens are. */
  lemma {:induction false} OneHolder(cfg: Config, run: seq<System>, steps: seq<Step>, n: nat, p: Pid, q: Pid)
    requires IsRun(cfg, run, steps) && n < |run|
    requires forall i :: 0 <= i < n ==> !Collides(run[i], steps[i])
    requires HoldsLease(run[n], p) && HoldsLease(run[n], q)
    ensures p == q
  {
    hide Enabled, Next, Collides;
    if n > 0 {
      var s, step := run[n - 1], steps[n - 1];
      RunKeepsLeaseUnless(cfg, run, steps, n - 1);
      StepKeepsHolders(cfg, s, step, p);
      StepKeepsHolders(cfg, s, step, q);
      if HoldsLease(s, p) && HoldsLease(s, q) {
        OneHolder(cfg, run, steps, n - 1, p, q);
      }
    }
  }

  /** Whoever is inside its lease after a step was so before, or has just acquired a free lock. */
  lemma StepKeepsHolders(cfg: Config, s: System, step: Step, p: Pid)
    requires Enabled(cfg, s, step) && LeaseInv(s) && HoldsLease(Next(cfg, s, step), p)
    ensures HoldsLease(s, p) || (step == TryAcquire(p) && forall q :: !HoldsLease(s, q))
  {
    hide Apply, StoriesHaveIds, NewRoom, NextVersion, FindClient;
    if step.Release? {
      ReleaseKeepsLease(cfg, s, step.p);
    } else if IsLockStep(step) {
      AcquireKeepsLease(cfg, s, step);
    } else {
      OtherStepsKeepLease(cfg, s, step);
    }
  }

  /** Main result: with distinct tokens, at most one process is inside its lease at any moment of any run. */
  lemma MutualExclusion(cfg: Config, run: seq<System>, steps: seq<Step>, n: nat, p: Pid, q: Pid)
    requires IsRun(cfg, run, steps) && n < |run|
    requires forall i :: 0 <= i < |run| ==> DistinctTokens(run[i])
    requires HoldsLease(run[n], p) && HoldsLease(run[n], q)
    ensures p == q
  {
    RunKeepsLease(cfg, run, steps, n);
  }

  /** A running lease ends only by its holder's own release: late releases and other acquisitions leave it alone. */
  lemma OnlyTheHolderReleases(cfg: Config, run: seq<System>, steps: seq<Step>, n: nat, p: Pid)
    requires IsRun(cfg, run, steps) && n < |steps|
    requires forall i :: 0 <= i < |run| ==> DistinctTokens(run[i])
    requires HoldsLease(run[n], p) && steps[n] != Release(p)
    ensures run[n].lease == Some(Lease(run[n].procs[p].token, run[n].procs[p].deadline))
    ensures run[n + 1].lease == run[n].lease
  {
    hide Apply, StoriesHaveIds, NewRoom, NextVersion, FindClient;
    RunKeepsLease(cfg, run, steps, n);
    assert Enabled(cfg, run[n], steps[n]);
  }

  predicate IsAttempt(step: Step, p: Pid) {
    step == TryAcquire(p) || step == AcquireUnheard(p)
  }

  /** The SET NX calls a process has made. */
  function Attempts(steps: seq<Step>, p: Pid): nat {
    if steps == [] then 0
    else Attempts(steps[..|steps| - 1], p) + if IsAttempt(steps[|steps| - 1], p) then 1 else 0
  }

  ghost predicate Counted(cfg: Config, s: System, p: Pid, attempts: nat) {
    && attempts <= cfg.maxRetries
    && (p !in s.procs ==> attempts == 0)
    && (p in s.procs && s.procs[p].phase.Waiting? ==> attempts == s.procs[p].phase.attempts)
  }

  lemma StepCounts(cfg: Config, s: System, step: Step, p: Pid, attempts: nat)
    requires Enabled(cfg, s, step) && Counted(cfg, s, p, attempts)
    ensures Counted(cfg, Next(cfg, s, step), p, attempts + if IsAttempt(step, p) then 1 else 0)
  {
    hide Apply, StoriesHaveIds, NewRoom, NextVersion, FindClient, Free, Empties, Reconnects;
  }

  /** No process tries to take the lock more than `maxRetries` times. */
  lemma {:induction false} AttemptsAreBounded(cfg: Config, run: seq<System>, steps: seq<Step>, n: nat, p: Pid)
    requires IsRun(cfg, run, steps) && n < |run|
    ensures Counted(cfg, run[n], p, Attempts(steps[..n], p))
  {
    hide Next, Enabled;
    if n > 0 {
      AttemptsAreBounded(cfg, run, steps, n - 1, p);
      assert steps[..n][..n - 1] == steps[..n - 1];
      StepCounts(cfg, run[n - 1], steps[n - 1], p, Attempts(steps[..n - 1], p));
    }
  }

  // ---- all changes under the lock ---------------------------------------------

  /** The room a committed change leaves behind. */
  function Committed(r: RoomView, c: Commit): RoomView {
    Written(Apply(r, c.job.command, c.at).room, r.version + 1)
  }

  /** The committed changes applied one after the other. */
  function Replay(r: RoomView, log: seq<Commit>): RoomView {
    if log == [] then r else Committed(Replay(r, log[..|log| - 1]), log[|log| - 1])
  }

  lemma ReplayOneMore(r: RoomView, log: seq<Commit>, c: Commit)
    ensures Replay(r, log + [c]) == Committed(Replay(r, log), c)
  {
    assert (log + [c])[..|log|] == log;
  }

  /** The room stays in the store. */
  ghost predicate Kept(run: seq<System>) {
    forall i :: 0 <= i < |run| ==> run[i].stored.Some?
  }

  predicate Working(phase: Phase) {
    phase.Ready? || phase.Missing? || phase.Loaded? || phase.Mutated?
  }

  /** Every process takes the lock and is done with the room before its lease runs out. */
  ghost predicate Disciplined(s: System) {
    forall p :: p in s.procs ==> s.procs[p].locked && (Working(s.procs[p].phase) ==> s.now < s.procs[p].deadline)
  }

  predicate UpToDate(stored: Option<RoomView>, process: Process) {
    && !process.phase.Missing?
    && (process.phase.Loaded? ==> stored == Some(process.phase.room))
    && (process.phase.Mutated? ==> stored == Some(process.phase.base) && FromBase(process))
  }

  /** What a process is about to save is its command applied to what it loaded. */
  predicate FromBase(process: Process) {
    process.phase.Mutated? ==>
      && process.jobs != []
      && process.phase.room == Apply(process.phase.base, process.jobs[0].command, process.phase.at).room
  }

  ghost predicate NobodyIsBehind(s: System) {
    forall p :: p in s.procs ==> UpToDate(s.stored, s.procs[p])
  }

  ghost predicate SameStore(s: System, s': System) {
    s'.log == s.log && s'.stored == s.stored
  }

  /** One more change is in the log, and the store holds what it makes of the previous room. */
  ghost predicate Advances(s: System, s': System, c: Commit) {
    s'.log == s.log + [c] && s.stored.Some? && s'.stored == Some(Committed(s.stored.value, c))
  }

  lemma StepUnderLock(cfg: Config, s: System, step: Step)
    requires Enabled(cfg, s, step)
    requires LeaseInv(s) && DistinctTokens(s) && Disciplined(s) && NobodyIsBehind(s)
    requires s.stored.Some? && Next(cfg, s, step).stored.Some?
    ensures var s' := Next(cfg, s, step);
            && NobodyIsBehind(s')
            && (SameStore(s, s') || exists c :: Advances(s, s', c))
  {
    hide Apply, StoriesHaveIds, NewRoom, FindClient;
    var s' := Next(cfg, s, step);
    if step.Save? && s'.log != s.log {
      var p := step.p;
      assert Advances(s, s', Commit(s.procs[p].jobs[0], s.procs[p].phase.base, s.procs[p].phase.at));
      assert HoldsLease(s, p);
      forall q | q in s'.procs
        ensures UpToDate(s'.stored, s'.procs[q])
      {
        assert q == p || !HoldsLease(s, q);
      }
    }
  }

  /** Main result: with every change made under an unexpired lease, the store is the commits replayed in order. */
  lemma {:induction false} StoreIsReplay(cfg: Config, run: seq<System>, steps: seq<Step>, n: nat)
    requires IsRun(cfg, run, steps) && n < |run| && Kept(run)
    requires forall i :: 0 <= i < |run| ==> DistinctTokens(run[i]) && Disciplined(run[i])
    ensures run[n].stored == Some(Replay(run[0].stored.value, run[n].log))
    ensures run[n].stored.value.version == run[0].stored.value.version + |run[n].log|
    ensures NobodyIsBehind(run[n])
  {
    if n > 0 {
      StoreIsReplay(cfg, run, steps, n - 1);
      RunKeepsLease(cfg, run, steps, n - 1);
      var s, s' := run[n - 1], run[n];
      assert run[n].stored.Some?;
      StepUnderLock(cfg, s, steps[n - 1]);
      if !SameStore(s, s') {
        var c :| Advances(s, s', c);
        ReplayOneMore(run[0].stored.value, s.log, c);
      }
    }
  }

  // ---- versions, with leases that run out and writers that take no lock ------------

  /** What was read earlier: an older room, or exactly the stored one. */
  predicate Older(r: RoomView, stored: RoomView) {
    r.version <= stored.version && (r.version == stored.version ==> r == stored)
  }

  predicate ReadEarlier(stored: RoomView, process: Process) {
    && !process.phase.Missing?
    && (process.phase.Loaded? ==> Older(process.phase.room, stored))
    && (process.phase.Mutated? ==> Older(process.phase.base, stored) && FromBase(process))
  }

  predicate Expects(c: Commit, version: nat) {
    c.job.mode.IfVersion? ==> c.job.mode.expected == Some(version)
  }

  ghost predicate Numbered(first: nat, log: seq<Commit>) {
    forall i :: 0 <= i < |log| ==> Expects(log[i], first + i)
  }

  ghost predicate Tracks(first: nat, s: System) {
    && s.stored.Some?
    && s.stored.value.version == first + |s.log|
    && Numbered(first, s.log)
    && forall p :: p in s.procs ==> ReadEarlier(s.stored.value, s.procs[p])
  }

  lemma StepTracks(cfg: Config, s: System, step: Step, first: nat)
    requires Enabled(cfg, s, step) && Tracks(first, s) && Next(cfg, s, step).stored.Some?
    requires s.stored.value.events == []
    ensures Tracks(first, Next(cfg, s, step))
    ensures Next(cfg, s, step).stored.value.events == []
    ensures SameStore(s, Next(cfg, s, step)) || |Next(cfg, s, step).log| == |s.log| + 1
  {
    hide Apply, StoriesHaveIds, NewRoom, FindClient, Free;
  }

  /** Main result: as long as the room stays in the store, every write raises its version by exactly one. */
  lemma {:induction false} EveryWriteAddsOne(cfg: Config, run: seq<System>, steps: seq<Step>, n: nat)
    requires IsRun(cfg, run, steps) && n < |run| && Kept(run)
    ensures Tracks(run[0].stored.value.version, run[n]) && run[n].stored.value.events == []
  {
    if n > 0 {
      EveryWriteAddsOne(cfg, run, steps, n - 1);
      assert run[n].stored.Some?;
      StepTracks(cfg, run[n - 1], steps[n - 1], run[0].stored.value.version);
    }
  }

  /** Of the guarded changes that expect the same version, at most one is ever committed. */
  lemma OneCommitPerExpectedVersion(cfg: Config, run: seq<System>, steps: seq<Step>, n: nat, i: nat, j: nat)
    requires IsRun(cfg, run, steps) && n < |run| && Kept(run)
    requires i < |run[n].log| && j < |run[n].log|
    requires run[n].log[i].job.mode.IfVersion? && run[n].log[i].job.mode == run[n].log[j].job.mode
    ensures i == j
  {
    EveryWriteAddsOne(cfg, run, steps, n);
    var first := run[0].stored.value.version;
    assert Expects(run[n].log[i], first + i) && Expects(run[n].log[j], first + j);
  }

  /** The process is about to save, and what it loaded is what the store holds. */
  predicate IsCurrent(s: System, p: Pid) {
    p in s.procs && s.procs[p].phase.Mutated? && s.stored == Some(s.procs[p].phase.base)
  }

  /**
   Main result, the exact condition for every writer: a change about to be saved was computed from the stored room if
   and only if the stored version is the one it loaded.
   */
  lemma SaveIsCurrentIffSameVersion(cfg: Config, run: seq<System>, steps: seq<Step>, n: nat, p: Pid, resume: bool)
    requires IsRun(cfg, run, steps) && n < |steps| && Kept(run) && steps[n] == Save(p, resume)
    ensures p in run[n].procs && run[n].procs[p].phase.Mutated?
    ensures IsCurrent(run[n], p) <==> run[n].stored.value.version == run[n].procs[p].phase.base.version
  {
    hide Next;
    EveryWriteAddsOne(cfg, run, steps, n);
    assert Enabled(cfg, run[n], steps[n]);
    assert ReadEarlier(run[n].stored.value, run[n].procs[p]);
  }

  predicate GuardedSave(s: System, p: Pid) {
    p in s.procs && s.procs[p].phase.Mutated? && s.procs[p].jobs != [] && s.procs[p].jobs[0].mode.IfVersion?
  }

  lemma GuardPassed(cfg: Config, s: System, p: Pid, resume: bool)
    requires Enabled(cfg, s, Save(p, resume)) && GuardedSave(s, p) && s.stored.Some?
    requires Next(cfg, s, Save(p, resume)).log != s.log
    ensures s.procs[p].jobs[0].mode.expected == Some(s.stored.value.version)
  {
  }

  /**
   Main result, the exact condition for guarded commands: one that is committed was computed from the room it replaces
   if and only if its caller expects the version it loaded.
   */
  lemma GuardedCommitIsCurrentIffExpected(cfg: Config, run: seq<System>, steps: seq<Step>, n: nat, p: Pid, resume: bool)
    requires IsRun(cfg, run, steps) && n < |steps| && Kept(run)
    requires steps[n] == Save(p, resume) && run[n + 1].log != run[n].log && GuardedSave(run[n], p)
    ensures var process := run[n].procs[p];
            IsCurrent(run[n], p) <==> process.jobs[0].mode.expected == Some(process.phase.base.version)
  {
    hide Next;
    SaveIsCurrentIffSameVersion(cfg, run, steps, n, p, resume);
    assert Enabled(cfg, run[n], steps[n]);
    GuardPassed(cfg, run[n], p, resume);
  }

  /** A commit of a current change is the domain transition of the stored room. */
  lemma CurrentCommitAdvances(cfg: Config, run: seq<System>, steps: seq<Step>, n: nat, p: Pid, resume: bool)
    requires IsRun(cfg, run, steps) && n < |steps| && Kept(run)
    requires steps[n] == Save(p, resume) && run[n + 1].log != run[n].log && IsCurrent(run[n], p)
    ensures run[n].procs[p].jobs != []
    ensures Advances(run[n], run[n + 1], CommitOf(run[n].procs[p]))
  {
    hide Apply, StoriesHaveIds, NewRoom, FindClient, Free;
    EveryWriteAddsOne(cfg, run, steps, n);
    assert Enabled(cfg, run[n], steps[n]);
    assert ReadEarlier(run[n].stored.value, run[n].procs[p]);
  }

  function CommitOf(process: Process): Commit
    requires process.phase.Mutated? && process.jobs != []
  {
    Commit(process.jobs[0], process.phase.base, process.phase.at)
  }

  /** Every commit was computed from the room its predecessors left. */
  ghost predicate IsSerial(r: RoomView, log: seq<Commit>) {
    forall i :: 0 <= i < |log| ==> log[i].base == Replay(r, log[..i])
  }

  /** Every commit was computed from the version its predecessors left. */
  ghost predicate HasSerialVersions(first: nat, log: seq<Commit>) {
    forall i :: 0 <= i < |log| ==> log[i].base.version == first + i
  }

  lemma {:induction false} ReplayVersion(r: RoomView, log: seq<Commit>)
    ensures Replay(r, log).version == r.version + |log|
  {
    hide Apply;
    if log != [] { ReplayVersion(r, log[..|log| - 1]); }
  }

  /** One more change is in the log, computed from an older room or from the stored one. */
  ghost predicate Overwrites(s: System, s': System, c: Commit) {
    && s.stored.Some? && s'.log == s.log + [c] && Older(c.base, s.stored.value)
    && s'.stored == Some(Written(Apply(c.base, c.job.command, c.at).room, s.stored.value.version + 1))
  }

  /** What a step adds to the log, if anything, is computed from an older room or from the stored one. */
  lemma StepLogs(cfg: Config, s: System, step: Step, first: nat)
    requires Enabled(cfg, s, step) && Tracks(first, s) && Next(cfg, s, step).stored.Some?
    ensures var s' := Next(cfg, s, step);
            || SameStore(s, s')
            || exists c :: Overwrites(s, s', c)
  {
    hide Apply, StoriesHaveIds, NewRoom, FindClient, Free, Older;
    if step.Save? && Next(cfg, s, step).log != s.log {
      var c := CommitOf(s.procs[step.p]);
      assert ReadEarlier(s.stored.value, s.procs[step.p]);
      assert Overwrites(s, Next(cfg, s, step), c);
    }
  }

  lemma {:induction false} SerialVersionsReplay(cfg: Config, run: seq<System>, steps: seq<Step>, n: nat)
    requires IsRun(cfg, run, steps) && n < |run| && Kept(run)
    requires HasSerialVersions(run[0].stored.value.version, run[n].log)
    ensures IsSerial(run[0].stored.value, run[n].log)
    ensures run[n].stored == Some(Replay(run[0].stored.value, run[n].log))
  {
    hide Next, Enabled, Apply, Replay;
    var r := run[0].stored.value;
    if n == 0 {
      ReplayNothing(r);
    } else {
      var s, s' := run[n - 1], run[n];
      EveryWriteAddsOne(cfg, run, steps, n - 1);
      assert s'.stored.Some?;
      StepLogs(cfg, s, steps[n - 1], r.version);
      if SameStore(s, s') {
        SerialVersionsReplay(cfg, run, steps, n - 1);
      } else {
        var c :| Overwrites(s, s', c);
        assert forall i :: 0 <= i < |s.log| ==> s'.log[i] == s.log[i] && s'.log[..i] == s.log[..i];
        SerialVersionsReplay(cfg, run, steps, n - 1);
        assert s'.log[|s.log|] == c && s'.log[..|s.log|] == s.log;
        ReplayOneMore(r, s.log, c);
      }
    }
  }

  lemma ReplayNothing(r: RoomView)
    ensures Replay(r, []) == r
  {
  }

  /**
   Main result, whole runs without any assumption on locks: no commit overwrites another one unseen if and only if each
   was computed from the version before it, and then the store is the commits replayed in order.
   */
  lemma SerialIffVersionsAreSerial(cfg: Config, run: seq<System>, steps: seq<Step>, n: nat)
    requires IsRun(cfg, run, steps) && n < |run| && Kept(run)
    ensures var r, log := run[0].stored.value, run[n].log;
            && (IsSerial(r, log) <==> HasSerialVersions(r.version, log))
            && (IsSerial(r, log) ==> run[n].stored == Some(Replay(r, log)))
  {
    hide Next, Enabled, Apply, Replay;
    var r, log := run[0].stored.value, run[n].log;
    if IsSerial(r, log) {
      forall i | 0 <= i < |log| ensures log[i].base.version == r.version + i {
        ReplayVersion(r, log[..i]);
      }
    }
    if HasSerialVersions(r.version, log) {
      SerialVersionsReplay(cfg, run, steps, n);
    }
  }

  predicate Known(version: nat, job: Job) {
    job.mode.IfVersion? && job.mode.expected.Some? ==> job.mode.expected.value <= version
  }

  /** A caller expects only versions that have existed when it calls. */
  ghost predicate Informed(s: System, step: Step) {
    step.Spawn? && s.stored.Some? ==> forall job :: job in step.process.jobs ==> Known(s.stored.value.version, job)
  }

  predicate Causal(version: nat, process: Process) {
    && (forall job :: job in process.jobs ==> Known(version, job))
    && (process.phase.Loaded? && process.jobs != [] ==> Known(process.phase.room.version, process.jobs[0]))
    && (process.phase.Mutated? && process.jobs != [] ==> Known(process.phase.base.version, process.jobs[0]))
  }

  ghost predicate AllCausal(s: System) {
    s.stored.Some? && forall p :: p in s.procs ==> Causal(s.stored.value.version, s.procs[p])
  }

  lemma StepIsCausal(cfg: Config, s: System, step: Step, first: nat)
    requires Enabled(cfg, s, step) && Informed(s, step) && AllCausal(s) && Tracks(first, s)
    requires Tracks(first, Next(cfg, s, step)) && |Next(cfg, s, step).log| >= |s.log|
    ensures AllCausal(Next(cfg, s, step))
  {
    hide Apply, StoriesHaveIds, NewRoom, FindClient, Free;
    var s' := Next(cfg, s, step);
    forall p | p in s'.procs
      ensures Causal(s'.stored.value.version, s'.procs[p])
    {
      if p in s.procs {
        assert forall job :: job in s'.procs[p].jobs ==> job in s.procs[p].jobs;
      }
    }
  }

  lemma {:induction false} RunIsCausal(cfg: Config, run: seq<System>, steps: seq<Step>, n: nat)
    requires IsRun(cfg, run, steps) && n < |run| && Kept(run)
    requires forall i :: 0 <= i < |steps| ==> Informed(run[i], steps[i])
    ensures AllCausal(run[n])
  {
    EveryWriteAddsOne(cfg, run, steps, n);
    if n > 0 {
      RunIsCausal(cfg, run, steps, n - 1);
      EveryWriteAddsOne(cfg, run, steps, n - 1);
      StepTracks(cfg, run[n - 1], steps[n - 1], run[0].stored.value.version);
      StepIsCausal(cfg, run[n - 1], steps[n - 1], run[0].stored.value.version);
    }
  }

  /**
   So a guarded command whose caller expects a version that has existed is committed only onto the room it was computed
   from, even when its lease has run out and when other writers took no lock.
   */
  lemma GuardedCommitLosesNothing(cfg: Config, run: seq<System>, steps: seq<Step>, n: nat, p: Pid, resume: bool)
    requires IsRun(cfg, run, steps) && n < |steps| && Kept(run)
    requires forall i :: 0 <= i < |steps| ==> Informed(run[i], steps[i])
    requires steps[n] == Save(p, resume) && run[n + 1].log != run[n].log
    requires p in run[n].procs && run[n].procs[p].jobs != [] && run[n].procs[p].jobs[0].mode.IfVersion?
    ensures run[n].procs[p].phase.Mutated?
    ensures Advances(run[n], run[n + 1], CommitOf(run[n].procs[p]))
  {
    hide Next, Apply;
    assert Enabled(cfg, run[n], steps[n]);
    RunIsCausal(cfg, run, steps, n);
    EveryWriteAddsOne(cfg, run, steps, n);
    assert ReadEarlier(run[n].stored.value, run[n].procs[p]);
    GuardPassed(cfg, run[n], p, resume);
    GuardedCommitIsCurrentIffExpected(cfg, run, steps, n, p, resume);
    CurrentCommitAdvances(cfg, run, steps, n, p, resume);
  }

  // ---- what the assumptions rule out ------------------------------------------------

  function Rename(client: string, name: string): Process {
    Process([Job(UpdateClientName(client, name), Always)], false, 0, 0, Ready)
  }

  lemma RenameEffect(r: RoomView, i: nat, name: string, now: Time)
    requires i < |r.clients| && Distinct(Ids(r.clients))
    ensures Apply(r, UpdateClientName(r.clients[i].id, name), now)
         == Done(r.(clients := r.clients[i := r.clients[i].(name := name)]))
  {
    assert r.clients[i].id == Ids(r.clients)[i];
    DistinctIndex(Ids(r.clients), i);
  }

  /** Nobody has started, and the room is in the store. */
  predicate IsFreshStart(s: System) {
    s.procs == map[] && s.log == [] && s.stored.Some? && s.stored.value.events == []
  }

  /** A run extended by one step that leaves the room in the store. */
  lemma Grow(cfg: Config, run: seq<System>, steps: seq<Step>, step: Step) returns (run': seq<System>, steps': seq<Step>)
    requires IsRun(cfg, run, steps) && Enabled(cfg, run[|steps|], step)
    requires Kept(run) && Next(cfg, run[|steps|], step).stored.Some?
    ensures steps' == steps + [step] && run' == run + [Next(cfg, run[|steps|], step)]
    ensures IsRun(cfg, run', steps') && Kept(run')
  {
    hide Next, Enabled;
    run', steps' := run + [Next(cfg, run[|steps|], step)], steps + [step];
  }

  /** Two unlocked changes that both load the room before either is saved. */
  lemma BothMutate(cfg: Config, s: System, p: Process, q: Process) returns (run: seq<System>, steps: seq<Step>)
    requires IsFreshStart(s) && StoriesHaveIds(s.stored.value.stories)
    requires Started(p) && Started(q) && !p.locked && !q.locked && !p.jobs[0].command.Join? && !q.jobs[0].command.Join?
    requires Apply(s.stored.value, p.jobs[0].command, s.now).error.None?
    requires Apply(s.stored.value, q.jobs[0].command, s.now).error.None?
    ensures IsRun(cfg, run, steps) && run[0] == s && Kept(run)
    ensures var r := s.stored.value;
            run[|steps|] == s.(procs := map[0 := p.(phase := Mutated(Apply(r, p.jobs[0].command, s.now).room, r,
                s.now)),
                                            1 := q.(phase := Mutated(Apply(r, q.jobs[0].command, s.now).room, r,
                                                s.now))])
  {
    hide StoriesHaveIds, Apply, FindClient;
    run, steps := [s], [];
    run, steps := Grow(cfg, run, steps, Spawn(0, p));
    run, steps := Grow(cfg, run, steps, Spawn(1, q));
    run, steps := Grow(cfg, run, steps, Load(0));
    run, steps := Grow(cfg, run, steps, Load(1));
    run, steps := Grow(cfg, run, steps, Mutate(0));
    run, steps := Grow(cfg, run, steps, Mutate(1));
  }

  /** A name change takes no lock, so another change loaded before it is saved can wipe it out. */
  lemma RenameCanBeLost(cfg: Config, s: System, i: nat, j: nat, x: string, y: string)
    returns (run: seq<System>, steps: seq<Step>)
    requires IsFreshStart(s) && StoriesHaveIds(s.stored.value.stories)
    requires var r := s.stored.value; i < |r.clients| && j < |r.clients| && i != j && Distinct(Ids(r.clients))
    ensures IsRun(cfg, run, steps) && run[0] == s && Kept(run)
    ensures var last := run[|steps|];
            && |last.log| == 2 && last.log[0].job.command == UpdateClientName(s.stored.value.clients[i].id, x)
            && |last.stored.value.clients| == |s.stored.value.clients|
            && last.stored.value.clients[i] == s.stored.value.clients[i]
            && last.stored.value.clients[j].name == y
    ensures |steps| > 0 && !IsCurrent(run[|steps| - 1], 1) && !IsSerial(s.stored.value, run[|steps|].log)
  {
    hide Distinct, Apply, StoriesHaveIds;
    var r := s.stored.value;
    RenameEffect(r, i, x, s.now);
    RenameEffect(r, j, y, s.now);
    run, steps := BothMutate(cfg, s, Rename(r.clients[i].id, x), Rename(r.clients[j].id, y));
    run, steps := Grow(cfg, run, steps, Save(0, false));
    run, steps := Grow(cfg, run, steps, Save(1, false));
    var n := |steps| - 1;
    assert run[n].procs[1].phase.base == r && run[n].stored.value.version == r.version + 1;
    assert run[n + 1].log[1].base == r;
    SaveIsCurrentIffSameVersion(cfg, run, steps, n, 1, false);
    SerialIffVersionsAreSerial(cfg, run, steps, n + 1);
  }

  function Resetting(client: string, expected: nat): Process {
    Process([Job(ResetVoting(client), IfVersion(Some(expected)))], true, 0, 0, Waiting(0))
  }

  lemma ResetEffect(r: RoomView, client: string, now: Time)
    requires OwnerError(r, client).None?
    ensures Apply(r, ResetVoting(client), now) == Done(NewRound(r))
  {
  }

  /** A guarded reset loads the room, and a name change is committed before it is saved. */
  lemma RenameWhileResetting(cfg: Config, s: System, p: Process, q: Process)
    returns (run: seq<System>, steps: seq<Step>)
    requires cfg.maxRetries > 0 && s.lease == None
    requires IsFreshStart(s) && StoriesHaveIds(s.stored.value.stories)
    requires Started(p) && Started(q) && p.locked && !q.locked && q.jobs[0].mode == Always && |q.jobs| == 1
    requires q.jobs[0].command.UpdateClientName? && Apply(s.stored.value, q.jobs[0].command, s.now).error.None?
    ensures IsRun(cfg, run, steps) && run[0] == s && Kept(run)
    ensures var r := s.stored.value;
            var until := s.now + cfg.timeout;
            run[|steps|] == s.(lease := Some(Lease(p.token, until)),
                               procs := map[0 := p.(deadline := until, phase := Loaded(r)), 1 := q.(phase := Finished)],
                               stored := Some(Written(Apply(r, q.jobs[0].command, s.now).room, r.version + 1)),
                               log := [Commit(q.jobs[0], r, s.now)])
  {
    hide StoriesHaveIds, Apply, FindClient;
    run, steps := [s], [];
    run, steps := Grow(cfg, run, steps, Spawn(0, p));
    run, steps := Grow(cfg, run, steps, TryAcquire(0));
    run, steps := Grow(cfg, run, steps, Load(0));
    run, steps := Grow(cfg, run, steps, Spawn(1, q));
    run, steps := Grow(cfg, run, steps, Load(1));
    run, steps := Grow(cfg, run, steps, Mutate(1));
    run, steps := Grow(cfg, run, steps, Save(1, false));
  }

  /** A caller that guesses a version still to come gets past the guard, and the change in between is lost. */
  lemma GuessedVersionLosesRename(cfg: Config, s: System, i: nat, owner: string, x: string)
    returns (run: seq<System>, steps: seq<Step>)
    requires cfg.maxRetries > 0 && s.lease == None
    requires IsFreshStart(s) && StoriesHaveIds(s.stored.value.stories)
    requires i < |s.stored.value.clients| && Distinct(Ids(s.stored.value.clients))
    requires OwnerError(s.stored.value, owner).None?
    ensures IsRun(cfg, run, steps) && run[0] == s && Kept(run)
    ensures var last, r := run[|steps|], s.stored.value;
            && |last.log| == 2 && last.log[0].job.command == UpdateClientName(r.clients[i].id, x)
            && last.log[1].job == Job(ResetVoting(owner), IfVersion(Some(r.version + 1)))
            && |last.stored.value.clients| == |r.clients| && last.stored.value.clients[i].name == r.clients[i].name
    ensures |steps| > 0 && !IsCurrent(run[|steps| - 1], 0)
  {
    hide Distinct, Apply, StoriesHaveIds, OwnerError;
    var r := s.stored.value;
    RenameEffect(r, i, x, s.now);
    ResetEffect(r, owner, s.now);
    run, steps := RenameWhileResetting(cfg, s, Resetting(owner, r.version + 1), Rename(r.clients[i].id, x));
    run, steps := Grow(cfg, run, steps, Mutate(0));
    run, steps := Grow(cfg, run, steps, Save(0, false));
    GuardedCommitIsCurrentIffExpected(cfg, run, steps, |steps| - 1, 0, false);
  }

  function Locking(token: int, command: Command): Process {
    Process([Job(command, Always)], true, token, 0, Waiting(0))
  }

  lemma ThreeWait(cfg: Config, s: System, p: Process, q: Process, o: Process) returns (run: seq<System>,
      steps: seq<Step>)
    requires IsFreshStart(s) && Started(p) && Started(q) && Started(o)
    ensures IsRun(cfg, run, steps) && run[0] == s && Kept(run)
        && run[|steps|] == s.(procs := map[0 := p, 1 := q, 2 := o])
  {
    run, steps := [s], [];
    run, steps := Grow(cfg, run, steps, Spawn(0, p));
    run, steps := Grow(cfg, run, steps, Spawn(1, q));
    run, steps := Grow(cfg, run, steps, Spawn(2, o));
  }

  /** The first process outlives its lease, and the second takes over. */
  lemma Overstay(cfg: Config, s: System, p: Process, q: Process, o: Process) returns (run: seq<System>,
      steps: seq<Step>)
    requires cfg.timeout > 0 && cfg.maxRetries > 0
    requires IsFreshStart(s) && s.lease == None
    requires Started(p) && Started(q) && Started(o) && p.locked && q.locked
    ensures IsRun(cfg, run, steps) && run[0] == s && Kept(run)
    ensures var now := s.now + cfg.timeout;
            run[|steps|] == s.(now := now, lease := Some(Lease(q.token, now + cfg.timeout)),
                               procs := map[0 := p.(phase := Ready, deadline := now),
                                            1 := q.(phase := Ready, deadline := now + cfg.timeout), 2 := o])
  {
    run, steps := ThreeWait(cfg, s, p, q, o);
    run, steps := Grow(cfg, run, steps, TryAcquire(0));
    run, steps := Grow(cfg, run, steps, Tick(s.now + cfg.timeout));
    run, steps := Grow(cfg, run, steps, TryAcquire(1));
  }

  /** Two processes drawing the same token: the late release of the first takes the lease of the second. */
  lemma EqualTokensBreakTheLock(cfg: Config, s: System, token: int, command: Command)
    returns (run: seq<System>, steps: seq<Step>)
    requires cfg.timeout > 0 && cfg.maxRetries > 0
    requires IsFreshStart(s) && s.lease == None
    ensures IsRun(cfg, run, steps) && run[0] == s && Kept(run)
    ensures HoldsLease(run[|steps|], 1) && HoldsLease(run[|steps|], 2)
  {
    hide Apply, StoriesHaveIds, NextVersion;
    run, steps := Overstay(cfg, s, Locking(token, command), Locking(token, command), Locking(token + 1, command));
    run, steps := Grow(cfg, run, steps, GiveUp(0, false));
    run, steps := Grow(cfg, run, steps, Release(0));
    run, steps := Grow(cfg, run, steps, TryAcquire(2));
  }

  // ---- the invariant of the aggregate, whatever the interleaving ---------------------

  ghost predicate SoundPhase(phase: Phase) {
    && (phase.Loaded? ==> RoomInvariants.Inv(phase.room))
    && (phase.Mutated? ==> RoomInvariants.Inv(phase.room))
  }

  ghost predicate Sound(s: System) {
    && (s.stored.Some? ==> RoomInvariants.Inv(s.stored.value))
    && forall p :: p in s.procs ==> SoundPhase(s.procs[p].phase)
  }

  /** A change that creates a story draws an ID the loaded room does not have. */
  ghost predicate DrawsFreshIds(s: System, step: Step) {
    step.Mutate? && step.p in s.procs && s.procs[step.p].phase.Loaded? && s.procs[step.p].jobs != [] ==>
      RoomInvariants.FreshIds(s.procs[step.p].phase.room, s.procs[step.p].jobs[0].command)
  }

  lemma WrittenKeepsInv(room: RoomView, version: nat)
    requires RoomInvariants.Inv(room)
    ensures RoomInvariants.Inv(Written(room, version))
  {
    hide RoomInvariants.ClientsOk;
  }

  lemma NewRoomIsSound(id: string, deckType: string, startedAt: Time)
    ensures RoomInvariants.Inv(NewRoom(id, deckType, startedAt))
  {
  }

  lemma StepIsSound(cfg: Config, s: System, step: Step)
    requires Enabled(cfg, s, step) && DrawsFreshIds(s, step) && Sound(s)
    ensures Sound(Next(cfg, s, step))
  {
    hide Apply, StoriesHaveIds, NewRoom, FindClient, Free, RoomInvariants.Inv, RoomInvariants.FreshIds, Written;
    match step {
      case Create(p) => NewRoomIsSound(s.roomId, FIBONACCI.id, s.now);
      case CreateRoom(deckType) => NewRoomIsSound(s.roomId, deckType, s.now);
      case Mutate(p) => RoomInvariants.CommandsKeepInv(s.procs[p].phase.room, s.procs[p].jobs[0].command, s.now);
      case Save(p, _) =>
        var version := NextVersion(s.stored, s.procs[p].jobs[0].mode);
        if version.Some? { WrittenKeepsInv(s.procs[p].phase.room, version.value); }
      case _ =>
    }
  }

  /**
   Main result: in every interleaving, with expired leases, crashes, unlocked writers, deletions and
   re-creations, the stored room satisfies the invariant of the aggregate.
   */
  lemma {:induction false} StoredRoomStaysValid(cfg: Config, run: seq<System>, steps: seq<Step>, n: nat)
    requires IsRun(cfg, run, steps) && n < |run|
    requires run[0].stored.Some? ==> RoomInvariants.Inv(run[0].stored.value)
    requires forall i :: 0 <= i < |steps| ==> DrawsFreshIds(run[i], steps[i])
    ensures Sound(run[n])
  {
    hide RoomInvariants.Inv;
    if n > 0 {
      StoredRoomStaysValid(cfg, run, steps, n - 1);
      StepIsSound(cfg, run[n - 1], steps[n - 1]);
    }
  }

  /** So the store never holds a room that a load would refuse for a story without an ID. */
  lemma StoredRoomStaysReadable(cfg: Config, run: seq<System>, steps: seq<Step>, n: nat)
    requires IsRun(cfg, run, steps) && n < |run| && run[n].stored.Some?
    requires run[0].stored.Some? ==> RoomInvariants.Inv(run[0].stored.value)
    requires forall i :: 0 <= i < |steps| ==> DrawsFreshIds(run[i], steps[i])
    ensures StoriesHaveIds(run[n].stored.value.stories)
  {
    hide RoomInvariants.ClientsOk, Next, Enabled;
    StoredRoomStaysValid(cfg, run, steps, n);
  }
}
