/**
 Idempotent commands: a retry of a command whose first execution is under way is
 turned away, and a retry of a finished one gets the stored frame. One command
 key, any number of deliveries, the Redis claim as separate store calls and the
 in-memory claim as one step.
 */
module CommandLedger {
  import opened Wrappers

  type Time = int
  type Pid = nat
  type Frame = string

  const PENDING: string := "pending"

  datatype Config = Config(pendingTTL: nat, resultTTL: nat)

  datatype Held = Held(value: string, expires: Time)

  datatype Reply =
    | InProgress
    | Internal
    | Own(frame: Frame)
    | Replayed(frame: Frame)

  /** Where a delivery stands; `Second` claims follow a marker that expired between the first two calls. */
  datatype Phase =
    | Claiming
    | Reading
    | ClaimingSecond
    | ReadingSecond
    | Executing
    | Finishing(frame: Frame)
    | Answered(reply: Reply)
    | Crashed

  /**
   History: who started the use case and when, the first outcome stored, and the orphan: when the marker in the store
   was set, if the claim that set it never learned of it.
   */
  datatype Execution = Execution(p: Pid, at: Time)

  datatype Outcome = Outcome(frame: Frame, at: Time)

  datatype System = System(
    now: Time,
    held: Option<Held>,
    procs: map<Pid, Phase>,
    executions: seq<Execution>,
    outcome: Option<Outcome>,
    orphan: Option<Time>)

  datatype Step =
    | Tick(to: Time)
    | Deliver(p: Pid)
    | SetNX(p: Pid)
    | SetNXUnheard(p: Pid)
    | Get(p: Pid)
    | ClaimAtOnce(p: Pid)
    | StoreFails(p: Pid)
    | Run(p: Pid, frame: Frame)
    | Complete(p: Pid)
    | CompleteFails(p: Pid)
    | Crash(p: Pid)

  /** Frames are JSON objects. */
  predicate IsFrame(frame: Frame) {
    frame != "" && frame[0] == '{'
  }

  predicate Absent(held: Option<Held>, now: Time) {
    held.None? || held.value.expires <= now
  }

  predicate InPhase(s: System, p: Pid, phase: Phase) {
    p in s.procs && s.procs[p] == phase
  }

  predicate IsClaiming(s: System, p: Pid) {
    InPhase(s, p, Claiming) || InPhase(s, p, ClaimingSecond)
  }

  predicate IsReading(s: System, p: Pid) {
    InPhase(s, p, Reading) || InPhase(s, p, ReadingSecond)
  }

  predicate Enabled(s: System, step: Step) {
    match step
    case Tick(to) => s.now <= to
    case Deliver(p) => p !in s.procs
    case SetNX(p) => IsClaiming(s, p)
    case SetNXUnheard(p) => IsClaiming(s, p)
    case Get(p) => IsReading(s, p)
    case ClaimAtOnce(p) => InPhase(s, p, Claiming)
    case StoreFails(p) => IsClaiming(s, p) || IsReading(s, p)
    case Run(p, frame) => InPhase(s, p, Executing) && IsFrame(frame)
    case Complete(p) => p in s.procs && s.procs[p].Finishing?
    case CompleteFails(p) => p in s.procs && s.procs[p].Finishing?
    case Crash(p) => p in s.procs && !s.procs[p].Answered?
  }

  function To(s: System, p: Pid, phase: Phase): System {
    s.(procs := s.procs[p := phase])
  }

  function Marker(cfg: Config, at: Time): Held {
    Held(PENDING, at + cfg.pendingTTL)
  }

  /** The marker is set and the use case starts. */
  function Claimed(cfg: Config, s: System, p: Pid): System {
    To(s, p, Executing).(held := Some(Marker(cfg, s.now)), orphan := None,
                         executions := s.executions + [Execution(p, s.now)])
  }

  function Answering(s: System, p: Pid, value: string): System {
    To(s, p, Answered(if value == PENDING then InProgress else Replayed(value)))
  }

  /** A claim as one step: what it answers. */
  datatype Claim = Started | Busy | Found(frame: Frame)

  function ClaimOf(held: Option<Held>, now: Time): Claim {
    if Absent(held, now) then Started
    else if held.value.value == PENDING then Busy
    else Found(held.value.value)
  }

  function SettingNX(cfg: Config, s: System, p: Pid): System
    requires IsClaiming(s, p)
  {
    if Absent(s.held, s.now) then Claimed(cfg, s, p)
    else To(s, p, if s.procs[p].Claiming? then Reading else ReadingSecond)
  }

  /** The reply is lost: the delivery fails, whether or not it has just set the marker. */
  function SettingNXUnheard(cfg: Config, s: System, p: Pid): System
    requires IsClaiming(s, p)
  {
    var s' := To(s, p, Answered(Internal));
    if Absent(s.held, s.now) then s'.(held := Some(Marker(cfg, s.now)), orphan := Some(s.now)) else s'
  }

  /** A value that has gone is claimed once more, then reported as a failure. */
  function Getting(s: System, p: Pid): System
    requires IsReading(s, p)
  {
    if !Absent(s.held, s.now) then Answering(s, p, s.held.value.value)
    else To(s, p, if s.procs[p].Reading? then ClaimingSecond else Answered(Internal))
  }

  function Storing(cfg: Config, s: System, p: Pid): System
    requires p in s.procs && s.procs[p].Finishing?
  {
    var frame := s.procs[p].frame;
    To(s, p, Answered(Own(frame))).(
    held := Some(Held(frame, s.now + cfg.resultTTL)),
    orphan := None,
    outcome := if s.outcome.Some? then s.outcome else Some(Outcome(frame, s.now)))
  }

  function Next(cfg: Config, s: System, step: Step): System
    requires Enabled(s, step)
  {
    match step
    case Tick(to) => s.(now := to)
    case Deliver(p) => To(s, p, Claiming)
    case SetNX(p) => SettingNX(cfg, s, p)
    case SetNXUnheard(p) => SettingNXUnheard(cfg, s, p)
    case Get(p) => Getting(s, p)
    case ClaimAtOnce(p) =>
      (match ClaimOf(s.held, s.now)
       case Started => Claimed(cfg, s, p)
       case Busy => To(s, p, Answered(InProgress))
       case Found(frame) => To(s, p, Answered(Replayed(frame))))
    case StoreFails(p) => To(s, p, Answered(Internal))
    case Run(p, frame) => To(s, p, Finishing(frame))
    case Complete(p) => Storing(cfg, s, p)
    case CompleteFails(p) => To(s, p, Answered(Own(s.procs[p].frame)))
    case Crash(p) => To(s, p, Crashed)
  }

  predicate Initial(s: System) {
    s.held.None? && s.procs == map[] && s.executions == [] && s.outcome.None? && s.orphan.None?
  }

  ghost predicate IsRun(cfg: Config, run: seq<System>, steps: seq<Step>) {
    && |run| == |steps| + 1
    && Initial(run[0])
    && forall i :: 0 <= i < |steps| ==> Enabled(run[i], steps[i]) && run[i + 1] == Next(cfg, run[i], steps[i])
  }

  // ---- what the store holds while there is at most one execution ---------------------

  predicate IsExecution(phase: Phase) {
    phase.Executing? || phase.Finishing?
  }

  /** The first execution has crashed, or could not store its outcome. */
  predicate IsLost(phase: Phase) {
    phase.Crashed? || (phase.Answered? && phase.reply.Own?)
  }

  /** What the key must hold: an orphaned marker, else the outcome, else the marker of the execution. */
  function Expected(cfg: Config, s: System): Option<Held> {
    if s.orphan.Some? then Some(Marker(cfg, s.orphan.value))
    else if s.outcome.Some? then Some(Held(s.outcome.value.frame, s.outcome.value.at + cfg.resultTTL))
    else if s.executions != [] then Some(Marker(cfg, s.executions[0].at))
    else None
  }

  /** Where the execution stands. */
  predicate FirstOk(s: System)
    requires s.executions != []
  {
    var first := s.executions[0];
    && first.p in s.procs
    && if s.outcome.None? then IsExecution(s.procs[first.p]) || IsLost(s.procs[first.p])
       else s.procs[first.p] == Answered(Own(s.outcome.value.frame))
  }

  /** At most one execution, nobody else is in the use case, and the key holds what it must. */
  ghost predicate AtMostOne(cfg: Config, s: System) {
    && |s.executions| <= 1
    && s.held == Expected(cfg, s)
    && (s.outcome.Some? ==> s.executions != [] && IsFrame(s.outcome.value.frame))
    && (s.executions != [] ==> FirstOk(s))
    && (forall p :: p in s.procs && IsExecution(s.procs[p]) ==> s.executions != [] && p == s.executions[0].p)
    && (forall p :: p in s.procs && s.procs[p].Finishing? ==> IsFrame(s.procs[p].frame))
  }

  lemma StepKeepsAtMostOne(cfg: Config, s: System, step: Step)
    requires Enabled(s, step) && AtMostOne(cfg, s) && |Next(cfg, s, step).executions| <= 1
    ensures AtMostOne(cfg, Next(cfg, s, step))
  {
    hide AtMostOne, Next;
    if step.Run? || step.Complete? || step.CompleteFails? || step.Crash? {
      ExecutionKeepsAtMostOne(cfg, s, step);
    } else if step.SetNX? || step.SetNXUnheard? || step.ClaimAtOnce? {
      ClaimKeepsAtMostOne(cfg, s, step);
    } else {
      OtherStepKeepsAtMostOne(cfg, s, step);
    }
  }

  lemma ExecutionKeepsAtMostOne(cfg: Config, s: System, step: Step)
    requires Enabled(s, step) && AtMostOne(cfg, s)
    requires step.Run? || step.Complete? || step.CompleteFails? || step.Crash?
    ensures AtMostOne(cfg, Next(cfg, s, step))
  {
  }

  lemma ClaimKeepsAtMostOne(cfg: Config, s: System, step: Step)
    requires Enabled(s, step) && AtMostOne(cfg, s) && |Next(cfg, s, step).executions| <= 1
    requires step.SetNX? || step.SetNXUnheard? || step.ClaimAtOnce?
    ensures AtMostOne(cfg, Next(cfg, s, step))
  {
  }

  lemma OtherStepKeepsAtMostOne(cfg: Config, s: System, step: Step)
    requires Enabled(s, step) && AtMostOne(cfg, s)
    requires step.Tick? || step.Deliver? || step.Get? || step.StoreFails?
    ensures AtMostOne(cfg, Next(cfg, s, step))
  {
  }

  lemma StepKeepsExecutions(cfg: Config, s: System, step: Step)
    requires Enabled(s, step)
    ensures s.executions <= Next(cfg, s, step).executions && s.now <= Next(cfg, s, step).now
  {
  }

  lemma {:induction false} ExecutionsStay(cfg: Config, run: seq<System>, steps: seq<Step>, k: nat, n: nat)
    requires IsRun(cfg, run, steps) && k <= n < |run|
    ensures run[k].executions <= run[n].executions && run[k].now <= run[n].now
  {
    hide Next, Enabled;
    if k < n {
      ExecutionsStay(cfg, run, steps, k, n - 1);
      StepKeepsExecutions(cfg, run[n - 1], steps[n - 1]);
    }
  }

  /** In any run, whatever fails or is late, this holds until a second execution starts. */
  lemma {:induction false} OneExecutionRuns(cfg: Config, run: seq<System>, steps: seq<Step>, n: nat)
    requires IsRun(cfg, run, steps) && n < |run| && |run[n].executions| <= 1
    ensures AtMostOne(cfg, run[n])
  {
    hide Next, Enabled, AtMostOne;
    if n > 0 {
      StepKeepsExecutions(cfg, run[n - 1], steps[n - 1]);
      OneExecutionRuns(cfg, run, steps, n - 1);
      StepKeepsAtMostOne(cfg, run[n - 1], steps[n - 1]);
    } else {
      StartIsAtMostOne(cfg, run[0]);
    }
  }

  lemma StartIsAtMostOne(cfg: Config, s: System)
    requires Initial(s)
    ensures AtMostOne(cfg, s)
  {
  }

  // ---- exactly when a claim runs the use case --------------------------------------------

  /** The marker of the first execution, or the outcome it stored, has not expired. */
  predicate Timely(cfg: Config, s: System) {
    s.executions != [] ==>
      if s.outcome.None? then s.now < s.executions[0].at + cfg.pendingTTL
      else s.now < s.outcome.value.at + cfg.resultTTL
  }

  /** A marker that nobody knows of has not expired. */
  predicate Reserved(cfg: Config, s: System) {
    s.orphan.Some? && s.now < s.orphan.value + cfg.pendingTTL
  }

  predicate IsClaim(step: Step, p: Pid) {
    step == SetNX(p) || step == ClaimAtOnce(p)
  }

  /** An orphaned marker was set only once everything before it had expired. */
  lemma {:induction false} OrphansComeLate(cfg: Config, run: seq<System>, steps: seq<Step>, n: nat)
    requires IsRun(cfg, run, steps) && n < |run| && |run[n].executions| == 1 && run[n].orphan.Some?
    ensures !Timely(cfg, run[n])
  {
    var s := run[n - 1];
    StepKeepsExecutions(cfg, s, steps[n - 1]);
    OneExecutionRuns(cfg, run, steps, n - 1);
    if s.orphan.Some? && s.executions != [] {
      OrphansComeLate(cfg, run, steps, n - 1);
    }
  }

  /** A first claim runs the use case exactly when no orphaned marker is in force. */
  lemma FirstClaimRunsIffUnreserved(cfg: Config, run: seq<System>, steps: seq<Step>, n: nat, p: Pid)
    requires IsRun(cfg, run, steps) && n < |steps| && run[n].executions == [] && IsClaim(steps[n], p)
    ensures |run[n + 1].executions| == 1 <==> !Reserved(cfg, run[n])
  {
    OneExecutionRuns(cfg, run, steps, n);
    assert Enabled(run[n], steps[n]) && run[n + 1] == Next(cfg, run[n], steps[n]);
  }

  /**
   Main result, the exact condition in every run: after the first execution has started, a claim that reaches the store
   runs the use case a second time if and only if the marker, or the outcome that replaced it, has expired by then and
   no claim that went unheard has left another marker in force.
   */
  lemma ClaimRunsAgainIffExpired(cfg: Config, run: seq<System>, steps: seq<Step>, n: nat, p: Pid)
    requires IsRun(cfg, run, steps) && n < |steps| && |run[n].executions| == 1 && IsClaim(steps[n], p)
    ensures |run[n + 1].executions| == 2 <==> !Timely(cfg, run[n]) && !Reserved(cfg, run[n])
  {
    OneExecutionRuns(cfg, run, steps, n);
    assert Enabled(run[n], steps[n]) && run[n + 1] == Next(cfg, run[n], steps[n]);
    if run[n].orphan.Some? {
      OrphansComeLate(cfg, run, steps, n);
    }
  }

  lemma {:induction false} HeardClaimsLeaveNoOrphan(cfg: Config, run: seq<System>, steps: seq<Step>, n: nat)
    requires IsRun(cfg, run, steps) && n < |run|
    requires forall i :: 0 <= i < n ==> !steps[i].SetNXUnheard?
    ensures run[n].orphan.None?
  {
    if n > 0 {
      HeardClaimsLeaveNoOrphan(cfg, run, steps, n - 1);
      assert Enabled(run[n - 1], steps[n - 1]);
    }
  }

  /** So if every claim hears its reply, expiry alone decides. */
  lemma HeardClaimRunsAgainIffLate(cfg: Config, run: seq<System>, steps: seq<Step>, n: nat, p: Pid)
    requires IsRun(cfg, run, steps) && n < |steps| && |run[n].executions| == 1 && IsClaim(steps[n], p)
    requires forall i :: 0 <= i < n ==> !steps[i].SetNXUnheard?
    ensures |run[n + 1].executions| == 2 <==> !Timely(cfg, run[n])
  {
    HeardClaimsLeaveNoOrphan(cfg, run, steps, n);
    ClaimRunsAgainIffExpired(cfg, run, steps, n, p);
  }

  /** A claim that is not to run the use case is answered from what is in force, even by a late retry. */
  lemma RetryIsAnswered(cfg: Config, run: seq<System>, steps: seq<Step>, n: nat)
    requires IsRun(cfg, run, steps) && n < |steps| && |run[n].executions| <= 1
    requires steps[n].Get? || steps[n].ClaimAtOnce?
    requires Reserved(cfg, run[n]) || (run[n].executions != [] && Timely(cfg, run[n]))
    ensures run[n + 1].procs[steps[n].p]
         == Answered(if Reserved(cfg, run[n]) || run[n].outcome.None? then InProgress
                     else Replayed(run[n].outcome.value.frame))
  {
    OneExecutionRuns(cfg, run, steps, n);
    assert Enabled(run[n], steps[n]) && run[n + 1] == Next(cfg, run[n], steps[n]);
    if run[n].executions != [] && run[n].orphan.Some? {
      OrphansComeLate(cfg, run, steps, n);
    }
  }

  // ---- one execution, as long as it is timely --------------------------------------------

  /** What everyone but the first may be doing: claiming, or answered without running the use case. */
  predicate OnlyRetries(phase: Phase, outcome: Option<Outcome>) {
    && !IsExecution(phase)
    && (phase.Answered? ==>
          match phase.reply
          case Own(_) => false
          case Replayed(frame) => outcome.Some? && frame == outcome.value.frame
          case _ => true)
  }

  ghost predicate Once(cfg: Config, s: System) {
    && AtMostOne(cfg, s)
    && (s.executions != [] ==> s.orphan.None?)
    && forall p :: p in s.procs && (s.executions == [] || p != s.executions[0].p) ==>
         OnlyRetries(s.procs[p], s.outcome)
  }

  lemma StepKeepsOnce(cfg: Config, s: System, step: Step)
    requires Enabled(s, step) && Once(cfg, s) && Timely(cfg, s)
    ensures Once(cfg, Next(cfg, s, step))
  {
    StepKeepsAtMostOne(cfg, s, step);
    hide AtMostOne;
  }

  /**
   Main result: while the marker and then the stored outcome of the first execution are held, the use case runs once,
   and every other delivery is turned away or gets that outcome. That holds even if the execution crashes or cannot
   store its outcome.
   */
  lemma {:induction false} ExecutedOnce(cfg: Config, run: seq<System>, steps: seq<Step>, n: nat)
    requires IsRun(cfg, run, steps) && n < |run|
    requires forall i :: 0 <= i < n ==> Timely(cfg, run[i])
    ensures Once(cfg, run[n])
  {
    hide Next, Once, AtMostOne;
    if n > 0 {
      ExecutedOnce(cfg, run, steps, n - 1);
      StepKeepsOnce(cfg, run[n - 1], steps[n - 1]);
    } else {
      StartIsOnce(cfg, run[0]);
    }
  }

  lemma StartIsOnce(cfg: Config, s: System)
    requires Initial(s)
    ensures Once(cfg, s)
  {
  }

  // ---- what a lost outcome costs ---------------------------------------------------------

  /** The first execution has ended without an outcome in the store. */
  predicate Lost(s: System) {
    && s.executions != [] && s.outcome.None?
    && s.executions[0].p in s.procs && IsLost(s.procs[s.executions[0].p])
  }

  predicate EndsInLoss(step: Step, p: Pid) {
    step == Crash(p) || step == CompleteFails(p)
  }

  lemma StepLoses(cfg: Config, s: System, step: Step)
    requires Enabled(s, step) && AtMostOne(cfg, s) && |Next(cfg, s, step).executions| == 1
    ensures Lost(Next(cfg, s, step)) <==> Lost(s) || EndsInLoss(step, Next(cfg, s, step).executions[0].p)
  {
  }

  /** Over whole runs: the only execution is lost exactly if it has crashed or failed to store its outcome. */
  lemma {:induction false} LossesAreCrashesAndFailures(cfg: Config, run: seq<System>, steps: seq<Step>, n: nat)
    requires IsRun(cfg, run, steps) && n < |run| && |run[n].executions| == 1
    ensures Lost(run[n]) <==> exists i :: 0 <= i < n && EndsInLoss(steps[i], run[n].executions[0].p)
  {
    hide Next, Enabled, AtMostOne, Lost;
    var p := run[n].executions[0].p;
    StepKeepsExecutions(cfg, run[n - 1], steps[n - 1]);
    OneExecutionRuns(cfg, run, steps, n - 1);
    StepLoses(cfg, run[n - 1], steps[n - 1]);
    if run[n - 1].executions != [] {
      LossesAreCrashesAndFailures(cfg, run, steps, n - 1);
    } else {
      LostStarted(run[n - 1]);
      forall i | 0 <= i < n - 1
        ensures !EndsInLoss(steps[i], p)
      {
        StarterHasNotEnded(cfg, run, steps, i, n - 1, p);
      }
    }
  }

  lemma {:induction false} EndedStays(cfg: Config, run: seq<System>, steps: seq<Step>, i: nat, n: nat, p: Pid)
    requires IsRun(cfg, run, steps) && i < n < |run| && EndsInLoss(steps[i], p)
    ensures p in run[n].procs && IsLost(run[n].procs[p])
  {
    if i < n - 1 {
      EndedStays(cfg, run, steps, i, n - 1, p);
    }
    assert Enabled(run[n - 1], steps[n - 1]);
  }

  /** Whoever starts the first execution at a step has not ended before it. */
  lemma StarterHasNotEnded(cfg: Config, run: seq<System>, steps: seq<Step>, i: nat, n: nat, p: Pid)
    requires IsRun(cfg, run, steps) && i < n < |steps|
    requires run[n].executions == [] && run[n + 1].executions != [] && p == run[n + 1].executions[0].p
    ensures !EndsInLoss(steps[i], p)
  {
    assert Enabled(run[n], steps[n]);
    if EndsInLoss(steps[i], p) {
      EndedStays(cfg, run, steps, i, n, p);
    }
  }

  /** Nobody else stores an outcome for it: until a second execution starts the command stays without one. */
  lemma {:induction false} LostStaysLost(cfg: Config, run: seq<System>, steps: seq<Step>, k: nat, n: nat)
    requires IsRun(cfg, run, steps) && k <= n < |run| && Lost(run[k]) && |run[n].executions| == 1
    ensures Lost(run[n]) && run[n].executions == run[k].executions
  {
    hide Next, Enabled, AtMostOne, Lost;
    ExecutionsStay(cfg, run, steps, k, n);
    if k < n {
      ExecutionsStay(cfg, run, steps, k, n - 1);
      StepKeepsExecutions(cfg, run[n - 1], steps[n - 1]);
      LostStarted(run[k]);
      LostStaysLost(cfg, run, steps, k, n - 1);
      OneExecutionRuns(cfg, run, steps, n - 1);
      StepLoses(cfg, run[n - 1], steps[n - 1]);
    }
  }

  lemma LostStarted(s: System)
    ensures Lost(s) ==> s.executions != []
  {
  }

  /**
   So a lost execution is repeated by the first claim to reach the store after its marker, or after a later one that
   went unheard, and by no earlier one.
   */
  lemma LostIsRunAgain(cfg: Config, run: seq<System>, steps: seq<Step>, k: nat, n: nat, p: Pid)
    requires IsRun(cfg, run, steps) && k <= n < |steps| && Lost(run[k]) && |run[n].executions| == 1
    requires IsClaim(steps[n], p)
    ensures |run[n + 1].executions| == 2
       <==> run[k].executions[0].at + cfg.pendingTTL <= run[n].now && !Reserved(cfg, run[n])
  {
    LostStaysLost(cfg, run, steps, k, n);
    ClaimRunsAgainIffExpired(cfg, run, steps, n, p);
  }

  // ---- without any assumption on the execution ----------------------------------------

  ghost predicate Spaced(cfg: Config, executions: seq<Execution>) {
    forall i, j :: 0 <= i < j < |executions| ==> executions[i].at + cfg.pendingTTL <= executions[j].at
  }

  /** The key outlives the marker of the latest execution. */
  ghost predicate KeptLong(cfg: Config, s: System) {
    && Spaced(cfg, s.executions)
    && (s.executions != [] ==>
          var last := s.executions[|s.executions| - 1];
          last.at <= s.now && s.held.Some? && last.at + cfg.pendingTTL <= s.held.value.expires)
  }

  ghost predicate NobodyRunsUncounted(s: System) {
    s.executions == [] ==> forall p :: p in s.procs ==> !IsExecution(s.procs[p])
  }

  lemma StepKeepsSpacing(cfg: Config, s: System, step: Step)
    requires cfg.pendingTTL <= cfg.resultTTL
    requires Enabled(s, step) && KeptLong(cfg, s) && NobodyRunsUncounted(s)
    ensures KeptLong(cfg, Next(cfg, s, step)) && NobodyRunsUncounted(Next(cfg, s, step))
  {
    var s' := Next(cfg, s, step);
    if s'.executions != s.executions {
      forall i, j | 0 <= i < j < |s'.executions|
        ensures s'.executions[i].at + cfg.pendingTTL <= s'.executions[j].at
      {
        if j == |s.executions| && i < |s.executions| - 1 {
          assert s.executions[i].at + cfg.pendingTTL <= s.executions[|s.executions| - 1].at;
        }
      }
    }
  }

  /** Whatever happens to the executions, two of them start at least one marker lifetime apart. */
  lemma {:induction false} ExecutionsAreSpaced(cfg: Config, run: seq<System>, steps: seq<Step>, n: nat)
    requires cfg.pendingTTL <= cfg.resultTTL && IsRun(cfg, run, steps) && n < |run|
    ensures KeptLong(cfg, run[n]) && NobodyRunsUncounted(run[n])
  {
    hide Next, Enabled;
    if n > 0 {
      ExecutionsAreSpaced(cfg, run, steps, n - 1);
      StepKeepsSpacing(cfg, run[n - 1], steps[n - 1]);
    }
  }

  /** The outcome stored before has been held for its lifetime, or still is. */
  predicate HeldSince(cfg: Config, s: System, at: Time) {
    at + cfg.resultTTL <= s.now || (s.held.Some? && at + cfg.resultTTL <= s.held.value.expires)
  }

  lemma StepHoldsSince(cfg: Config, s: System, step: Step, at: Time)
    requires Enabled(s, step) && at <= s.now
    requires HeldSince(cfg, s, at) || step.Complete?
    ensures HeldSince(cfg, Next(cfg, s, step), at)
    ensures HeldSince(cfg, s, at) && Next(cfg, s, step).executions != s.executions ==> at + cfg.resultTTL <= s.now
  {
  }

  lemma {:induction false} OutcomeIsHeldSince(cfg: Config, run: seq<System>, steps: seq<Step>, i: nat, n: nat)
    requires IsRun(cfg, run, steps) && i < n < |run| && steps[i].Complete?
    ensures HeldSince(cfg, run[n], run[i].now)
  {
    hide Next, Enabled, HeldSince;
    if i < n - 1 {
      OutcomeIsHeldSince(cfg, run, steps, i, n - 1);
    }
    ExecutionsStay(cfg, run, steps, i, n - 1);
    StepHoldsSince(cfg, run[n - 1], steps[n - 1], run[i].now);
  }

  /** Once any execution has stored its outcome, none starts before that outcome has been held for its lifetime. */
  lemma OutcomesAreKept(cfg: Config, run: seq<System>, steps: seq<Step>, i: nat, n: nat)
    requires IsRun(cfg, run, steps) && i < n < |steps| && steps[i].Complete?
    requires run[n + 1].executions != run[n].executions
    ensures run[i].now + cfg.resultTTL <= run[n].now
  {
    hide Next, Enabled, HeldSince;
    OutcomeIsHeldSince(cfg, run, steps, i, n);
    ExecutionsStay(cfg, run, steps, i, n);
    StepHoldsSince(cfg, run[n], steps[n], run[i].now);
  }

  lemma Grow(cfg: Config, run: seq<System>, steps: seq<Step>, step: Step) returns (run': seq<System>, steps': seq<Step>)
    requires IsRun(cfg, run, steps) && Enabled(run[|steps|], step)
    ensures steps' == steps + [step] && run' == run + [Next(cfg, run[|steps|], step)]
    ensures IsRun(cfg, run', steps')
  {
    hide Next, Enabled;
    run', steps' := run + [Next(cfg, run[|steps|], step)], steps + [step];
  }

  /** How an execution can come to nothing: it is still running, it crashes, or its outcome is not stored. */
  ghost predicate ComesToNothing(ending: seq<Step>) {
    || ending == [] || ending == [Crash(0)]
    || exists frame :: IsFrame(frame) && ending == [Run(0, frame), CompleteFails(0)]
  }

  /** A first delivery that claims the command and comes to nothing. */
  lemma ClaimForNothing(cfg: Config, ending: seq<Step>) returns (run: seq<System>, steps: seq<Step>)
    requires ComesToNothing(ending)
    ensures IsRun(cfg, run, steps) && steps == [Deliver(0), SetNX(0)] + ending
    ensures var s := run[|steps|];
            && s.procs.Keys == {0} && (if ending == [] then InPhase(s, 0, Executing) else Lost(s))
            && s == System(0, Some(Marker(cfg, 0)), s.procs, [Execution(0, 0)], None, None)
  {
    run, steps := [System(0, None, map[], [], None, None)], [];
    run, steps := Grow(cfg, run, steps, Deliver(0));
    run, steps := Grow(cfg, run, steps, SetNX(0));
    if ending == [Crash(0)] {
      run, steps := Grow(cfg, run, steps, Crash(0));
    } else if ending != [] {
      var frame :| IsFrame(frame) && ending == [Run(0, frame), CompleteFails(0)];
      run, steps := Grow(cfg, run, steps, Run(0, frame));
      run, steps := Grow(cfg, run, steps, CompleteFails(0));
    }
  }

  /** An execution that outlives its marker, crashes or cannot store its outcome is run again by a later delivery. */
  lemma LateOrLostRunsTwice(cfg: Config, ending: seq<Step>) returns (run: seq<System>, steps: seq<Step>)
    requires ComesToNothing(ending)
    ensures IsRun(cfg, run, steps)
    ensures steps == [Deliver(0), SetNX(0)] + ending + [Tick(cfg.pendingTTL), Deliver(1), SetNX(1)]
    ensures var s := run[|steps|];
            && |s.executions| == 2 && s.now == cfg.pendingTTL && s.outcome == None
            && (ending == [] ==> InPhase(s, 0, Executing))
  {
    hide ComesToNothing, Lost, IsFrame;
    run, steps := ClaimForNothing(cfg, ending);
    run, steps := Grow(cfg, run, steps, Tick(cfg.pendingTTL));
    run, steps := Grow(cfg, run, steps, Deliver(1));
    var n := |steps|;
    run, steps := Grow(cfg, run, steps, SetNX(1));
    ClaimRunsAgainIffExpired(cfg, run, steps, n, 1);
  }

  /** A late execution stores its outcome after all, although the second one is under way. */
  lemma LateExecutionRunsTwice(cfg: Config, frame: Frame) returns (run: seq<System>, steps: seq<Step>)
    requires IsFrame(frame)
    ensures IsRun(cfg, run, steps)
    ensures |run[|steps|].executions| == 2 && run[|steps|].outcome == Some(Outcome(frame, cfg.pendingTTL))
  {
    run, steps := LateOrLostRunsTwice(cfg, []);
    run, steps := Grow(cfg, run, steps, Run(0, frame));
    run, steps := Grow(cfg, run, steps, Complete(0));
  }

  /**
   A claim that sets the marker and never learns of it: nothing has run, the next delivery is turned away, and one that
   finds the marker expired between its two calls runs the use case by its second claim.
   */
  lemma UnheardClaimRefusesRetries(cfg: Config) returns (run: seq<System>, steps: seq<Step>)
    requires cfg.pendingTTL > 0
    ensures IsRun(cfg, run, steps) && |steps| == 10
    ensures run[5].procs == map[0 := Answered(Internal), 1 := Answered(InProgress)] && run[5].executions == []
    ensures InPhase(run[9], 2, ClaimingSecond) && run[10].executions == [Execution(2, cfg.pendingTTL)]
  {
    run, steps := [System(0, None, map[], [], None, None)], [];
    run, steps := Grow(cfg, run, steps, Deliver(0));
    run, steps := Grow(cfg, run, steps, SetNXUnheard(0));
    run, steps := Grow(cfg, run, steps, Deliver(1));
    run, steps := Grow(cfg, run, steps, SetNX(1));
    run, steps := Grow(cfg, run, steps, Get(1));
    run, steps := FindExpired(cfg, run, steps, 2);
    run, steps := Grow(cfg, run, steps, SetNX(2));
  }

  /** A new delivery whose marker expires between its two calls. */
  lemma FindExpired(cfg: Config, run: seq<System>, steps: seq<Step>, p: Pid)
    returns (run': seq<System>, steps': seq<Step>)
    requires IsRun(cfg, run, steps) && p !in run[|steps|].procs && run[|steps|].now < cfg.pendingTTL
    requires run[|steps|].held == Some(Held(PENDING, cfg.pendingTTL))
    ensures IsRun(cfg, run', steps') && |steps'| == |steps| + 4 && run <= run'
    ensures run'[|steps'|]
         == To(run[|steps|], p, ClaimingSecond).(now := cfg.pendingTTL)
  {
    run', steps' := Grow(cfg, run, steps, Deliver(p));
    run', steps' := Grow(cfg, run', steps', SetNX(p));
    run', steps' := Grow(cfg, run', steps', Tick(cfg.pendingTTL));
    run', steps' := Grow(cfg, run', steps', Get(p));
  }

  // ---- keys ------------------------------------------------------------------------------

  function EntryKey(room: string, client: string, command: string): string {
    room + ":" + client + ":" + command
  }

  lemma SplitAt(a: string, b: string, a': string, b': string)
    requires a + b == a' + b' && |a| == |a'|
    ensures a == a' && b == b'
  {
    assert (a + b)[..|a|] == a && (a' + b')[..|a'|] == a';
    assert (a + b)[|a|..] == b && (a' + b')[|a'|..] == b';
  }

  /** One room ID continues the other after a colon. */
  predicate Extends(room: string, room': string) {
    room + ":" <= room' || room' + ":" <= room
  }

  /** Canonical UUIDs all have the same length, so equal keys agree on the command and on what comes before it. */
  lemma EqualKeys(room: string, client: string, command: string, room': string, client': string, command': string)
    requires |command| == |command'|
    ensures EntryKey(room, client, command) == EntryKey(room', client', command')
       <==> command == command' && room + ":" + client == room' + ":" + client'
  {
    var a, b := room + ":" + client + ":", room' + ":" + client' + ":";
    assert EntryKey(room, client, command) == a + command && EntryKey(room', client', command') == b + command';
    hide EntryKey;
    if a + command == b + command' {
      SplitAt(a, command, b, command');
      SplitAt(room + ":" + client, ":", room' + ":" + client', ":");
    }
  }

  /** Equal keys of rooms neither of which extends the other come from the same room, client and command. */
  lemma KeysAreDistinct(room: string, client: string, command: string, room': string, client': string, command': string)
    requires !Extends(room, room') && |command| == |command'|
    requires EntryKey(room, client, command) == EntryKey(room', client', command')
    ensures room == room' && client == client' && command == command'
  {
    EqualKeys(room, client, command, room', client', command');
    hide EntryKey;
    assert room + ":" + client == room + (":" + client) && room' + ":" + client' == room' + (":" + client');
    if |room| < |room'| {
      PrefixOf(room + ":", client, room', ":" + client');
    } else if |room'| < |room| {
      PrefixOf(room' + ":", client', room, ":" + client);
    } else {
      SplitAt(room + ":", client, room' + ":", client');
      SplitAt(room, ":", room', ":");
    }
  }

  lemma PrefixOf(a: string, b: string, c: string, d: string)
    requires a + b == c + d && |a| <= |c|
    ensures a <= c
  {
    assert (a + b)[..|a|] == a && (c + d)[..|a|] == c[..|a|];
  }

  /**
   Main result: deliveries in two different rooms can share a key exactly when one room ID is the other followed by a
   colon and more.
   */
  lemma RoomsShareKeysIffExtended(room: string, room': string, command: string)
    requires room != room'
    ensures (exists client, client' :: EntryKey(room, client, command) == EntryKey(room', client', command))
       <==> Extends(room, room')
  {
    if room + ":" <= room' {
      ColonsCollide(room, room'[|room| + 1..], "", command);
      assert room' == room + ":" + room'[|room| + 1..];
    } else if room' + ":" <= room {
      ColonsCollide(room', room[|room'| + 1..], "", command);
      assert room == room' + ":" + room[|room'| + 1..];
    } else {
      forall client, client' | EntryKey(room, client, command) == EntryKey(room', client', command)
        ensures false
      {
        KeysAreDistinct(room, client, command, room', client', command);
      }
    }
  }

  /** The client of the extended room and the client of the other one that share a key. */
  lemma ColonsCollide(room: string, tail: string, client: string, command: string)
    ensures EntryKey(room + ":" + tail, client, command) == EntryKey(room, tail + ":" + client, command)
  {
  }

  // ---- the in-memory ledger ------------------------------------------------------------------

  datatype Entry = Entry(pending: bool, payload: Frame, expires: Time)

  class InMemoryLedger {
    const cfg: Config
    var entries: map<string, Entry>

    constructor (cfg: Config)
      ensures this.cfg == cfg && entries == map[]
    {
      this.cfg, entries := cfg, map[];
    }

    /** What the store would hold under a key: the marker for a pending entry, else the frame. */
    function Value(key: string): Option<Held>
      reads this
    {
      if key !in entries then None
      else Some(Held(if entries[key].pending then PENDING else entries[key].payload, entries[key].expires))
    }

    ghost predicate Valid()
      reads this
    {
      forall key :: key in entries && !entries[key].pending ==> IsFrame(entries[key].payload)
    }

    /** One step of the machine: `ClaimAtOnce`. */
    method ClaimCommand(room: string, client: string, command: string, now: Time) returns (c: Claim)
      requires Valid()
      modifies this
      ensures Valid()
      ensures var key := EntryKey(room, client, command);
              && (forall other :: other != key ==> Value(other) == old(Value(other)))
              && Value(key) == (if c.Started? then Some(Held(PENDING, now + cfg.pendingTTL)) else old(Value(key)))
              && c == ClaimOf(old(Value(key)), now)
    {
      var key := EntryKey(room, client, command);
      var live := key in entries;
      if live && now >= entries[key].expires {
        entries := entries - {key};
        live := false;
      }
      if live {
        if entries[key].pending {
          return Busy;
        }
        return Found(entries[key].payload);
      }
      entries := entries[key := Entry(true, "", now + cfg.pendingTTL)];
      c := Started;
    }

    /** One step of the machine: `Complete`. */
    method CompleteCommand(room: string, client: string, command: string, frame: Frame, now: Time)
      requires Valid() && IsFrame(frame)
      modifies this
      ensures Valid()
      ensures var key := EntryKey(room, client, command);
              && (forall other :: other != key ==> Value(other) == old(Value(other)))
              && Value(key) == Some(Held(frame, now + cfg.resultTTL))
    {
      entries := entries[EntryKey(room, client, command) := Entry(false, frame, now + cfg.resultTTL)];
    }
  }
}
