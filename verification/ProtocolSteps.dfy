/**
 What single steps do to the shared state, told in terms of the state before and after: the lock, the stored room and
 the process that takes the step; and the same for the calls on a command's key.
 */
module ProtocolSteps {
  import opened Wrappers
  import opened RoomModel
  import opened RoomProtocol
  import CommandLedger

  /** Only this process, the lock, the stored room and the history may have changed. */
  ghost predicate OnlyProcess(s: System, s': System, p: Pid) {
    && s'.now == s.now && s'.roomId == s.roomId
    && p in s'.procs && s'.procs.Keys == s.procs.Keys + {p}
    && forall q :: q in s.procs && q != p ==> s'.procs[q] == s.procs[q]
  }

  /** The process has moved to this phase and is otherwise the same. */
  predicate Moves(process: Process, process': Process, phase: Phase) {
    process' == process.(phase := phase)
  }

  /** The lock can be taken: there is none, or its lease is over. */
  predicate IsTaken(s: System) {
    match s.lease
    case None => false
    case Some(lease) => s.now < lease.expires
  }

  /** A free lock is taken for one timeout; a taken one costs an attempt, and the last attempt ends the process. */
  lemma TryAcquireEffect(cfg: Config, s: System, p: Pid)
    requires Enabled(cfg, s, TryAcquire(p))
    ensures var s' := Next(cfg, s, TryAcquire(p));
            var process := s.procs[p];
            && OnlyProcess(s, s', p) && s'.stored == s.stored && s'.log == s.log
            && (IsTaken(s) ==>
                  && s'.lease == s.lease
                  && Moves(process, s'.procs[p],
                           if process.phase.attempts + 1 < cfg.maxRetries then Waiting(process.phase.attempts + 1)
                           else Finished))
            && (!IsTaken(s) ==>
                  && s'.lease == Some(Lease(process.token, s.now + cfg.timeout))
                  && s'.procs[p] == process.(phase := Ready, deadline := s.now + cfg.timeout))
  {
  }

  /** So a process gives up exactly at its last attempt, and asks again before that. */
  lemma TriesAgainWhileAttemptsRemain(cfg: Config, s: System, p: Pid)
    requires Enabled(cfg, s, TryAcquire(p)) && IsTaken(s)
    ensures var s' := Next(cfg, s, TryAcquire(p));
            Enabled(cfg, s', TryAcquire(p)) <==> s.procs[p].phase.attempts + 1 < cfg.maxRetries
  {
    TryAcquireEffect(cfg, s, p);
  }

  /** A reply that is lost leaves the lock taken and the process gone. */
  lemma AcquireUnheardEffect(cfg: Config, s: System, p: Pid)
    requires Enabled(cfg, s, AcquireUnheard(p))
    ensures var s' := Next(cfg, s, AcquireUnheard(p));
            && !IsTaken(s) && OnlyProcess(s, s', p) && s'.stored == s.stored && s'.log == s.log
            && s'.lease == Some(Lease(s.procs[p].token, s.now + cfg.timeout))
            && Moves(s.procs[p], s'.procs[p], Finished)
  {
  }

  /** A release deletes the lock exactly if it is taken under the process's own token. */
  lemma ReleaseEffect(cfg: Config, s: System, p: Pid)
    requires Enabled(cfg, s, Release(p))
    ensures var s' := Next(cfg, s, Release(p));
            && OnlyProcess(s, s', p) && s'.stored == s.stored && s'.log == s.log
            && Moves(s.procs[p], s'.procs[p], Finished)
            && s'.lease == if IsTaken(s) && s.lease.value.token == s.procs[p].token then None else s.lease
  {
  }

  /** Where the process goes after its work: a locked one has to release. */
  function Afterwards(process: Process): Phase {
    if process.locked then Releasing else Finished
  }

  /** A room is loaded as it is stored, unless a story has no ID; a missing one is created by a join only. */
  lemma LoadEffect(cfg: Config, s: System, p: Pid)
    requires Enabled(cfg, s, Load(p))
    ensures var s', process := Next(cfg, s, Load(p)), s.procs[p];
            && OnlyProcess(s, s', p) && s'.lease == s.lease && s'.stored == s.stored && s'.log == s.log
            && (s.stored.None? ==>
                  Moves(process, s'.procs[p],
                        if process.jobs[0].command.Join? then Missing else Afterwards(process)))
            && (s.stored.Some? && (forall story :: story in s.stored.value.stories ==> story.id != "") ==>
                  Moves(process, s'.procs[p], Loaded(s.stored.value)))
            && (s.stored.Some? && !(forall story :: story in s.stored.value.stories ==> story.id != "") ==>
                  Moves(process, s'.procs[p], Afterwards(process)))
  {
  }

  lemma CreateEffect(cfg: Config, s: System, p: Pid)
    requires Enabled(cfg, s, Create(p))
    ensures var s', r := Next(cfg, s, Create(p)), NewRoom(s.roomId, "fibonacci", s.now);
            && OnlyProcess(s, s', p) && s'.lease == s.lease && s'.log == s.log
            && s'.stored == Some(r) && Moves(s.procs[p], s'.procs[p], Loaded(r))
  {
  }

  /** A refused command and a reconnection save nothing; any other changes the loaded room in memory only. */
  lemma MutateEffect(cfg: Config, s: System, p: Pid)
    requires Enabled(cfg, s, Mutate(p))
    ensures var s', process := Next(cfg, s, Mutate(p)), s.procs[p];
            var command, base := process.jobs[0].command, process.phase.room;
            var out := Apply(base, command, s.now);
            var known := command.Join? && exists c :: c in base.clients && c.id == command.client;
            && OnlyProcess(s, s', p) && s'.lease == s.lease && s'.stored == s.stored && s'.log == s.log
            && Moves(process, s'.procs[p],
                     if out.error.Some? || known then Afterwards(process) else Mutated(out.room, base, s.now))
  {
    hide Apply, IndexOf;
    var command, base := s.procs[p].jobs[0].command, s.procs[p].phase.room;
    if command.Join? && FindClient(base, command.client).Some? {
      var c := base.clients[FindClient(base, command.client).value];
      assert c in base.clients && c.id == command.client;
    }
  }

  /** The next job under the same lock, if the caller goes on and there is one. */
  predicate GoesOn(process: Process, process': Process, resume: bool) {
    if resume && |process.jobs| > 1 then process' == process.(jobs := process.jobs[1..], phase := Ready)
    else Moves(process, process', Afterwards(process))
  }

  /**
   A save writes the changed room without its events under the next version and logs the change. A guarded one does so
   only over the version its caller expects, and a departure that empties the room deletes it.
   */
  lemma SaveEffect(cfg: Config, s: System, p: Pid, resume: bool)
    requires Enabled(cfg, s, Save(p, resume))
    ensures var s', process := Next(cfg, s, Save(p, resume)), s.procs[p];
            var job, room := process.jobs[0], process.phase.room;
            var empties := job.command.RemoveClient? && room.clients == [];
            var stale := job.mode.IfVersion?
                         && !(s.stored.Some? && job.mode.expected == Some(s.stored.value.version));
            && OnlyProcess(s, s', p) && s'.lease == s.lease
            && (empties ==> s'.stored == None && s'.log == s.log && GoesOn(process, s'.procs[p], resume))
            && (!empties && stale ==>
                  s'.stored == s.stored && s'.log == s.log && Moves(process, s'.procs[p], Afterwards(process)))
            && (!empties && !stale ==>
                  && s'.stored == Some(room.(events := [],
                                             version := if s.stored.Some? then s.stored.value.version + 1 else 1))
                  && s'.log == s.log + [Commit(job, process.phase.base, process.phase.at)]
                  && GoesOn(process, s'.procs[p], resume))
  {
  }

  /** Whoever gives up changes nothing in the store; a lock it holds is still to be released. */
  lemma GiveUpEffect(cfg: Config, s: System, p: Pid, resume: bool)
    requires Enabled(cfg, s, GiveUp(p, resume))
    ensures var s', process := Next(cfg, s, GiveUp(p, resume)), s.procs[p];
            && OnlyProcess(s, s', p) && s'.lease == s.lease && s'.stored == s.stored && s'.log == s.log
            && if process.phase.Waiting? || process.phase.Releasing? then Moves(process, s'.procs[p], Finished)
               else GoesOn(process, s'.procs[p], resume)
  {
  }

  lemma SpawnAndCrashEffect(cfg: Config, s: System, p: Pid, process: Process)
    ensures Enabled(cfg, s, Spawn(p, process)) ==>
              Next(cfg, s, Spawn(p, process)) == s.(procs := s.procs[p := process])
    ensures Enabled(cfg, s, Crash(p)) ==>
              var s' := Next(cfg, s, Crash(p));
              && OnlyProcess(s, s', p) && s'.lease == s.lease && s'.stored == s.stored && s'.log == s.log
              && Moves(s.procs[p], s'.procs[p], Finished)
  {
  }

  /** What happens without any process. */
  lemma WorldEffect(cfg: Config, s: System, to: Time, deckType: string)
    ensures Enabled(cfg, s, Tick(to)) ==> s.now <= to && Next(cfg, s, Tick(to)) == s.(now := to)
    ensures Enabled(cfg, s, CreateRoom(deckType)) ==>
              s.stored.None?
              && Next(cfg, s, CreateRoom(deckType)) == s.(stored := Some(NewRoom(s.roomId, deckType, s.now)))
    ensures Next(cfg, s, LoseRoom) == s.(stored := None)
  {
  }

  // ---- a command's key ----------------------------------------------------------------------

  /** The key holds something that has not expired. */
  predicate InForce(s: CommandLedger.System) {
    s.held.Some? && s.now < s.held.value.expires
  }

  /** The delivery has got to this phase, and nobody else has moved. */
  ghost predicate Reaches(s: CommandLedger.System, s': CommandLedger.System, p: nat, phase: CommandLedger.Phase) {
    s'.procs == s.procs[p := phase] && s'.now == s.now
  }

  /** The first call sets the marker and starts the use case unless the key is in force. */
  lemma SetNXEffect(cfg: CommandLedger.Config, s: CommandLedger.System, p: nat)
    requires CommandLedger.Enabled(s, CommandLedger.SetNX(p))
    ensures var s' := CommandLedger.Next(cfg, s, CommandLedger.SetNX(p));
            if InForce(s) then
              && s'.held == s.held && s'.executions == s.executions && s'.outcome == s.outcome
              && Reaches(s, s', p, if s.procs[p].Claiming? then CommandLedger.Reading else CommandLedger.ReadingSecond)
            else
              && s'.held == Some(CommandLedger.Held("pending", s.now + cfg.pendingTTL))
              && s'.executions == s.executions + [CommandLedger.Execution(p, s.now)] && s'.outcome == s.outcome
              && Reaches(s, s', p, CommandLedger.Executing)
  {
  }

  /** The second call is answered from the key; without one, the first is repeated once and then reported as failed. */
  lemma GetEffect(cfg: CommandLedger.Config, s: CommandLedger.System, p: nat)
    requires CommandLedger.Enabled(s, CommandLedger.Get(p))
    ensures var s' := CommandLedger.Next(cfg, s, CommandLedger.Get(p));
            && s'.held == s.held && s'.executions == s.executions && s'.outcome == s.outcome
            && (InForce(s) && s.held.value.value == "pending" ==>
                  Reaches(s, s', p, CommandLedger.Answered(CommandLedger.InProgress)))
            && (InForce(s) && s.held.value.value != "pending" ==>
                  Reaches(s, s', p, CommandLedger.Answered(CommandLedger.Replayed(s.held.value.value))))
            && (!InForce(s) && s.procs[p].Reading? ==> Reaches(s, s', p, CommandLedger.ClaimingSecond))
            && (!InForce(s) && !s.procs[p].Reading? ==>
                  Reaches(s, s', p, CommandLedger.Answered(CommandLedger.Internal)))
  {
  }

  /** The claim in one step, as the in-memory ledger does it. */
  lemma ClaimAtOnceEffect(cfg: CommandLedger.Config, s: CommandLedger.System, p: nat)
    requires CommandLedger.Enabled(s, CommandLedger.ClaimAtOnce(p))
    ensures var s' := CommandLedger.Next(cfg, s, CommandLedger.ClaimAtOnce(p));
            && (!InForce(s) ==>
                  && s'.held == Some(CommandLedger.Held("pending", s.now + cfg.pendingTTL))
                  && s'.executions == s.executions + [CommandLedger.Execution(p, s.now)]
                  && Reaches(s, s', p, CommandLedger.Executing))
            && (InForce(s) ==>
                  && s'.held == s.held && s'.executions == s.executions
                  && Reaches(s, s', p, CommandLedger.Answered(
                       if s.held.value.value == "pending" then CommandLedger.InProgress
                       else CommandLedger.Replayed(s.held.value.value))))
  {
  }

  /** A call whose reply is lost answers with a failure; it may have set the marker, but nothing runs. */
  lemma LostReplyEffect(cfg: CommandLedger.Config, s: CommandLedger.System, p: nat)
    ensures CommandLedger.Enabled(s, CommandLedger.SetNXUnheard(p)) ==>
              var s' := CommandLedger.Next(cfg, s, CommandLedger.SetNXUnheard(p));
              && s'.executions == s.executions && s'.outcome == s.outcome
              && Reaches(s, s', p, CommandLedger.Answered(CommandLedger.Internal))
              && s'.held == if InForce(s) then s.held
                            else Some(CommandLedger.Held("pending", s.now + cfg.pendingTTL))
    ensures CommandLedger.Enabled(s, CommandLedger.StoreFails(p)) ==>
              var s' := CommandLedger.Next(cfg, s, CommandLedger.StoreFails(p));
              && s'.executions == s.executions && s'.outcome == s.outcome && s'.held == s.held
              && Reaches(s, s', p, CommandLedger.Answered(CommandLedger.Internal))
  {
  }

  /** The use case ends with a frame, which is stored for its lifetime and sent, or only sent. */
  lemma CompletionEffect(cfg: CommandLedger.Config, s: CommandLedger.System, p: nat, frame: string)
    ensures CommandLedger.Enabled(s, CommandLedger.Run(p, frame)) ==>
              var s' := CommandLedger.Next(cfg, s, CommandLedger.Run(p, frame));
              Reaches(s, s', p, CommandLedger.Finishing(frame)) && s' == s.(procs := s'.procs)
    ensures CommandLedger.Enabled(s, CommandLedger.Complete(p)) ==>
              var s' := CommandLedger.Next(cfg, s, CommandLedger.Complete(p));
              && Reaches(s, s', p, CommandLedger.Answered(CommandLedger.Own(s.procs[p].frame)))
              && s'.held == Some(CommandLedger.Held(s.procs[p].frame, s.now + cfg.resultTTL))
              && s'.executions == s.executions
    ensures CommandLedger.Enabled(s, CommandLedger.CompleteFails(p)) ==>
              var s' := CommandLedger.Next(cfg, s, CommandLedger.CompleteFails(p));
              && Reaches(s, s', p, CommandLedger.Answered(CommandLedger.Own(s.procs[p].frame)))
              && s' == s.(procs := s'.procs)
    ensures CommandLedger.Enabled(s, CommandLedger.Crash(p)) ==>
              var s' := CommandLedger.Next(cfg, s, CommandLedger.Crash(p));
              Reaches(s, s', p, CommandLedger.Crashed) && s' == s.(procs := s'.procs)
  {
  }
}
