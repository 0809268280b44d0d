/** How often a job can be moved from one provider to the next, whoever else writes the tables. */
module MigrationRuns {
  import opened Wrappers
  import opened CoordinatorDb
  import E = EscrowRuns

  /** A step of the escrow runs; an acknowledgement over gRPC; a job submitted over gRPC; a job ended by a
      report or by a gRPC cancellation; or anything that writes only the other tables. */
  datatype Move =
    | Plain(step: E.Step)
    | Acknowledge(job: Id)
    | Insert(job: Id, consumer: Id, minRamGb: Option<int>, maxPrice: Option<real>, now: int)
    | Finish(job: Id, end: JobState)
    | Elsewhere(tables: Db)

  predicate Possible(db: Db, m: Move) {
    match m
    case Plain(step) => E.Possible(db, step)
    case Acknowledge(job) => job in db.jobs
    case Insert(job, _, _, _, _) => job !in db.jobs
    case Finish(job, end) => job in db.jobs && Terminal(end)
    case Elsewhere(_) => true
  }

  /** The guards that the bound needs: only jobs without a provider are assigned, and only jobs with one
      are acknowledged. Heartbeats, submissions and reports need none. */
  predicate Guarded(db: Db, m: Move)
    requires Possible(db, m)
  {
    match m
    case Plain(AssignQueued(job, _, _)) => db.jobs[job].provider.None?
    case Plain(Poll(job, p)) => db.jobs[job].state == Assigned && db.jobs[job].provider == Some(p)
    case Acknowledge(job) => db.jobs[job].provider.Some?
    case _ => true
  }

  ghost function Next(db: Db, m: Move): Db
    requires Possible(db, m)
  {
    match m
    case Plain(step) => E.Next(db, step)
    case Acknowledge(job) => SetRunning(db, job)
    case Insert(job, consumer, ram, maxPrice, now) =>
      db.(jobs := db.jobs[job := Job(consumer, Queued, None, ram, maxPrice, None, now, None, 0)])
    case Finish(job, end) => db.(jobs := db.jobs[job := db.jobs[job].(state := end)])
    case Elsewhere(tables) => tables.(jobs := db.jobs)
  }

  ghost predicate PossibleRun(db: Db, moves: seq<Move>)
    decreases |moves|
  {
    moves == [] || (Possible(db, moves[0]) && PossibleRun(Next(db, moves[0]), moves[1..]))
  }

  ghost predicate GuardedRun(db: Db, moves: seq<Move>)
    requires PossibleRun(db, moves)
    decreases |moves|
  {
    moves == [] || (Guarded(db, moves[0]) && GuardedRun(Next(db, moves[0]), moves[1..]))
  }

  ghost function Run(db: Db, moves: seq<Move>): Db
    requires PossibleRun(db, moves)
    decreases |moves|
  {
    if moves == [] then db else Run(Next(db, moves[0]), moves[1..])
  }

  // ----- counting -----

  predicate Assigns(m: Move, job: Id) {
    m.Plain? && m.step.AssignQueued? && m.step.job == job
  }

  ghost predicate Requeues(db: Db, m: Move, job: Id)
    requires Possible(db, m)
  {
    && job in db.jobs && InProgress(db.jobs[job].state)
    && job in Next(db, m).jobs && Next(db, m).jobs[job].state == Queued
  }

  function One(b: bool): nat {
    if b then 1 else 0
  }

  ghost function AssignCount(db: Db, moves: seq<Move>, job: Id): nat
    requires PossibleRun(db, moves)
    decreases |moves|
  {
    if moves == [] then 0 else One(Assigns(moves[0], job)) + AssignCount(Next(db, moves[0]), moves[1..], job)
  }

  ghost function RequeueCount(db: Db, moves: seq<Move>, job: Id): nat
    requires PossibleRun(db, moves)
    decreases |moves|
  {
    if moves == [] then 0 else One(Requeues(db, moves[0], job)) + RequeueCount(Next(db, moves[0]), moves[1..], job)
  }

  /** What a job row says about its past. It names a provider exactly when it was assigned once more than
      re-queued. A re-queue needs a checkpoint, so every assignment but perhaps the first counts as a
      restore attempt. */
  predicate Tallied(j: Job, assigns: nat, requeues: nat) {
    && requeues <= MAX_RESTORE_ATTEMPTS
    && assigns == requeues + One(j.provider.Some?)
    && assigns - 1 <= j.restoreAttempts <= assigns
    && 0 <= j.restoreAttempts <= MAX_RESTORE_ATTEMPTS
    && (j.provider.None? ==> j.restoreAttempts < MAX_RESTORE_ATTEMPTS)
    && (requeues > 0 ==> j.checkpointUrl.Some?)
    && (j.state == Queued ==> j.provider.None?)
    && (InProgress(j.state) ==> j.provider.Some?)
  }

  predicate TalliedIn(db: Db, job: Id, assigns: nat, requeues: nat) {
    if job in db.jobs then Tallied(db.jobs[job], assigns, requeues) else assigns == requeues == 0
  }

  // ----- what one move can do to one job's row -----

  predicate Taken(j: Job, j': Job) {
    && j.provider.None? && j'.provider.Some? && j'.state == Assigned && j'.checkpointUrl == j.checkpointUrl
    && j'.restoreAttempts == j.restoreAttempts + One(j.checkpointUrl.Some?)
  }

  predicate Requeued(j: Job, j': Job) {
    && InProgress(j.state) && Restorable(j)
    && j'.state == Queued && j'.provider.None?
    && j'.checkpointUrl == j.checkpointUrl && j'.restoreAttempts == j.restoreAttempts
  }

  predicate Stays(j: Job, j': Job) {
    && j'.provider == j.provider && j'.restoreAttempts == j.restoreAttempts
    && (j'.checkpointUrl == j.checkpointUrl || j'.checkpointUrl.Some?)
    && (j'.state == j.state || Terminal(j'.state) || (j.provider.Some? && j'.state == Running))
  }

  lemma JobAfterDisconnect(db: Db, p: Id, activeJob: Option<Id>, row: Option<Id>, job: Id)
    requires activeJob.Some? ==> LockedRow(db.escrows, activeJob.value, row)
    requires job in db.jobs
    ensures job in HandleStale(db, p, activeJob, row).jobs
    ensures var j, j' := db.jobs[job], HandleStale(db, p, activeJob, row).jobs[job]; Requeued(j, j') || Stays(j, j')
  {
    hide Penalise;
  }

  lemma JobAfterStep(db: Db, step: E.Step, job: Id)
    requires E.Possible(db, step) && Guarded(db, Plain(step)) && job in db.jobs
    ensures job in E.Next(db, step).jobs
    ensures var j, j' := db.jobs[job], E.Next(db, step).jobs[job];
            if Assigns(Plain(step), job) then Taken(j, j') else Requeued(j, j') || Stays(j, j')
  {
    hide RefundOnCancel, FreeProvidersOf, ReleaseAllOf, Charge, HandleStale;
    if step.Disconnect? {
      JobAfterDisconnect(db, step.provider, step.activeJob,
                         if step.activeJob.Some? then E.RowOf(db.escrows, step.activeJob.value) else None, job);
    }
  }

  lemma JobAfter(db: Db, m: Move, job: Id)
    requires Possible(db, m) && Guarded(db, m) && job in db.jobs
    ensures job in Next(db, m).jobs
    ensures var j, j' := db.jobs[job], Next(db, m).jobs[job];
            if Assigns(m, job) then Taken(j, j') else Requeued(j, j') || Stays(j, j')
  {
    if m.Plain? {
      hide E.Next;
      JobAfterStep(db, m.step, job);
    }
  }

  lemma NewJob(db: Db, m: Move, job: Id)
    requires Possible(db, m) && Guarded(db, m) && job !in db.jobs
    ensures !Assigns(m, job)
    ensures TalliedIn(Next(db, m), job, 0, 0)
  {
    hide RefundOnCancel, FreeProvidersOf, ReleaseAllOf, Charge, Penalise;
  }

  lemma RowKeepsTally(j: Job, j': Job, assigns: nat, requeues: nat)
    requires Tallied(j, assigns, requeues)
    ensures Taken(j, j') ==> Tallied(j', assigns + 1, requeues)
    ensures Requeued(j, j') ==> Tallied(j', assigns, requeues + 1)
    ensures Stays(j, j') ==> Tallied(j', assigns, requeues)
  {
  }

  lemma NextKeepsTally(db: Db, m: Move, job: Id, assigns: nat, requeues: nat)
    requires Possible(db, m) && Guarded(db, m) && TalliedIn(db, job, assigns, requeues)
    ensures TalliedIn(Next(db, m), job, assigns + One(Assigns(m, job)), requeues + One(Requeues(db, m, job)))
  {
    hide Next;
    if job in db.jobs {
      JobAfter(db, m, job);
      RowKeepsTally(db.jobs[job], Next(db, m).jobs[job], assigns, requeues);
    } else {
      NewJob(db, m, job);
    }
  }

  lemma FirstMove(db: Db, moves: seq<Move>, job: Id)
    requires moves != [] && PossibleRun(db, moves) && GuardedRun(db, moves)
    ensures Possible(db, moves[0]) && Guarded(db, moves[0])
    ensures var next, rest := Next(db, moves[0]), moves[1..];
            && PossibleRun(next, rest) && GuardedRun(next, rest) && Run(db, moves) == Run(next, rest)
            && AssignCount(db, moves, job) == One(Assigns(moves[0], job)) + AssignCount(next, rest, job)
            && RequeueCount(db, moves, job) == One(Requeues(db, moves[0], job)) + RequeueCount(next, rest, job)
  {
    hide Next, Requeues, Assigns, One, Guarded, Possible;
  }

  lemma NoMove(db: Db, job: Id)
    ensures PossibleRun(db, []) && Run(db, []) == db
    ensures AssignCount(db, [], job) == RequeueCount(db, [], job) == 0
  {
  }

  lemma {:induction false} RunKeepsTally(db: Db, moves: seq<Move>, job: Id, assigns: nat, requeues: nat)
    requires PossibleRun(db, moves) && GuardedRun(db, moves) && TalliedIn(db, job, assigns, requeues)
    ensures TalliedIn(Run(db, moves), job, assigns + AssignCount(db, moves, job), requeues + RequeueCount(db, moves, job))
    decreases |moves|
  {
    hide *;
    if moves == [] {
      NoMove(db, job);
    } else {
      FirstMove(db, moves, job);
      NextKeepsTally(db, moves[0], job, assigns, requeues);
      RunKeepsTally(Next(db, moves[0]), moves[1..], job,
                    assigns + One(Assigns(moves[0], job)), requeues + One(Requeues(db, moves[0], job)));
    }
  }

  /** Over every guarded run a job is re-queued at most three times and assigned at most four times, and
      restore_attempts never exceeds three. */
  lemma MigrationBounded(db: Db, moves: seq<Move>, job: Id)
    requires job !in db.jobs && PossibleRun(db, moves) && GuardedRun(db, moves)
    ensures RequeueCount(db, moves, job) <= 3
    ensures AssignCount(db, moves, job) <= 4
    ensures job in Run(db, moves).jobs ==> 0 <= Run(db, moves).jobs[job].restoreAttempts <= 3
  {
    RunKeepsTally(db, moves, job, 0, 0);
  }

  lemma CheckpointAfter(db: Db, m: Move, job: Id)
    requires Possible(db, m) && job in db.jobs && db.jobs[job].checkpointUrl.Some?
    ensures job in Next(db, m).jobs && Next(db, m).jobs[job].checkpointUrl.Some?
  {
    hide RefundOnCancel, FreeProvidersOf, ReleaseAllOf, Charge, HandleStale;
    if m.Plain? && m.step.Disconnect? {
      var step := m.step;
      JobAfterDisconnect(db, step.provider, step.activeJob,
                         if step.activeJob.Some? then E.RowOf(db.escrows, step.activeJob.value) else None, job);
    }
  }

  /** A saved checkpoint is never cleared, guards or not. */
  lemma {:induction false} CheckpointStays(db: Db, moves: seq<Move>, job: Id)
    requires PossibleRun(db, moves) && job in db.jobs && db.jobs[job].checkpointUrl.Some?
    ensures job in Run(db, moves).jobs && Run(db, moves).jobs[job].checkpointUrl.Some?
    decreases |moves|
  {
    if moves == [] {
    } else {
      hide Next;
      CheckpointAfter(db, moves[0], job);
      CheckpointStays(Next(db, moves[0]), moves[1..], job);
    }
  }

  // ----- the guards are the exact ones -----

  /** A heartbeat keeps every tally, whatever the job's state: it asks for the job's own provider. */
  lemma HeartbeatKeepsTally(db: Db, job: Id, p: Id, now: int, other: Id, assigns: nat, requeues: nat)
    requires TalliedIn(db, other, assigns, requeues)
    ensures TalliedIn(JobHeartbeat(db, job, p, now), other, assigns, requeues)
  {
  }

  /** An acknowledgement, which looks at no column, keeps it exactly when the job has a provider. */
  lemma AcknowledgeKeepsTallyIff(db: Db, job: Id, assigns: nat, requeues: nat)
    requires job in db.jobs && TalliedIn(db, job, assigns, requeues)
    ensures TalliedIn(SetRunning(db, job), job, assigns, requeues) <==> db.jobs[job].provider.Some?
  {
  }

  /** An assignment, which looks at no column either, counts exactly when the job has none. */
  lemma AssignKeepsTallyIff(db: Db, job: Id, p: Id, price: real, assigns: nat, requeues: nat)
    requires job in db.jobs && TalliedIn(db, job, assigns, requeues)
    ensures TalliedIn(Assign(db, job, p, price, db.jobs[job].checkpointUrl), job, assigns + 1, requeues)
       <==> db.jobs[job].provider.None?
  {
  }

  /** Acknowledging a queued job, then losing a provider that has it. */
  function Loop(job: Id, p: Id, n: nat): seq<Move> {
    if n == 0 then [] else [Acknowledge(job), Plain(E.Disconnect(p, Some(job)))] + Loop(job, p, n - 1)
  }

  lemma LoopOnce(db: Db, job: Id, p: Id)
    requires job in db.jobs && db.jobs[job].state == Queued && db.jobs[job].provider == None && Restorable(db.jobs[job])
    ensures var s := Next(db, Acknowledge(job));
            var m := Plain(E.Disconnect(p, Some(job)));
            Possible(s, m) && Next(s, m).jobs == db.jobs && Requeues(s, m, job) && !Requeues(db, Acknowledge(job), job)
  {
  }

  /** Without that guard there is no bound: a checkpointed job waiting for a provider can be re-queued any
      number of times, and its row ends as it began. */
  lemma {:induction false} AcknowledgeLoops(db: Db, job: Id, p: Id, n: nat)
    requires job in db.jobs && db.jobs[job].state == Queued && db.jobs[job].provider == None && Restorable(db.jobs[job])
    ensures PossibleRun(db, Loop(job, p, n))
    ensures RequeueCount(db, Loop(job, p, n), job) == n
    ensures Run(db, Loop(job, p, n)).jobs == db.jobs
    decreases n
  {
    if n == 0 {
    } else {
      hide Next, Requeues, E.Possible;
      LoopOnce(db, job, p);
      var moves, lost := Loop(job, p, n), Plain(E.Disconnect(p, Some(job)));
      var s := Next(db, Acknowledge(job));
      assert moves[0] == Acknowledge(job) && moves[1..][0] == lost && moves[1..][1..] == Loop(job, p, n - 1);
      AcknowledgeLoops(Next(s, lost), job, p, n - 1);
    }
  }
}
