/** What each account, job and provider can count on, whatever else the coordinator does. */
module CoordinatorFlows {
  import opened Wrappers
  import opened Sums
  import opened Utf8
  import opened CoordinatorDb
  import opened EscrowRuns
  import M = Matching

  // ----- acceptance -----

  /** The deposit a job asks for, in credits: the maximum price for the maximum duration in hours. */
  predicate IsMaxCost(cost: real, r: SubmitRequest) {
    3600.0 * cost == r.maxPrice * r.maxDurationSecs as real
  }

  /** A missing account, or a NULL balance, counts as zero. */
  function BalanceOf(accounts: map<Id, Account>, a: Id): real {
    if a in accounts && accounts[a].available.Some? then accounts[a].available.value else 0.0
  }

  lemma MaxCostMeans(r: SubmitRequest, cost: real)
    ensures IsMaxCost(cost, r) <==> cost == MaxCost(r)
  {
    var d := r.maxDurationSecs as real;
    assert 3600.0 * (r.maxPrice * (d / 3600.0)) == r.maxPrice * (3600.0 * (d / 3600.0)) == r.maxPrice * d;
  }

  /** An accepted submission locks exactly the job's maximum cost, and records the terms it was made on. */
  lemma SubmitRecords(db: Db, r: SubmitRequest, jobId: Id, escrowId: Id, now: int, cost: real)
    requires jobId !in db.jobs && escrowId !in db.escrows && IsMaxCost(cost, r)
    ensures Submit(db, r, jobId, escrowId, now).Ok? <==> BalanceOf(db.accounts, r.account) >= cost
    ensures Submit(db, r, jobId, escrowId, now).Ok? ==>
              var db' := Submit(db, r, jobId, escrowId, now).value;
              && jobId in db'.jobs && Offered(db'.jobs[jobId], r) && db'.jobs[jobId].createdAt == now
              && db'.jobs[jobId].state == Queued && db'.jobs[jobId].provider == None
              && db'.escrows == db.escrows[escrowId := Escrow(jobId, r.account, cost, Held)]
              && db'.accounts.Keys == db.accounts.Keys
              && forall a :: a in db.accounts ==>
                   db'.accounts[a] == if a == r.account
                     then Account(Plus(db.accounts[a].available, -cost), db.accounts[a].escrowed + cost) else db.accounts[a]
  {
    MaxCostMeans(r, cost);
    hide MaxCost, IsMaxCost;
  }

  /** The job asks for what the request did. */
  predicate Offered(j: Job, r: SubmitRequest) {
    j.consumer == r.account && j.minRamGb == Some(r.minRamGb) && j.maxPrice == Some(r.maxPrice)
  }

  predicate SameTerms(j: Job, j': Job) {
    j'.consumer == j.consumer && j'.minRamGb == j.minRamGb && j'.maxPrice == j.maxPrice && j'.createdAt == j.createdAt
  }

  lemma TermsStayOnDisconnect(db: Db, p: Id, activeJob: Option<Id>, row: Option<Id>, job: Id)
    requires (activeJob.Some? ==> LockedRow(db.escrows, activeJob.value, row)) && job in db.jobs
    ensures job in HandleStale(db, p, activeJob, row).jobs
    ensures SameTerms(db.jobs[job], HandleStale(db, p, activeJob, row).jobs[job])
  {
    hide Penalise;
  }

  lemma TermsStayOnce(db: Db, step: Step, job: Id)
    requires Possible(db, step) && job in db.jobs
    ensures job in Next(db, step).jobs && SameTerms(db.jobs[job], Next(db, step).jobs[job])
  {
    hide RefundOnCancel, FreeProvidersOf, ReleaseAllOf, Charge, HandleStale;
    if step.Disconnect? {
      TermsStayOnDisconnect(db, step.provider, step.activeJob,
                            if step.activeJob.Some? then RowOf(db.escrows, step.activeJob.value) else None, job);
    }
  }

  /** Whatever happens later, the job is offered to providers on those terms. */
  lemma {:induction false} TermsStay(db: Db, steps: seq<Step>, job: Id)
    requires ValidRun(db, steps) && job in db.jobs
    ensures job in Run(db, steps).jobs && SameTerms(db.jobs[job], Run(db, steps).jobs[job])
    decreases |steps|
  {
    if steps == [] {
    } else {
      hide Next;
      TermsStayOnce(db, steps[0], job);
      TermsStay(Next(db, steps[0]), steps[1..], job);
    }
  }

  /** For plain text, the addresses accepted are 42 characters after 0x included, or 32 to 44 without it. */
  lemma AddressForms(dest: string)
    requires forall i :: 0 <= i < |dest| ==> dest[i] as int < 0x80
    ensures ValidAddress(dest) <==> if "0x" <= dest then |dest| == 42 else 32 <= |dest| <= 44
  {
    AsciiLength(dest);
    assert "0x" <= dest <==> |dest| >= 2 && dest[..2] == "0x";
  }

  lemma {:induction false} AsciiLength(s: string)
    requires forall i :: 0 <= i < |s| ==> s[i] as int < 0x80
    ensures ByteLength(s) == |s|
  {
    if s == "" {
    } else {
      assert forall i :: 0 <= i < |s[1..]| ==> s[1..][i] == s[i + 1];
      AsciiLength(s[1..]);
    }
  }

  predicate WithdrawAccepted(db: Db, account: Id, amount: real, dest: string) {
    amount > 0.0 && ValidAddress(dest) && BalanceOf(db.accounts, account) >= amount
  }

  predicate CreditAccepted(db: Db, authorized: bool, amount: real, session: string) {
    authorized && amount > 0.0 && session !in db.stripeSessions
  }

  lemma AcceptedIff(db: Db, authorized: bool, account: Id, amount: real, session: string, dest: string)
    ensures StripeCredit(db, authorized, account, amount, session).Ok? <==> CreditAccepted(db, authorized, amount, session)
    ensures Withdraw(db, account, amount, dest).Ok? <==> WithdrawAccepted(db, account, amount, dest)
  {
  }

  // ----- each account, over every run -----

  /** What a step brings an account: an accepted purchase of its own, less an accepted withdrawal. */
  function AccountFlow(db: Db, step: Step, a: Id): real {
    match step
    case Credit(authorized, account, amount, session) =>
      if account == a && CreditAccepted(db, authorized, amount, session) then amount else 0.0
    case WithdrawCredits(account, amount, dest) =>
      if account == a && WithdrawAccepted(db, account, amount, dest) then -amount else 0.0
    case _ => 0.0
  }

  lemma CancelKeepsWorth(db: Db, job: Id, row: Option<Id>, a: Id)
    requires Inv(db) && LockedRow(db.escrows, job, row) && Cancel(db, job, row).Ok?
    ensures WorthOf(Cancel(db, job, row).value.accounts, a) == WorthOf(db.accounts, a)
  {
    LiveJobHasRow(db, job, row);
    HeldByCovers(db, row.value);
    EscrowedIsHeld(db, db.jobs[job].consumer);
    AmountOfRow(db, row.value);
    GiveBack(db.accounts, Cancel(db, job, row).value.accounts, db.jobs[job].consumer, db.escrows[row.value].lockedNmc, a);
  }

  lemma EscrowedIsHeld(db: Db, a: Id)
    requires Inv(db)
    ensures EscrowedOf(db.accounts, a) == Sum(HeldBy(db.escrows, a))
    ensures a in db.accounts ==> db.accounts[a].available.Some?
  {
  }

  lemma AmountOfRow(db: Db, e: Id)
    requires Inv(db) && IsHeld(db, e)
    ensures db.escrows[e].lockedNmc >= 0.0
  {
  }

  lemma DisconnectGivesBack(db: Db, p: Id, activeJob: Option<Id>, row: Option<Id>)
    requires activeJob.Some? ==> LockedRow(db.escrows, activeJob.value, row)
    ensures var after := HandleStale(db, p, activeJob, row).accounts;
            || after == db.accounts
            || (activeJob.Some? && row.Some? && activeJob.value in db.jobs && InProgress(db.jobs[activeJob.value].state)
                && GivenBack(db.accounts, after, db.escrows[row.value].consumer, db.escrows[row.value].lockedNmc))
  {
    hide Penalise;
  }

  lemma DisconnectKeepsWorth(db: Db, p: Id, activeJob: Option<Id>, row: Option<Id>, a: Id)
    requires Inv(db) && (activeJob.Some? ==> LockedRow(db.escrows, activeJob.value, row))
    ensures WorthOf(HandleStale(db, p, activeJob, row).accounts, a) == WorthOf(db.accounts, a)
  {
    hide HandleStale, GivenBack, Sum, HeldBy, EscrowedOf, WorthOf;
    var after := HandleStale(db, p, activeJob, row).accounts;
    DisconnectGivesBack(db, p, activeJob, row);
    if after != db.accounts {
      var e := row.value;
      var c := db.escrows[e].consumer;
      HeldByCovers(db, e);
      EscrowedIsHeld(db, c);
      AmountOfRow(db, e);
      GiveBack(db.accounts, after, c, db.escrows[e].lockedNmc, a);
    }
  }

  lemma SubmitKeepsWorthOf(db: Db, r: SubmitRequest, jobId: Id, escrowId: Id, now: int, a: Id)
    requires Inv(db) && jobId !in db.jobs && escrowId !in db.escrows && Submit(db, r, jobId, escrowId, now).Ok?
    ensures WorthOf(Submit(db, r, jobId, escrowId, now).value.accounts, a) == WorthOf(db.accounts, a)
  {
    EscrowedIsHeld(db, a);
  }

  lemma StepAccountFlow(db: Db, step: Step, a: Id)
    requires Inv(db) && Allowed(db, step)
    ensures WorthOf(Next(db, step).accounts, a) == WorthOf(db.accounts, a) + AccountFlow(db, step, a)
  {
    hide Inv, Submit, Cancel, HandleStale;
    EscrowedIsHeld(db, a);
    match step
    case SubmitJob(r, jobId, escrowId, now) =>
      if Submit(db, r, jobId, escrowId, now).Ok? {
        SubmitKeepsWorthOf(db, r, jobId, escrowId, now, a);
      }
    case CancelJob(job) =>
      if Cancel(db, job, RowOf(db.escrows, job)).Ok? {
        CancelKeepsWorth(db, job, RowOf(db.escrows, job), a);
      }
    case Disconnect(p, activeJob) =>
      DisconnectKeepsWorth(db, p, activeJob, if activeJob.Some? then RowOf(db.escrows, activeJob.value) else None, a);
    case _ =>
  }

  ghost function AccountFlows(db: Db, steps: seq<Step>, a: Id): real
    requires ValidRun(db, steps)
    decreases |steps|
  {
    if steps == [] then 0.0 else AccountFlow(db, steps[0], a) + AccountFlows(Next(db, steps[0]), steps[1..], a)
  }

  /** Over every run each account, available and escrowed together, has exactly what it bought less what it
      withdrew: no step of anyone else's touches it, and its own jobs only move it between the two. */
  lemma {:induction false} OwnFlowsOnly(db: Db, steps: seq<Step>, a: Id)
    requires Inv(db) && ValidRun(db, steps)
    ensures WorthOf(Run(db, steps).accounts, a) == WorthOf(db.accounts, a) + AccountFlows(db, steps, a)
    decreases |steps|
  {
    if steps == [] {
    } else {
      hide Inv, Next, AccountFlow, WorthOf;
      StepAccountFlow(db, steps[0], a);
      NextKeepsInv(db, steps[0]);
      OwnFlowsOnly(Next(db, steps[0]), steps[1..], a);
    }
  }

  // ----- purchases -----

  lemma SessionsGrow(db: Db, step: Step, session: string)
    requires Possible(db, step) && session in db.stripeSessions
    ensures session in Next(db, step).stripeSessions
  {
    hide RefundOnCancel, FreeProvidersOf, ReleaseAllOf, Charge, Penalise;
  }

  lemma {:induction false} SessionStays(db: Db, steps: seq<Step>, session: string)
    requires ValidRun(db, steps) && session in db.stripeSessions
    ensures session in Run(db, steps).stripeSessions
    decreases |steps|
  {
    if steps == [] {
    } else {
      hide Next;
      SessionsGrow(db, steps[0], session);
      SessionStays(Next(db, steps[0]), steps[1..], session);
    }
  }

  /** Once a payment session was credited, any later delivery of it is refused as a duplicate and changes
      nothing, whatever account or amount it names and whatever happened between. */
  lemma SecondDeliveryRefused(db: Db, first: Step, steps: seq<Step>, account: Id, amount: real)
    requires first.Credit? && CreditAccepted(db, first.authorized, first.amount, first.session)
    requires ValidRun(Next(db, first), steps) && amount > 0.0
    ensures var end := Run(Next(db, first), steps);
            && StripeCredit(end, true, account, amount, first.session) == Err(Duplicate)
            && Next(end, Credit(true, account, amount, first.session)) == end
  {
    SessionStays(Next(db, first), steps, first.session);
  }

  predicate Credits(db: Db, step: Step, session: string) {
    step.Credit? && step.session == session && CreditAccepted(db, step.authorized, step.amount, session)
  }

  ghost function CreditCount(db: Db, steps: seq<Step>, session: string): nat
    requires ValidRun(db, steps)
    decreases |steps|
  {
    if steps == [] then 0
    else (if Credits(db, steps[0], session) then 1 else 0) + CreditCount(Next(db, steps[0]), steps[1..], session)
  }

  /** So a session is credited at most once in any run. */
  lemma {:induction false} CreditedOnce(db: Db, steps: seq<Step>, session: string)
    requires ValidRun(db, steps)
    ensures CreditCount(db, steps, session) <= 1
    ensures session in db.stripeSessions ==> CreditCount(db, steps, session) == 0
    decreases |steps|
  {
    if steps == [] {
    } else {
      hide RefundOnCancel, FreeProvidersOf, ReleaseAllOf, Charge, Penalise, HandleStale, Cancel, Submit, Assign, JobHeartbeat;
      var next := Next(db, steps[0]);
      if session in db.stripeSessions {
        SessionsGrow(db, steps[0], session);
      }
      CreditedOnce(next, steps[1..], session);
    }
  }

  // ----- providers and jobs -----

  /** After a cancellation the job is cancelled and holds no escrow, no provider names it, those that did
      are available, and no other provider changed. */
  lemma CancelFrees(db: Db, job: Id, row: Option<Id>)
    requires LockedRow(db.escrows, job, row) && Cancel(db, job, row).Ok?
    ensures var db' := Cancel(db, job, row).value;
            && db'.jobs == db.jobs[job := db.jobs[job].(state := Cancelled)]
            && (forall e :: e in db'.escrows ==> !HeldFor(db'.escrows, e, job))
            && db'.providers.Keys == db.providers.Keys
            && forall p :: p in db.providers ==>
                 && db'.providers[p].activeJob != Some(job)
                 && db'.providers[p] == if db.providers[p].activeJob == Some(job)
                      then db.providers[p].(state := Available, activeJob := None) else db.providers[p]
  {
  }

  /** A checkpoint saves a job: with fewer than three restores behind it, losing the provider puts it back
      in the queue with that checkpoint, and its escrow stays. Without one, or after three, it fails. */
  lemma CheckpointSavesJob(db: Db, job: Id, url: string, p: Id, row: Option<Id>)
    requires job in db.jobs && InProgress(db.jobs[job].state) && LockedRow(db.escrows, job, row)
    ensures SaveCheckpoint(db, job, url).Ok?
    ensures var saved := SaveCheckpoint(db, job, url).value;
            var end := HandleStale(saved, p, Some(job), row);
            && job in end.jobs
            && if db.jobs[job].restoreAttempts < 3 then
                 && end.jobs[job] == db.jobs[job].(state := Queued, provider := None, checkpointUrl := Some(url))
                 && end.escrows == db.escrows && end.accounts == db.accounts
               else end.jobs[job] == db.jobs[job].(state := Failed, checkpointUrl := Some(url))
    ensures db.jobs[job].checkpointUrl.None? ==>
              job in HandleStale(db, p, Some(job), row).jobs
              && HandleStale(db, p, Some(job), row).jobs[job] == db.jobs[job].(state := Failed)
  {
    hide Penalise;
  }

  /** Whenever a later auction cycle picks a provider for a submitted job, it is one that was available, with
      the memory asked for and at most the price offered, and the price recorded is the price offered. */
  lemma PickHonoursSubmission(db: Db, r: SubmitRequest, jobId: Id, escrowId: Id, now: int, steps: seq<Step>, c: M.Cycle, i: nat)
    requires jobId !in db.jobs && escrowId !in db.escrows && Submit(db, r, jobId, escrowId, now).Ok?
    requires ValidRun(Submit(db, r, jobId, escrowId, now).value, steps)
    requires M.IsCycle(c) && c.states[0] == Run(Submit(db, r, jobId, escrowId, now).value, steps)
    requires i < |c.queue| && c.queue[i] == jobId && M.Pick(c, i).Some?
    ensures var p, start, end := M.Pick(c, i).value, c.states[0], c.states[|c.queue|];
            && p in start.providers && start.providers[p].state == Available
            && start.providers[p].maxRamGb.Some? && start.providers[p].maxRamGb.value >= r.minRamGb
            && start.providers[p].floorPrice.Some? && start.providers[p].floorPrice.value <= r.maxPrice
            && jobId in end.jobs && end.jobs[jobId].provider == Some(p) && end.jobs[jobId].price == Some(r.maxPrice)
            && p in end.providers && end.providers[p].state == Leased && end.providers[p].activeJob == Some(jobId)
  {
    hide M.IsCycle, M.Pick, Run, ValidRun;
    SubmitOffers(db, r, jobId, escrowId, now);
    TermsStay(Submit(db, r, jobId, escrowId, now).value, steps, jobId);
    PickRecorded(c, i);
  }

  lemma SubmitOffers(db: Db, r: SubmitRequest, jobId: Id, escrowId: Id, now: int)
    requires jobId !in db.jobs && escrowId !in db.escrows && Submit(db, r, jobId, escrowId, now).Ok?
    ensures jobId in Submit(db, r, jobId, escrowId, now).value.jobs
    ensures Offered(Submit(db, r, jobId, escrowId, now).value.jobs[jobId], r)
  {
  }

  lemma PickRecorded(c: M.Cycle, i: nat)
    requires M.IsCycle(c) && i < |c.queue| && M.Pick(c, i).Some?
    ensures c.queue[i] in c.states[0].jobs
    ensures var p, j, start, end := M.Pick(c, i).value, c.states[0].jobs[c.queue[i]], c.states[0], c.states[|c.queue|];
            && p in start.providers && M.Meets(start.providers[p], j)
            && c.queue[i] in end.jobs && end.jobs[c.queue[i]].provider == Some(p)
            && end.jobs[c.queue[i]].price == Some(if j.maxPrice.Some? then j.maxPrice.value else 0.1)
            && p in end.providers && end.providers[p].state == Leased && end.providers[p].activeJob == Some(c.queue[i])
  {
    M.CycleIsMaximalMatching(c);
    M.CycleRecords(c);
    assert M.Suits(c, i, M.Pick(c, i).value);
    hide M.IsCycle, M.Pick;
    assert M.Picks(c)[i] == M.Pick(c, i);
  }
}
