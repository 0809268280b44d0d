/** Job escrows over every run of the coordinator, whatever the interleaving of its steps. */
module EscrowRuns {
  import opened Wrappers
  import opened Sums
  import opened CoordinatorDb

  // ----- steps -----

  datatype Step =
    | SubmitJob(r: SubmitRequest, jobId: Id, escrowId: Id, now: int)
    | CancelJob(job: Id)
    | Credit(authorized: bool, account: Id, amount: real, session: string)
    | WithdrawCredits(account: Id, amount: real, dest: string)
    | AssignQueued(job: Id, provider: Id, price: real)
    | Poll(job: Id, provider: Id)
    | Heartbeat(job: Id, provider: Id, now: int)
    | Checkpoint(job: Id, url: string)
    | Disconnect(provider: Id, activeJob: Option<Id>)

  /** A locked escrow of the job, if there is one. */
  ghost function RowOf(escrows: map<Id, Escrow>, job: Id): (row: Option<Id>)
    ensures LockedRow(escrows, job, row)
  {
    if exists e :: HeldFor(escrows, e, job) then
      var e :| HeldFor(escrows, e, job); Some(e)
    else None
  }

  /** Steps outside these conditions are not part of a run: identifiers are fresh and costs not
      negative; the auction assigns queued jobs; heartbeats come from jobs in progress. */
  predicate Allowed(db: Db, step: Step) {
    match step
    case SubmitJob(r, jobId, escrowId, _) => jobId !in db.jobs && escrowId !in db.escrows && MaxCost(r) >= 0.0
    case AssignQueued(job, _, _) => job in db.jobs && db.jobs[job].state == Queued
    case Poll(job, p) => job in db.jobs && db.jobs[job].state == Assigned && db.jobs[job].provider == Some(p)
    case Heartbeat(job, _, _) => job in db.jobs && InProgress(db.jobs[job].state)
    case _ => true
  }

  /** A step that can be taken at all: new rows have fresh identifiers, and updated rows exist. */
  predicate Possible(db: Db, step: Step) {
    match step
    case SubmitJob(_, jobId, escrowId, _) => jobId !in db.jobs && escrowId !in db.escrows
    case AssignQueued(job, _, _) => job in db.jobs
    case Poll(job, _) => job in db.jobs
    case _ => true
  }

  function OrElse(r: Result<Db, Refusal>, db: Db): Db {
    match r
    case Ok(db') => db'
    case Err(_) => db
  }

  ghost function Next(db: Db, step: Step): Db
    requires Possible(db, step)
  {
    match step
    case SubmitJob(r, jobId, escrowId, now) => OrElse(Submit(db, r, jobId, escrowId, now), db)
    case CancelJob(job) => OrElse(Cancel(db, job, RowOf(db.escrows, job)), db)
    case Credit(authorized, account, amount, session) => OrElse(StripeCredit(db, authorized, account, amount, session), db)
    case WithdrawCredits(account, amount, dest) => OrElse(Withdraw(db, account, amount, dest), db)
    case AssignQueued(job, p, price) => Assign(db, job, p, price, db.jobs[job].checkpointUrl)
    case Poll(job, _) => SetRunning(db, job)
    case Heartbeat(job, p, now) => JobHeartbeat(db, job, p, now)
    case Checkpoint(job, url) => OrElse(SaveCheckpoint(db, job, url), db)
    case Disconnect(p, activeJob) =>
      HandleStale(db, p, activeJob, if activeJob.Some? then RowOf(db.escrows, activeJob.value) else None)
  }

  ghost predicate ValidRun(db: Db, steps: seq<Step>)
    decreases |steps|
  {
    steps == [] || (Allowed(db, steps[0]) && ValidRun(Next(db, steps[0]), steps[1..]))
  }

  ghost function Run(db: Db, steps: seq<Step>): Db
    requires ValidRun(db, steps)
    decreases |steps|
  {
    if steps == [] then db else Run(Next(db, steps[0]), steps[1..])
  }

  // ----- the invariant -----

  function HeldBy(escrows: map<Id, Escrow>, account: Id): map<Id, real> {
    map e | e in escrows && escrows[e].state == Held && escrows[e].consumer == account :: escrows[e].lockedNmc
  }

  function EscrowedOf(accounts: map<Id, Account>, account: Id): real {
    if account in accounts then accounts[account].escrowed else 0.0
  }

  ghost predicate HasLocked(escrows: map<Id, Escrow>, job: Id) {
    exists e :: HeldFor(escrows, e, job)
  }

  predicate IsHeld(db: Db, e: Id) {
    e in db.escrows && db.escrows[e].state == Held
  }

  /** A locked escrow belongs to a live job of the same consumer, and is the only one of that job. */
  ghost predicate OnePerJob(db: Db) {
    && (forall e :: IsHeld(db, e) ==>
          && db.escrows[e].job in db.jobs
          && !Terminal(db.jobs[db.escrows[e].job].state)
          && db.escrows[e].consumer == db.jobs[db.escrows[e].job].consumer
          && db.escrows[e].lockedNmc >= 0.0)
    && forall e, f :: IsHeld(db, e) && IsHeld(db, f) && db.escrows[e].job == db.escrows[f].job ==> e == f
  }

  ghost predicate LiveJobsFunded(db: Db) {
    forall j :: j in db.jobs && !Terminal(db.jobs[j].state) ==> HasLocked(db.escrows, j)
  }

  ghost predicate Balanced(accounts: map<Id, Account>, escrows: map<Id, Escrow>) {
    && (forall a :: EscrowedOf(accounts, a) == Sum(HeldBy(escrows, a)))
    && forall a :: a in accounts ==> accounts[a].available.Some? && accounts[a].available.value >= 0.0
  }

  ghost predicate Inv(db: Db) {
    OnePerJob(db) && LiveJobsFunded(db) && Balanced(db.accounts, db.escrows)
  }

  // ----- sums of locked escrows -----

  lemma HeldByRelease(escrows: map<Id, Escrow>, e: Id, account: Id)
    requires e in escrows && escrows[e].state == Held
    ensures Sum(HeldBy(escrows[e := escrows[e].(state := Released)], account))
            == Sum(HeldBy(escrows, account)) - if escrows[e].consumer == account then escrows[e].lockedNmc else 0.0
  {
    var m, m' := HeldBy(escrows, account), HeldBy(escrows[e := escrows[e].(state := Released)], account);
    if escrows[e].consumer == account {
      SumRemove(m, e);
      assert m' == m - {e};
    } else {
      assert m' == m;
    }
  }

  lemma HeldByAdd(escrows: map<Id, Escrow>, e: Id, esc: Escrow, account: Id)
    requires e !in escrows && esc.state == Held
    ensures Sum(HeldBy(escrows[e := esc], account))
            == Sum(HeldBy(escrows, account)) + if esc.consumer == account then esc.lockedNmc else 0.0
  {
    var m, m' := HeldBy(escrows, account), HeldBy(escrows[e := esc], account);
    if esc.consumer == account {
      SumUpdate(m, e, esc.lockedNmc);
      assert m' == m[e := esc.lockedNmc];
    } else {
      assert m' == m;
    }
  }

  lemma HeldByCovers(db: Db, e: Id)
    requires OnePerJob(db) && e in db.escrows && db.escrows[e].state == Held
    ensures db.escrows[e].lockedNmc <= Sum(HeldBy(db.escrows, db.escrows[e].consumer))
  {
    SumCovers(HeldBy(db.escrows, db.escrows[e].consumer), e);
  }

  // ----- each step keeps the invariant -----

  lemma SubmitKeepsInv(db: Db, r: SubmitRequest, jobId: Id, escrowId: Id, now: int)
    requires Inv(db) && jobId !in db.jobs && escrowId !in db.escrows && MaxCost(r) >= 0.0
    requires Submit(db, r, jobId, escrowId, now).Ok?
    ensures Inv(Submit(db, r, jobId, escrowId, now).value)
  {
    var db' := Submit(db, r, jobId, escrowId, now).value;
    forall a ensures EscrowedOf(db'.accounts, a) == Sum(HeldBy(db'.escrows, a)) {
      HeldByAdd(db.escrows, escrowId, db'.escrows[escrowId], a);
    }
    assert HeldFor(db'.escrows, escrowId, jobId);
    forall e | IsHeld(db', e) && e != escrowId ensures IsHeld(db, e) && db'.escrows[e] == db.escrows[e] {
    }
    forall j | j in db'.jobs && !Terminal(db'.jobs[j].state) ensures HasLocked(db'.escrows, j) {
      if j != jobId {
        var e :| HeldFor(db.escrows, e, j);
        assert HeldFor(db'.escrows, e, j);
      }
    }
  }

  function WorthOf(accounts: map<Id, Account>, a: Id): real {
    if a in accounts then OrZero(accounts[a].available) + accounts[a].escrowed else 0.0
  }

  /** `locked` moves from the account's escrowed to its available credits. Without an account there is
      nothing to move, or an account is opened. */
  predicate GivenBack(accounts: map<Id, Account>, after: map<Id, Account>, c: Id, locked: real) {
    || (c in accounts && after == accounts[c :=
         Account(Plus(accounts[c].available, locked), Max(0.0, accounts[c].escrowed - locked))])
    || (c !in accounts && (after == accounts || after == accounts[c := Account(Some(locked), 0.0)]))
  }

  lemma GiveBack(accounts: map<Id, Account>, after: map<Id, Account>, c: Id, locked: real, a: Id)
    requires GivenBack(accounts, after, c, locked) && 0.0 <= locked <= EscrowedOf(accounts, c)
    requires c in accounts ==> accounts[c].available.Some?
    ensures EscrowedOf(after, a) == EscrowedOf(accounts, a) - if a == c then locked else 0.0
    ensures WorthOf(after, a) == WorthOf(accounts, a)
    ensures a in accounts ==> a in after && OrZero(after[a].available) >= OrZero(accounts[a].available)
    ensures a in after && (a in accounts ==> accounts[a].available.Some?) ==> after[a].available.Some?
    ensures a in after && a !in accounts ==> after[a].available == Some(0.0)
  {
  }

  lemma GiveBackWorth(accounts: map<Id, Account>, after: map<Id, Account>, c: Id, locked: real)
    requires GivenBack(accounts, after, c, locked) && 0.0 <= locked <= EscrowedOf(accounts, c)
    requires c in accounts ==> accounts[c].available.Some?
    ensures Worth(after) == Worth(accounts)
  {
    if after != accounts {
      WorthUpdate(accounts, c, after[c]);
      GiveBack(accounts, after, c, locked, c);
    }
  }

  /** Releasing a job's one locked escrow to its consumer, while the job ends. */
  lemma SettleKeepsInv(db: Db, db': Db, job: Id, e: Id, end: JobState)
    requires Inv(db) && job in db.jobs && Terminal(end) && HeldFor(db.escrows, e, job)
    requires db'.jobs == db.jobs[job := db.jobs[job].(state := end)]
    requires db'.escrows == db.escrows[e := db.escrows[e].(state := Released)]
    requires GivenBack(db.accounts, db'.accounts, db.jobs[job].consumer, db.escrows[e].lockedNmc)
    ensures Inv(db')
    ensures Worth(db'.accounts) == Worth(db.accounts)
  {
    hide Balanced, GivenBack;
    assert IsHeld(db, e);
    assert db.escrows[e].consumer == db.jobs[job].consumer;
    SettleBalances(db, db'.accounts, e);
    forall f | IsHeld(db', f) ensures f != e && IsHeld(db, f) && db'.escrows[f] == db.escrows[f] {
    }
    forall j | j in db'.jobs && !Terminal(db'.jobs[j].state) ensures HasLocked(db'.escrows, j) {
      var f :| HeldFor(db.escrows, f, j);
      assert HeldFor(db'.escrows, f, j);
    }
  }

  lemma SettleBalances(db: Db, after: map<Id, Account>, e: Id)
    requires OnePerJob(db) && Balanced(db.accounts, db.escrows) && IsHeld(db, e)
    requires GivenBack(db.accounts, after, db.escrows[e].consumer, db.escrows[e].lockedNmc)
    ensures Balanced(after, db.escrows[e := db.escrows[e].(state := Released)])
    ensures Worth(after) == Worth(db.accounts)
  {
    hide GivenBack, Sum, HeldBy, Worth, EscrowedOf;
    var c, locked := db.escrows[e].consumer, db.escrows[e].lockedNmc;
    HeldByCovers(db, e);
    assert EscrowedOf(db.accounts, c) == Sum(HeldBy(db.escrows, c));
    forall a ensures EscrowedOf(after, a) == Sum(HeldBy(db.escrows[e := db.escrows[e].(state := Released)], a)) {
      GiveBack(db.accounts, after, c, locked, a);
      HeldByRelease(db.escrows, e, a);
    }
    forall a | a in after ensures after[a].available.Some? && after[a].available.value >= 0.0 {
      GiveBack(db.accounts, after, c, locked, a);
    }
    GiveBackWorth(db.accounts, after, c, locked);
  }

  lemma CancelKeepsInv(db: Db, job: Id, row: Option<Id>)
    requires Inv(db) && LockedRow(db.escrows, job, row) && Cancel(db, job, row).Ok?
    ensures row.Some? && Inv(Cancel(db, job, row).value)
    ensures Worth(Cancel(db, job, row).value.accounts) == Worth(db.accounts)
  {
    assert HasLocked(db.escrows, job);
    var e := row.value;
    assert ReleaseAllOf(db.escrows, job) == db.escrows[e := db.escrows[e].(state := Released)];
    SettleKeepsInv(db, Cancel(db, job, row).value, job, e, Cancelled);
  }

  lemma LiveJobHasRow(db: Db, job: Id, row: Option<Id>)
    requires Inv(db) && LockedRow(db.escrows, job, row) && job in db.jobs && !Terminal(db.jobs[job].state)
    ensures row.Some? && db.escrows[row.value].consumer == db.jobs[job].consumer
  {
    assert HasLocked(db.escrows, job);
    assert IsHeld(db, row.value);
  }

  lemma DisconnectKeepsInv(db: Db, p: Id, activeJob: Option<Id>, row: Option<Id>)
    requires Inv(db) && (activeJob.Some? ==> LockedRow(db.escrows, activeJob.value, row))
    ensures Inv(HandleStale(db, p, activeJob, row))
    ensures Worth(HandleStale(db, p, activeJob, row).accounts) == Worth(db.accounts)
  {
    hide OnePerJob, LiveJobsFunded, Balanced, Worth;
    var db' := HandleStale(db, p, activeJob, row);
    if activeJob.Some? && activeJob.value in db.jobs && InProgress(db.jobs[activeJob.value].state) {
      var job := activeJob.value;
      LiveJobHasRow(db, job, row);
      if Restorable(db.jobs[job]) {
        SameStatusKeepsInv(db, db');
      } else {
        SettleKeepsInv(db, db', job, row.value, Failed);
      }
    } else {
      SameStatusKeepsInv(db, db');
    }
  }

  /** Steps that touch no account and no escrow, and end no job. */
  lemma SameStatusKeepsInv(db: Db, db': Db)
    requires Inv(db) && db'.accounts == db.accounts && db'.escrows == db.escrows && db'.jobs.Keys == db.jobs.Keys
    requires forall j :: j in db.jobs ==>
               && db'.jobs[j].consumer == db.jobs[j].consumer
               && (Terminal(db'.jobs[j].state) <==> Terminal(db.jobs[j].state))
    ensures Inv(db')
  {
  }

  lemma CreditKeepsInv(db: Db, authorized: bool, account: Id, amount: real, session: string)
    requires Inv(db) && StripeCredit(db, authorized, account, amount, session).Ok?
    ensures Inv(StripeCredit(db, authorized, account, amount, session).value)
    ensures Worth(StripeCredit(db, authorized, account, amount, session).value.accounts) == Worth(db.accounts) + amount
  {
    WorthUpdate(db.accounts, account, StripeCredit(db, authorized, account, amount, session).value.accounts[account]);
  }

  lemma WithdrawKeepsInv(db: Db, account: Id, amount: real, dest: string)
    requires Inv(db) && Withdraw(db, account, amount, dest).Ok?
    ensures Inv(Withdraw(db, account, amount, dest).value)
    ensures Worth(Withdraw(db, account, amount, dest).value.accounts) == Worth(db.accounts) - amount
  {
    WorthUpdate(db.accounts, account, Withdraw(db, account, amount, dest).value.accounts[account]);
  }

  // ----- net worth -----

  function Worths(accounts: map<Id, Account>): map<Id, real> {
    map a | a in accounts :: OrZero(accounts[a].available) + accounts[a].escrowed
  }

  /** Everything all accounts own, available or locked. */
  ghost function Worth(accounts: map<Id, Account>): real {
    Sum(Worths(accounts))
  }

  lemma WorthUpdate(accounts: map<Id, Account>, a: Id, acc: Account)
    ensures Worth(accounts[a := acc]) == Worth(accounts) - At(Worths(accounts), a) + OrZero(acc.available) + acc.escrowed
  {
    assert Worths(accounts[a := acc]) == Worths(accounts)[a := OrZero(acc.available) + acc.escrowed];
    SumUpdate(Worths(accounts), a, OrZero(acc.available) + acc.escrowed);
  }

  /** What a step brings in or takes out. */
  function Inflow(db: Db, step: Step): real {
    match step
    case Credit(authorized, account, amount, session) =>
      if StripeCredit(db, authorized, account, amount, session).Ok? then amount else 0.0
    case WithdrawCredits(account, amount, dest) =>
      if Withdraw(db, account, amount, dest).Ok? then -amount else 0.0
    case _ => 0.0
  }

  lemma SubmitKeepsWorth(db: Db, r: SubmitRequest, jobId: Id, escrowId: Id, now: int)
    requires Inv(db) && jobId !in db.jobs && escrowId !in db.escrows && Submit(db, r, jobId, escrowId, now).Ok?
    ensures Worth(Submit(db, r, jobId, escrowId, now).value.accounts) == Worth(db.accounts)
  {
    if r.account in db.accounts {
      WorthUpdate(db.accounts, r.account, Charge(db.accounts, r.account, MaxCost(r))[r.account]);
    }
  }

  lemma NextKeepsInv(db: Db, step: Step)
    requires Inv(db) && Allowed(db, step)
    ensures Inv(Next(db, step))
    ensures Worth(Next(db, step).accounts) == Worth(db.accounts) + Inflow(db, step)
  {
    hide Inv, Worth, Submit, Cancel, StripeCredit, Withdraw, HandleStale, Assign, JobHeartbeat, SaveCheckpoint;
    match step
    case SubmitJob(r, jobId, escrowId, now) =>
      if Submit(db, r, jobId, escrowId, now).Ok? {
        SubmitKeepsInv(db, r, jobId, escrowId, now);
        SubmitKeepsWorth(db, r, jobId, escrowId, now);
      }
    case CancelJob(job) =>
      if Cancel(db, job, RowOf(db.escrows, job)).Ok? {
        CancelKeepsInv(db, job, RowOf(db.escrows, job));
      }
    case Credit(authorized, account, amount, session) =>
      if StripeCredit(db, authorized, account, amount, session).Ok? {
        CreditKeepsInv(db, authorized, account, amount, session);
      }
    case WithdrawCredits(account, amount, dest) =>
      if Withdraw(db, account, amount, dest).Ok? {
        WithdrawKeepsInv(db, account, amount, dest);
      }
    case Disconnect(p, activeJob) =>
      DisconnectKeepsInv(db, p, activeJob, if activeJob.Some? then RowOf(db.escrows, activeJob.value) else None);
    case AssignQueued(job, p, price) => AssignKeepsInvIff(db, job, p, price, db.jobs[job].checkpointUrl);
    case Poll(job, _) => RevivalBreaksInv(db, SetRunning(db, job), job);
    case Heartbeat(job, p, now) => HeartbeatKeepsInvIff(db, job, p, now);
    case Checkpoint(job, url) => CheckpointKeepsInv(db, job, url);
  }

  lemma CheckpointKeepsInv(db: Db, job: Id, url: string)
    requires Inv(db)
    ensures SaveCheckpoint(db, job, url).Ok? ==>
              Inv(SaveCheckpoint(db, job, url).value) && SaveCheckpoint(db, job, url).value.accounts == db.accounts
  {
    if job in db.jobs {
      SameStatusKeepsInv(db, SaveCheckpoint(db, job, url).value);
    }
  }

  // ----- main results -----

  lemma {:induction false} RunKeepsInv(db: Db, steps: seq<Step>)
    requires Inv(db) && ValidRun(db, steps)
    ensures Inv(Run(db, steps))
    decreases |steps|
  {
    if steps == [] {
    } else {
      NextKeepsInv(db, steps[0]);
      RunKeepsInv(Next(db, steps[0]), steps[1..]);
    }
  }

  const EMPTY := Db(map[], map[], map[], map[], {})

  lemma EmptyInv(providers: map<Id, Provider>)
    ensures Inv(EMPTY.(providers := providers))
  {
    forall a ensures Sum(HeldBy(EMPTY.escrows, a)) == 0.0 {
      assert HeldBy(EMPTY.escrows, a) == map[];
    }
  }

  /** Over every run from empty tables: a job is live exactly when it has one locked escrow, each
      account's escrowed amount is the sum of its locked escrows, and available never goes negative
      (or NULL). */
  lemma EscrowsMatchJobs(providers: map<Id, Provider>, steps: seq<Step>)
    requires ValidRun(EMPTY.(providers := providers), steps)
    ensures var db := Run(EMPTY.(providers := providers), steps);
            && (forall j :: j in db.jobs ==> (!Terminal(db.jobs[j].state) <==> exists e :: HeldFor(db.escrows, e, j)))
            && (forall e, f :: IsHeld(db, e) && IsHeld(db, f) && db.escrows[e].job == db.escrows[f].job ==> e == f)
            && (forall a :: EscrowedOf(db.accounts, a) == Sum(HeldBy(db.escrows, a)))
            && forall a :: a in db.accounts ==> db.accounts[a].available.Some? && db.accounts[a].available.value >= 0.0
  {
    EmptyInv(providers);
    RunKeepsInv(EMPTY.(providers := providers), steps);
    var db := Run(EMPTY.(providers := providers), steps);
    forall j | j in db.jobs && !Terminal(db.jobs[j].state) ensures exists e :: HeldFor(db.escrows, e, j) {
      assert HasLocked(db.escrows, j);
    }
    forall j, e | j in db.jobs && HeldFor(db.escrows, e, j) ensures !Terminal(db.jobs[j].state) {
      assert IsHeld(db, e);
    }
  }

  ghost function Inflows(db: Db, steps: seq<Step>): real
    requires ValidRun(db, steps)
    decreases |steps|
  {
    if steps == [] then 0.0 else Inflow(db, steps[0]) + Inflows(Next(db, steps[0]), steps[1..])
  }

  /** Refunds, cancellations and locks create and destroy nothing: the accounts together own what was
      credited less what was withdrawn. */
  lemma {:induction false} WorthConserved(db: Db, steps: seq<Step>)
    requires Inv(db) && ValidRun(db, steps)
    ensures Worth(Run(db, steps).accounts) == Worth(db.accounts) + Inflows(db, steps)
    decreases |steps|
  {
    if steps == [] {
    } else {
      NextKeepsInv(db, steps[0]);
      WorthConserved(Next(db, steps[0]), steps[1..]);
    }
  }

  ghost predicate Refunds(db: Db, step: Step, e: Id)
    requires Allowed(db, step)
  {
    e in db.escrows && db.escrows[e].state == Held
    && e in Next(db, step).escrows && Next(db, step).escrows[e].state == Released
  }

  ghost function RefundCount(db: Db, steps: seq<Step>, e: Id): nat
    requires ValidRun(db, steps)
    decreases |steps|
  {
    if steps == [] then 0
    else (if Refunds(db, steps[0], e) then 1 else 0) + RefundCount(Next(db, steps[0]), steps[1..], e)
  }

  lemma ReleasedStays(db: Db, step: Step, e: Id)
    requires Allowed(db, step) && e in db.escrows && db.escrows[e].state == Released
    ensures e in Next(db, step).escrows && Next(db, step).escrows[e] == db.escrows[e]
  {
    hide RefundOnCancel, FreeProvidersOf, Charge, Penalise;
  }

  /** Each escrow is refunded at most once, and never after it was released. */
  lemma {:induction false} RefundedOnce(db: Db, steps: seq<Step>, e: Id)
    requires ValidRun(db, steps)
    ensures RefundCount(db, steps, e) <= 1
    ensures e in db.escrows && db.escrows[e].state == Released ==> RefundCount(db, steps, e) == 0
    decreases |steps|
  {
    if steps == [] {
    } else {
      if e in db.escrows && db.escrows[e].state == Released {
        ReleasedStays(db, steps[0], e);
      }
      RefundedOnce(Next(db, steps[0]), steps[1..], e);
    }
  }

  // ----- the conditions of a run are the exact ones -----

  /** A submission that is accepted keeps the invariant exactly when its cost is not negative. */
  lemma SubmitKeepsInvIff(db: Db, r: SubmitRequest, jobId: Id, escrowId: Id, now: int)
    requires Inv(db) && jobId !in db.jobs && escrowId !in db.escrows
    requires Submit(db, r, jobId, escrowId, now).Ok?
    ensures Inv(Submit(db, r, jobId, escrowId, now).value) <==> MaxCost(r) >= 0.0
  {
    if MaxCost(r) >= 0.0 {
      SubmitKeepsInv(db, r, jobId, escrowId, now);
    } else {
      assert IsHeld(Submit(db, r, jobId, escrowId, now).value, escrowId);
    }
  }

  /** Assignment looks at no state: it keeps the invariant exactly when the job had not ended. */
  lemma AssignKeepsInvIff(db: Db, job: Id, p: Id, price: real, url: Option<string>)
    requires Inv(db) && job in db.jobs
    ensures Assign(db, job, p, price, url).accounts == db.accounts
    ensures Inv(Assign(db, job, p, price, url)) <==> !Terminal(db.jobs[job].state)
  {
    RevivalBreaksInv(db, Assign(db, job, p, price, url), job);
  }

  /** So does a heartbeat from the job's own provider. */
  lemma HeartbeatKeepsInvIff(db: Db, job: Id, p: Id, now: int)
    requires Inv(db) && job in db.jobs
    ensures JobHeartbeat(db, job, p, now).accounts == db.accounts
    ensures Inv(JobHeartbeat(db, job, p, now)) <==> !(db.jobs[job].provider == Some(p) && Terminal(db.jobs[job].state))
  {
    if db.jobs[job].provider == Some(p) {
      RevivalBreaksInv(db, JobHeartbeat(db, job, p, now), job);
    } else {
      SameStatusKeepsInv(db, JobHeartbeat(db, job, p, now));
    }
  }

  lemma RevivalBreaksInv(db: Db, db': Db, job: Id)
    requires Inv(db) && job in db.jobs
    requires db'.escrows == db.escrows && db'.accounts == db.accounts && job in db'.jobs && !Terminal(db'.jobs[job].state)
    requires db'.jobs[job].consumer == db.jobs[job].consumer && db'.jobs == db.jobs[job := db'.jobs[job]]
    ensures Inv(db') <==> !Terminal(db.jobs[job].state)
  {
    if Terminal(db.jobs[job].state) {
      forall e ensures !HeldFor(db.escrows, e, job) {
        assert IsHeld(db, e) ==> !Terminal(db.jobs[db.escrows[e].job].state);
      }
      assert !HasLocked(db'.escrows, job);
    } else {
      SameStatusKeepsInv(db, db');
    }
  }

  /** Cancelling a live job turns its consumer's balance into NULL exactly when the job has no locked
      escrow (a job submitted over gRPC has none). */
  lemma CancelNullsBalanceIff(db: Db, job: Id, row: Option<Id>)
    requires LockedRow(db.escrows, job, row) && Cancel(db, job, row).Ok?
    requires db.jobs[job].consumer in db.accounts && db.accounts[db.jobs[job].consumer].available.Some?
    ensures Cancel(db, job, row).value.accounts[db.jobs[job].consumer].available.None? <==> !HasLocked(db.escrows, job)
  {
    if HasLocked(db.escrows, job) {
      var e :| HeldFor(db.escrows, e, job);
    }
  }
}
