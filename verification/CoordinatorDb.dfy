/** The coordinator's tables, and what each handler does to them. */
module CoordinatorDb {
  import opened Wrappers
  import opened Utf8

  type Id = string

  datatype JobState = Queued | Assigned | Running | Complete | Failed | Cancelled

  datatype Job = Job(consumer: Id, state: JobState, provider: Option<Id>, minRamGb: Option<int>,
                     maxPrice: Option<real>, price: Option<real>, createdAt: int,
                     checkpointUrl: Option<string>, restoreAttempts: int)

  datatype ProviderState = Offline | Available | Leased | Paused

  datatype Provider = Provider(state: ProviderState, maxRamGb: Option<int>, floorPrice: Option<real>,
                               trust: Option<real>, activeJob: Option<Id>, lastSeen: Option<int>)

  /** `available` is a nullable column, and None is SQL's NULL. */
  datatype Account = Account(available: Option<real>, escrowed: real)

  datatype EscrowState = Held | Released

  datatype Escrow = Escrow(job: Id, consumer: Id, lockedNmc: real, state: EscrowState)

  datatype Db = Db(jobs: map<Id, Job>, providers: map<Id, Provider>, accounts: map<Id, Account>,
                   escrows: map<Id, Escrow>, stripeSessions: set<string>)

  datatype Refusal = BadRequest | NotFound | AlreadyTerminal | InsufficientBalance | InvalidAddress | Duplicate | Unauthorized

  predicate Terminal(s: JobState) {
    s == Complete || s == Failed || s == Cancelled
  }

  predicate InProgress(s: JobState) {
    s == Running || s == Assigned
  }

  function Max(a: real, b: real): real {
    if a < b then b else a
  }

  /** NULL absorbs addition. */
  function Plus(a: Option<real>, x: real): Option<real> {
    if a.Some? then Some(a.value + x) else None
  }

  function OrZero(a: Option<real>): real {
    if a.Some? then a.value else 0.0
  }

  // ----- POST /jobs -----

  datatype SubmitRequest = SubmitRequest(account: Id, minRamGb: int, maxDurationSecs: int, maxPrice: real)

  function MaxCost(r: SubmitRequest): real {
    r.maxPrice * (r.maxDurationSecs as real / 3600.0)
  }

  function AvailableOf(db: Db, account: Id): real {
    if account in db.accounts then OrZero(db.accounts[account].available) else 0.0
  }

  /** The identifiers are fresh UUIDs. */
  function Submit(db: Db, r: SubmitRequest, jobId: Id, escrowId: Id, now: int): Result<Db, Refusal>
    requires jobId !in db.jobs && escrowId !in db.escrows
  {
    var cost := MaxCost(r);
    if AvailableOf(db, r.account) < cost then Err(InsufficientBalance)
    else
      var job := Job(r.account, Queued, None, Some(r.minRamGb), Some(r.maxPrice), None, now, None, 0);
      Ok(db.(jobs := db.jobs[jobId := job],
             accounts := Charge(db.accounts, r.account, cost),
             escrows := db.escrows[escrowId := Escrow(jobId, r.account, cost, Held)]))
  }

  /** UPDATE ... WHERE account_id: no row, no change. */
  function Charge(accounts: map<Id, Account>, id: Id, cost: real): map<Id, Account> {
    if id !in accounts then accounts
    else accounts[id := Account(Plus(accounts[id].available, -cost), accounts[id].escrowed + cost)]
  }

  // ----- DELETE /jobs/:id -----

  predicate HeldFor(escrows: map<Id, Escrow>, e: Id, job: Id) {
    e in escrows && escrows[e].job == job && escrows[e].state == Held
  }

  /** `row` is what a query for one locked escrow of the job may return. */
  predicate LockedRow(escrows: map<Id, Escrow>, job: Id, row: Option<Id>) {
    match row
    case None => forall e :: e in escrows ==> !HeldFor(escrows, e, job)
    case Some(e) => HeldFor(escrows, e, job)
  }

  /** Both sub-selects are NULL when no row is found; GREATEST skips a NULL. */
  function RefundOnCancel(db: Db, consumer: Id, row: Option<Id>): map<Id, Account>
    requires row.Some? ==> row.value in db.escrows
  {
    if consumer !in db.accounts then db.accounts
    else
      var acc := db.accounts[consumer];
      match row
      case None => db.accounts[consumer := Account(None, 0.0)]
      case Some(e) =>
        var locked := db.escrows[e].lockedNmc;
        db.accounts[consumer := Account(Plus(acc.available, locked), Max(0.0, acc.escrowed - locked))]
  }

  function ReleaseAllOf(escrows: map<Id, Escrow>, job: Id): map<Id, Escrow> {
    map e | e in escrows :: if HeldFor(escrows, e, job) then escrows[e].(state := Released) else escrows[e]
  }

  function FreeProvidersOf(providers: map<Id, Provider>, job: Id): map<Id, Provider> {
    map p | p in providers ::
      if providers[p].activeJob == Some(job) then providers[p].(state := Available, activeJob := None) else providers[p]
  }

  function Cancel(db: Db, job: Id, row: Option<Id>): Result<Db, Refusal>
    requires LockedRow(db.escrows, job, row)
  {
    if job !in db.jobs then Err(NotFound)
    else if Terminal(db.jobs[job].state) then Err(AlreadyTerminal)
    else Ok(Db(db.jobs[job := db.jobs[job].(state := Cancelled)],
               FreeProvidersOf(db.providers, job),
               RefundOnCancel(db, db.jobs[job].consumer, row),
               ReleaseAllOf(db.escrows, job),
               db.stripeSessions))
  }

  // ----- credits -----

  function StripeCredit(db: Db, authorized: bool, account: Id, amount: real, session: string): Result<Db, Refusal> {
    if !authorized then Err(Unauthorized)
    else if amount <= 0.0 then Err(BadRequest)
    else if session in db.stripeSessions then Err(Duplicate)
    else
      var acc := if account in db.accounts then db.accounts[account].(available := Plus(db.accounts[account].available, amount))
                 else Account(Some(amount), 0.0);
      Ok(db.(accounts := db.accounts[account := acc], stripeSessions := db.stripeSessions + {session}))
  }

  predicate ValidAddress(dest: string) {
    var hex := |dest| >= 2 && dest[..2] == "0x";
    (hex && ByteLength(dest) == 42) || (!hex && 32 <= ByteLength(dest) <= 44)
  }

  function Withdraw(db: Db, account: Id, amount: real, dest: string): Result<Db, Refusal> {
    if amount <= 0.0 then Err(BadRequest)
    else if !ValidAddress(dest) then Err(InvalidAddress)
    else if AvailableOf(db, account) < amount then Err(InsufficientBalance)
    else
      var acc := db.accounts[account];
      Ok(db.(accounts := db.accounts[account := acc.(available := Plus(acc.available, -amount))]))
  }

  // ----- assignment, heartbeats, checkpoints -----

  function Assign(db: Db, job: Id, provider: Id, price: real, checkpointUrl: Option<string>): Db {
    var jobs :=
      if job !in db.jobs then db.jobs
      else
        var j := db.jobs[job];
        db.jobs[job := j.(state := Assigned, provider := Some(provider), price := Some(price),
                          restoreAttempts := j.restoreAttempts + if checkpointUrl.Some? then 1 else 0)];
    var providers :=
      if provider !in db.providers then db.providers
      else db.providers[provider := db.providers[provider].(state := Leased, activeJob := Some(job))];
    db.(jobs := jobs, providers := providers)
  }

  function SetRunning(db: Db, job: Id): Db
    requires job in db.jobs
  {
    db.(jobs := db.jobs[job := db.jobs[job].(state := Running)])
  }

  /** No guard on the job's state: only the provider has to match. */
  function JobHeartbeat(db: Db, job: Id, provider: Id, now: int): Db {
    var db1 := if job in db.jobs && db.jobs[job].provider == Some(provider) then SetRunning(db, job) else db;
    if provider !in db.providers then db1
    else db1.(providers := db1.providers[provider := db1.providers[provider].(lastSeen := Some(now))])
  }

  /** The checkpoint row refers to the job, so an unknown job is refused. */
  function SaveCheckpoint(db: Db, job: Id, url: string): Result<Db, Refusal> {
    if job !in db.jobs then Err(NotFound)
    else Ok(db.(jobs := db.jobs[job := db.jobs[job].(checkpointUrl := Some(url))]))
  }

  // ----- the heartbeat watcher -----

  const MAX_RESTORE_ATTEMPTS := 3
  const PROVIDER_TIMEOUT_SECS := 120

  function Refund(db: Db, row: Option<Id>): Db
    requires row.Some? ==> row.value in db.escrows
  {
    match row
    case None => db
    case Some(e) =>
      var esc := db.escrows[e];
      var c, locked := esc.consumer, esc.lockedNmc;
      var acc :=
        if c !in db.accounts then Account(Some(locked), 0.0)
        else Account(Plus(db.accounts[c].available, locked), Max(0.0, db.accounts[c].escrowed - locked));
      db.(escrows := db.escrows[e := esc.(state := Released)], accounts := db.accounts[c := acc])
  }

  /** GREATEST(0, LEAST(5, trust - 0.2)); LEAST skips a NULL. */
  function Penalised(trust: Option<real>): Option<real> {
    match trust
    case None => Some(5.0)
    case Some(t) => if t - 0.2 > 5.0 then Some(5.0) else Some(Max(0.0, t - 0.2))
  }

  function Penalise(providers: map<Id, Provider>, p: Id): map<Id, Provider> {
    if p !in providers then providers else providers[p := providers[p].(trust := Penalised(providers[p].trust))]
  }

  predicate Restorable(j: Job) {
    j.checkpointUrl.Some? && j.restoreAttempts < MAX_RESTORE_ATTEMPTS
  }

  function MigrateOrFail(db: Db, job: Id, provider: Id, row: Option<Id>): Db
    requires LockedRow(db.escrows, job, row)
  {
    if job !in db.jobs || !InProgress(db.jobs[job].state) then db
    else if Restorable(db.jobs[job]) then
      db.(jobs := db.jobs[job := db.jobs[job].(state := Queued, provider := None)])
    else
      var failed := db.(jobs := db.jobs[job := db.jobs[job].(state := Failed)]);
      var refunded := Refund(failed, row);
      refunded.(providers := Penalise(refunded.providers, provider))
  }

  function MarkOffline(db: Db, p: Id): Db {
    if p !in db.providers then db
    else db.(providers := db.providers[p := db.providers[p].(state := Offline, activeJob := None)])
  }

  /** One turn of the watcher's loop, for one row of its snapshot. */
  function HandleStale(db: Db, p: Id, activeJob: Option<Id>, row: Option<Id>): Db
    requires activeJob.Some? ==> LockedRow(db.escrows, activeJob.value, row)
  {
    var db1 := MarkOffline(db, p);
    match activeJob
    case None => db1
    case Some(job) => MigrateOrFail(db1, job, p, row)
  }
}
