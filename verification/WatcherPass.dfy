/** One pass of the heartbeat watcher over its snapshot of silent providers. */
module WatcherPass {
  import opened Wrappers
  import opened Sums
  import opened CoordinatorDb
  import opened EscrowRuns

  datatype StaleRow = StaleRow(provider: Id, activeJob: Option<Id>)

  /** One turn of the loop; the refund query may return any locked escrow of the job. */
  ghost predicate Turn(db: Db, r: StaleRow, db': Db) {
    exists row: Option<Id> ::
      (r.activeJob.Some? ==> LockedRow(db.escrows, r.activeJob.value, row))
      && db' == HandleStale(db, r.provider, r.activeJob, row)
  }

  /** The tables before, between and after the turns of a pass. */
  ghost predicate Trace(states: seq<Db>, stale: seq<StaleRow>) {
    |states| == |stale| + 1 && forall i :: 0 <= i < |stale| ==> Turn(states[i], stale[i], states[i + 1])
  }

  /** Leased, and silent for longer than the timeout; a NULL last_seen meets no condition. */
  predicate IsStale(p: Provider, now: int) {
    p.state == Leased && p.lastSeen.Some? && p.lastSeen.value < now - PROVIDER_TIMEOUT_SECS
  }

  /** What the watcher's query returns, in some order. */
  ghost predicate StaleRows(providers: map<Id, Provider>, now: int, stale: seq<StaleRow>) {
    && Snapshot(stale)
    && (forall i :: 0 <= i < |stale| ==>
          var p := stale[i].provider;
          p in providers && IsStale(providers[p], now) && stale[i].activeJob == providers[p].activeJob)
    && forall p :: p in providers && IsStale(providers[p], now) ==> exists i :: 0 <= i < |stale| && stale[i].provider == p
  }

  /** The snapshot: one row per provider (its primary key). */
  ghost predicate Snapshot(stale: seq<StaleRow>) {
    forall i, j :: 0 <= i < j < |stale| ==> stale[i].provider != stale[j].provider
  }

  /** What the pass is given: one locked escrow per job, and balances that cover the locked escrows. */
  ghost predicate Covered(db: Db) {
    && (forall e :: IsHeld(db, e) ==> db.escrows[e].lockedNmc >= 0.0)
    && (forall e, f :: IsHeld(db, e) && IsHeld(db, f) && db.escrows[e].job == db.escrows[f].job ==> e == f)
    && (forall a :: EscrowedOf(db.accounts, a) >= Sum(HeldBy(db.escrows, a)))
    && forall a :: a in db.accounts ==> db.accounts[a].available.Some?
  }

  lemma InvIsCovered(db: Db)
    requires Inv(db)
    ensures Covered(db)
  {
  }

  // ----- what the pass should do, independent of its order -----

  ghost predicate NamedBefore(stale: seq<StaleRow>, k: nat, job: Id)
    requires k <= |stale|
  {
    exists i :: 0 <= i < k && stale[i].activeJob == Some(job)
  }

  function Handled(j: Job): Job {
    if Restorable(j) then j.(state := Queued, provider := None) else j.(state := Failed)
  }

  ghost predicate Touched(db: Db, stale: seq<StaleRow>, k: nat, job: Id)
    requires k <= |stale|
  {
    job in db.jobs && InProgress(db.jobs[job].state) && NamedBefore(stale, k, job)
  }

  ghost predicate Fails(db: Db, stale: seq<StaleRow>, k: nat, job: Id)
    requires k <= |stale|
  {
    Touched(db, stale, k, job) && !Restorable(db.jobs[job])
  }

  /** Row i is the first to name a job that fails. */
  ghost predicate Blamed(db: Db, stale: seq<StaleRow>, i: nat)
    requires i < |stale|
  {
    && stale[i].activeJob.Some?
    && Fails(db, stale, i + 1, stale[i].activeJob.value)
    && !NamedBefore(stale, i, stale[i].activeJob.value)
  }

  ghost predicate JobsDone(db: Db, stale: seq<StaleRow>, k: nat, jobs: map<Id, Job>)
    requires k <= |stale|
  {
    && jobs.Keys == db.jobs.Keys
    && forall j :: j in db.jobs ==> jobs[j] == if Touched(db, stale, k, j) then Handled(db.jobs[j]) else db.jobs[j]
  }

  ghost predicate EscrowsDone(db: Db, stale: seq<StaleRow>, k: nat, escrows: map<Id, Escrow>)
    requires k <= |stale|
  {
    && escrows.Keys == db.escrows.Keys
    && forall e :: e in db.escrows ==>
         escrows[e] ==
         if IsHeld(db, e) && Fails(db, stale, k, db.escrows[e].job) then db.escrows[e].(state := Released) else db.escrows[e]
  }

  ghost predicate AccountsDone(db: Db, now: Db) {
    && db.accounts.Keys <= now.accounts.Keys
    && forall a :: WorthOf(now.accounts, a) == WorthOf(db.accounts, a)
  }

  /** Two tenths less, within 0 and 5; an unrated provider ends at 5. */
  function LessTrusted(trust: Option<real>): real {
    match trust
    case None => 5.0
    case Some(t) => if t < 0.2 then 0.0 else if t > 5.2 then 5.0 else t - 0.2
  }

  /** What the pass leaves of the provider that row i names. */
  ghost function HandledProvider(db: Db, stale: seq<StaleRow>, i: nat): Provider
    requires i < |stale| && stale[i].provider in db.providers
  {
    var p := db.providers[stale[i].provider];
    p.(state := Offline, activeJob := None, trust := if Blamed(db, stale, i) then Some(LessTrusted(p.trust)) else p.trust)
  }

  ghost predicate ProvidersDone(db: Db, stale: seq<StaleRow>, k: nat, providers: map<Id, Provider>)
    requires k <= |stale|
  {
    && providers.Keys == db.providers.Keys
    && (forall i :: 0 <= i < k && stale[i].provider in db.providers ==>
          providers[stale[i].provider] == HandledProvider(db, stale, i))
    && forall p :: p in db.providers && (forall i :: 0 <= i < k ==> stale[i].provider != p) ==>
         providers[p] == db.providers[p]
  }

  ghost predicate Done(db: Db, stale: seq<StaleRow>, k: nat, now: Db)
    requires k <= |stale|
  {
    && JobsDone(db, stale, k, now.jobs) && EscrowsDone(db, stale, k, now.escrows)
    && AccountsDone(db, now) && ProvidersDone(db, stale, k, now.providers)
    && Covered(now)
  }

  // ----- one turn -----

  ghost predicate Acts(stale: seq<StaleRow>, k: nat, jobs: map<Id, Job>)
    requires k < |stale|
  {
    stale[k].activeJob.Some? && stale[k].activeJob.value in jobs && InProgress(jobs[stale[k].activeJob.value].state)
  }

  lemma NamedNext(stale: seq<StaleRow>, k: nat, job: Id)
    requires k < |stale|
    ensures NamedBefore(stale, k + 1, job) <==> NamedBefore(stale, k, job) || stale[k].activeJob == Some(job)
  {
  }

  /** A job is in progress at its turn exactly when it was at the start and no earlier row named it. */
  lemma ActsMeans(db: Db, stale: seq<StaleRow>, k: nat, jobs: map<Id, Job>)
    requires k < |stale| && JobsDone(db, stale, k, jobs)
    ensures Acts(stale, k, jobs) ==>
              var job := stale[k].activeJob.value;
              && job in db.jobs && jobs[job] == db.jobs[job] && !Touched(db, stale, k, job)
              && (Blamed(db, stale, k) <==> !Restorable(jobs[job]))
              && forall j :: Touched(db, stale, k + 1, j) <==> Touched(db, stale, k, j) || j == job
    ensures !Acts(stale, k, jobs) ==>
              !Blamed(db, stale, k) && forall j :: Touched(db, stale, k + 1, j) <==> Touched(db, stale, k, j)
  {
    forall j ensures NamedBefore(stale, k + 1, j) <==> NamedBefore(stale, k, j) || stale[k].activeJob == Some(j) {
      NamedNext(stale, k, j);
    }
  }

  lemma NextProvider(db: Db, stale: seq<StaleRow>, k: nat, providers: map<Id, Provider>)
    requires Snapshot(stale) && k < |stale| && ProvidersDone(db, stale, k, providers)
    ensures var p := stale[k].provider;
            && (p in providers <==> p in db.providers)
            && (p in providers ==> providers[p] == db.providers[p])
            && ProvidersDone(db, stale, k + 1, if p in providers then providers[p := HandledProvider(db, stale, k)] else providers)
  {
    hide Blamed, LessTrusted;
  }

  lemma ProvidersTurn(db: Db, stale: seq<StaleRow>, k: nat, now: Db)
    requires Snapshot(stale) && k < |stale| && ProvidersDone(db, stale, k, now.providers)
    ensures var offline := MarkOffline(now, stale[k].provider).providers;
            ProvidersDone(db, stale, k + 1, if Blamed(db, stale, k) then Penalise(offline, stale[k].provider) else offline)
  {
    hide Blamed, ProvidersDone, Snapshot;
    var p, offline := stale[k].provider, MarkOffline(now, stale[k].provider).providers;
    NextProvider(db, stale, k, now.providers);
    if p in now.providers {
      assert (if Blamed(db, stale, k) then Penalise(offline, p) else offline)
          == now.providers[p := HandledProvider(db, stale, k)];
    }
  }

  lemma JobsTurn(db: Db, stale: seq<StaleRow>, k: nat, jobs: map<Id, Job>)
    requires k < |stale| && JobsDone(db, stale, k, jobs)
    ensures Acts(stale, k, jobs) ==>
              var job := stale[k].activeJob.value; JobsDone(db, stale, k + 1, jobs[job := Handled(jobs[job])])
    ensures !Acts(stale, k, jobs) ==> JobsDone(db, stale, k + 1, jobs)
  {
    ActsMeans(db, stale, k, jobs);
    hide Touched, Handled;
  }

  lemma EscrowsUnmoved(db: Db, stale: seq<StaleRow>, k: nat, jobs: map<Id, Job>, escrows: map<Id, Escrow>)
    requires k < |stale| && JobsDone(db, stale, k, jobs) && EscrowsDone(db, stale, k, escrows) && !Blamed(db, stale, k)
    ensures EscrowsDone(db, stale, k + 1, escrows)
  {
    ActsMeans(db, stale, k, jobs);
    forall j ensures Fails(db, stale, k + 1, j) <==> Fails(db, stale, k, j) {
    }
    hide Fails;
  }

  lemma RefundKeepsWorth(db: Db, e: Id)
    requires Covered(db) && IsHeld(db, e)
    ensures Covered(Refund(db, Some(e))) && AccountsDone(db, Refund(db, Some(e)))
  {
    hide GivenBack, Sum, HeldBy, EscrowedOf, WorthOf;
    var c, locked := db.escrows[e].consumer, db.escrows[e].lockedNmc;
    var now := Refund(db, Some(e));
    HeldCovers(db, e);
    RefundGivesBack(db, e);
    forall a ensures EscrowedOf(now.accounts, a) >= Sum(HeldBy(now.escrows, a))
                     && WorthOf(now.accounts, a) == WorthOf(db.accounts, a)
    {
      GiveBack(db.accounts, now.accounts, c, locked, a);
      HeldByRelease(db.escrows, e, a);
    }
    forall a | a in now.accounts ensures now.accounts[a].available.Some? {
      GiveBack(db.accounts, now.accounts, c, locked, a);
    }
    forall f | IsHeld(now, f) ensures IsHeld(db, f) && now.escrows[f] == db.escrows[f] {
    }
  }

  lemma HeldCovers(db: Db, e: Id)
    requires Covered(db) && IsHeld(db, e)
    ensures 0.0 <= db.escrows[e].lockedNmc <= EscrowedOf(db.accounts, db.escrows[e].consumer)
  {
    SumCovers(HeldBy(db.escrows, db.escrows[e].consumer), e);
  }

  lemma RefundGivesBack(db: Db, e: Id)
    requires e in db.escrows
    ensures GivenBack(db.accounts, Refund(db, Some(e)).accounts, db.escrows[e].consumer, db.escrows[e].lockedNmc)
  {
  }

  lemma FailEscrows(db: Db, stale: seq<StaleRow>, k: nat, now: Db, row: Option<Id>, job: Id)
    requires k < |stale| && EscrowsDone(db, stale, k, now.escrows) && Covered(now) && LockedRow(now.escrows, job, row)
    requires forall j :: Touched(db, stale, k + 1, j) <==> Touched(db, stale, k, j) || j == job
    requires job in db.jobs && !Restorable(db.jobs[job]) && !Touched(db, stale, k, job)
    ensures EscrowsDone(db, stale, k + 1, Refund(now, row).escrows)
    ensures Covered(Refund(now, row)) && AccountsDone(now, Refund(now, row))
  {
    if row.Some? {
      assert IsHeld(now, row.value);
      RefundKeepsWorth(now, row.value);
      forall e | e in db.escrows && IsHeld(db, e) && db.escrows[e].job == job ensures e == row.value {
        assert IsHeld(now, e);
      }
    } else {
      forall e | e in db.escrows && IsHeld(db, e) ensures db.escrows[e].job != job {
        assert !HeldFor(now.escrows, e, job);
      }
    }
  }

  lemma FailTurn(db: Db, stale: seq<StaleRow>, k: nat, now: Db, row: Option<Id>)
    requires Snapshot(stale) && k < |stale| && Done(db, stale, k, now)
    requires Acts(stale, k, now.jobs) && !Restorable(now.jobs[stale[k].activeJob.value])
    requires LockedRow(now.escrows, stale[k].activeJob.value, row)
    ensures Done(db, stale, k + 1, HandleStale(now, stale[k].provider, stale[k].activeJob, row))
  {
    hide JobsDone, EscrowsDone, ProvidersDone, Covered, Blamed, Touched, AccountsDone, WorthOf;
    var job := stale[k].activeJob.value;
    ActsMeans(db, stale, k, now.jobs);
    ProvidersTurn(db, stale, k, now);
    JobsTurn(db, stale, k, now.jobs);
    FailEscrows(db, stale, k, now, row, job);
    var next, refunded := HandleStale(now, stale[k].provider, Some(job), row), Refund(now, row);
    assert next.escrows == refunded.escrows && next.accounts == refunded.accounts;
    CoveredByTables(refunded, next);
    AccountsDoneTwice(db, now, next);
    assert next.jobs == now.jobs[job := Handled(now.jobs[job])];
  }

  lemma AccountsDoneTwice(a: Db, b: Db, c: Db)
    requires AccountsDone(a, b) && AccountsDone(b, c)
    ensures AccountsDone(a, c)
  {
  }

  /** Only the accounts and escrows matter. */
  lemma CoveredByTables(a: Db, b: Db)
    requires Covered(a) && b.escrows == a.escrows && b.accounts == a.accounts
    ensures Covered(b)
    ensures forall c :: AccountsDone(c, a) <==> AccountsDone(c, b)
  {
    forall e ensures IsHeld(b, e) <==> IsHeld(a, e) {
    }
  }

  lemma QuietTurn(db: Db, stale: seq<StaleRow>, k: nat, now: Db, row: Option<Id>)
    requires Snapshot(stale) && k < |stale| && Done(db, stale, k, now)
    requires Acts(stale, k, now.jobs) ==> Restorable(now.jobs[stale[k].activeJob.value])
    requires stale[k].activeJob.Some? ==> LockedRow(now.escrows, stale[k].activeJob.value, row)
    ensures Done(db, stale, k + 1, HandleStale(now, stale[k].provider, stale[k].activeJob, row))
  {
    hide JobsDone, EscrowsDone, ProvidersDone, Covered, Blamed, Touched, AccountsDone, WorthOf;
    ActsMeans(db, stale, k, now.jobs);
    ProvidersTurn(db, stale, k, now);
    JobsTurn(db, stale, k, now.jobs);
    EscrowsUnmoved(db, stale, k, now.jobs, now.escrows);
    var next := HandleStale(now, stale[k].provider, stale[k].activeJob, row);
    assert next.escrows == now.escrows && next.accounts == now.accounts;
    CoveredByTables(now, next);
  }

  lemma TurnDone(db: Db, stale: seq<StaleRow>, k: nat, now: Db, next: Db)
    requires Snapshot(stale) && k < |stale| && Done(db, stale, k, now) && Turn(now, stale[k], next)
    ensures Done(db, stale, k + 1, next)
  {
    hide Done;
    var r := stale[k];
    var row: Option<Id> :|
      (r.activeJob.Some? ==> LockedRow(now.escrows, r.activeJob.value, row))
      && next == HandleStale(now, r.provider, r.activeJob, row);
    if Acts(stale, k, now.jobs) && !Restorable(now.jobs[r.activeJob.value]) {
      FailTurn(db, stale, k, now, row);
    } else {
      QuietTurn(db, stale, k, now, row);
    }
  }

  lemma {:induction false} TraceDone(states: seq<Db>, stale: seq<StaleRow>, k: nat)
    requires Trace(states, stale) && Snapshot(stale) && Covered(states[0]) && k <= |stale|
    ensures Done(states[0], stale, k, states[k])
  {
    if k == 0 {
    } else {
      TraceDone(states, stale, k - 1);
      TurnDone(states[0], stale, k - 1, states[k - 1], states[k]);
    }
  }

  /** After a pass no provider of the snapshot is leased, and exactly the blamed ones lost trust; each
      of their jobs in progress is queued without a provider or failed with its escrow released, once,
      however many rows name it; every consumer owns what it owned before; nothing else changes. */
  lemma PassHandlesEveryRow(states: seq<Db>, stale: seq<StaleRow>)
    requires Trace(states, stale) && Snapshot(stale) && Covered(states[0])
    ensures Done(states[0], stale, |stale|, states[|stale|])
    ensures var db, end := states[0], states[|stale|];
            && (forall i :: 0 <= i < |stale| && stale[i].provider in end.providers ==>
                  end.providers[stale[i].provider].state == Offline && end.providers[stale[i].provider].activeJob == None)
            && (forall i :: 0 <= i < |stale| && stale[i].activeJob.Some? && stale[i].activeJob.value in db.jobs
                            && InProgress(db.jobs[stale[i].activeJob.value].state) ==>
                  var j := stale[i].activeJob.value;
                  && j in end.jobs
                  && if db.jobs[j].checkpointUrl.Some? && db.jobs[j].restoreAttempts < 3 then
                       end.jobs[j] == db.jobs[j].(state := Queued, provider := None)
                     else
                       && end.jobs[j] == db.jobs[j].(state := Failed)
                       && forall e :: e in end.escrows ==> !HeldFor(end.escrows, e, j))
            && forall a :: WorthOf(end.accounts, a) == WorthOf(db.accounts, a)
  {
    TraceDone(states, stale, |stale|);
    var db, end := states[0], states[|stale|];
    forall i | 0 <= i < |stale| && stale[i].activeJob.Some? && stale[i].activeJob.value in db.jobs
               && InProgress(db.jobs[stale[i].activeJob.value].state)
      ensures Touched(db, stale, |stale|, stale[i].activeJob.value)
    {
    }
    forall e, j | e in end.escrows && Fails(db, stale, |stale|, j) ensures !HeldFor(end.escrows, e, j) {
      assert e in db.escrows;
    }
  }

  // ----- which providers a pass takes -----

  /** Leased, and not seen for more than two minutes. */
  predicate Silent(p: Provider, now: int) {
    p.state == Leased && p.lastSeen.Some? && now - p.lastSeen.value > 120
  }

  predicate Lost(p: Provider) {
    p.state == Offline && p.activeJob == None
  }

  lemma TurnTakesOne(db: Db, r: StaleRow, db': Db, p: Id)
    requires Turn(db, r, db') && p in db.providers
    ensures p in db'.providers
    ensures if p == r.provider then Lost(db'.providers[p]) else db'.providers[p] == db.providers[p]
  {
    var row: Option<Id> :| (r.activeJob.Some? ==> LockedRow(db.escrows, r.activeJob.value, row))
      && db' == HandleStale(db, r.provider, r.activeJob, row);
    StaleTakesOne(db, r.provider, r.activeJob, row, p);
  }

  lemma StaleTakesOne(db: Db, q: Id, activeJob: Option<Id>, row: Option<Id>, p: Id)
    requires (activeJob.Some? ==> LockedRow(db.escrows, activeJob.value, row)) && p in db.providers
    ensures var db' := HandleStale(db, q, activeJob, row);
            p in db'.providers && if p == q then Lost(db'.providers[p]) else db'.providers[p] == db.providers[p]
  {
    hide Penalised, Refund, LockedRow;
    var offline := MarkOffline(db, q);
    if activeJob.Some? && activeJob.value in offline.jobs {
      var job := activeJob.value;
      RefundKeepsProviders(offline.(jobs := offline.jobs[job := offline.jobs[job].(state := Failed)]), job, row);
    }
  }

  lemma RefundKeepsProviders(db: Db, job: Id, row: Option<Id>)
    requires LockedRow(db.escrows, job, row)
    ensures Refund(db, row).providers == db.providers
  {
  }

  ghost predicate NamesProvider(stale: seq<StaleRow>, k: nat, p: Id)
    requires k <= |stale|
  {
    exists i :: 0 <= i < k && stale[i].provider == p
  }

  lemma {:induction false} TraceTakes(states: seq<Db>, stale: seq<StaleRow>, k: nat, p: Id)
    requires Trace(states, stale) && k <= |stale| && p in states[0].providers
    ensures p in states[k].providers
    ensures if NamesProvider(stale, k, p) then Lost(states[k].providers[p])
            else states[k].providers[p] == states[0].providers[p]
    decreases k
  {
    hide Turn;
    if k == 0 {
    } else {
      TraceTakes(states, stale, k - 1, p);
      TurnTakesOne(states[k - 1], stale[k - 1], states[k], p);
      if NamesProvider(stale, k, p) && stale[k - 1].provider != p {
        var i :| 0 <= i < k && stale[i].provider == p;
        assert NamesProvider(stale, k - 1, p);
      }
    }
  }

  /** A pass takes a leased provider offline exactly when it was silent for more than 120 seconds, and
      leaves every other provider as it was. */
  lemma PassTakesSilentOnly(states: seq<Db>, stale: seq<StaleRow>, now: int, p: Id)
    requires Trace(states, stale) && StaleRows(states[0].providers, now, stale) && p in states[0].providers
    ensures var end := states[|stale|];
            && p in end.providers
            && if Silent(states[0].providers[p], now) then Lost(end.providers[p])
               else end.providers[p] == states[0].providers[p]
  {
    TraceTakes(states, stale, |stale|, p);
    if NamesProvider(stale, |stale|, p) {
      var i :| 0 <= i < |stale| && stale[i].provider == p;
      assert IsStale(states[0].providers[p], now);
    }
  }

  /** So a job heartbeat protects its provider for two minutes. */
  lemma HeartbeatProtects(db: Db, job: Id, p: Id, seen: int, states: seq<Db>, stale: seq<StaleRow>, now: int)
    requires p in db.providers && now - seen <= 120
    requires Trace(states, stale) && states[0] == JobHeartbeat(db, job, p, seen)
    requires StaleRows(states[0].providers, now, stale)
    ensures p in states[|stale|].providers
    ensures states[|stale|].providers[p] == db.providers[p].(lastSeen := Some(seen))
  {
    PassTakesSilentOnly(states, stale, now, p);
  }
}
