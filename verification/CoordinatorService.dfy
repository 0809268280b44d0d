/** The coordinator's handlers and background loops, statement by statement on its tables. */
module CoordinatorService {
  import opened Wrappers
  import opened CoordinatorDb
  import M = Matching
  import W = WatcherPass

  class Coordinator {
    var jobs: map<Id, Job>
    var providers: map<Id, Provider>
    var accounts: map<Id, Account>
    var escrows: map<Id, Escrow>
    var stripeSessions: set<string>

    ghost function View(): Db
      reads this
    {
      Db(jobs, providers, accounts, escrows, stripeSessions)
    }

    constructor ()
      ensures View() == Db(map[], map[], map[], map[], {})
    {
      jobs, providers, accounts, escrows, stripeSessions := map[], map[], map[], map[], {};
    }

    twostate predicate Follows(new r: Result<Db, Refusal>, new refusal: Option<Refusal>)
      reads this
    {
      match r
      case Ok(db) => refusal == None && View() == db
      case Err(e) => refusal == Some(e) && View() == old(View())
    }

    // ----- jobs and their escrows -----

    method ReadAvailable(account: Id) returns (available: real)
      ensures available == AvailableOf(View(), account)
    {
      available := if account in accounts then OrZero(accounts[account].available) else 0.0;
    }

    method SubmitJob(r: SubmitRequest, jobId: Id, escrowId: Id, now: int) returns (refusal: Option<Refusal>)
      requires jobId !in jobs && escrowId !in escrows
      modifies this
      ensures Follows(Submit(old(View()), r, jobId, escrowId, now), refusal)
    {
      var available := ReadAvailable(r.account);
      var maxCost := MaxCost(r);
      if available < maxCost {
        return Some(InsufficientBalance);
      }
      jobs := jobs[jobId := Job(r.account, Queued, None, Some(r.minRamGb), Some(r.maxPrice), None, now, None, 0)];
      if r.account in accounts {
        var acc := accounts[r.account];
        accounts := accounts[r.account := Account(Plus(acc.available, -maxCost), acc.escrowed + maxCost)];
      }
      escrows := escrows[escrowId := Escrow(jobId, r.account, maxCost, Held)];
      return None;
    }

    /** SELECT ... FROM escrows WHERE job_id = job AND state = 'locked' LIMIT 1 */
    method FindLockedEscrow(job: Id) returns (row: Option<Id>)
      ensures LockedRow(escrows, job, row)
    {
      var rest := escrows.Keys;
      while rest != {}
        invariant rest <= escrows.Keys
        invariant forall e :: e in escrows && e !in rest ==> !HeldFor(escrows, e, job)
        decreases |rest|
      {
        var e :| e in rest;
        if HeldFor(escrows, e, job) {
          return Some(e);
        }
        rest := rest - {e};
      }
      return None;
    }

    method CancelJob(job: Id) returns (refusal: Option<Refusal>, ghost row: Option<Id>)
      modifies this
      ensures LockedRow(old(escrows), job, row)
      ensures Follows(Cancel(old(View()), job, row), refusal)
    {
      var found := FindLockedEscrow(job);
      row := found;
      if job !in jobs {
        return Some(NotFound), row;
      }
      var j := jobs[job];
      if j.state == Complete || j.state == Failed || j.state == Cancelled {
        return Some(AlreadyTerminal), row;
      }
      jobs := jobs[job := j.(state := Cancelled)];
      if j.consumer in accounts {
        var acc := accounts[j.consumer];
        var refunded := match found
          case None => Account(None, 0.0)
          case Some(e) => Account(Plus(acc.available, escrows[e].lockedNmc), Max(0.0, acc.escrowed - escrows[e].lockedNmc));
        accounts := accounts[j.consumer := refunded];
      }
      escrows := ReleaseAllOf(escrows, job);
      providers := FreeProvidersOf(providers, job);
      refusal := None;
    }

    method CreditFromStripe(authorized: bool, account: Id, amount: real, session: string) returns (refusal: Option<Refusal>)
      modifies this
      ensures Follows(StripeCredit(old(View()), authorized, account, amount, session), refusal)
    {
      if !authorized { return Some(Unauthorized); }
      if amount <= 0.0 { return Some(BadRequest); }
      if session in stripeSessions { return Some(Duplicate); }
      if account in accounts {
        accounts := accounts[account := accounts[account].(available := Plus(accounts[account].available, amount))];
      } else {
        accounts := accounts[account := Account(Some(amount), 0.0)];
      }
      stripeSessions := stripeSessions + {session};
      return None;
    }

    method WithdrawTo(account: Id, amount: real, dest: string) returns (refusal: Option<Refusal>)
      modifies this
      ensures Follows(Withdraw(old(View()), account, amount, dest), refusal)
    {
      if amount <= 0.0 { return Some(BadRequest); }
      if !ValidAddress(dest) { return Some(InvalidAddress); }
      var available := ReadAvailable(account);
      if available < amount { return Some(InsufficientBalance); }
      accounts := accounts[account := accounts[account].(available := Plus(accounts[account].available, -amount))];
      return None;
    }

    method Heartbeat(job: Id, provider: Id, now: int)
      modifies this
      ensures View() == JobHeartbeat(old(View()), job, provider, now)
    {
      if job in jobs && jobs[job].provider == Some(provider) {
        jobs := jobs[job := jobs[job].(state := Running)];
      }
      if provider in providers {
        providers := providers[provider := providers[provider].(lastSeen := Some(now))];
      }
    }

    method RecordCheckpoint(job: Id, url: string) returns (refusal: Option<Refusal>)
      modifies this
      ensures Follows(SaveCheckpoint(old(View()), job, url), refusal)
    {
      if job !in jobs { return Some(NotFound); }
      jobs := jobs[job := jobs[job].(checkpointUrl := Some(url))];
      return None;
    }

    // ----- the auction loop -----

    method AssignJob(job: Id, provider: Id, price: real, checkpointUrl: Option<string>)
      modifies this
      ensures View() == Assign(old(View()), job, provider, price, checkpointUrl)
    {
      if job in jobs {
        var j := jobs[job];
        var attempt := if checkpointUrl.Some? then 1 else 0;
        jobs := jobs[job := j.(state := Assigned, provider := Some(provider), price := Some(price),
                               restoreAttempts := j.restoreAttempts + attempt)];
      }
      if provider in providers {
        providers := providers[provider := providers[provider].(state := Leased, activeJob := Some(job))];
      }
    }

    method FindBestProvider(j: Job) returns (best: Option<Id>, ghost rows: seq<Id>)
      ensures M.OrderedRows(M.PriceKeys(providers, M.RamOf(j), M.MaxPriceOf(j)), M.CANDIDATE_LIMIT, rows)
      ensures forall i :: 0 <= i < |rows| ==> rows[i] in providers
      ensures best == M.FindBest(providers, rows, M.MaxPriceOf(j))
      ensures best.None? <==> forall p :: p in providers ==> !M.Meets(providers[p], j)
      ensures best.Some? ==> best.value in providers && M.Meets(providers[best.value], j)
      ensures best.Some? ==>
                forall q :: q in providers && M.Meets(providers[q], j)
                            && (q in rows || M.TrustOf(providers[q]) <= M.TrustOf(providers[best.value])) ==>
                  M.NoBetter(providers[q], providers[best.value], M.MaxPriceOf(j))
    {
      var keys := M.PriceKeys(providers, M.RamOf(j), M.MaxPriceOf(j));
      var candidates := M.SelectOrdered(keys, M.CANDIDATE_LIMIT);
      assert forall i :: 0 <= i < |candidates| ==> candidates[i] in keys;
      rows := candidates;
      if candidates == [] {
        best := None;
      } else {
        best := Some(M.MaxBy(providers, candidates, M.MaxPriceOf(j)));
      }
      M.ChoiceIsBest(providers, M.RamOf(j), M.MaxPriceOf(j), rows);
    }

    method RunAuctionCycle() returns (ghost c: M.Cycle)
      modifies this
      ensures M.IsCycle(c) && c.states[0] == old(View()) && c.states[|c.queue|] == View()
    {
      hide M.NoBetter, M.Meets, M.MaxBy, M.TrustOf, M.PriceKeys, M.FindBest, M.AssignPrice;
      var queue := M.SelectOrdered(M.QueueKeys(jobs), M.QUEUE_LIMIT);
      assert forall i :: 0 <= i < |queue| ==> queue[i] in M.QueueKeys(jobs);
      var snapshot := jobs;
      ghost var rows: seq<seq<Id>>, states := [], [View()];
      var i := 0;
      while i < |queue|
        invariant 0 <= i <= |queue| && |rows| == i && |states| == i + 1
        invariant states[0] == old(View()) && states[i] == View()
        invariant forall k :: 0 <= k < i ==> M.Turn(states[k], queue[k], snapshot[queue[k]], rows[k], states[k + 1])
      {
        var j := snapshot[queue[i]];
        var best, row := FindBestProvider(j);
        if best.Some? {
          AssignJob(queue[i], best.value, M.AssignPrice(j), j.checkpointUrl);
        }
        rows, states := rows + [row], states + [View()];
        i := i + 1;
      }
      c := M.Cycle(queue, rows, states);
    }

    // ----- the heartbeat watcher -----

    method RefundConsumerEscrow(job: Id) returns (ghost row: Option<Id>)
      modifies this
      ensures LockedRow(old(escrows), job, row)
      ensures View() == Refund(old(View()), row)
    {
      var found := FindLockedEscrow(job);
      row := found;
      if found.None? {
        return;
      }
      var esc := escrows[found.value];
      escrows := escrows[found.value := esc.(state := Released)];
      if esc.consumer in accounts {
        var acc := accounts[esc.consumer];
        accounts := accounts[esc.consumer := Account(Plus(acc.available, esc.lockedNmc), Max(0.0, acc.escrowed - esc.lockedNmc))];
      } else {
        accounts := accounts[esc.consumer := Account(Some(esc.lockedNmc), 0.0)];
      }
    }

    method MigrateOrFailJob(job: Id, provider: Id) returns (ghost row: Option<Id>)
      modifies this
      ensures LockedRow(old(escrows), job, row)
      ensures View() == MigrateOrFail(old(View()), job, provider, row)
    {
      var found := FindLockedEscrow(job);
      row := found;
      if job !in jobs || !(jobs[job].state == Running || jobs[job].state == Assigned) {
        return;
      }
      var j := jobs[job];
      if j.checkpointUrl.Some? && j.restoreAttempts < MAX_RESTORE_ATTEMPTS {
        jobs := jobs[job := j.(state := Queued, provider := None)];
      } else {
        jobs := jobs[job := j.(state := Failed)];
        row := RefundConsumerEscrow(job);
        if provider in providers {
          providers := providers[provider := providers[provider].(trust := Penalised(providers[provider].trust))];
        }
      }
    }

    method SelectStale(now: int) returns (stale: seq<W.StaleRow>)
      ensures W.StaleRows(providers, now, stale)
    {
      stale := [];
      var rest := providers.Keys;
      while rest != {}
        invariant rest <= providers.Keys
        invariant forall i :: 0 <= i < |stale| ==>
                    && stale[i].provider in providers && stale[i].provider !in rest
                    && W.IsStale(providers[stale[i].provider], now)
                    && stale[i].activeJob == providers[stale[i].provider].activeJob
        invariant W.Snapshot(stale)
        invariant forall p :: p in providers && p !in rest && W.IsStale(providers[p], now) ==>
                    exists i :: 0 <= i < |stale| && stale[i].provider == p
        decreases |rest|
      {
        var p :| p in rest;
        rest := rest - {p};
        if W.IsStale(providers[p], now) {
          ghost var before := stale;
          stale := stale + [W.StaleRow(p, providers[p].activeJob)];
          assert stale[|before|].provider == p;
          assert forall i :: 0 <= i < |before| ==> stale[i] == before[i];
        }
      }
    }

    method CheckStaleProviders(now: int) returns (ghost stale: seq<W.StaleRow>, ghost states: seq<Db>)
      modifies this
      ensures W.StaleRows(old(providers), now, stale)
      ensures W.Trace(states, stale) && states[0] == old(View()) && states[|stale|] == View()
      ensures forall p :: p in old(providers) ==>
                && p in providers
                && if W.Silent(old(providers)[p], now) then W.Lost(providers[p]) else providers[p] == old(providers)[p]
    {
      var rows := SelectStale(now);
      stale, states := rows, [View()];
      var i := 0;
      while i < |rows|
        invariant 0 <= i <= |rows| && |states| == i + 1
        invariant states[0] == old(View()) && states[i] == View()
        invariant forall k :: 0 <= k < i ==> W.Turn(states[k], rows[k], states[k + 1])
      {
        ghost var before := View();
        var p := rows[i].provider;
        if p in providers {
          providers := providers[p := providers[p].(state := Offline, activeJob := None)];
        }
        ghost var row: Option<Id> := None;
        if rows[i].activeJob.Some? {
          row := MigrateOrFailJob(rows[i].activeJob.value, p);
        }
        assert View() == HandleStale(before, p, rows[i].activeJob, row);
        assert W.Turn(before, rows[i], View());
        states := states + [View()];
        i := i + 1;
      }
      forall p | p in old(providers)
        ensures p in providers
        ensures if W.Silent(old(providers)[p], now) then W.Lost(providers[p]) else providers[p] == old(providers)[p]
      {
        W.PassTakesSilentOnly(states, stale, now, p);
      }
    }
  }
}
