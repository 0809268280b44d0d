/** The off-chain credit ledger. Each handler is several SQL statements; statements of different
    requests interleave freely. */
module CreditLedger {
  import opened Wrappers

  type Id = string
  type RequestId = nat

  datatype Account = Account(available: real, escrowed: real)

  datatype EscrowState = Locked | Released

  datatype Escrow = Escrow(consumer: Id, provider: Option<Id>, lockedNmc: real, state: EscrowState)

  type Accounts = map<Id, Account>

  datatype Entry = Entry(account: Id, amount: real)

  // ----- statements -----

  /** INSERT ... ON CONFLICT DO UPDATE SET available_nmc = available_nmc + x */
  function AddAvailable(accounts: Accounts, id: Id, x: real): Accounts {
    if id in accounts then accounts[id := accounts[id].(available := accounts[id].available + x)]
    else accounts[id := Account(x, 0.0)]
  }

  /** The guard inside the UPDATE's WHERE clause. */
  predicate CanDebit(accounts: Accounts, id: Id, x: real) {
    id in accounts && accounts[id].available >= x
  }

  function Debit(accounts: Accounts, id: Id, x: real): Accounts
    requires CanDebit(accounts, id, x)
  {
    accounts[id := accounts[id].(available := accounts[id].available - x)]
  }

  function MoveToEscrow(accounts: Accounts, id: Id, x: real): Accounts
    requires CanDebit(accounts, id, x)
  {
    accounts[id := Account(accounts[id].available - x, accounts[id].escrowed + x)]
  }

  /** UPDATE ... SET escrowed = escrowed - locked, available = available + refund WHERE account_id = id */
  function ReleaseConsumer(accounts: Accounts, id: Id, locked: real, refund: real): Accounts {
    if id !in accounts then accounts
    else accounts[id := Account(accounts[id].available + refund, accounts[id].escrowed - locked)]
  }

  // ----- amounts of a release -----

  function ActualCost(runtimeS: nat, pricePerHour: real, locked: real): real {
    var gross := pricePerHour * (runtimeS as real / 3600.0);
    if gross < locked then gross else locked
  }

  function PlatformFee(cost: real): real {
    cost * 0.08
  }

  /** `provider_id.unwrap_or_default()` */
  function PayeeOf(provider: Option<Id>): Id {
    if provider.Some? then provider.value else ""
  }

  // ----- what a handler does to the accounts -----

  function AvailableOf(accounts: Accounts, a: Id): real {
    if a in accounts then accounts[a].available else 0.0
  }

  function EscrowedOf(accounts: Accounts, a: Id): real {
    if a in accounts then accounts[a].escrowed else 0.0
  }

  /** One account gains these amounts (and is opened if need be); no other account changes. */
  ghost predicate Moves(before: Accounts, after: Accounts, account: Id, available: real, escrowed: real) {
    && after.Keys == before.Keys + {account}
    && AvailableOf(after, account) == AvailableOf(before, account) + available
    && EscrowedOf(after, account) == EscrowedOf(before, account) + escrowed
    && forall a :: a in before && a != account ==> after[a] == before[a]
  }

  /** A release of e for that runtime and hourly price. The cost is the price for the time in hours, never
      more than was locked. The consumer, if it has an account, gets the rest back and is no longer held to
      the escrow; the provider, or the account without a name, gets 92 hundredths of the cost. */
  ghost predicate Settles(before: Accounts, after: Accounts, e: Escrow, runtimeS: nat, price: real) {
    var charge := if price * runtimeS as real <= 3600.0 * e.lockedNmc then price * runtimeS as real else 3600.0 * e.lockedNmc;
    var cost := charge / 3600.0;
    var payee := match e.provider case Some(p) => p case None => "";
    && after.Keys == before.Keys + {payee}
    && forall a :: a in after ==>
         && AvailableOf(after, a) == AvailableOf(before, a)
                                     + (if a == e.consumer && a in before then e.lockedNmc - cost else 0.0)
                                     + (if a == payee then 92.0 * cost / 100.0 else 0.0)
         && EscrowedOf(after, a) == EscrowedOf(before, a) - (if a == e.consumer && a in before then e.lockedNmc else 0.0)
  }

  /** The cost of a release, without the order of the multiplications. */
  lemma CostMeans(runtimeS: nat, price: real, locked: real)
    ensures var charge := if price * runtimeS as real <= 3600.0 * locked then price * runtimeS as real else 3600.0 * locked;
            ActualCost(runtimeS, price, locked) == charge / 3600.0
  {
    var r := runtimeS as real;
    assert price * (r / 3600.0) == price * r / 3600.0;
  }

  // ----- handlers run alone -----

  datatype Outcome = Done | BadRequest | Insufficient | NotFound

  class Ledger {
    var accounts: Accounts
    var escrows: map<Id, Escrow>
    var log: seq<Entry>

    constructor ()
      ensures accounts == map[] && escrows == map[] && log == []
    {
      accounts, escrows, log := map[], map[], [];
    }

    method Deposit(account: Id, amount: real) returns (o: Outcome)
      modifies this
      ensures escrows == old(escrows)
      ensures o == if amount <= 0.0 then BadRequest else Done
      ensures if o == Done then Moves(old(accounts), accounts, account, amount, 0.0) else accounts == old(accounts)
      ensures log == if o == Done then old(log) + [Entry(account, amount)] else old(log)
    {
      if amount <= 0.0 {
        return BadRequest;
      }
      if account in accounts {
        accounts := accounts[account := accounts[account].(available := accounts[account].available + amount)];
      } else {
        accounts := accounts[account := Account(amount, 0.0)];
      }
      log := log + [Entry(account, amount)];
      return Done;
    }

    method WithdrawTo(account: Id, amount: real) returns (o: Outcome)
      modifies this
      ensures escrows == old(escrows)
      ensures o == if amount <= 0.0 then BadRequest
                   else if account in old(accounts) && old(accounts)[account].available >= amount then Done
                   else Insufficient
      ensures if o == Done then Moves(old(accounts), accounts, account, -amount, 0.0) else accounts == old(accounts)
      ensures log == if o == Done then old(log) + [Entry(account, -amount)] else old(log)
    {
      if amount <= 0.0 {
        return BadRequest;
      }
      if !(account in accounts && accounts[account].available >= amount) {
        return Insufficient;
      }
      accounts := accounts[account := accounts[account].(available := accounts[account].available - amount)];
      log := log + [Entry(account, -amount)];
      return Done;
    }

    method LockEscrow(consumer: Id, provider: Option<Id>, amount: real, escrowId: Id) returns (o: Outcome)
      requires escrowId !in escrows
      modifies this
      ensures log == old(log)
      ensures o == if consumer in old(accounts) && old(accounts)[consumer].available >= amount then Done else Insufficient
      ensures if o == Done then Moves(old(accounts), accounts, consumer, -amount, amount) else accounts == old(accounts)
      ensures escrows == if o == Done then old(escrows)[escrowId := Escrow(consumer, provider, amount, Locked)] else old(escrows)
    {
      if !(consumer in accounts && accounts[consumer].available >= amount) {
        return Insufficient;
      }
      accounts := accounts[consumer := Account(accounts[consumer].available - amount, accounts[consumer].escrowed + amount)];
      escrows := escrows[escrowId := Escrow(consumer, provider, amount, Locked)];
      return Done;
    }

    method ReleaseEscrow(escrowId: Id, runtimeS: nat, pricePerHour: real) returns (o: Outcome)
      modifies this
      ensures log == old(log)
      ensures o == if escrowId in old(escrows) && old(escrows)[escrowId].state == Locked then Done else NotFound
      ensures o == NotFound ==> accounts == old(accounts) && escrows == old(escrows)
      ensures o == Done ==>
                var e := old(escrows)[escrowId];
                && escrows == old(escrows)[escrowId := e.(state := Released)]
                && Settles(old(accounts), accounts, e, runtimeS, pricePerHour)
    {
      if !(escrowId in escrows && escrows[escrowId].state == Locked) {
        return NotFound;
      }
      var e := escrows[escrowId];
      CostMeans(runtimeS, pricePerHour, e.lockedNmc);
      var actualCost := ActualCost(runtimeS, pricePerHour, e.lockedNmc);
      var fee := PlatformFee(actualCost);
      var providerGets := actualCost - fee;
      var consumerRefund := e.lockedNmc - actualCost;
      if e.consumer in accounts {
        accounts := accounts[e.consumer := Account(accounts[e.consumer].available + consumerRefund,
                                                   accounts[e.consumer].escrowed - e.lockedNmc)];
      }
      accounts := AddAvailable(accounts, PayeeOf(e.provider), providerGets);
      escrows := escrows[escrowId := e.(state := Released)];
      return Done;
    }
  }

  // ----- handlers interleaved -----

  datatype Request =
    | Deposit(account: Id, amount: real)
    | Withdraw(account: Id, amount: real)
    | LockRequest(consumer: Id, provider: Option<Id>, amount: real, escrowId: Id)
    | ReleaseRequest(escrowId: Id, runtimeS: nat, pricePerHour: real)

  /** A request between two of its statements: the statement to come, and its local variables. */
  datatype Pending =
    | RecordEntry(entry: Entry)
    | InsertEscrow(escrowId: Id, escrow: Escrow)
    | DebitConsumer(escrowId: Id, escrow: Escrow, cost: real)
    | CreditProvider(escrowId: Id, escrow: Escrow, cost: real)
    | MarkReleased(escrowId: Id)

  /** The tables, the requests in flight, and the totals the theorems speak of. */
  datatype State = State(accounts: Accounts, escrows: map<Id, Escrow>, log: seq<Entry>,
                         pending: map<RequestId, Pending>,
                         deposited: real, withdrawn: real, fees: real)

  datatype Step = Begin(id: RequestId, request: Request) | Continue(id: RequestId)

  /** A request's first statement; a refused one leaves nothing in flight. */
  function First(s: State, id: RequestId, r: Request): State {
    match r
    case Deposit(a, x) =>
      if x <= 0.0 then s
      else s.(accounts := AddAvailable(s.accounts, a, x), deposited := s.deposited + x,
              pending := s.pending[id := RecordEntry(Entry(a, x))])
    case Withdraw(a, x) =>
      if x <= 0.0 || !CanDebit(s.accounts, a, x) then s
      else s.(accounts := Debit(s.accounts, a, x), withdrawn := s.withdrawn + x,
              pending := s.pending[id := RecordEntry(Entry(a, -x))])
    case LockRequest(c, p, x, e) =>
      if !CanDebit(s.accounts, c, x) then s
      else s.(accounts := MoveToEscrow(s.accounts, c, x),
              pending := s.pending[id := InsertEscrow(e, Escrow(c, p, x, Locked))])
    case ReleaseRequest(e, runtimeS, price) =>
      if !(e in s.escrows && s.escrows[e].state == Locked) then s
      else s.(pending := s.pending[id := DebitConsumer(e, s.escrows[e], ActualCost(runtimeS, price, s.escrows[e].lockedNmc))])
  }

  /** The next statement of a request in flight. */
  function Next(s: State, id: RequestId): State
    requires id in s.pending
  {
    match s.pending[id]
    case RecordEntry(entry) => s.(log := s.log + [entry], pending := s.pending - {id})
    case InsertEscrow(e, esc) => s.(escrows := s.escrows[e := esc], pending := s.pending - {id})
    case DebitConsumer(e, esc, cost) =>
      s.(accounts := ReleaseConsumer(s.accounts, esc.consumer, esc.lockedNmc, esc.lockedNmc - cost),
         pending := s.pending[id := CreditProvider(e, esc, cost)])
    case CreditProvider(e, esc, cost) =>
      s.(accounts := AddAvailable(s.accounts, PayeeOf(esc.provider), cost - PlatformFee(cost)),
         fees := s.fees + PlatformFee(cost),
         pending := s.pending[id := MarkReleased(e)])
    case MarkReleased(e) =>
      s.(escrows := if e in s.escrows then s.escrows[e := s.escrows[e].(state := Released)] else s.escrows,
         pending := s.pending - {id})
  }

  /** Request and escrow identifiers are fresh; locked amounts and prices are not negative. */
  predicate Allowed(s: State, step: Step) {
    match step
    case Continue(id) => id in s.pending
    case Begin(id, r) =>
      && id !in s.pending
      && (r.LockRequest? ==>
            && r.amount >= 0.0 && r.escrowId !in s.escrows
            && forall t :: t in s.pending && s.pending[t].InsertEscrow? ==> s.pending[t].escrowId != r.escrowId)
      && (r.ReleaseRequest? ==> r.pricePerHour >= 0.0)
  }

  function Exec(s: State, step: Step): State
    requires Allowed(s, step)
  {
    match step
    case Begin(id, r) => First(s, id, r)
    case Continue(id) => Next(s, id)
  }

  predicate ValidRun(s: State, steps: seq<Step>)
    decreases |steps|
  {
    steps == [] || (Allowed(s, steps[0]) && ValidRun(Exec(s, steps[0]), steps[1..]))
  }

  function Run(s: State, steps: seq<Step>): State
    requires ValidRun(s, steps)
    decreases |steps|
  {
    if steps == [] then s else Run(Exec(s, steps[0]), steps[1..])
  }
}
