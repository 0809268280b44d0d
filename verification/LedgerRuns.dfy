/** What every interleaving of ledger statements keeps. */
module LedgerRuns {
  import opened Wrappers
  import opened Sums
  import opened CreditLedger

  // ----- totals -----

  function Worths(accounts: Accounts): map<Id, real> {
    map a | a in accounts :: accounts[a].available + accounts[a].escrowed
  }

  /** Value a half-finished release has taken from its consumer and not yet passed on. */
  function InHand(p: Pending): real {
    if p.CreditProvider? then p.cost else 0.0
  }

  function InHands(pending: map<RequestId, Pending>): map<RequestId, real> {
    map t | t in pending :: InHand(pending[t])
  }

  function Unrecorded(pending: map<RequestId, Pending>): map<RequestId, real> {
    map t | t in pending :: if pending[t].RecordEntry? then pending[t].entry.amount else 0.0
  }

  function LogTotal(log: seq<Entry>): real {
    if log == [] then 0.0 else LogTotal(log[..|log| - 1]) + log[|log| - 1].amount
  }

  lemma SetAccount(accounts: Accounts, a: Id, acc: Account)
    ensures Sum(Worths(accounts[a := acc])) == Sum(Worths(accounts)) - At(Worths(accounts), a) + acc.available + acc.escrowed
  {
    assert Worths(accounts[a := acc]) == Worths(accounts)[a := acc.available + acc.escrowed];
    SumUpdate(Worths(accounts), a, acc.available + acc.escrowed);
  }

  lemma SetPending(pending: map<RequestId, Pending>, t: RequestId, p: Pending)
    ensures Sum(InHands(pending[t := p])) == Sum(InHands(pending)) - At(InHands(pending), t) + InHand(p)
    ensures Sum(Unrecorded(pending[t := p]))
            == Sum(Unrecorded(pending)) - At(Unrecorded(pending), t) + if p.RecordEntry? then p.entry.amount else 0.0
  {
    var unrecorded := if p.RecordEntry? then p.entry.amount else 0.0;
    assert InHands(pending[t := p]) == InHands(pending)[t := InHand(p)];
    assert Unrecorded(pending[t := p]) == Unrecorded(pending)[t := unrecorded];
    SumUpdate(InHands(pending), t, InHand(p));
    SumUpdate(Unrecorded(pending), t, unrecorded);
  }

  lemma DropPending(pending: map<RequestId, Pending>, t: RequestId)
    requires t in pending
    ensures Sum(InHands(pending - {t})) == Sum(InHands(pending)) - InHand(pending[t])
    ensures Sum(Unrecorded(pending - {t})) == Sum(Unrecorded(pending)) - At(Unrecorded(pending), t)
  {
    assert InHands(pending - {t}) == InHands(pending) - {t};
    assert Unrecorded(pending - {t}) == Unrecorded(pending) - {t};
    SumRemove(InHands(pending), t);
    SumRemove(Unrecorded(pending), t);
  }

  // ----- the invariant of every interleaving -----

  /** A row, or a request's copy of one, that a release may act on. */
  predicate Sound(accounts: Accounts, e: Escrow) {
    e.consumer in accounts && e.lockedNmc >= 0.0
  }

  predicate SoundPending(accounts: Accounts, p: Pending) {
    match p
    case InsertEscrow(_, e) => Sound(accounts, e)
    case DebitConsumer(_, e, cost) => Sound(accounts, e) && 0.0 <= cost <= e.lockedNmc
    case CreditProvider(_, e, cost) => 0.0 <= cost
    case _ => true
  }

  predicate Solvent(s: State) {
    && (forall a :: a in s.accounts ==> s.accounts[a].available >= 0.0)
    && (forall e :: e in s.escrows ==> Sound(s.accounts, s.escrows[e]))
    && forall t :: t in s.pending ==> SoundPending(s.accounts, s.pending[t])
  }

  ghost predicate Accounted(s: State) {
    && Sum(Worths(s.accounts)) + s.fees + Sum(InHands(s.pending)) == s.deposited - s.withdrawn
    && LogTotal(s.log) + Sum(Unrecorded(s.pending)) == s.deposited - s.withdrawn
  }

  lemma CostInRange(runtimeS: nat, price: real, locked: real)
    requires price >= 0.0 && locked >= 0.0
    ensures 0.0 <= ActualCost(runtimeS, price, locked) <= locked
  {
    assert price * (runtimeS as real / 3600.0) >= 0.0;
  }

  lemma ExecKeepsSolvent(s: State, step: Step)
    requires Solvent(s) && Allowed(s, step)
    ensures Solvent(Exec(s, step))
  {
    if step.Begin? && step.request.ReleaseRequest? && step.request.escrowId in s.escrows {
      var r := step.request;
      CostInRange(r.runtimeS, r.pricePerHour, s.escrows[r.escrowId].lockedNmc);
    }
    if step.Continue? {
      assert SoundPending(s.accounts, s.pending[step.id]);
    }
  }

  lemma FirstKeepsAccounted(s: State, id: RequestId, r: Request)
    requires Accounted(s) && Allowed(s, Begin(id, r))
    ensures Accounted(First(s, id, r))
  {
    var s' := First(s, id, r);
    if s' != s {
      SetPending(s.pending, id, s'.pending[id]);
      match r
      case Deposit(a, _) => SetAccount(s.accounts, a, s'.accounts[a]);
      case Withdraw(a, _) => SetAccount(s.accounts, a, s'.accounts[a]);
      case LockRequest(c, _, _, _) => SetAccount(s.accounts, c, s'.accounts[c]);
      case ReleaseRequest(_, _, _) =>
    }
  }

  lemma NextKeepsAccounted(s: State, id: RequestId)
    requires Solvent(s) && Accounted(s) && id in s.pending
    ensures Accounted(Next(s, id))
  {
    var s' := Next(s, id);
    match s.pending[id]
    case RecordEntry(entry) =>
      DropPending(s.pending, id);
      assert s'.log[..|s'.log| - 1] == s.log;
    case InsertEscrow(_, _) => DropPending(s.pending, id);
    case MarkReleased(_) => DropPending(s.pending, id);
    case DebitConsumer(e, esc, cost) =>
      assert SoundPending(s.accounts, s.pending[id]);
      SetPending(s.pending, id, s'.pending[id]);
      SetAccount(s.accounts, esc.consumer, s'.accounts[esc.consumer]);
    case CreditProvider(e, esc, cost) =>
      SetPending(s.pending, id, s'.pending[id]);
      SetAccount(s.accounts, PayeeOf(esc.provider), s'.accounts[PayeeOf(esc.provider)]);
  }

  lemma {:induction false} RunKeepsBooks(s: State, steps: seq<Step>)
    requires Solvent(s) && Accounted(s) && ValidRun(s, steps)
    ensures Solvent(Run(s, steps)) && Accounted(Run(s, steps))
    decreases |steps|
  {
    if steps == [] {
    } else {
      ExecKeepsSolvent(s, steps[0]);
      match steps[0] {
        case Begin(id, r) => FirstKeepsAccounted(s, id, r);
        case Continue(id) => NextKeepsAccounted(s, id);
      }
      RunKeepsBooks(Exec(s, steps[0]), steps[1..]);
    }
  }

  const EMPTY := State(map[], map[], [], map[], 0.0, 0.0, 0.0)

  /** Any interleaving from empty tables, even with several releases of one escrow in flight: no
      available balance is ever negative, and available plus escrowed plus fees plus what half-finished
      handlers hold is deposits minus withdrawals. So is the transaction log, once the entries still to
      be written are added. */
  lemma LedgerConserves(steps: seq<Step>)
    requires ValidRun(EMPTY, steps)
    ensures var s := Run(EMPTY, steps);
            && (forall a :: a in s.accounts ==> s.accounts[a].available >= 0.0)
            && Sum(Worths(s.accounts)) + s.fees + Sum(InHands(s.pending)) == s.deposited - s.withdrawn
            && LogTotal(s.log) + Sum(Unrecorded(s.pending)) == s.deposited - s.withdrawn
  {
    assert Worths(EMPTY.accounts) == map[];
    assert InHands(EMPTY.pending) == map[];
    assert Unrecorded(EMPTY.pending) == map[];
    RunKeepsBooks(EMPTY, steps);
  }

  // ----- escrowed balances -----

  predicate Releasing(p: Pending) {
    p.DebitConsumer? || p.CreditProvider? || p.MarkReleased?
  }

  /** How many times each escrow's consumer has been debited for it. */
  type Debits = map<Id, nat>

  function DebitsOf(d: Debits, e: Id): nat {
    if e in d then d[e] else 0
  }

  function Count(d: Debits, s: State, step: Step): Debits
    requires Allowed(s, step)
  {
    if step.Continue? && s.pending[step.id].DebitConsumer? then
      var e := s.pending[step.id].escrowId;
      d[e := DebitsOf(d, e) + 1]
    else d
  }

  function CountOver(d: Debits, s: State, steps: seq<Step>): Debits
    requires ValidRun(s, steps)
    decreases |steps|
  {
    if steps == [] then d else CountOver(Count(d, s, steps[0]), Exec(s, steps[0]), steps[1..])
  }

  /** What an escrow row leaves in its consumer's escrowed amount after n debits. */
  function Term(e: Escrow, n: nat, a: Id): real {
    if e.consumer == a then e.lockedNmc * (1 - n) as real else 0.0
  }

  function Terms(escrows: map<Id, Escrow>, d: Debits, a: Id): map<Id, real> {
    map e | e in escrows :: Term(escrows[e], DebitsOf(d, e), a)
  }

  function InsertClaim(p: Pending, a: Id): real {
    if p.InsertEscrow? && p.escrow.consumer == a then p.escrow.lockedNmc else 0.0
  }

  function InsertClaims(pending: map<RequestId, Pending>, a: Id): map<RequestId, real> {
    map t | t in pending :: InsertClaim(pending[t], a)
  }

  ghost predicate Explained(s: State, d: Debits, a: Id) {
    EscrowedOf(s.accounts, a) == Sum(Terms(s.escrows, d, a)) + Sum(InsertClaims(s.pending, a))
  }

  /** Requests in flight agree with the rows and the count of debits. */
  ghost predicate Linked(s: State, d: Debits) {
    && (forall t :: t in s.pending && Releasing(s.pending[t]) ==> s.pending[t].escrowId in s.escrows)
    && (forall t :: t in s.pending && s.pending[t].DebitConsumer? ==>
          s.escrows[s.pending[t].escrowId].(state := Locked) == s.pending[t].escrow.(state := Locked))
    && (forall t :: t in s.pending && (s.pending[t].CreditProvider? || s.pending[t].MarkReleased?) ==>
          DebitsOf(d, s.pending[t].escrowId) > 0)
    && (forall t :: t in s.pending && s.pending[t].InsertEscrow? ==>
          s.pending[t].escrowId !in s.escrows && s.pending[t].escrow.state == Locked)
    && (forall t, u :: t in s.pending && u in s.pending && t != u && s.pending[t].InsertEscrow? && s.pending[u].InsertEscrow? ==>
          s.pending[t].escrowId != s.pending[u].escrowId)
    && (forall e :: e !in s.escrows ==> DebitsOf(d, e) == 0)
    && forall e :: e in s.escrows && s.escrows[e].state == Released ==> DebitsOf(d, e) > 0
  }

  lemma SetInsertClaim(pending: map<RequestId, Pending>, t: RequestId, p: Pending, a: Id)
    ensures Sum(InsertClaims(pending[t := p], a))
         == Sum(InsertClaims(pending, a)) - (if t in pending then InsertClaim(pending[t], a) else 0.0) + InsertClaim(p, a)
  {
    assert InsertClaims(pending[t := p], a) == InsertClaims(pending, a)[t := InsertClaim(p, a)];
    SumUpdate(InsertClaims(pending, a), t, InsertClaim(p, a));
  }

  lemma DropInsertClaim(pending: map<RequestId, Pending>, t: RequestId, a: Id)
    requires t in pending
    ensures Sum(InsertClaims(pending - {t}, a)) == Sum(InsertClaims(pending, a)) - InsertClaim(pending[t], a)
  {
    assert InsertClaims(pending - {t}, a) == InsertClaims(pending, a) - {t};
    SumRemove(InsertClaims(pending, a), t);
  }

  lemma ExecKeepsLinked(s: State, d: Debits, step: Step)
    requires Linked(s, d) && Allowed(s, step)
    ensures Linked(Exec(s, step), Count(d, s, step))
  {
    if step.Begin? {
      FirstKeepsLinked(s, d, step.id, step.request);
    } else {
      NextKeepsLinked(s, d, step.id);
    }
  }

  lemma FirstKeepsLinked(s: State, d: Debits, id: RequestId, r: Request)
    requires Linked(s, d) && Allowed(s, Begin(id, r))
    ensures Linked(First(s, id, r), d)
  {
    hide AddAvailable, Debit, MoveToEscrow, Linked;
    var s' := First(s, id, r);
    if s' != s {
      NewPendingKeepsLinked(s, d, id, s'.pending[id], s');
    }
  }

  lemma NewPendingKeepsLinked(s: State, d: Debits, id: RequestId, p: Pending, s': State)
    requires Linked(s, d) && id !in s.pending && s'.escrows == s.escrows && s'.pending == s.pending[id := p]
    requires !p.CreditProvider? && !p.MarkReleased?
    requires p.DebitConsumer? ==> p.escrowId in s.escrows && s.escrows[p.escrowId] == p.escrow
    requires p.InsertEscrow? ==>
               && p.escrowId !in s.escrows && p.escrow.state == Locked
               && forall t :: t in s.pending && s.pending[t].InsertEscrow? ==> s.pending[t].escrowId != p.escrowId
    ensures Linked(s', d)
  {
  }

  lemma NextKeepsLinked(s: State, d: Debits, id: RequestId)
    requires Linked(s, d) && id in s.pending
    ensures Linked(Next(s, id), Count(d, s, Continue(id)))
  {
    match s.pending[id]
    case InsertEscrow(_, _) => InsertKeepsLinked(s, d, id);
    case DebitConsumer(_, _, _) => DebitKeepsLinked(s, d, id);
    case _ => RestKeepsLinked(s, d, id);
  }

  lemma InsertKeepsLinked(s: State, d: Debits, id: RequestId)
    requires Linked(s, d) && id in s.pending && s.pending[id].InsertEscrow?
    ensures Linked(Next(s, id), d)
  {
  }

  lemma DebitKeepsLinked(s: State, d: Debits, id: RequestId)
    requires Linked(s, d) && id in s.pending && s.pending[id].DebitConsumer?
    ensures Linked(Next(s, id), Count(d, s, Continue(id)))
  {
    hide ReleaseConsumer;
    var d' := Count(d, s, Continue(id));
    assert forall e :: DebitsOf(d', e) >= DebitsOf(d, e);
    assert forall e :: e != s.pending[id].escrowId ==> DebitsOf(d', e) == DebitsOf(d, e);
  }

  lemma RestKeepsLinked(s: State, d: Debits, id: RequestId)
    requires Linked(s, d) && id in s.pending && !s.pending[id].InsertEscrow? && !s.pending[id].DebitConsumer?
    ensures Linked(Next(s, id), d)
  {
    hide AddAvailable;
  }

  lemma FirstKeepsExplained(s: State, d: Debits, id: RequestId, r: Request, a: Id)
    requires Explained(s, d, a) && Allowed(s, Begin(id, r))
    ensures Explained(First(s, id, r), d, a)
  {
    var s' := First(s, id, r);
    if s' != s {
      SetInsertClaim(s.pending, id, s'.pending[id], a);
    }
  }

  /** Changing one row, or its count, changes the sum of terms by the difference of the row's terms. */
  lemma OneTermMoves(escrows: map<Id, Escrow>, d: Debits, e: Id, row: Escrow, n: nat, a: Id)
    ensures Sum(Terms(escrows[e := row], d[e := n], a))
         == Sum(Terms(escrows, d, a)) - At(Terms(escrows, d, a), e) + Term(row, n, a)
  {
    var t := Terms(escrows, d, a);
    assert Terms(escrows[e := row], d[e := n], a) == t[e := Term(row, n, a)];
    SumUpdate(t, e, Term(row, n, a));
  }

  lemma OneMoreDebit(e: Escrow, n: nat, a: Id)
    ensures Term(e, n + 1, a) == Term(e, n, a) - if e.consumer == a then e.lockedNmc else 0.0
  {
    assert (1 - (n + 1)) as real == (1 - n) as real - 1.0;
    assert e.lockedNmc * ((1 - n) as real - 1.0) == e.lockedNmc * (1 - n) as real - e.lockedNmc;
  }

  lemma DebitKeepsExplained(s: State, d: Debits, id: RequestId, a: Id)
    requires Solvent(s) && Linked(s, d) && Explained(s, d, a) && id in s.pending && s.pending[id].DebitConsumer?
    ensures Explained(Next(s, id), Count(d, s, Continue(id)), a)
  {
    hide Solvent, Linked, Sum, Terms, InsertClaims, Term, DebitsOf;
    var p, s' := s.pending[id], Next(s, id);
    var e := p.escrowId;
    DebitFacts(s, d, id);
    var row, n := s.escrows[e], DebitsOf(d, e);
    SetInsertClaim(s.pending, id, s'.pending[id], a);
    OneTermMoves(s.escrows, d, e, row, n + 1, a);
    assert s.escrows[e := row] == s.escrows;
    OneMoreDebit(row, n, a);
    TermAt(s.escrows, d, e, a);
  }

  lemma DebitFacts(s: State, d: Debits, id: RequestId)
    requires Solvent(s) && Linked(s, d) && id in s.pending && s.pending[id].DebitConsumer?
    ensures var p := s.pending[id];
            && p.escrowId in s.escrows && p.escrow.consumer in s.accounts
            && s.escrows[p.escrowId].(state := Locked) == p.escrow.(state := Locked)
  {
    assert SoundPending(s.accounts, s.pending[id]);
  }

  lemma TermAt(escrows: map<Id, Escrow>, d: Debits, e: Id, a: Id)
    requires e in escrows
    ensures At(Terms(escrows, d, a), e) == Term(escrows[e], DebitsOf(d, e), a)
  {
  }

  lemma InsertKeepsExplained(s: State, d: Debits, id: RequestId, a: Id)
    requires Linked(s, d) && Explained(s, d, a) && id in s.pending && s.pending[id].InsertEscrow?
    ensures Explained(Next(s, id), d, a)
  {
    var p := s.pending[id];
    DropInsertClaim(s.pending, id, a);
    NewTerm(s.escrows, d, p.escrowId, p.escrow, a);
    hide Sum, Terms, InsertClaims, Term, DebitsOf;
  }

  lemma NewTerm(escrows: map<Id, Escrow>, d: Debits, e: Id, row: Escrow, a: Id)
    requires e !in escrows && DebitsOf(d, e) == 0
    ensures Sum(Terms(escrows[e := row], d, a))
         == Sum(Terms(escrows, d, a)) + if row.consumer == a then row.lockedNmc else 0.0
  {
    var t := Terms(escrows, d, a);
    assert Terms(escrows[e := row], d, a) == t[e := Term(row, 0, a)];
    SumUpdate(t, e, Term(row, 0, a));
  }

  /** The other statements leave every term and every escrowed amount. */
  lemma RestKeepsExplained(s: State, d: Debits, id: RequestId, a: Id)
    requires Explained(s, d, a) && id in s.pending
    requires s.pending[id].RecordEntry? || s.pending[id].CreditProvider? || s.pending[id].MarkReleased?
    ensures Explained(Next(s, id), d, a)
  {
    var s' := Next(s, id);
    if s.pending[id].CreditProvider? {
      SetInsertClaim(s.pending, id, s'.pending[id], a);
    } else {
      DropInsertClaim(s.pending, id, a);
    }
    SameTerms(s.escrows, s'.escrows, d, a);
  }

  lemma SameTerms(escrows: map<Id, Escrow>, after: map<Id, Escrow>, d: Debits, a: Id)
    requires escrows.Keys == after.Keys
    requires forall e :: e in escrows ==> after[e].(state := Locked) == escrows[e].(state := Locked)
    ensures Terms(after, d, a) == Terms(escrows, d, a)
  {
    forall e | e in escrows ensures Term(after[e], DebitsOf(d, e), a) == Term(escrows[e], DebitsOf(d, e), a) {
      assert after[e].(state := Locked).consumer == after[e].consumer
          && after[e].(state := Locked).lockedNmc == after[e].lockedNmc;
    }
  }

  lemma {:induction false} RunKeepsExplained(s: State, d: Debits, steps: seq<Step>, a: Id)
    requires Solvent(s) && Linked(s, d) && Explained(s, d, a) && ValidRun(s, steps)
    ensures Solvent(Run(s, steps)) && Linked(Run(s, steps), CountOver(d, s, steps))
    ensures Explained(Run(s, steps), CountOver(d, s, steps), a)
    decreases |steps|
  {
    if steps == [] {
    } else {
      var step := steps[0];
      hide Solvent, Linked, Explained;
      ExecKeepsSolvent(s, step);
      ExecKeepsLinked(s, d, step);
      match step {
        case Begin(id, r) => FirstKeepsExplained(s, d, id, r, a);
        case Continue(id) =>
          match s.pending[id] {
            case DebitConsumer(_, _, _) => DebitKeepsExplained(s, d, id, a);
            case InsertEscrow(_, _) => InsertKeepsExplained(s, d, id, a);
            case _ => RestKeepsExplained(s, d, id, a);
          }
      }
      RunKeepsExplained(Exec(s, step), Count(d, s, step), steps[1..], a);
    }
  }

  // ----- what the escrowed amount should be -----

  /** The rows of the account that were never debited; all of them are still locked. */
  function Claims(escrows: map<Id, Escrow>, d: Debits, a: Id): map<Id, real> {
    map e | e in escrows :: if escrows[e].consumer == a && DebitsOf(d, e) == 0 then escrows[e].lockedNmc else 0.0
  }

  /** What n debits of one escrow took beyond the first. */
  function Overdraw(e: Escrow, n: nat, a: Id): real {
    if e.consumer == a && n > 1 then e.lockedNmc * (n - 1) as real else 0.0
  }

  function Overdraws(escrows: map<Id, Escrow>, d: Debits, a: Id): map<Id, real> {
    map e | e in escrows :: Overdraw(escrows[e], DebitsOf(d, e), a)
  }

  lemma {:induction false} TermsSplit(escrows: map<Id, Escrow>, d: Debits, a: Id)
    ensures Sum(Terms(escrows, d, a)) == Sum(Claims(escrows, d, a)) - Sum(Overdraws(escrows, d, a))
    decreases |escrows|
  {
    if escrows == map[] {
      assert Terms(escrows, d, a) == map[] && Claims(escrows, d, a) == map[] && Overdraws(escrows, d, a) == map[];
    } else {
      var e :| e in escrows;
      TermsSplit(escrows - {e}, d, a);
      SplitOff(escrows, d, a, e);
    }
  }

  lemma SplitOff(escrows: map<Id, Escrow>, d: Debits, a: Id, e: Id)
    requires e in escrows
    ensures Sum(Terms(escrows, d, a)) - Sum(Terms(escrows - {e}, d, a))
         == Sum(Claims(escrows, d, a)) - Sum(Claims(escrows - {e}, d, a))
            - (Sum(Overdraws(escrows, d, a)) - Sum(Overdraws(escrows - {e}, d, a)))
  {
    hide Sum, Terms, Claims, Overdraws;
    RemoveTerm(escrows, d, a, e);
    RemoveClaim(escrows, d, a, e);
    RemoveOverdraw(escrows, d, a, e);
    TermSplits(escrows, d, a, e);
  }

  lemma RemoveTerm(escrows: map<Id, Escrow>, d: Debits, a: Id, e: Id)
    requires e in escrows
    ensures e in Terms(escrows, d, a)
    ensures Sum(Terms(escrows, d, a)) == Terms(escrows, d, a)[e] + Sum(Terms(escrows - {e}, d, a))
  {
    hide Term;
    SumRemove(Terms(escrows, d, a), e);
    assert Terms(escrows - {e}, d, a) == Terms(escrows, d, a) - {e};
  }

  lemma RemoveClaim(escrows: map<Id, Escrow>, d: Debits, a: Id, e: Id)
    requires e in escrows
    ensures e in Claims(escrows, d, a)
    ensures Sum(Claims(escrows, d, a)) == Claims(escrows, d, a)[e] + Sum(Claims(escrows - {e}, d, a))
  {
    SumRemove(Claims(escrows, d, a), e);
    assert Claims(escrows - {e}, d, a) == Claims(escrows, d, a) - {e};
  }

  lemma RemoveOverdraw(escrows: map<Id, Escrow>, d: Debits, a: Id, e: Id)
    requires e in escrows
    ensures e in Overdraws(escrows, d, a)
    ensures Sum(Overdraws(escrows, d, a)) == Overdraws(escrows, d, a)[e] + Sum(Overdraws(escrows - {e}, d, a))
  {
    hide Overdraw;
    SumRemove(Overdraws(escrows, d, a), e);
    assert Overdraws(escrows - {e}, d, a) == Overdraws(escrows, d, a) - {e};
  }

  lemma TermSplits(escrows: map<Id, Escrow>, d: Debits, a: Id, e: Id)
    requires e in escrows
    ensures Terms(escrows, d, a)[e] == Claims(escrows, d, a)[e] - Overdraws(escrows, d, a)[e]
  {
    var n: int := DebitsOf(d, e);
    assert (1 - n) as real == -((n - 1) as real);
    assert escrows[e].lockedNmc * -((n - 1) as real) == -(escrows[e].lockedNmc * (n - 1) as real);
  }

  predicate DebitedTwice(escrows: map<Id, Escrow>, d: Debits, a: Id, e: Id) {
    e in escrows && escrows[e].consumer == a && escrows[e].lockedNmc > 0.0 && DebitsOf(d, e) > 1
  }

  lemma OverdrawIff(escrows: map<Id, Escrow>, d: Debits, a: Id, e: Id)
    requires e in escrows && escrows[e].lockedNmc >= 0.0
    ensures Overdraws(escrows, d, a)[e] >= 0.0
    ensures Overdraws(escrows, d, a)[e] > 0.0 <==> DebitedTwice(escrows, d, a, e)
  {
    var x, n: int := escrows[e].lockedNmc, DebitsOf(d, e);
    if n > 1 && x > 0.0 {
      assert x * (n - 1) as real > 0.0;
    }
  }

  lemma OverdrawnIff(escrows: map<Id, Escrow>, d: Debits, a: Id)
    requires forall e :: e in escrows ==> escrows[e].lockedNmc >= 0.0
    ensures Sum(Overdraws(escrows, d, a)) >= 0.0
    ensures Sum(Overdraws(escrows, d, a)) > 0.0 <==> exists e :: DebitedTwice(escrows, d, a, e)
  {
    var m := Overdraws(escrows, d, a);
    forall e | e in escrows ensures m[e] >= 0.0 && (m[e] > 0.0 <==> DebitedTwice(escrows, d, a, e)) {
      OverdrawIff(escrows, d, a, e);
    }
    SumNonNegative(m);
    if e :| DebitedTwice(escrows, d, a, e) {
      SumCovers(m, e);
    } else {
      assert forall e :: e in m ==> m[e] == 0.0;
      SumZero(m);
    }
  }

  /** Every interleaving from empty tables: an account's escrowed amount is what its escrows claim that
      were never debited (written or being written), less what debits after the first took. So it equals
      the claims if and only if no escrow of the account with a positive amount was debited twice. */
  lemma EscrowedIsClaimedIff(steps: seq<Step>, a: Id)
    requires ValidRun(EMPTY, steps)
    ensures var s, d := Run(EMPTY, steps), CountOver(map[], EMPTY, steps);
            var claims := Sum(Claims(s.escrows, d, a)) + Sum(InsertClaims(s.pending, a));
            && claims >= 0.0
            && (forall e :: e in s.escrows && DebitsOf(d, e) == 0 ==> s.escrows[e].state == Locked)
            && EscrowedOf(s.accounts, a) == claims - Sum(Overdraws(s.escrows, d, a))
            && EscrowedOf(s.accounts, a) <= claims
            && (EscrowedOf(s.accounts, a) == claims <==> forall e :: !DebitedTwice(s.escrows, d, a, e))
  {
    assert Terms(EMPTY.escrows, map[], a) == map[] && InsertClaims(EMPTY.pending, a) == map[];
    RunKeepsExplained(EMPTY, map[], steps, a);
    ExplainedMeans(Run(EMPTY, steps), CountOver(map[], EMPTY, steps), a);
  }

  lemma ExplainedMeans(s: State, d: Debits, a: Id)
    requires Solvent(s) && Linked(s, d) && Explained(s, d, a)
    ensures var claims := Sum(Claims(s.escrows, d, a)) + Sum(InsertClaims(s.pending, a));
            && claims >= 0.0
            && (forall e :: e in s.escrows && DebitsOf(d, e) == 0 ==> s.escrows[e].state == Locked)
            && EscrowedOf(s.accounts, a) == claims - Sum(Overdraws(s.escrows, d, a))
            && EscrowedOf(s.accounts, a) <= claims
            && (EscrowedOf(s.accounts, a) == claims <==> forall e :: !DebitedTwice(s.escrows, d, a, e))
  {
    hide Sum, Terms, Claims, Overdraws, InsertClaims, DebitedTwice, EscrowedOf;
    forall e | e in s.escrows ensures s.escrows[e].lockedNmc >= 0.0 {
      assert Sound(s.accounts, s.escrows[e]);
    }
    TermsSplit(s.escrows, d, a);
    OverdrawnIff(s.escrows, d, a);
    ClaimsNonNegative(s, d, a);
  }

  lemma ClaimsNonNegative(s: State, d: Debits, a: Id)
    requires Solvent(s)
    ensures Sum(Claims(s.escrows, d, a)) >= 0.0 && Sum(InsertClaims(s.pending, a)) >= 0.0
  {
    forall t | t in s.pending ensures InsertClaims(s.pending, a)[t] >= 0.0 {
      assert SoundPending(s.accounts, s.pending[t]);
    }
    forall e | e in s.escrows ensures Claims(s.escrows, d, a)[e] >= 0.0 {
      assert Sound(s.accounts, s.escrows[e]);
    }
    SumNonNegative(Claims(s.escrows, d, a));
    SumNonNegative(InsertClaims(s.pending, a));
  }

  // ----- one release in flight per escrow -----

  predicate OneRelease(s: State, step: Step) {
    step.Begin? && step.request.ReleaseRequest? ==>
      forall t :: t in s.pending && Releasing(s.pending[t]) ==> s.pending[t].escrowId != step.request.escrowId
  }

  predicate OneReleaseRun(s: State, steps: seq<Step>)
    requires ValidRun(s, steps)
    decreases |steps|
  {
    steps == [] || (OneRelease(s, steps[0]) && OneReleaseRun(Exec(s, steps[0]), steps[1..]))
  }

  ghost predicate InRelease(s: State, e: Id) {
    exists t :: t in s.pending && Releasing(s.pending[t]) && s.pending[t].escrowId == e
  }

  /** No escrow is debited twice: its one release in flight debits it, and then the row is released. */
  ghost predicate DebitedOnce(s: State, d: Debits) {
    && (forall t, u :: t in s.pending && u in s.pending && t != u && Releasing(s.pending[t]) && Releasing(s.pending[u]) ==>
          s.pending[t].escrowId != s.pending[u].escrowId)
    && (forall t :: t in s.pending && s.pending[t].DebitConsumer? ==> DebitsOf(d, s.pending[t].escrowId) == 0)
    && (forall e :: e in s.escrows && s.escrows[e].state == Locked && !InRelease(s, e) ==> DebitsOf(d, e) == 0)
    && forall e :: DebitsOf(d, e) <= 1
  }

  lemma FirstKeepsDebitedOnce(s: State, d: Debits, id: RequestId, r: Request)
    requires DebitedOnce(s, d) && Allowed(s, Begin(id, r)) && OneRelease(s, Begin(id, r))
    ensures DebitedOnce(First(s, id, r), d)
  {
    var s' := First(s, id, r);
    forall e | InRelease(s, e) ensures InRelease(s', e) {
      var t :| t in s.pending && Releasing(s.pending[t]) && s.pending[t].escrowId == e;
      assert s'.pending[t] == s.pending[t];
    }
  }

  lemma OthersInRelease(s: State, id: RequestId, e: Id)
    requires id in s.pending && InRelease(s, e) && !(s.pending[id].MarkReleased? && s.pending[id].escrowId == e)
    ensures InRelease(Next(s, id), e)
  {
    hide ReleaseConsumer, AddAvailable;
    var s' := Next(s, id);
    var t :| t in s.pending && Releasing(s.pending[t]) && s.pending[t].escrowId == e;
    assert t in s'.pending && Releasing(s'.pending[t]) && s'.pending[t].escrowId == e;
  }

  lemma NextKeepsDebitedOnce(s: State, d: Debits, id: RequestId)
    requires Linked(s, d) && DebitedOnce(s, d) && id in s.pending
    ensures DebitedOnce(Next(s, id), Count(d, s, Continue(id)))
  {
    hide ReleaseConsumer, AddAvailable, DebitedOnce, InRelease;
    var s', p := Next(s, id), s.pending[id];
    forall e | InRelease(s, e) && !(p.MarkReleased? && p.escrowId == e) ensures InRelease(s', e) {
      OthersInRelease(s, id, e);
    }
    match p
    case DebitConsumer(e, _, _) => DebitKeepsDebitedOnce(s, d, id, s', e);
    case _ => RestKeepsDebitedOnce(s, d, id, s');
  }

  lemma DebitKeepsDebitedOnce(s: State, d: Debits, id: RequestId, s': State, e: Id)
    requires DebitedOnce(s, d) && id in s.pending && s.pending[id].DebitConsumer? && s.pending[id].escrowId == e
    requires id in s'.pending && s'.pending[id].CreditProvider? && s'.pending[id].escrowId == e
    requires s'.pending == s.pending[id := s'.pending[id]] && s'.escrows == s.escrows
    requires forall f :: InRelease(s, f) ==> InRelease(s', f)
    ensures DebitedOnce(s', d[e := DebitsOf(d, e) + 1])
  {
    assert InRelease(s', e);
    assert Releasing(s.pending[id]);
    forall t | t in s'.pending && t != id && Releasing(s'.pending[t]) ensures s'.pending[t].escrowId != e {
      assert s'.pending[t] == s.pending[t];
    }
    forall f | f in s'.escrows && s'.escrows[f].state == Locked && !InRelease(s', f) ensures DebitsOf(d, f) == 0 && f != e {
    }
    assert DebitsOf(d, e) == 0;
    var d' := d[e := 1];
    forall f ensures DebitsOf(d', f) <= 1 {
      assert DebitsOf(d, f) <= 1;
    }
  }

  lemma RestKeepsDebitedOnce(s: State, d: Debits, id: RequestId, s': State)
    requires DebitedOnce(s, d) && Linked(s, d) && id in s.pending && !s.pending[id].DebitConsumer?
    requires s'.pending.Keys <= s.pending.Keys && forall t :: t in s'.pending && t != id ==> s'.pending[t] == s.pending[t]
    requires s.pending[id].CreditProvider? ==> id in s'.pending && s'.pending[id] == MarkReleased(s.pending[id].escrowId)
    requires !s.pending[id].CreditProvider? ==> id !in s'.pending
    requires forall f :: InRelease(s, f) && !(s.pending[id].MarkReleased? && s.pending[id].escrowId == f) ==> InRelease(s', f)
    requires forall f :: f in s'.escrows && s'.escrows[f].state == Locked ==>
               if f in s.escrows then s.escrows[f].state == Locked && !(s.pending[id].MarkReleased? && s.pending[id].escrowId == f)
               else s.pending[id].InsertEscrow? && s.pending[id].escrowId == f
    ensures DebitedOnce(s', d)
  {
    hide InRelease;
  }

  lemma {:induction false} RunKeepsDebitedOnce(s: State, d: Debits, steps: seq<Step>)
    requires Linked(s, d) && DebitedOnce(s, d) && ValidRun(s, steps) && OneReleaseRun(s, steps)
    ensures DebitedOnce(Run(s, steps), CountOver(d, s, steps))
    decreases |steps|
  {
    if steps == [] {
    } else {
      hide Linked, DebitedOnce;
      ExecKeepsLinked(s, d, steps[0]);
      match steps[0] {
        case Begin(id, r) => FirstKeepsDebitedOnce(s, d, id, r);
        case Continue(id) => NextKeepsDebitedOnce(s, d, id);
      }
      RunKeepsDebitedOnce(Exec(s, steps[0]), Count(d, s, steps[0]), steps[1..]);
    }
  }

  /** With at most one release in flight per escrow, escrowed is exactly what is claimed, so never
      negative. */
  lemma EscrowedIsClaimed(steps: seq<Step>, a: Id)
    requires ValidRun(EMPTY, steps) && OneReleaseRun(EMPTY, steps)
    ensures var s, d := Run(EMPTY, steps), CountOver(map[], EMPTY, steps);
            EscrowedOf(s.accounts, a) == Sum(Claims(s.escrows, d, a)) + Sum(InsertClaims(s.pending, a)) >= 0.0
  {
    RunKeepsDebitedOnce(EMPTY, map[], steps);
    EscrowedIsClaimedIff(steps, a);
  }

  /** Two releases that both read the row before either writes debit the consumer twice. */
  lemma DoubleReleaseDebitsTwice(s: State, t: RequestId, u: RequestId)
    requires t != u && t in s.pending && u in s.pending
    requires s.pending[t].DebitConsumer? && s.pending[u].DebitConsumer? && s.pending[t].escrow == s.pending[u].escrow
    requires s.pending[t].escrow.consumer in s.accounts
    ensures var s' := Next(Next(s, t), u);
            var e := s.pending[t].escrow;
            EscrowedOf(s'.accounts, e.consumer) == EscrowedOf(s.accounts, e.consumer) - 2.0 * e.lockedNmc
  {
  }

  /** Two releases of one escrow, each reading the row before the other writes. */
  function TwoReleases(t: RequestId, u: RequestId, r: Request): seq<Step> {
    [Begin(t, r)] + ([Begin(u, r)] + ([Continue(t)] + ([Continue(u)] + [])))
  }

  /** From every state with a locked escrow they can be interleaved so, and escrowed falls twice. */
  lemma TwoReleasesDebitTwice(s: State, t: RequestId, u: RequestId, r: Request)
    requires t != u && t !in s.pending && u !in s.pending
    requires r.ReleaseRequest? && r.pricePerHour >= 0.0
    requires r.escrowId in s.escrows && s.escrows[r.escrowId].state == Locked && s.escrows[r.escrowId].consumer in s.accounts
    ensures ValidRun(s, TwoReleases(t, u, r))
    ensures var e := s.escrows[r.escrowId];
            EscrowedOf(Run(s, TwoReleases(t, u, r)).accounts, e.consumer)
              == EscrowedOf(s.accounts, e.consumer) - 2.0 * e.lockedNmc
  {
    var s1 := First(s, t, r);
    var s2 := First(s1, u, r);
    assert s2.accounts == s.accounts;
    DoubleReleaseDebitsTwice(s2, t, u);
    TwoContinue(s2, t, u);
    var end := Next(Next(s2, t), u);
    Before(s1, Begin(u, r), [Continue(t)] + ([Continue(u)] + []), end);
    Before(s, Begin(t, r), [Begin(u, r)] + ([Continue(t)] + ([Continue(u)] + [])), end);
  }

  /** So a run from empty tables can leave a negative amount escrowed. */
  lemma DoubleReleaseReachable()
    ensures exists steps :: ValidRun(EMPTY, steps) && EscrowedOf(Run(EMPTY, steps).accounts, "c") == -10.0
  {
    hide ValidRun, Run, TwoReleases;
    var esc := Escrow("c", Some("p"), 10.0, Locked);
    var entry := RecordEntry(Entry("c", 10.0));
    var s1 := State(map["c" := Account(10.0, 0.0)], map[], [], map[0 := entry], 10.0, 0.0, 0.0);
    var s2 := s1.(accounts := map["c" := Account(0.0, 10.0)], pending := map[0 := entry, 1 := InsertEscrow("e", esc)]);
    var s3 := s2.(escrows := map["e" := esc], pending := map[0 := entry]);
    var tail := TwoReleases(2, 3, ReleaseRequest("e", 3600, 10.0));
    TwoReleasesDebitTwice(s3, 2, 3, ReleaseRequest("e", 3600, 10.0));
    SetUp(tail, Run(s3, tail), s1, s2, s3);
  }

  lemma TwoContinue(s: State, t: RequestId, u: RequestId)
    requires t != u && t in s.pending && u in s.pending
    ensures u in Next(s, t).pending
    ensures var steps := [Continue(t)] + ([Continue(u)] + []);
            ValidRun(s, steps) && Run(s, steps) == Next(Next(s, t), u)
  {
    var end := Next(Next(s, t), u);
    Before(Next(s, t), Continue(u), [], end);
    Before(s, Continue(t), [Continue(u)] + [], end);
  }

  lemma SetUp(tail: seq<Step>, end: State, s1: State, s2: State, s3: State)
    requires Exec(EMPTY, Begin(0, Deposit("c", 10.0))) == s1
    requires Allowed(s1, Begin(1, LockRequest("c", Some("p"), 10.0, "e")))
    requires Exec(s1, Begin(1, LockRequest("c", Some("p"), 10.0, "e"))) == s2
    requires Allowed(s2, Continue(1)) && Exec(s2, Continue(1)) == s3
    requires ValidRun(s3, tail) && Run(s3, tail) == end && EscrowedOf(end.accounts, "c") == -10.0
    ensures exists steps :: ValidRun(EMPTY, steps) && EscrowedOf(Run(EMPTY, steps).accounts, "c") == -10.0
  {
    Before(s2, Continue(1), tail, end);
    Before(s1, Begin(1, LockRequest("c", Some("p"), 10.0, "e")), [Continue(1)] + tail, end);
    var steps := [Begin(1, LockRequest("c", Some("p"), 10.0, "e"))] + ([Continue(1)] + tail);
    Before(EMPTY, Begin(0, Deposit("c", 10.0)), steps, end);
  }

  lemma Before(s: State, step: Step, rest: seq<Step>, end: State)
    requires Allowed(s, step) && ValidRun(Exec(s, step), rest) && Run(Exec(s, step), rest) == end
    ensures ValidRun(s, [step] + rest) && Run(s, [step] + rest) == end
  {
    assert ([step] + rest)[1..] == rest;
  }

  // ----- a request that meets no other -----

  /** Run without interruption, the statements of a release settle the escrow, and the platform keeps eight
      hundredths of the cost. */
  lemma ReleaseAlone(s: State, id: RequestId, e: Id, runtimeS: nat, price: real)
    requires id !in s.pending && e in s.escrows && s.escrows[e].state == Locked
    ensures var s' := Next(Next(Next(First(s, id, ReleaseRequest(e, runtimeS, price)), id), id), id);
            var row := s.escrows[e];
            && s'.pending == s.pending && s'.log == s.log
            && s'.escrows == s.escrows[e := row.(state := Released)]
            && Settles(s.accounts, s'.accounts, row, runtimeS, price)
            && 100.0 * 3600.0 * (s'.fees - s.fees)
               == 8.0 * (if price * runtimeS as real <= 3600.0 * row.lockedNmc then price * runtimeS as real
                         else 3600.0 * row.lockedNmc)
  {
    hide ActualCost, AddAvailable, ReleaseConsumer, Settles;
    var row := s.escrows[e];
    var cost := ActualCost(runtimeS, price, row.lockedNmc);
    CostMeans(runtimeS, price, row.lockedNmc);
    PaymentsSettle(s.accounts, row, runtimeS, price, cost);
  }

  lemma PaymentsSettle(accounts: Accounts, e: Escrow, runtimeS: nat, price: real, cost: real)
    requires cost == (if price * runtimeS as real <= 3600.0 * e.lockedNmc then price * runtimeS as real
                      else 3600.0 * e.lockedNmc) / 3600.0
    ensures Settles(accounts, AddAvailable(ReleaseConsumer(accounts, e.consumer, e.lockedNmc, e.lockedNmc - cost),
                                           PayeeOf(e.provider), cost - PlatformFee(cost)), e, runtimeS, price)
  {
  }

  // ----- each account, in every interleaving -----

  function WorthOf(accounts: Accounts, a: Id): real {
    AvailableOf(accounts, a) + EscrowedOf(accounts, a)
  }

  /** What a statement brings an account: its own deposit or withdrawal, the cost of its own job, or the
      provider's share of a cost. Locking brings nothing. */
  function AccountFlow(s: State, step: Step, a: Id): real
    requires Allowed(s, step)
  {
    match step
    case Begin(_, Deposit(account, x)) => if account == a && x > 0.0 then x else 0.0
    case Begin(_, Withdraw(account, x)) =>
      if account == a && x > 0.0 && a in s.accounts && s.accounts[a].available >= x then -x else 0.0
    case Begin(_, _) => 0.0
    case Continue(id) =>
      match s.pending[id]
      case DebitConsumer(_, e, cost) => if e.consumer == a && a in s.accounts then -cost else 0.0
      case CreditProvider(_, e, cost) =>
        if a == (match e.provider case Some(p) => p case None => "") then 92.0 * cost / 100.0 else 0.0
      case _ => 0.0
  }

  lemma StepAccountFlow(s: State, step: Step, a: Id)
    requires Allowed(s, step)
    ensures WorthOf(Exec(s, step).accounts, a) == WorthOf(s.accounts, a) + AccountFlow(s, step, a)
  {
    match step
    case Begin(id, r) => BeginAccountFlow(s, id, r, a);
    case Continue(id) => ContinueAccountFlow(s, id, a);
  }

  lemma BeginAccountFlow(s: State, id: RequestId, r: Request, a: Id)
    requires Allowed(s, Begin(id, r))
    ensures WorthOf(First(s, id, r).accounts, a) == WorthOf(s.accounts, a) + AccountFlow(s, Begin(id, r), a)
  {
  }

  lemma ContinueAccountFlow(s: State, id: RequestId, a: Id)
    requires id in s.pending
    ensures WorthOf(Next(s, id).accounts, a) == WorthOf(s.accounts, a) + AccountFlow(s, Continue(id), a)
  {
  }

  function AccountFlows(s: State, steps: seq<Step>, a: Id): real
    requires ValidRun(s, steps)
    decreases |steps|
  {
    if steps == [] then 0.0 else AccountFlow(s, steps[0], a) + AccountFlows(Exec(s, steps[0]), steps[1..], a)
  }

  /** In every interleaving each account has exactly what those statements brought it. */
  lemma {:induction false} OwnFlowsOnly(s: State, steps: seq<Step>, a: Id)
    requires ValidRun(s, steps)
    ensures WorthOf(Run(s, steps).accounts, a) == WorthOf(s.accounts, a) + AccountFlows(s, steps, a)
    decreases |steps|
  {
    if steps == [] {
    } else {
      hide Exec, WorthOf, AccountFlow;
      StepAccountFlow(s, steps[0], a);
      OwnFlowsOnly(Exec(s, steps[0]), steps[1..], a);
    }
  }

  /** The cost that a release debits and shares out is fixed when it reads the row. */
  lemma CostFixedAtRead(s: State, id: RequestId, e: Id, runtimeS: nat, price: real)
    requires id !in s.pending && e in s.escrows && s.escrows[e].state == Locked
    ensures var s1 := First(s, id, ReleaseRequest(e, runtimeS, price));
            && id in s1.pending && s1.pending[id].DebitConsumer? && s1.pending[id].escrow == s.escrows[e]
            && 3600.0 * s1.pending[id].cost
               == (if price * runtimeS as real <= 3600.0 * s.escrows[e].lockedNmc then price * runtimeS as real
                   else 3600.0 * s.escrows[e].lockedNmc)
            && var s2 := Next(s1, id);
               id in s2.pending && s2.pending[id] == CreditProvider(e, s.escrows[e], s1.pending[id].cost)
  {
    CostMeans(runtimeS, price, s.escrows[e].lockedNmc);
  }

  /** A lock that is granted is recorded as asked: this consumer, provider and amount, still locked. */
  lemma LockRecords(s: State, id: RequestId, consumer: Id, provider: Option<Id>, amount: real, e: Id)
    requires id !in s.pending
    ensures var s1 := First(s, id, LockRequest(consumer, provider, amount, e));
            if consumer in s.accounts && s.accounts[consumer].available >= amount then
              && id in s1.pending && Next(s1, id).pending == s.pending
              && Next(s1, id).escrows == s.escrows[e := Escrow(consumer, provider, amount, Locked)]
              && Moves(s.accounts, Next(s1, id).accounts, consumer, -amount, amount)
            else s1 == s
  {
  }

  // ----- the log of each account -----

  function LogFor(log: seq<Entry>, a: Id): real {
    if log == [] then 0.0
    else
      var last := log[|log| - 1];
      LogFor(log[..|log| - 1], a) + if last.account == a then last.amount else 0.0
  }

  function Due(p: Pending, a: Id): real {
    if p.RecordEntry? && p.entry.account == a then p.entry.amount else 0.0
  }

  function Dues(pending: map<RequestId, Pending>, a: Id): map<RequestId, real> {
    map t | t in pending :: Due(pending[t], a)
  }

  lemma SetDue(pending: map<RequestId, Pending>, t: RequestId, p: Pending, a: Id)
    ensures Sum(Dues(pending[t := p], a))
         == Sum(Dues(pending, a)) - (if t in pending then Due(pending[t], a) else 0.0) + Due(p, a)
  {
    assert Dues(pending[t := p], a) == Dues(pending, a)[t := Due(p, a)];
    SumUpdate(Dues(pending, a), t, Due(p, a));
  }

  lemma DropDue(pending: map<RequestId, Pending>, t: RequestId, a: Id)
    requires t in pending
    ensures Sum(Dues(pending - {t}, a)) == Sum(Dues(pending, a)) - Due(pending[t], a)
  {
    assert Dues(pending - {t}, a) == Dues(pending, a) - {t};
    SumRemove(Dues(pending, a), t);
  }

  /** An account's own deposits and withdrawals. */
  function CashFlow(s: State, step: Step, a: Id): real
    requires Allowed(s, step)
  {
    if step.Begin? && (step.request.Deposit? || step.request.Withdraw?) then AccountFlow(s, step, a) else 0.0
  }

  function CashFlows(s: State, steps: seq<Step>, a: Id): real
    requires ValidRun(s, steps)
    decreases |steps|
  {
    if steps == [] then 0.0 else CashFlow(s, steps[0], a) + CashFlows(Exec(s, steps[0]), steps[1..], a)
  }

  ghost function Logged(s: State, a: Id): real {
    LogFor(s.log, a) + Sum(Dues(s.pending, a))
  }

  lemma BeginLogs(s: State, id: RequestId, r: Request, a: Id)
    requires Allowed(s, Begin(id, r))
    ensures Logged(First(s, id, r), a) == Logged(s, a) + CashFlow(s, Begin(id, r), a)
  {
    hide AddAvailable, Debit, MoveToEscrow;
    var s' := First(s, id, r);
    if s' != s {
      SetDue(s.pending, id, s'.pending[id], a);
    }
  }

  lemma ContinueLogs(s: State, id: RequestId, a: Id)
    requires id in s.pending
    ensures Logged(Next(s, id), a) == Logged(s, a)
  {
    hide AddAvailable, ReleaseConsumer;
    var s' := Next(s, id);
    if s.pending[id].DebitConsumer? || s.pending[id].CreditProvider? {
      SetDue(s.pending, id, s'.pending[id], a);
    } else {
      DropDue(s.pending, id, a);
      if s.pending[id].RecordEntry? {
        assert s'.log[..|s'.log| - 1] == s.log;
      }
    }
  }

  /** In every interleaving an account's log, with the entries still to be written, is its own deposits less
      its own withdrawals. */
  lemma {:induction false} LogIsCash(s: State, steps: seq<Step>, a: Id)
    requires ValidRun(s, steps)
    ensures Logged(Run(s, steps), a) == Logged(s, a) + CashFlows(s, steps, a)
    decreases |steps|
  {
    if steps == [] {
    } else {
      hide Logged, CashFlow;
      match steps[0] {
        case Begin(id, r) => BeginLogs(s, id, r, a);
        case Continue(id) => ContinueLogs(s, id, a);
      }
      LogIsCash(Exec(s, steps[0]), steps[1..], a);
    }
  }
}
