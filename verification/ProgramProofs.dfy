/** What every run of the on-chain program keeps. */
module ProgramProofs {
  import opened Wrappers
  import opened Bytes
  import opened Sums
  import opened NeuralMeshProgram

  // ----- balances -----

  function Amounts(a: Accounts): map<Key, real> {
    map k | k in a :: a[k].amount as real
  }

  ghost function Total(a: Accounts): real {
    Sum(Amounts(a))
  }

  ghost predicate SameOwners(a: Accounts, b: Accounts) {
    a.Keys == b.Keys && forall k :: k in a ==> a[k].owner == b[k].owner
  }

  /** What one key gives and gets when amount moves from one account to another, possibly the same. */
  function Delta(k: Key, from: Key, to: Key, amount: int): int {
    (if k == to then amount else 0) - (if k == from then amount else 0)
  }

  ghost predicate Moved(a: Accounts, b: Accounts, from: Key, to: Key, amount: int) {
    SameOwners(a, b) && forall k :: k in a ==> b[k].amount == a[k].amount + Delta(k, from, to, amount)
  }

  lemma SetAccount(a: Accounts, k: Key, t: TokenAccount)
    ensures Total(a[k := t]) == Total(a) - At(Amounts(a), k) + t.amount as real
  {
    assert Amounts(a[k := t]) == Amounts(a)[k := t.amount as real];
    SumUpdate(Amounts(a), k, t.amount as real);
  }

  lemma TransferEffect(a: Accounts, from: Key, to: Key, amount: u64)
    requires from in a && to in a
    requires a[from].amount >= amount && Total(a) < U64_LIMIT as real
    ensures var r := Transfer(a, from, to, amount);
            r.Ok? && Moved(a, r.value, from, to, amount) && Total(r.value) == Total(a)
  {
    if from != to {
      SumCovers(Amounts(a), from);
      assert At(Amounts(a), from) + At(Amounts(a), to) <= Total(a);
      var a1 := a[from := a[from].(amount := a[from].amount - amount)];
      SetAccount(a, from, a1[from]);
      SetAccount(a1, to, a[to].(amount := a[to].amount + amount));
    }
  }

  lemma TransferOkMeans(a: Accounts, from: Key, to: Key, amount: u64)
    requires from in a && to in a
    requires Transfer(a, from, to, amount).Ok?
    ensures a[from].amount >= amount
  {
  }

  lemma PayEffect(a: Accounts, from: Key, to: Key, amount: u64)
    requires from in a && to in a
    requires a[from].amount >= amount && Total(a) < U64_LIMIT as real
    ensures var r := Pay(a, from, to, amount);
            r.Ok? && Moved(a, r.value, from, to, amount) && Total(r.value) == Total(a)
  {
    if amount > 0 {
      TransferEffect(a, from, to, amount);
    }
  }

  /** Whatever accounts coincide, the three payments succeed and every account changes by what
      it is owed, the vault giving all three. */
  lemma DistributeEffect(a: Accounts, vault: Key, provider: Key, collector: Key, consumer: Key,
                         earned: u64, fee: u64, refund: u64)
    requires vault in a && provider in a && collector in a && consumer in a
    requires a[vault].amount >= earned + fee + refund && Total(a) < U64_LIMIT as real
    ensures var r := Distribute(a, vault, provider, collector, consumer, earned, fee, refund);
            && r.Ok?
            && SameOwners(a, r.value)
            && Total(r.value) == Total(a)
            && forall k :: k in a ==>
                 r.value[k].amount == a[k].amount + Delta(k, vault, provider, earned)
                                      + Delta(k, vault, collector, fee) + Delta(k, vault, consumer, refund)
  {
    PayEffect(a, vault, provider, earned);
    var a1 := Pay(a, vault, provider, earned).value;
    PayEffect(a1, vault, collector, fee);
    var a2 := Pay(a1, vault, collector, fee).value;
    PayEffect(a2, vault, consumer, refund);
  }

  // ----- the invariant -----

  predicate Live(e: JobEscrow) {
    e.state == Open || e.state == Locked
  }

  function MintedBy(s: State): int {
    if s.config.Some? then s.config.value.totalMinted else 0
  }

  function BurnedBy(s: State): int {
    if s.config.Some? then s.config.value.totalBurned else 0
  }

  /** The vault of a live escrow covers it; the consumer's account is an ordinary one, open or not. */
  ghost predicate Backed(s: State, job: string)
    requires job in s.escrows
  {
    var e := s.escrows[job];
    && e.vault == VaultOf(job) && e.vault in s.accounts
    && e.consumerToken.Address?
    && (Live(e) ==> s.accounts[e.vault].amount >= e.lockedNmc)
  }

  ghost predicate Vaults(s: State) {
    && (forall job :: job in s.escrows ==> Backed(s, job))
    && forall k :: k in s.accounts ==>
         if k.VaultOf? then k.job in s.escrows && s.accounts[k].owner == Vault(k.job) else s.accounts[k].owner.Wallet?
  }

  ghost predicate Inv(s: State, initialSupply: int) {
    && Total(s.accounts) == s.supply as real
    && s.supply == initialSupply + MintedBy(s) - BurnedBy(s)
    && (s.config.Some? ==> s.config.value.feeBps <= MAX_FEE_BPS)
    && (s.config.None? ==> s.escrows == map[])
    && Vaults(s)
  }

  lemma MintKeepsInv(s: State, s0: int, i: Instruction)
    requires Inv(s, s0) && i.BridgeMint? && DoBridgeMint(s, i).Ok?
    ensures Inv(DoBridgeMint(s, i).value, s0)
  {
    SetAccount(s.accounts, i.to, DoBridgeMint(s, i).value.accounts[i.to]);
  }

  lemma BurnKeepsInv(s: State, s0: int, i: Instruction)
    requires Inv(s, s0) && i.BridgeBurn? && DoBridgeBurn(s, i).Ok?
    ensures Inv(DoBridgeBurn(s, i).value, s0)
  {
    SetAccount(s.accounts, i.from, DoBridgeBurn(s, i).value.accounts[i.from]);
  }

  lemma CreateKeepsInv(s: State, s0: int, i: Instruction)
    requires Inv(s, s0) && i.CreateEscrow? && DoCreateEscrow(s, i).Ok?
    ensures Inv(DoCreateEscrow(s, i).value, s0)
  {
    var vault := VaultOf(i.job);
    var withVault := s.accounts[vault := TokenAccount(Vault(i.job), 0)];
    SetAccount(s.accounts, vault, TokenAccount(Vault(i.job), 0));
    TransferOkMeans(withVault, i.consumerToken, vault, i.lockedNmc);
    TransferEffect(withVault, i.consumerToken, vault, i.lockedNmc);
  }

  lemma CancelKeepsInv(s: State, s0: int, i: Instruction)
    requires Inv(s, s0) && i.CancelEscrow? && DoCancelEscrow(s, i).Ok?
    ensures Inv(DoCancelEscrow(s, i).value, s0)
  {
    var e := s.escrows[i.job];
    TransferEffect(s.accounts, e.vault, e.consumerToken, e.lockedNmc);
  }

  lemma TransferKeepsInv(s: State, s0: int, i: Instruction)
    requires Inv(s, s0) && i.WalletTransfer? && DoWalletTransfer(s, i).Ok?
    ensures Inv(DoWalletTransfer(s, i).value, s0)
  {
    TransferOkMeans(s.accounts, i.from, i.to, i.amount);
    TransferEffect(s.accounts, i.from, i.to, i.amount);
  }

  lemma OpenKeepsInv(s: State, s0: int, i: Instruction)
    requires Inv(s, s0) && i.OpenAccount? && DoOpenAccount(s, i).Ok?
    ensures Inv(DoOpenAccount(s, i).value, s0)
  {
    SetAccount(s.accounts, i.account, TokenAccount(Wallet(i.signer), 0));
  }

  lemma CloseKeepsInv(s: State, s0: int, i: Instruction)
    requires Inv(s, s0) && i.CloseAccount? && DoCloseAccount(s, i).Ok?
    ensures Inv(DoCloseAccount(s, i).value, s0)
  {
    SumRemove(Amounts(s.accounts), i.account);
    assert Amounts(s.accounts - {i.account}) == Amounts(s.accounts) - {i.account};
  }

  lemma FeeBound(cost: nat, feeBps: nat)
    requires feeBps <= MAX_FEE_BPS
    ensures 10 * Fee(cost, feeBps) <= cost
  {
    assert cost * feeBps <= cost * MAX_FEE_BPS;
  }

  lemma ReleaseCovered(s: State, s0: int, i: Instruction)
    requires Inv(s, s0) && i.ReleaseEscrow? && ReleaseAllowed(s, i)
    ensures var e, fee := s.escrows[i.job], Fee(i.actualCost, s.config.value.feeBps);
            && e.vault in s.accounts && s.accounts[e.vault].amount >= e.lockedNmc
            && Total(s.accounts) < U64_LIMIT as real
            && 0 <= fee <= i.actualCost < U64_LIMIT
  {
    assert Backed(s, i.job);
    FeeBound(i.actualCost, s.config.value.feeBps);
  }

  /** The payments of a release, in terms of the state before it. */
  lemma ReleaseEffect(s: State, s0: int, i: Instruction)
    requires Inv(s, s0) && i.ReleaseEscrow? && ReleaseAllowed(s, i)
    ensures var e, fee := s.escrows[i.job], Fee(i.actualCost, s.config.value.feeBps);
            && DoReleaseEscrow(s, i).Ok?
            && var s' := DoReleaseEscrow(s, i).value;
               && s' == s.(accounts := s'.accounts,
                           escrows := s.escrows[i.job := e.(state := Settled, actualCost := i.actualCost, feeCollected := fee)])
               && SameOwners(s.accounts, s'.accounts)
               && Total(s'.accounts) == Total(s.accounts)
               && forall k :: k in s.accounts ==>
                    s'.accounts[k].amount == s.accounts[k].amount
                                             + Delta(k, e.vault, e.providerToken, i.actualCost - fee)
                                             + Delta(k, e.vault, s.config.value.feeCollector, fee)
                                             + Delta(k, e.vault, e.consumerToken, e.lockedNmc - i.actualCost)
  {
    hide DoReleaseEscrow, Fee, Delta, Distribute, Inv, SameOwners, Total;
    var e, cfg := s.escrows[i.job], s.config.value;
    var fee := Fee(i.actualCost, cfg.feeBps);
    ReleaseCovered(s, s0, i);
    ReleaseUnfolds(s, i);
    DistributeEffect(s.accounts, e.vault, e.providerToken, cfg.feeCollector, e.consumerToken,
                     i.actualCost - fee, fee, e.lockedNmc - i.actualCost);
  }

  lemma ReleaseUnfolds(s: State, i: Instruction)
    requires i.ReleaseEscrow? && ReleaseAllowed(s, i)
    requires Fee(i.actualCost, s.config.value.feeBps) <= i.actualCost
    requires s.escrows[i.job].vault in s.accounts
    ensures var e, fee := s.escrows[i.job], Fee(i.actualCost, s.config.value.feeBps);
            var paid := Distribute(s.accounts, e.vault, e.providerToken, s.config.value.feeCollector, e.consumerToken,
                                   i.actualCost - fee, fee, e.lockedNmc - i.actualCost);
            paid.Ok? ==> DoReleaseEscrow(s, i) == Ok(SettledWith(s, i, paid.value))
  {
    hide Distribute, Fee, SettledWith;
  }

  /** What the authority can check before asking for a release. */
  predicate ReleaseAllowed(s: State, i: Instruction)
    requires i.ReleaseEscrow?
  {
    && s.config.Some? && i.signer == s.config.value.authority
    && i.job in s.escrows && s.escrows[i.job].state == Locked
    && s.escrows[i.job].providerToken in s.accounts && s.escrows[i.job].consumerToken in s.accounts
    && s.config.value.feeCollector in s.accounts
    && i.actualCost <= s.escrows[i.job].lockedNmc
    && i.actualCost * s.config.value.feeBps < U64_LIMIT
  }

  lemma ReleaseKeepsInv(s: State, s0: int, i: Instruction)
    requires Inv(s, s0) && i.ReleaseEscrow? && DoReleaseEscrow(s, i).Ok?
    ensures Inv(DoReleaseEscrow(s, i).value, s0)
  {
    ReleaseEffect(s, s0, i);
  }

  lemma StepKeepsInv(s: State, s0: int, i: Instruction)
    requires Inv(s, s0)
    ensures Inv(Step(s, i), s0)
  {
    if Execute(s, i).Ok? {
      match i
      case BridgeMint(_, _, _, _) => MintKeepsInv(s, s0, i);
      case BridgeBurn(_, _, _) => BurnKeepsInv(s, s0, i);
      case CreateEscrow(_, _, _, _, _, _) => CreateKeepsInv(s, s0, i);
      case ReleaseEscrow(_, _, _) => ReleaseKeepsInv(s, s0, i);
      case CancelEscrow(_) => CancelKeepsInv(s, s0, i);
      case OpenAccount(_, _) => OpenKeepsInv(s, s0, i);
      case CloseAccount(_, _) => CloseKeepsInv(s, s0, i);
      case WalletTransfer(_, _, _, _) => TransferKeepsInv(s, s0, i);
      case Initialize(_, _, _, _) =>
      case LockEscrow(_, _) =>
      case UpdateConfig(_, _, _) =>
    }
  }
}
