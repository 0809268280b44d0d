/** Results over whole runs of the on-chain program. */
module ProgramRuns {
  import opened Wrappers
  import opened Bytes
  import opened Sums
  import opened NeuralMeshProgram
  import opened ProgramProofs

  // ----- conservation -----

  /** Before the program is initialised: any token accounts, holding the supply between them. */
  ghost predicate Initial(s: State) {
    && s.config.None? && s.escrows == map[] && Total(s.accounts) == s.supply as real
    && forall k :: k in s.accounts ==> k.Address? && s.accounts[k].owner.Wallet?
  }

  lemma {:induction false} RunKeepsInv(s: State, s0: int, txs: seq<Instruction>)
    requires Inv(s, s0)
    ensures Inv(Run(s, txs), s0)
    decreases |txs|
  {
    if txs == [] {
    } else {
      StepKeepsInv(s, s0, txs[0]);
      RunKeepsInv(Step(s, txs[0]), s0, txs[1..]);
    }
  }

  /** Over every run, whichever accounts coincide: balances sum to the initial supply plus mints
      minus burns, and every live escrow's vault covers it. */
  lemma Conservation(s: State, txs: seq<Instruction>)
    requires Initial(s)
    ensures var e := Run(s, txs);
            && Total(e.accounts) == (s.supply + MintedBy(e) - BurnedBy(e)) as real
            && forall job :: job in e.escrows && Live(e.escrows[job]) ==>
                 && e.escrows[job].vault in e.accounts
                 && e.accounts[e.escrows[job].vault].amount >= e.escrows[job].lockedNmc
  {
    RunKeepsInv(s, s.supply, txs);
  }

  // ----- exact vaults -----

  function Owed(e: JobEscrow): nat {
    if Live(e) then e.lockedNmc else 0
  }

  /** What a step pays into account `k`, apart from a consumer locking funds in the vault it creates. */
  function PaidIn(s: State, i: Instruction, k: Key): nat {
    if Execute(s, i).Err? then 0
    else
      match i
      case BridgeMint(_, to, amount, _) => if to == k then amount else 0
      case WalletTransfer(_, _, to, amount) => if to == k then amount else 0
      case ReleaseEscrow(_, job, cost) =>
        var fee := Fee(cost, s.config.value.feeBps);
        (if s.escrows[job].providerToken == k then cost - fee else 0)
        + (if s.config.value.feeCollector == k then fee else 0)
      case _ => 0
  }

  function PaidInOver(s: State, txs: seq<Instruction>, k: Key): nat
    decreases |txs|
  {
    if txs == [] then 0 else PaidIn(s, txs[0], k) + PaidInOver(Step(s, txs[0]), txs[1..], k)
  }

  /** What a job's vault holds beyond what its escrow is owed. */
  ghost function Excess(s: State, job: string): int
    requires Vaults(s)
  {
    if job !in s.escrows then 0
    else
      assert Backed(s, job);
      s.accounts[VaultOf(job)].amount - Owed(s.escrows[job])
  }

  lemma CreateMovesExcess(s: State, s0: int, i: Instruction, job: string)
    requires Inv(s, s0) && i.CreateEscrow? && DoCreateEscrow(s, i).Ok? && Vaults(Step(s, i))
    ensures Excess(Step(s, i), job) == Excess(s, job)
  {
  }

  lemma CancelMovesExcess(s: State, s0: int, i: Instruction, job: string)
    requires Inv(s, s0) && i.CancelEscrow? && DoCancelEscrow(s, i).Ok? && Vaults(Step(s, i))
    ensures Excess(Step(s, i), job) == Excess(s, job)
  {
    assert Backed(s, i.job);
  }

  lemma ReleasePaysVault(s: State, s0: int, i: Instruction, k: Key)
    requires Inv(s, s0) && i.ReleaseEscrow? && DoReleaseEscrow(s, i).Ok? && k.VaultOf? && k in s.accounts
    ensures var e, s' := s.escrows[i.job], DoReleaseEscrow(s, i).value;
            && k in s'.accounts && Owed(e) == e.lockedNmc
            && s'.accounts[k].amount == s.accounts[k].amount + PaidIn(s, i, k)
                                        - (if k == VaultOf(i.job) then e.lockedNmc else 0)
            && s'.escrows.Keys == s.escrows.Keys && Owed(s'.escrows[i.job]) == 0
            && forall job :: job in s.escrows && job != i.job ==> s'.escrows[job] == s.escrows[job]
  {
    hide Total, Inv, Fee, Distribute, DoReleaseEscrow;
    ReleaseNeeds(s, i);
    ReleaseParties(s, s0, i);
    ReleaseEffect(s, s0, i);
    PaidByRelease(s, i, k);
  }

  lemma ReleaseNeeds(s: State, i: Instruction)
    requires i.ReleaseEscrow? && DoReleaseEscrow(s, i).Ok?
    ensures ReleaseAllowed(s, i)
  {
    hide Distribute;
  }

  lemma ReleaseParties(s: State, s0: int, i: Instruction)
    requires Inv(s, s0) && i.ReleaseEscrow? && i.job in s.escrows
    ensures s.escrows[i.job].vault == VaultOf(i.job) && s.escrows[i.job].consumerToken.Address?
  {
    assert Backed(s, i.job);
  }

  lemma PaidByRelease(s: State, i: Instruction, k: Key)
    requires i.ReleaseEscrow? && DoReleaseEscrow(s, i).Ok? && ReleaseAllowed(s, i)
    ensures var fee := Fee(i.actualCost, s.config.value.feeBps);
            fee <= i.actualCost
            && PaidIn(s, i, k) == (if s.escrows[i.job].providerToken == k then i.actualCost - fee else 0)
                                  + (if s.config.value.feeCollector == k then fee else 0)
  {
    hide Fee, Distribute;
  }

  lemma ReleaseMovesExcess(s: State, s0: int, i: Instruction, job: string)
    requires Inv(s, s0) && i.ReleaseEscrow? && DoReleaseEscrow(s, i).Ok? && Vaults(Step(s, i))
    ensures Excess(Step(s, i), job) == Excess(s, job) + PaidIn(s, i, VaultOf(job))
  {
    if job in s.escrows {
      hide DoReleaseEscrow, PaidIn, Owed;
      assert Backed(s, job);
      ReleasePaysVault(s, s0, i, VaultOf(job));
    } else {
      NoVaultNothingPaid(s, s0, i, job);
    }
  }

  /** Before a job's escrow exists nothing can be paid into its vault. */
  lemma NoVaultNothingPaid(s: State, s0: int, i: Instruction, job: string)
    requires Inv(s, s0) && job !in s.escrows
    ensures PaidIn(s, i, VaultOf(job)) == 0
    ensures !i.CreateEscrow? ==> job !in Step(s, i).escrows
  {
    assert VaultOf(job) !in s.accounts;
  }

  lemma TransferMovesExcess(s: State, s0: int, i: Instruction, job: string)
    requires Inv(s, s0) && i.WalletTransfer? && Execute(s, i).Ok? && Vaults(Step(s, i)) && job in s.escrows
    ensures Excess(Step(s, i), job) == Excess(s, job) + PaidIn(s, i, VaultOf(job))
  {
    assert Backed(s, job);
  }

  lemma WalletsMoveExcess(s: State, s0: int, i: Instruction, job: string)
    requires Inv(s, s0) && Execute(s, i).Ok? && Vaults(Step(s, i)) && job in s.escrows
    requires i.BridgeMint? || i.BridgeBurn? || i.OpenAccount? || i.CloseAccount?
    ensures Excess(Step(s, i), job) == Excess(s, job) + PaidIn(s, i, VaultOf(job))
  {
    assert Backed(s, job);
  }

  lemma StepMovesExcess(s: State, s0: int, i: Instruction, job: string)
    requires Inv(s, s0) && Inv(Step(s, i), s0)
    ensures Excess(Step(s, i), job) == Excess(s, job) + PaidIn(s, i, VaultOf(job))
  {
    if Execute(s, i).Ok? && !i.CreateEscrow? && job !in s.escrows {
      NoVaultNothingPaid(s, s0, i, job);
    } else if Execute(s, i).Ok? {
      match i
      case CreateEscrow(_, _, _, _, _, _) => CreateMovesExcess(s, s0, i, job);
      case ReleaseEscrow(_, _, _) => ReleaseMovesExcess(s, s0, i, job);
      case CancelEscrow(_) => CancelMovesExcess(s, s0, i, job);
      case BridgeMint(_, _, _, _) => WalletsMoveExcess(s, s0, i, job);
      case BridgeBurn(_, _, _) => WalletsMoveExcess(s, s0, i, job);
      case OpenAccount(_, _) => WalletsMoveExcess(s, s0, i, job);
      case CloseAccount(_, _) => WalletsMoveExcess(s, s0, i, job);
      case WalletTransfer(_, _, _, _) => TransferMovesExcess(s, s0, i, job);
      case Initialize(_, _, _, _) =>
      case LockEscrow(_, _) =>
      case UpdateConfig(_, _, _) =>
    }
  }

  lemma {:induction false} RunMovesExcess(s: State, s0: int, txs: seq<Instruction>, job: string)
    requires Inv(s, s0) && Inv(Run(s, txs), s0)
    ensures Excess(Run(s, txs), job) == Excess(s, job) + PaidInOver(s, txs, VaultOf(job))
    decreases |txs|
  {
    if txs == [] {
    } else {
      StepKeepsInv(s, s0, txs[0]);
      StepMovesExcess(s, s0, txs[0], job);
      RunMovesExcess(Step(s, txs[0]), s0, txs[1..], job);
    }
  }

  /** Over every run each vault holds what its escrow is owed (locked_nmc while open or locked, nothing
      once settled or cancelled) and what was paid in besides; so it holds exactly what is owed if and
      only if nothing was. */
  lemma VaultsExactIff(s: State, txs: seq<Instruction>, job: string)
    requires Initial(s) && job in Run(s, txs).escrows
    ensures var e := Run(s, txs);
            && e.escrows[job].vault == VaultOf(job) && VaultOf(job) in e.accounts
            && e.accounts[VaultOf(job)].amount == Owed(e.escrows[job]) + PaidInOver(s, txs, VaultOf(job))
            && (e.accounts[VaultOf(job)].amount == Owed(e.escrows[job]) <==> PaidInOver(s, txs, VaultOf(job)) == 0)
  {
    RunKeepsInv(s, s.supply, txs);
    RunMovesExcess(s, s.supply, txs, job);
    assert Backed(Run(s, txs), job);
  }

  /** Nobody pays anything into the vault of an existing escrow. */
  ghost predicate CleanRun(s: State, txs: seq<Instruction>)
    decreases |txs|
  {
    txs == [] || ((forall job: string :: PaidIn(s, txs[0], VaultOf(job)) == 0) && CleanRun(Step(s, txs[0]), txs[1..]))
  }

  lemma {:induction false} CleanPaysNothing(s: State, txs: seq<Instruction>, job: string)
    requires CleanRun(s, txs)
    ensures PaidInOver(s, txs, VaultOf(job)) == 0
    decreases |txs|
  {
    if txs == [] {
    } else {
      CleanPaysNothing(Step(s, txs[0]), txs[1..], job);
    }
  }

  /** In particular every vault is exact in a run that never pays into one. */
  lemma VaultsExact(s: State, txs: seq<Instruction>)
    requires Initial(s) && CleanRun(s, txs)
    ensures var e := Run(s, txs);
            forall job :: job in e.escrows ==>
              && e.escrows[job].vault in e.accounts
              && e.accounts[e.escrows[job].vault].amount == Owed(e.escrows[job])
  {
    forall job | job in Run(s, txs).escrows
      ensures Run(s, txs).escrows[job].vault in Run(s, txs).accounts
      ensures Run(s, txs).accounts[Run(s, txs).escrows[job].vault].amount == Owed(Run(s, txs).escrows[job])
    {
      VaultsExactIff(s, txs, job);
      CleanPaysNothing(s, txs, job);
    }
  }

  /** Such a payment is possible: tokens minted to an open escrow's vault stay in it. */
  lemma MintIntoVault()
    ensures var s := State(None, map[Address(1) := TokenAccount(Wallet(Address(0)), 5)], 5, 0, map[]);
            var txs := [Initialize(Address(0), Address(9), 100, 1000),
                        CreateEscrow(Address(0), Address(2), Address(1), Address(3), "j", 5),
                        BridgeMint(Address(0), VaultOf("j"), 7, 0)];
            var e := Run(s, txs);
            && Initial(s) && "j" in e.escrows && e.escrows["j"].state == Open && VaultOf("j") in e.accounts
            && e.accounts[VaultOf("j")].amount == 12 && Owed(e.escrows["j"]) == 5
  {
    var s := State(None, map[Address(1) := TokenAccount(Wallet(Address(0)), 5)], 5, 0, map[]);
    var init := Initialize(Address(0), Address(9), 100, 1000);
    var create := CreateEscrow(Address(0), Address(2), Address(1), Address(3), "j", 5);
    var mint := BridgeMint(Address(0), VaultOf("j"), 7, 0);
    SumRemove(Amounts(s.accounts), Address(1));
    assert Amounts(s.accounts) - {Address(1)} == map[];
    var s1 := Step(s, init);
    var s2 := Step(s1, create);
    var s3 := Step(s2, mint);
    assert s2.escrows["j"].state == Open && s2.accounts[VaultOf("j")].amount == 5;
    assert [init, create, mint][1..] == [create, mint] && [create, mint][1..] == [mint] && [mint][1..] == [];
    assert Run(s2, [mint]) == Run(s3, []) == s3;
    assert Run(s1, [create, mint]) == s3;
  }

  /** One release, in terms of the state before it: after a release it is empty exactly when it held
      no more than was locked and no part was paid back to it. */
  lemma EmptyAfterReleaseIff(s: State, s0: int, i: Instruction)
    requires Inv(s, s0) && i.ReleaseEscrow? && ReleaseAllowed(s, i)
    ensures var e, cfg := s.escrows[i.job], s.config.value;
            var fee := Fee(i.actualCost, cfg.feeBps);
            e.vault in s.accounts && DoReleaseEscrow(s, i).Ok?
            && e.vault in DoReleaseEscrow(s, i).value.accounts
            && (DoReleaseEscrow(s, i).value.accounts[e.vault].amount == 0 <==>
                  && s.accounts[e.vault].amount == e.lockedNmc
                  && (e.providerToken == e.vault ==> i.actualCost == fee)
                  && (cfg.feeCollector == e.vault ==> fee == 0))
  {
    assert Backed(s, i.job);
    FeeBound(i.actualCost, s.config.value.feeBps);
    ReleaseEffect(s, s0, i);
  }

  // ----- settlement -----

  /** A release succeeds exactly when it is allowed: the vault never falls short, no destination
      overflows, and the subtractions never underflow. */
  lemma ReleaseIff(s: State, s0: int, i: Instruction)
    requires Inv(s, s0) && i.ReleaseEscrow?
    ensures DoReleaseEscrow(s, i).Ok? <==> ReleaseAllowed(s, i)
  {
    if ReleaseAllowed(s, i) {
      ReleaseEffect(s, s0, i);
    }
  }

  /** So does a cancellation: of a live escrow, while the consumer's token account is open. */
  lemma CancelIff(s: State, s0: int, i: Instruction)
    requires Inv(s, s0) && i.CancelEscrow?
    ensures DoCancelEscrow(s, i).Ok? <==>
              i.job in s.escrows && Live(s.escrows[i.job]) && s.escrows[i.job].consumerToken in s.accounts
  {
    if i.job in s.escrows && Live(s.escrows[i.job]) && s.escrows[i.job].consumerToken in s.accounts {
      var e := s.escrows[i.job];
      assert Backed(s, i.job);
      TransferEffect(s.accounts, e.vault, e.consumerToken, e.lockedNmc);
    }
  }

  /** A consumer who locks a whole balance can close the emptied account: then the live escrow can be
      neither cancelled nor released, until the account is opened again. */
  lemma ClosedAccountBlocks(s: State, s0: int, create: Instruction, cost: u64)
    requires Inv(s, s0) && create.CreateEscrow? && DoCreateEscrow(s, create).Ok?
    requires create.lockedNmc == s.accounts[create.consumerToken].amount
    ensures var close := CloseAccount(create.signer, create.consumerToken);
            var s' := Step(Step(s, create), close);
            && create.job in s'.escrows && Live(s'.escrows[create.job]) && create.consumerToken !in s'.accounts
            && Execute(s', CancelEscrow(create.job)).Err?
            && (forall signer :: Execute(s', ReleaseEscrow(signer, create.job, cost)).Err?)
            && Execute(Step(s', OpenAccount(create.signer, create.consumerToken)), CancelEscrow(create.job)).Ok?
  {
    hide DoCreateEscrow, Inv;
    var open := OpenAccount(create.signer, create.consumerToken);
    var created := Step(s, create);
    var closed := Step(created, CloseAccount(create.signer, create.consumerToken));
    LockedWholeBalance(s, create);
    StepKeepsInv(s, s0, create);
    StepKeepsInv(created, s0, CloseAccount(create.signer, create.consumerToken));
    StepKeepsInv(closed, s0, open);
    ConsumerIsOrdinary(created, s0, create.job);
    CancelIff(Step(closed, open), s0, CancelEscrow(create.job));
  }

  lemma LockedWholeBalance(s: State, create: Instruction)
    requires create.CreateEscrow? && DoCreateEscrow(s, create).Ok?
    requires create.lockedNmc == s.accounts[create.consumerToken].amount
    ensures var s' := Step(s, create);
            && create.job in s'.escrows && s'.escrows[create.job].state == Open
            && s'.escrows[create.job].consumerToken == create.consumerToken && create.consumerToken in s'.accounts
            && s'.accounts[create.consumerToken] == TokenAccount(Wallet(create.signer), 0)
  {
  }

  lemma ConsumerIsOrdinary(s: State, s0: int, job: string)
    requires Inv(s, s0) && job in s.escrows
    ensures s.escrows[job].consumerToken.Address?
  {
    assert Backed(s, job);
  }

  /** No multiplication overflows while locked_nmc times 1000 fits. */
  lemma NoOverflow(s: State, s0: int, i: Instruction)
    requires Inv(s, s0) && i.ReleaseEscrow? && i.job in s.escrows
    requires s.escrows[i.job].lockedNmc * MAX_FEE_BPS < U64_LIMIT
    ensures DoReleaseEscrow(s, i) != Err(Overflow)
  {
    if s.config.Some? && i.actualCost <= s.escrows[i.job].lockedNmc {
      var locked, bps := s.escrows[i.job].lockedNmc, s.config.value.feeBps;
      assert i.actualCost * bps <= locked * bps <= locked * MAX_FEE_BPS;
      if ReleaseAllowed(s, i) {
        ReleaseEffect(s, s0, i);
      }
      FeeBound(i.actualCost, bps);
    }
  }

  /** A release pays out exactly what was locked, the fee at most a tenth of the cost; distinct payees
      get provider share, fee and refund, and coinciding ones get the sum. */
  lemma ReleasePays(s: State, s0: int, i: Instruction)
    requires Inv(s, s0) && i.ReleaseEscrow? && DoReleaseEscrow(s, i).Ok?
    ensures var e, cfg, s' := s.escrows[i.job], s.config.value, DoReleaseEscrow(s, i).value;
            var fee, cost := s'.escrows[i.job].feeCollected, s'.escrows[i.job].actualCost;
            && cost == i.actualCost
            && 10 * fee <= cost <= e.lockedNmc
            && BPS * fee <= cost * cfg.feeBps < BPS * (fee + 1)
            && s'.accounts.Keys == s.accounts.Keys
            && forall k :: k in s.accounts ==>
                 s'.accounts[k].amount == s.accounts[k].amount - (if k == e.vault then e.lockedNmc else 0)
                                          + (if k == e.providerToken then cost - fee else 0)
                                          + (if k == cfg.feeCollector then fee else 0)
                                          + (if k == e.consumerToken then e.lockedNmc - cost else 0)
  {
    FeeBound(i.actualCost, s.config.value.feeBps);
    ReleaseEffect(s, s0, i);
  }

  /** Steps left to a settled escrow. */
  function Rank(p: Phase): nat {
    match p
    case Open => 2
    case Locked => 1
    case Settled => 0
    case Cancelled => 0
  }

  /** The only order: Open to Locked, Locked to Settled, Open or Locked to Cancelled; nothing else
      of an escrow's terms ever changes. */
  predicate Follows(p: Phase, q: Phase) {
    || (p == Open && q == Locked) || (p == Locked && q == Settled) || (Rank(p) > 0 && q == Cancelled)
  }

  lemma StepOrder(s: State, i: Instruction, job: string)
    requires job in s.escrows
    ensures job in Step(s, i).escrows
    ensures var e, e' := s.escrows[job], Step(s, i).escrows[job];
            && (e'.state != e.state ==> Follows(e.state, e'.state))
            && (Rank(e.state) == 0 ==> e' == e)
            && e'.(state := e.state, actualCost := e.actualCost, feeCollected := e.feeCollected) == e
  {
  }

  function Transitions(s: State, txs: seq<Instruction>, job: string): nat
    requires job in s.escrows
    decreases |txs|
  {
    if txs == [] then 0
    else
      StepOrder(s, txs[0], job);
      var s' := Step(s, txs[0]);
      (if s'.escrows[job].state != s.escrows[job].state then 1 else 0) + Transitions(s', txs[1..], job)
  }

  /** Once created (Open), an escrow changes state at most twice in any run, and never after it settled. */
  lemma {:induction false} SettlesOnce(s: State, txs: seq<Instruction>, job: string)
    requires job in s.escrows
    ensures job in Run(s, txs).escrows
    ensures Transitions(s, txs, job) + Rank(Run(s, txs).escrows[job].state) <= Rank(s.escrows[job].state) <= 2
    ensures Rank(s.escrows[job].state) == 0 ==> Run(s, txs).escrows[job] == s.escrows[job]
    decreases |txs|
  {
    if txs == [] {
    } else {
      StepOrder(s, txs[0], job);
      SettlesOnce(Step(s, txs[0]), txs[1..], job);
    }
  }

  lemma CreatedOpen(s: State, i: Instruction)
    requires i.CreateEscrow? && DoCreateEscrow(s, i).Ok?
    ensures i.job !in s.escrows && Step(s, i).escrows[i.job].state == Open
    ensures Step(s, i).escrows[i.job].lockedNmc == i.lockedNmc
  {
  }

  // ----- the bridge -----

  datatype Mint = Mint(nonce: int, amount: int, limit: int)

  predicate Accepted(s: State, i: Instruction) {
    i.BridgeMint? && DoBridgeMint(s, i).Ok?
  }

  /** The accepted bridge messages of a run, each with the limit then in force. */
  function Minted(s: State, txs: seq<Instruction>): seq<Mint>
    decreases |txs|
  {
    if txs == [] then []
    else
      var rest := Minted(Step(s, txs[0]), txs[1..]);
      if Accepted(s, txs[0]) then [Mint(txs[0].nonce, txs[0].amount, s.config.value.mintLimit)] + rest else rest
  }

  function Amount(ms: seq<Mint>): int {
    if ms == [] then 0 else ms[0].amount + Amount(ms[1..])
  }

  /** Only an accepted message moves the nonce or the minted total. */
  lemma MintStep(s: State, i: Instruction)
    ensures Step(s, i).nextNonce == s.nextNonce + (if Accepted(s, i) then 1 else 0)
    ensures MintedBy(Step(s, i)) == MintedBy(s) + (if Accepted(s, i) then i.amount else 0)
    ensures Accepted(s, i) ==> s.config.Some? && i.nonce == s.nextNonce && i.amount <= s.config.value.mintLimit
  {
  }

  /** Accepted nonces are consecutive from the first one expected, every amount respects its limit,
      and total_minted grows by exactly what was accepted. */
  lemma {:induction false} BridgeTrace(s: State, txs: seq<Instruction>)
    ensures var ms := Minted(s, txs);
            && Run(s, txs).nextNonce == s.nextNonce + |ms|
            && (forall j :: 0 <= j < |ms| ==> ms[j].nonce == s.nextNonce + j && ms[j].amount <= ms[j].limit)
            && MintedBy(Run(s, txs)) == MintedBy(s) + Amount(ms)
    decreases |txs|
  {
    if txs == [] {
    } else {
      hide Step, Accepted, MintedBy;
      var rest := Minted(Step(s, txs[0]), txs[1..]);
      MintStep(s, txs[0]);
      BridgeTrace(Step(s, txs[0]), txs[1..]);
      if Accepted(s, txs[0]) {
        assert Minted(s, txs)[1..] == rest;
      }
    }
  }

  /** A message that was accepted once is refused ever after, whoever sends it with whatever amount,
      and changes nothing. */
  lemma ReplayRejected(s: State, txs: seq<Instruction>, j: nat, replay: Instruction)
    requires j < |Minted(s, txs)|
    requires replay.BridgeMint? && replay.nonce == Minted(s, txs)[j].nonce
    ensures Execute(Run(s, txs), replay).Err? && Step(Run(s, txs), replay) == Run(s, txs)
  {
    BridgeTrace(s, txs);
  }
}
