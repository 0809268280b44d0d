/** Whose tokens move, by how much and on whose signature, at every step and over runs. */
module ProgramFlows {
  import opened Wrappers
  import opened Bytes
  import opened Utf8
  import opened NeuralMeshProgram
  import opened ProgramProofs
  import opened ProgramRuns
  import S = Sums

  /** A closed account holds nothing. */
  function BalanceOf(accounts: Accounts, k: Key): nat {
    if k in accounts then accounts[k].amount else 0
  }

  /** The parts of a release: provider share, platform fee in hundredths of a percent, refund. */
  function ReleaseGain(s: State, job: string, cost: nat, k: Key): nat
    requires s.config.Some? && job in s.escrows && cost <= s.escrows[job].lockedNmc && s.config.value.feeBps <= 1000
  {
    var e, fee := s.escrows[job], cost * s.config.value.feeBps / 10_000;
    FeeBound(cost, s.config.value.feeBps);
    (if k == e.providerToken then cost - fee else 0)
    + (if k == s.config.value.feeCollector then fee else 0)
    + (if k == e.consumerToken then e.lockedNmc - cost else 0)
  }

  /** What a step pays into an account. */
  ghost function Gain(s: State, s0: int, i: Instruction, k: Key): nat
    requires Inv(s, s0)
  {
    if Execute(s, i).Err? then 0
    else
      match i
      case BridgeMint(_, to, amount, _) => if k == to then amount else 0
      case WalletTransfer(_, _, to, amount) => if k == to then amount else 0
      case CreateEscrow(_, _, _, _, job, locked) => if k == VaultOf(job) then locked else 0
      case ReleaseEscrow(_, job, cost) => ReleaseGain(s, job, cost, k)
      case CancelEscrow(job) => if k == s.escrows[job].consumerToken then s.escrows[job].lockedNmc else 0
      case _ => 0
  }

  /** What a step takes out of an account. */
  function Spend(s: State, i: Instruction, k: Key): nat {
    if Execute(s, i).Err? then 0
    else
      match i
      case BridgeBurn(_, from, amount) => if k == from then amount else 0
      case WalletTransfer(_, from, _, amount) => if k == from then amount else 0
      case CreateEscrow(_, _, from, _, _, locked) => if k == from then locked else 0
      case ReleaseEscrow(_, job, _) => if k == VaultOf(job) then s.escrows[job].lockedNmc else 0
      case CancelEscrow(job) => if k == VaultOf(job) then s.escrows[job].lockedNmc else 0
      case _ => 0
  }

  lemma ReleaseFlow(s: State, s0: int, i: Instruction, k: Key)
    requires Inv(s, s0) && i.ReleaseEscrow? && DoReleaseEscrow(s, i).Ok?
    ensures BalanceOf(DoReleaseEscrow(s, i).value.accounts, k)
         == BalanceOf(s.accounts, k) + ReleaseGain(s, i.job, i.actualCost, k) - Spend(s, i, k)
  {
    hide Total;
    assert Backed(s, i.job);
    ReleaseEffect(s, s0, i);
  }

  lemma CancelFlow(s: State, s0: int, i: Instruction, k: Key)
    requires Inv(s, s0) && i.CancelEscrow? && DoCancelEscrow(s, i).Ok?
    ensures BalanceOf(DoCancelEscrow(s, i).value.accounts, k) == BalanceOf(s.accounts, k) + Gain(s, s0, i, k) - Spend(s, i, k)
  {
    hide Total;
    assert Backed(s, i.job);
  }

  lemma CreateFlow(s: State, s0: int, i: Instruction, k: Key)
    requires Inv(s, s0) && i.CreateEscrow? && DoCreateEscrow(s, i).Ok?
    ensures BalanceOf(DoCreateEscrow(s, i).value.accounts, k) == BalanceOf(s.accounts, k) + Gain(s, s0, i, k) - Spend(s, i, k)
  {
    hide Total, Inv;
  }

  lemma WalletFlow(s: State, s0: int, i: Instruction, k: Key)
    requires Inv(s, s0) && i.WalletTransfer? && DoWalletTransfer(s, i).Ok?
    ensures BalanceOf(DoWalletTransfer(s, i).value.accounts, k) == BalanceOf(s.accounts, k) + Gain(s, s0, i, k) - Spend(s, i, k)
  {
    hide Total, Inv;
  }

  lemma OtherFlow(s: State, s0: int, i: Instruction, k: Key)
    requires Inv(s, s0) && Execute(s, i).Ok?
    requires !i.ReleaseEscrow? && !i.CancelEscrow? && !i.CreateEscrow? && !i.WalletTransfer?
    ensures BalanceOf(Step(s, i).accounts, k) == BalanceOf(s.accounts, k) + Gain(s, s0, i, k) - Spend(s, i, k)
  {
    hide Total, Inv;
  }

  /** Every step changes every account by what it pays in less what it takes out, and by nothing else. */
  lemma StepFlow(s: State, s0: int, i: Instruction, k: Key)
    requires Inv(s, s0)
    ensures BalanceOf(Step(s, i).accounts, k) == BalanceOf(s.accounts, k) + Gain(s, s0, i, k) - Spend(s, i, k)
  {
    if Execute(s, i).Ok? {
      match i
      case ReleaseEscrow(_, _, _) => ReleaseFlow(s, s0, i, k);
      case CancelEscrow(_) => CancelFlow(s, s0, i, k);
      case CreateEscrow(_, _, _, _, _, _) => CreateFlow(s, s0, i, k);
      case WalletTransfer(_, _, _, _) => WalletFlow(s, s0, i, k);
      case _ => OtherFlow(s, s0, i, k);
    }
  }

  /** Who signs an instruction; a cancellation is not tied to its signer. */
  function SignerOf(i: Instruction): Option<Key> {
    if i.CancelEscrow? then None else Some(i.signer)
  }

  /** A wallet's tokens are spent on its own signature only. A vault's are spent by the authority's release
      of its locked escrow, or by a cancellation while it is open or locked. */
  lemma SpentByOwner(s: State, s0: int, i: Instruction, k: Key)
    requires Inv(s, s0) && Spend(s, i, k) > 0
    ensures k in s.accounts
    ensures match s.accounts[k].owner
            case Wallet(w) => SignerOf(i) == Some(w)
            case Vault(job) =>
              && job in s.escrows && k == VaultOf(job)
              && ((i.ReleaseEscrow? && i.job == job && s.escrows[job].state == Locked
                   && s.config.Some? && i.signer == s.config.value.authority)
                  || (i == CancelEscrow(job) && (s.escrows[job].state == Open || s.escrows[job].state == Locked)))
  {
    hide Total;
    if i.ReleaseEscrow? || i.CancelEscrow? {
      assert Backed(s, i.job);
    }
  }

  ghost function NetOver(s: State, s0: int, txs: seq<Instruction>, k: Key): int
    requires Inv(s, s0)
    decreases |txs|
  {
    if txs == [] then 0
    else
      StepKeepsInv(s, s0, txs[0]);
      Gain(s, s0, txs[0], k) - Spend(s, txs[0], k) + NetOver(Step(s, txs[0]), s0, txs[1..], k)
  }

  /** Over every run an account ends with what it began with, what was paid in, less what was taken out. */
  lemma {:induction false} RunFlow(s: State, s0: int, txs: seq<Instruction>, k: Key)
    requires Inv(s, s0)
    ensures BalanceOf(Run(s, txs).accounts, k) == BalanceOf(s.accounts, k) + NetOver(s, s0, txs, k)
    decreases |txs|
  {
    hide Inv;
    if txs == [] {
    } else {
      StepKeepsInv(s, s0, txs[0]);
      StepFlow(s, s0, txs[0], k);
      RunFlow(Step(s, txs[0]), s0, txs[1..], k);
    }
  }

  // ----- an escrow pays as agreed when it was created -----

  lemma CreatedTerms(s: State, create: Instruction)
    requires create.CreateEscrow? && DoCreateEscrow(s, create).Ok?
    ensures var s' := Step(s, create);
            && create.job in s'.escrows
            && s'.escrows[create.job] == JobEscrow(create.signer, create.provider, create.lockedNmc, Open, create.consumerToken,
                                                   create.providerToken, VaultOf(create.job), 0, 0)
            && forall job :: job != create.job ==>
                 (job in s'.escrows <==> job in s.escrows) && (job in s.escrows ==> s'.escrows[job] == s.escrows[job])
  {
  }

  predicate SameTerms(e: JobEscrow, e': JobEscrow) {
    e'.(state := e.state, actualCost := e.actualCost, feeCollected := e.feeCollected) == e
  }

  lemma {:induction false} TermsStay(s: State, txs: seq<Instruction>, job: string)
    requires job in s.escrows
    ensures job in Run(s, txs).escrows && SameTerms(s.escrows[job], Run(s, txs).escrows[job])
    decreases |txs|
  {
    if txs == [] {
    } else {
      hide Step;
      StepOrder(s, txs[0], job);
      TermsStay(Step(s, txs[0]), txs[1..], job);
    }
  }

  lemma AgreedTerms(s: State, create: Instruction, txs: seq<Instruction>)
    requires create.CreateEscrow? && DoCreateEscrow(s, create).Ok?
    ensures var m := Run(Step(s, create), txs);
            && create.job in m.escrows
            && var e := m.escrows[create.job];
               && e.consumer == create.signer && e.provider == create.provider && e.lockedNmc == create.lockedNmc
               && e.consumerToken == create.consumerToken && e.providerToken == create.providerToken
               && e.vault == VaultOf(create.job)
  {
    CreatedTerms(s, create);
    TermsStay(Step(s, create), txs, create.job);
  }

  /** However long after, a release pays the provider account, the consumer account and the amount named at
      creation: cost less fee to the one, locked less cost to the other, the fee to the collector, and
      coinciding accounts the sum. */
  lemma ReleasesAsAgreed(s: State, s0: int, create: Instruction, txs: seq<Instruction>, release: Instruction, k: Key)
    requires Inv(s, s0) && create.CreateEscrow? && DoCreateEscrow(s, create).Ok?
    requires release.ReleaseEscrow? && release.job == create.job
    requires Execute(Run(Step(s, create), txs), release).Ok?
    ensures var m := Run(Step(s, create), txs);
            var s', cost := Step(m, release), release.actualCost;
            && m.config.Some? && release.job in s'.escrows && s'.escrows[release.job].state == Settled
            && cost <= create.lockedNmc
            && var fee := s'.escrows[release.job].feeCollected;
               && 10_000 * fee <= cost * m.config.value.feeBps < 10_000 * (fee + 1) && 10 * fee <= cost
               && BalanceOf(s'.accounts, k)
                  == BalanceOf(m.accounts, k) + (if k == create.providerToken then cost - fee else 0)
                     + (if k == create.consumerToken then create.lockedNmc - cost else 0)
                     + (if k == m.config.value.feeCollector then fee else 0)
                     - (if k == VaultOf(create.job) then create.lockedNmc else 0)
  {
    hide Inv, Fee, Execute, DoCreateEscrow;
    var m := Run(Step(s, create), txs);
    AgreedTerms(s, create, txs);
    StepKeepsInv(s, s0, create);
    RunKeepsInv(Step(s, create), s0, txs);
    ReleaseOk(m, release);
    ReleaseSettles(m, s0, release, k);
  }

  lemma ReleaseOk(m: State, i: Instruction)
    requires i.ReleaseEscrow? && Execute(m, i).Ok?
    ensures DoReleaseEscrow(m, i).Ok? && Step(m, i) == DoReleaseEscrow(m, i).value
  {
  }

  lemma ReleaseSettles(m: State, s0: int, i: Instruction, k: Key)
    requires Inv(m, s0) && i.ReleaseEscrow? && DoReleaseEscrow(m, i).Ok?
    ensures m.config.Some? && i.job in m.escrows && m.escrows[i.job].vault == VaultOf(i.job)
    ensures var s', e, cost := DoReleaseEscrow(m, i).value, m.escrows[i.job], i.actualCost;
            && i.job in s'.escrows && s'.escrows[i.job].state == Settled && cost <= e.lockedNmc
            && var fee := s'.escrows[i.job].feeCollected;
               && 10_000 * fee <= cost * m.config.value.feeBps < 10_000 * (fee + 1) && 10 * fee <= cost
               && BalanceOf(s'.accounts, k)
                  == BalanceOf(m.accounts, k) + (if k == e.providerToken then cost - fee else 0)
                     + (if k == e.consumerToken then e.lockedNmc - cost else 0)
                     + (if k == m.config.value.feeCollector then fee else 0)
                     - (if k == VaultOf(i.job) then e.lockedNmc else 0)
  {
    hide Total;
    assert Backed(m, i.job);
    FeeBound(i.actualCost, m.config.value.feeBps);
    ReleaseFlow(m, s0, i, k);
    ReleaseEffect(m, s0, i);
  }

  /** And a cancellation returns the whole amount named at creation to the account named then. */
  lemma CancelsAsAgreed(s: State, s0: int, create: Instruction, txs: seq<Instruction>, k: Key)
    requires Inv(s, s0) && create.CreateEscrow? && DoCreateEscrow(s, create).Ok?
    requires Execute(Run(Step(s, create), txs), CancelEscrow(create.job)).Ok?
    ensures var m := Run(Step(s, create), txs);
            var s' := Step(m, CancelEscrow(create.job));
            && create.job in s'.escrows && s'.escrows[create.job].state == Cancelled
            && BalanceOf(s'.accounts, k)
               == BalanceOf(m.accounts, k) + (if k == create.consumerToken then create.lockedNmc else 0)
                  - (if k == VaultOf(create.job) then create.lockedNmc else 0)
  {
    hide Inv, DoCreateEscrow;
    var m := Run(Step(s, create), txs);
    AgreedTerms(s, create, txs);
    StepKeepsInv(s, s0, create);
    RunKeepsInv(Step(s, create), s0, txs);
    StepFlow(m, s0, CancelEscrow(create.job), k);
  }

  /** Only the provider named at creation locks the escrow, and only the authority settles it. */
  lemma LockedByProvider(s: State, create: Instruction, txs: seq<Instruction>, i: Instruction)
    requires create.CreateEscrow? && DoCreateEscrow(s, create).Ok?
    ensures var m := Run(Step(s, create), txs);
            && create.job in m.escrows && create.job in Step(m, i).escrows
            && var p, q := m.escrows[create.job].state, Step(m, i).escrows[create.job].state;
               && (p != q && q == Locked ==> i == LockEscrow(create.provider, create.job))
               && (p != q && q == Settled ==>
                     m.config.Some? && i.ReleaseEscrow? && i.job == create.job && i.signer == m.config.value.authority)
               && (p != q && q == Cancelled ==> i == CancelEscrow(create.job))
               && (i == LockEscrow(create.provider, create.job) && p == Open ==> q == Locked)
  {
    hide DoCreateEscrow;
    var m := Run(Step(s, create), txs);
    AgreedTerms(s, create, txs);
    StepOrder(m, i, create.job);
    PhaseStep(m, i, create.job);
  }

  lemma PhaseStep(m: State, i: Instruction, job: string)
    requires job in m.escrows
    ensures job in Step(m, i).escrows
    ensures var p, q := m.escrows[job].state, Step(m, i).escrows[job].state;
            && (p != q && q == Locked ==> i == LockEscrow(m.escrows[job].provider, job))
            && (p != q && q == Settled ==>
                  m.config.Some? && i.ReleaseEscrow? && i.job == job && i.signer == m.config.value.authority)
            && (p != q && q == Cancelled ==> i == CancelEscrow(job))
            && (i == LockEscrow(m.escrows[job].provider, job) && p == Open ==> q == Locked)
  {
    hide Transfer, Distribute;
  }

  // ----- the authority -----

  /** What each step may do to the configuration. */
  lemma ConfigStep(s: State, i: Instruction)
    ensures s.config.None? && Step(s, i).config.Some? ==>
              i.Initialize? && i.feeBps <= 1000 && Step(s, i).config == Some(Config(i.signer, i.feeCollector, i.feeBps, i.mintLimit, 0, 0))
    ensures i.Initialize? ==> (Execute(s, i).Ok? <==> s.config.None? && i.feeBps <= 1000)
    ensures s.config.Some? ==>
              && Step(s, i).config.Some?
              && var c, c' := s.config.value, Step(s, i).config.value;
                 && c'.authority == c.authority && c'.feeCollector == c.feeCollector
                 && (!i.UpdateConfig? ==> c'.feeBps == c.feeBps && c'.mintLimit == c.mintLimit)
    ensures i.UpdateConfig? && s.config.Some? ==>
              var c, c' := s.config.value, Step(s, i).config.value;
              var ok := i.signer == c.authority && (i.newFeeBps.Some? ==> i.newFeeBps.value <= 1000);
              && (Execute(s, i).Ok? <==> ok)
              && c'.feeBps == (if ok && i.newFeeBps.Some? then i.newFeeBps.value else c.feeBps)
              && c'.mintLimit == (if ok && i.newMintLimit.Some? then i.newMintLimit.value else c.mintLimit)
  {
    hide Transfer, Distribute;
  }

  /** Whoever initialises the program stays its authority in every run, and its fee collector stays too. */
  lemma {:induction false} AuthorityStays(s: State, txs: seq<Instruction>)
    requires s.config.Some?
    ensures Run(s, txs).config.Some?
    ensures Run(s, txs).config.value.authority == s.config.value.authority
    ensures Run(s, txs).config.value.feeCollector == s.config.value.feeCollector
    decreases |txs|
  {
    if txs == [] {
    } else {
      hide Step;
      ConfigStep(s, txs[0]);
      AuthorityStays(Step(s, txs[0]), txs[1..]);
    }
  }

  /** So after an initialisation every mint, release and update that succeeds is signed by its signer. */
  lemma OnlyAuthority(s: State, init: Instruction, txs: seq<Instruction>, i: Instruction)
    requires init.Initialize? && Execute(s, init).Ok?
    requires i.BridgeMint? || i.ReleaseEscrow? || i.UpdateConfig?
    ensures Execute(Run(Step(s, init), txs), i).Ok? ==> i.signer == init.signer
  {
    ConfigStep(s, init);
    AuthorityStays(Step(s, init), txs);
    SignedByAuthority(Run(Step(s, init), txs), i);
  }

  lemma SignedByAuthority(s: State, i: Instruction)
    requires i.BridgeMint? || i.ReleaseEscrow? || i.UpdateConfig?
    ensures Execute(s, i).Ok? ==> s.config.Some? && i.signer == s.config.value.authority
  {
    hide Transfer, Distribute;
  }

  // ----- when instructions succeed -----

  /** A creation succeeds exactly when the job is new, its identifier at most 64 bytes, and the signer's own
      account holds the amount: the vault's address is never in use and no balance overflows. */
  lemma CreateIff(s: State, s0: int, i: Instruction)
    requires Inv(s, s0) && i.CreateEscrow?
    ensures DoCreateEscrow(s, i).Ok? <==>
              && s.config.Some? && i.job !in s.escrows && ByteLength(i.job) <= 64
              && i.consumerToken in s.accounts && s.accounts[i.consumerToken].owner == Wallet(i.signer)
              && s.accounts[i.consumerToken].amount >= i.lockedNmc
  {
    hide Total;
    assert i.job !in s.escrows ==> VaultOf(i.job) !in s.accounts;
  }

  /** A bridge message is accepted exactly when the authority sends the next nonce with an amount within the
      limit, and the supply, the minted total and the nonce stay within 64 bits: a balance always does. */
  lemma MintIff(s: State, s0: int, i: Instruction)
    requires Inv(s, s0) && i.BridgeMint?
    ensures DoBridgeMint(s, i).Ok? <==>
              && s.config.Some? && i.signer == s.config.value.authority && i.to in s.accounts
              && i.amount <= s.config.value.mintLimit && i.nonce == s.nextNonce
              && i.nonce + 1 < 0x1_0000_0000_0000_0000
              && s.supply + i.amount < 0x1_0000_0000_0000_0000
              && s.config.value.totalMinted + i.amount < 0x1_0000_0000_0000_0000
  {
    if i.to in s.accounts {
      BalanceWithinSupply(s, s0, i.to);
    }
  }

  lemma BalanceWithinSupply(s: State, s0: int, k: Key)
    requires Inv(s, s0) && k in s.accounts
    ensures s.accounts[k].amount <= s.supply
  {
    S.SumCovers(Amounts(s.accounts), k);
  }

  /** A burn succeeds exactly when the owner signs and the account holds the amount, unless the burnt total
      would overflow: the supply never falls short. */
  lemma BurnIff(s: State, s0: int, i: Instruction)
    requires Inv(s, s0) && i.BridgeBurn?
    ensures DoBridgeBurn(s, i).Ok? <==>
              && s.config.Some? && i.from in s.accounts && s.accounts[i.from].owner == Wallet(i.signer)
              && s.accounts[i.from].amount >= i.amount
              && s.config.value.totalBurned + i.amount < 0x1_0000_0000_0000_0000
  {
    if i.from in s.accounts {
      BalanceWithinSupply(s, s0, i.from);
    }
  }

  // ----- ownership -----

  /** An account keeps its owner while it is open. A wallet opens accounts only for itself, a vault is opened
      only for its escrow, and an account is closed only by its owner and only empty. */
  lemma OwnersStay(s: State, i: Instruction, k: Key)
    ensures var a, a' := s.accounts, Step(s, i).accounts;
            && (k in a && k in a' ==> a'[k].owner == a[k].owner)
            && (k !in a && k in a' ==>
                  || (i.OpenAccount? && i.account == k && a'[k] == TokenAccount(Wallet(i.signer), 0))
                  || (i.CreateEscrow? && k == VaultOf(i.job) && a'[k].owner == Vault(i.job)))
            && (k in a && k !in a' ==>
                  i.CloseAccount? && i.account == k && a[k] == TokenAccount(Wallet(i.signer), 0))
  {
    if i.ReleaseEscrow? && DoReleaseEscrow(s, i).Ok? {
      DistributeKeepsOwners(s, i);
    }
  }

  lemma TransferKeepsOwners(a: Accounts, from: Key, to: Key, amount: u64)
    requires from in a && to in a
    ensures Pay(a, from, to, amount).Ok? ==> SameOwners(a, Pay(a, from, to, amount).value)
  {
  }

  lemma DistributeKeepsOwners(s: State, i: Instruction)
    requires i.ReleaseEscrow? && DoReleaseEscrow(s, i).Ok?
    ensures SameOwners(s.accounts, DoReleaseEscrow(s, i).value.accounts)
  {
    hide Pay, Fee;
    var e, cfg, cost := s.escrows[i.job], s.config.value, i.actualCost;
    var fee := Fee(cost, cfg.feeBps);
    TransferKeepsOwners(s.accounts, e.vault, e.providerToken, cost - fee);
    var a1 := Pay(s.accounts, e.vault, e.providerToken, cost - fee).value;
    TransferKeepsOwners(a1, e.vault, cfg.feeCollector, fee);
    var a2 := Pay(a1, e.vault, cfg.feeCollector, fee).value;
    TransferKeepsOwners(a2, e.vault, e.consumerToken, e.lockedNmc - cost);
  }
}
