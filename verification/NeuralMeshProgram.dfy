/** The on-chain escrow and bridge program: its accounts, and each instruction as it changes them.
    An instruction that fails leaves every account as it was (the runtime rolls it back). */
module NeuralMeshProgram {
  import opened Wrappers
  import opened Bytes
  import opened Utf8

  /** Addresses: ordinary ones, and the one derived from a job's identifier for its vault, which nobody
      can sign for. */
  datatype Key = Address(n: nat) | VaultOf(job: string)

  const MAX_FEE_BPS := 1000
  const BPS := 10000
  const U64_LIMIT := 0x1_0000_0000_0000_0000

  /** Who signs for a token account: a wallet, or the escrow record of a job (its vault). */
  datatype Owner = Wallet(key: Key) | Vault(job: string)

  datatype TokenAccount = TokenAccount(owner: Owner, amount: u64)

  type Accounts = map<Key, TokenAccount>

  datatype Config = Config(authority: Key, feeCollector: Key, feeBps: nat, mintLimit: u64,
                           totalMinted: u64, totalBurned: u64)

  datatype Phase = Open | Locked | Settled | Cancelled

  datatype JobEscrow = JobEscrow(consumer: Key, provider: Key, lockedNmc: u64, state: Phase,
                                 consumerToken: Key, providerToken: Key, vault: Key,
                                 actualCost: u64, feeCollected: u64)

  datatype State = State(config: Option<Config>, accounts: Accounts, supply: u64, nextNonce: u64,
                         escrows: map<string, JobEscrow>)

  datatype Error =
    | AccountNotInitialized | AccountInUse | Unauthorized | FeeTooHigh | MintLimitExceeded | JobIdTooLong
    | EscrowNotOpen | EscrowNotLocked | CostExceedsLocked | InsufficientFunds | NonEmpty | Overflow

  // ----- the token program -----

  function Transfer(accounts: Accounts, from: Key, to: Key, amount: u64): Result<Accounts, Error>
    requires from in accounts && to in accounts
  {
    var a, b := accounts[from], accounts[to];
    if a.amount < amount then Err(InsufficientFunds)
    else if from == to then Ok(accounts)
    else if b.amount + amount >= U64_LIMIT then Err(Overflow)
    else Ok(accounts[from := a.(amount := a.amount - amount)][to := b.(amount := b.amount + amount)])
  }

  /** The program skips transfers of nothing. */
  function Pay(accounts: Accounts, from: Key, to: Key, amount: u64): Result<Accounts, Error>
    requires from in accounts && to in accounts
  {
    if amount > 0 then Transfer(accounts, from, to, amount) else Ok(accounts)
  }

  // ----- instructions -----

  datatype Instruction =
    | Initialize(signer: Key, feeCollector: Key, feeBps: nat, mintLimit: u64)
    | BridgeMint(signer: Key, to: Key, amount: u64, nonce: u64)
    | BridgeBurn(signer: Key, from: Key, amount: u64)
    | CreateEscrow(signer: Key, provider: Key, consumerToken: Key, providerToken: Key, job: string, lockedNmc: u64)
    | LockEscrow(signer: Key, job: string)
    | ReleaseEscrow(signer: Key, job: string, actualCost: u64)
    | CancelEscrow(job: string)
    | UpdateConfig(signer: Key, newFeeBps: Option<nat>, newMintLimit: Option<u64>)
    // what wallets do with the token program directly
    | OpenAccount(signer: Key, account: Key)
    | CloseAccount(signer: Key, account: Key)
    | WalletTransfer(signer: Key, from: Key, to: Key, amount: u64)

  function DoInitialize(s: State, i: Instruction): Result<State, Error>
    requires i.Initialize?
  {
    if s.config.Some? then Err(AccountInUse)
    else if i.feeBps > MAX_FEE_BPS then Err(FeeTooHigh)
    else Ok(s.(config := Some(Config(i.signer, i.feeCollector, i.feeBps, i.mintLimit, 0, 0))))
  }

  function DoBridgeMint(s: State, i: Instruction): Result<State, Error>
    requires i.BridgeMint?
  {
    if s.config.None? || i.to !in s.accounts then Err(AccountNotInitialized)
    else
      var cfg := s.config.value;
      var to := s.accounts[i.to];
      if i.signer != cfg.authority then Err(Unauthorized)
      else if i.amount > cfg.mintLimit then Err(MintLimitExceeded)
      else if i.nonce != s.nextNonce then Err(Unauthorized)
      else if i.nonce + 1 >= U64_LIMIT || s.supply + i.amount >= U64_LIMIT || to.amount + i.amount >= U64_LIMIT
              || cfg.totalMinted + i.amount >= U64_LIMIT then Err(Overflow)
      else Ok(s.(nextNonce := i.nonce + 1,
                 supply := s.supply + i.amount,
                 accounts := s.accounts[i.to := to.(amount := to.amount + i.amount)],
                 config := Some(cfg.(totalMinted := cfg.totalMinted + i.amount))))
  }

  function DoBridgeBurn(s: State, i: Instruction): Result<State, Error>
    requires i.BridgeBurn?
  {
    if s.config.None? || i.from !in s.accounts then Err(AccountNotInitialized)
    else
      var cfg := s.config.value;
      var from := s.accounts[i.from];
      if from.owner != Wallet(i.signer) then Err(Unauthorized)
      else if from.amount < i.amount || s.supply < i.amount then Err(InsufficientFunds)
      else if cfg.totalBurned + i.amount >= U64_LIMIT then Err(Overflow)
      else Ok(s.(supply := s.supply - i.amount,
                 accounts := s.accounts[i.from := from.(amount := from.amount - i.amount)],
                 config := Some(cfg.(totalBurned := cfg.totalBurned + i.amount))))
  }

  function DoCreateEscrow(s: State, i: Instruction): Result<State, Error>
    requires i.CreateEscrow?
  {
    if s.config.None? || i.consumerToken !in s.accounts then Err(AccountNotInitialized)
    else if i.job in s.escrows || VaultOf(i.job) in s.accounts then Err(AccountInUse)
    else if s.accounts[i.consumerToken].owner != Wallet(i.signer) then Err(Unauthorized)
    else if ByteLength(i.job) > 64 then Err(JobIdTooLong)
    else
      var vault := VaultOf(i.job);
      var withVault := s.accounts[vault := TokenAccount(Vault(i.job), 0)];
      match Transfer(withVault, i.consumerToken, vault, i.lockedNmc)
      case Err(e) => Err(e)
      case Ok(accounts) =>
        var esc := JobEscrow(i.signer, i.provider, i.lockedNmc, Open, i.consumerToken, i.providerToken, vault, 0, 0);
        Ok(s.(accounts := accounts, escrows := s.escrows[i.job := esc]))
  }

  function DoLockEscrow(s: State, i: Instruction): Result<State, Error>
    requires i.LockEscrow?
  {
    if i.job !in s.escrows then Err(AccountNotInitialized)
    else
      var esc := s.escrows[i.job];
      if i.signer != esc.provider then Err(Unauthorized)
      else if esc.state != Open then Err(EscrowNotOpen)
      else Ok(s.(escrows := s.escrows[i.job := esc.(state := Locked)]))
  }

  function Fee(cost: nat, feeBps: nat): nat {
    cost * feeBps / BPS
  }

  /** Three payments out of the vault, one after another, skipping empty ones. */
  function Distribute(accounts: Accounts, vault: Key, provider: Key, collector: Key, consumer: Key,
                      earned: u64, fee: u64, refund: u64): Result<Accounts, Error>
    requires vault in accounts && provider in accounts && collector in accounts && consumer in accounts
  {
    match Pay(accounts, vault, provider, earned)
    case Err(e) => Err(e)
    case Ok(a1) =>
      match Pay(a1, vault, collector, fee)
      case Err(e) => Err(e)
      case Ok(a2) => Pay(a2, vault, consumer, refund)
  }

  /** A release's state once the payments have left `accounts`. */
  function SettledWith(s: State, i: Instruction, accounts: Accounts): State
    requires i.ReleaseEscrow? && s.config.Some? && i.job in s.escrows
    requires i.actualCost * s.config.value.feeBps < U64_LIMIT
  {
    var settled := s.escrows[i.job].(state := Settled, actualCost := i.actualCost,
                                     feeCollected := Fee(i.actualCost, s.config.value.feeBps));
    s.(accounts := accounts, escrows := s.escrows[i.job := settled])
  }

  function DoReleaseEscrow(s: State, i: Instruction): Result<State, Error>
    requires i.ReleaseEscrow?
  {
    if s.config.None? || i.job !in s.escrows then Err(AccountNotInitialized)
    else
      var cfg := s.config.value;
      var esc := s.escrows[i.job];
      var cost := i.actualCost;
      if i.signer != cfg.authority then Err(Unauthorized)
      else if esc.vault !in s.accounts || esc.providerToken !in s.accounts || esc.consumerToken !in s.accounts
              || cfg.feeCollector !in s.accounts then Err(AccountNotInitialized)
      else if esc.state != Locked then Err(EscrowNotLocked)
      else if cost > esc.lockedNmc then Err(CostExceedsLocked)
      else if cost * cfg.feeBps >= U64_LIMIT || Fee(cost, cfg.feeBps) > cost then Err(Overflow)
      else
        var fee := Fee(cost, cfg.feeBps);
        match Distribute(s.accounts, esc.vault, esc.providerToken, cfg.feeCollector, esc.consumerToken,
                         cost - fee, fee, esc.lockedNmc - cost)
        case Err(e) => Err(e)
        case Ok(accounts) => Ok(SettledWith(s, i, accounts))
  }

  function DoCancelEscrow(s: State, i: Instruction): Result<State, Error>
    requires i.CancelEscrow?
  {
    if s.config.None? || i.job !in s.escrows then Err(AccountNotInitialized)
    else
      var esc := s.escrows[i.job];
      if esc.vault !in s.accounts || esc.consumerToken !in s.accounts then Err(AccountNotInitialized)
      else if esc.state != Open && esc.state != Locked then Err(EscrowNotOpen)
      else
        match Transfer(s.accounts, esc.vault, esc.consumerToken, esc.lockedNmc)
        case Err(e) => Err(e)
        case Ok(accounts) =>
          Ok(s.(accounts := accounts, escrows := s.escrows[i.job := esc.(state := Cancelled)]))
  }

  function DoUpdateConfig(s: State, i: Instruction): Result<State, Error>
    requires i.UpdateConfig?
  {
    if s.config.None? then Err(AccountNotInitialized)
    else if i.signer != s.config.value.authority then Err(Unauthorized)
    else if i.newFeeBps.Some? && i.newFeeBps.value > MAX_FEE_BPS then Err(FeeTooHigh)
    else
      var cfg := s.config.value;
      var cfg1 := if i.newFeeBps.Some? then cfg.(feeBps := i.newFeeBps.value) else cfg;
      var cfg2 := if i.newMintLimit.Some? then cfg1.(mintLimit := i.newMintLimit.value) else cfg1;
      Ok(s.(config := Some(cfg2)))
  }

  function DoOpenAccount(s: State, i: Instruction): Result<State, Error>
    requires i.OpenAccount?
  {
    if i.account in s.accounts then Err(AccountInUse)
    else if i.account.VaultOf? then Err(Unauthorized)
    else Ok(s.(accounts := s.accounts[i.account := TokenAccount(Wallet(i.signer), 0)]))
  }

  /** The token program closes an empty account for its owner. */
  function DoCloseAccount(s: State, i: Instruction): Result<State, Error>
    requires i.CloseAccount?
  {
    if i.account !in s.accounts then Err(AccountNotInitialized)
    else if s.accounts[i.account].owner != Wallet(i.signer) then Err(Unauthorized)
    else if s.accounts[i.account].amount != 0 then Err(NonEmpty)
    else Ok(s.(accounts := s.accounts - {i.account}))
  }

  function DoWalletTransfer(s: State, i: Instruction): Result<State, Error>
    requires i.WalletTransfer?
  {
    if i.from !in s.accounts || i.to !in s.accounts then Err(AccountNotInitialized)
    else if s.accounts[i.from].owner != Wallet(i.signer) then Err(Unauthorized)
    else
      match Transfer(s.accounts, i.from, i.to, i.amount)
      case Err(e) => Err(e)
      case Ok(accounts) => Ok(s.(accounts := accounts))
  }

  function Execute(s: State, i: Instruction): Result<State, Error> {
    match i
    case Initialize(_, _, _, _) => DoInitialize(s, i)
    case BridgeMint(_, _, _, _) => DoBridgeMint(s, i)
    case BridgeBurn(_, _, _) => DoBridgeBurn(s, i)
    case CreateEscrow(_, _, _, _, _, _) => DoCreateEscrow(s, i)
    case LockEscrow(_, _) => DoLockEscrow(s, i)
    case ReleaseEscrow(_, _, _) => DoReleaseEscrow(s, i)
    case CancelEscrow(_) => DoCancelEscrow(s, i)
    case UpdateConfig(_, _, _) => DoUpdateConfig(s, i)
    case OpenAccount(_, _) => DoOpenAccount(s, i)
    case CloseAccount(_, _) => DoCloseAccount(s, i)
    case WalletTransfer(_, _, _, _) => DoWalletTransfer(s, i)
  }

  function Step(s: State, i: Instruction): State {
    match Execute(s, i)
    case Ok(s') => s'
    case Err(_) => s
  }

  function Run(s: State, txs: seq<Instruction>): State
    decreases |txs|
  {
    if txs == [] then s else Run(Step(s, txs[0]), txs[1..])
  }

  // ----- the instructions as they mutate accounts in place -----

  class Program {
    var config: Option<Config>
    var accounts: Accounts
    var supply: u64
    var nextNonce: u64
    var escrows: map<string, JobEscrow>

    ghost function View(): State
      reads this
    {
      State(config, accounts, supply, nextNonce, escrows)
    }

    constructor (accounts: Accounts, supply: u64, nextNonce: u64)
      ensures View() == State(None, accounts, supply, nextNonce, map[])
    {
      this.config, this.accounts, this.supply, this.nextNonce, this.escrows := None, accounts, supply, nextNonce, map[];
    }

    /** The outcome an instruction's specification prescribes for this object. */
    twostate predicate Follows(new r: Result<State, Error>, new error: Option<Error>)
      reads this
    {
      match r
      case Ok(s) => error == None && View() == s
      case Err(e) => error == Some(e) && View() == old(View())
    }

    method TokenTransfer(from: Key, to: Key, amount: u64) returns (error: Option<Error>)
      requires from in accounts && to in accounts
      modifies this`accounts
      ensures match Transfer(old(accounts), from, to, amount)
              case Ok(a) => error == None && accounts == a
              case Err(e) => error == Some(e) && accounts == old(accounts)
    {
      if accounts[from].amount < amount {
        return Some(InsufficientFunds);
      }
      if from != to {
        if accounts[to].amount + amount >= U64_LIMIT {
          return Some(Overflow);
        }
        var b := accounts[to];
        accounts := accounts[from := accounts[from].(amount := accounts[from].amount - amount)];
        accounts := accounts[to := b.(amount := b.amount + amount)];
      }
      return None;
    }

    method Initialize(signer: Key, feeCollector: Key, feeBps: nat, mintLimit: u64) returns (error: Option<Error>)
      modifies this
      ensures Follows(DoInitialize(old(View()), Instruction.Initialize(signer, feeCollector, feeBps, mintLimit)), error)
    {
      if config.Some? { return Some(AccountInUse); }
      if feeBps > MAX_FEE_BPS { return Some(FeeTooHigh); }
      config := Some(Config(signer, feeCollector, feeBps, mintLimit, 0, 0));
      return None;
    }

    method BridgeMint(signer: Key, to: Key, amount: u64, nonce: u64) returns (error: Option<Error>)
      modifies this
      ensures Follows(DoBridgeMint(old(View()), Instruction.BridgeMint(signer, to, amount, nonce)), error)
    {
      if config.None? || to !in accounts { return Some(AccountNotInitialized); }
      var cfg := config.value;
      if signer != cfg.authority { return Some(Unauthorized); }
      if amount > cfg.mintLimit { return Some(MintLimitExceeded); }
      if nonce != nextNonce { return Some(Unauthorized); }
      if nonce + 1 >= U64_LIMIT { return Some(Overflow); }
      nextNonce := nonce + 1;
      if supply + amount >= U64_LIMIT || accounts[to].amount + amount >= U64_LIMIT
         || cfg.totalMinted + amount >= U64_LIMIT {
        nextNonce := nonce; // rolled back
        return Some(Overflow);
      }
      supply := supply + amount;
      accounts := accounts[to := accounts[to].(amount := accounts[to].amount + amount)];
      config := Some(cfg.(totalMinted := cfg.totalMinted + amount));
      return None;
    }

    method BridgeBurn(signer: Key, from: Key, amount: u64) returns (error: Option<Error>)
      modifies this
      ensures Follows(DoBridgeBurn(old(View()), Instruction.BridgeBurn(signer, from, amount)), error)
    {
      if config.None? || from !in accounts { return Some(AccountNotInitialized); }
      var cfg := config.value;
      if accounts[from].owner != Wallet(signer) { return Some(Unauthorized); }
      if accounts[from].amount < amount || supply < amount { return Some(InsufficientFunds); }
      if cfg.totalBurned + amount >= U64_LIMIT { return Some(Overflow); }
      supply := supply - amount;
      accounts := accounts[from := accounts[from].(amount := accounts[from].amount - amount)];
      config := Some(cfg.(totalBurned := cfg.totalBurned + amount));
      return None;
    }

    method CreateEscrow(signer: Key, provider: Key, consumerToken: Key, providerToken: Key, job: string, lockedNmc: u64)
      returns (error: Option<Error>)
      modifies this
      ensures Follows(DoCreateEscrow(old(View()), Instruction.CreateEscrow(signer, provider, consumerToken, providerToken,
                                                                           job, lockedNmc)), error)
    {
      var vault := VaultOf(job);
      if config.None? || consumerToken !in accounts { return Some(AccountNotInitialized); }
      if job in escrows || vault in accounts { return Some(AccountInUse); }
      if accounts[consumerToken].owner != Wallet(signer) { return Some(Unauthorized); }
      if ByteLength(job) > 64 { return Some(JobIdTooLong); }
      var saved, savedEscrows := accounts, escrows;
      accounts := accounts[vault := TokenAccount(Vault(job), 0)];
      escrows := escrows[job := JobEscrow(signer, provider, lockedNmc, Open, consumerToken, providerToken, vault, 0, 0)];
      error := TokenTransfer(consumerToken, vault, lockedNmc);
      if error.Some? {
        accounts, escrows := saved, savedEscrows;
      }
    }

    method LockEscrow(signer: Key, job: string) returns (error: Option<Error>)
      modifies this
      ensures Follows(DoLockEscrow(old(View()), Instruction.LockEscrow(signer, job)), error)
    {
      if job !in escrows { return Some(AccountNotInitialized); }
      if signer != escrows[job].provider { return Some(Unauthorized); }
      if escrows[job].state != Open { return Some(EscrowNotOpen); }
      escrows := escrows[job := escrows[job].(state := Locked)];
      return None;
    }

    method PayIfAny(from: Key, to: Key, amount: u64) returns (error: Option<Error>)
      requires from in accounts && to in accounts
      modifies this`accounts
      ensures match Pay(old(accounts), from, to, amount)
              case Ok(a) => error == None && accounts == a
              case Err(e) => error == Some(e) && accounts == old(accounts)
    {
      if amount > 0 {
        error := TokenTransfer(from, to, amount);
      } else {
        error := None;
      }
    }

    method PayOut(vault: Key, provider: Key, collector: Key, consumer: Key, earned: u64, fee: u64, refund: u64)
      returns (error: Option<Error>)
      requires vault in accounts && provider in accounts && collector in accounts && consumer in accounts
      modifies this`accounts
      ensures match Distribute(old(accounts), vault, provider, collector, consumer, earned, fee, refund)
              case Ok(a) => error == None && accounts == a
              case Err(e) => error == Some(e) && accounts == old(accounts)
    {
      var saved := accounts;
      error := PayIfAny(vault, provider, earned);
      if error.None? {
        error := PayIfAny(vault, collector, fee);
      }
      if error.None? {
        error := PayIfAny(vault, consumer, refund);
      }
      if error.Some? {
        accounts := saved; // rolled back
      }
    }

    method ReleaseEscrow(signer: Key, job: string, actualCost: u64) returns (error: Option<Error>)
      modifies this
      ensures Follows(DoReleaseEscrow(old(View()), Instruction.ReleaseEscrow(signer, job, actualCost)), error)
    {
      if config.None? || job !in escrows { return Some(AccountNotInitialized); }
      var cfg, esc := config.value, escrows[job];
      if signer != cfg.authority { return Some(Unauthorized); }
      if esc.vault !in accounts || esc.providerToken !in accounts || esc.consumerToken !in accounts
         || cfg.feeCollector !in accounts {
        return Some(AccountNotInitialized);
      }
      if esc.state != Locked { return Some(EscrowNotLocked); }
      if actualCost > esc.lockedNmc { return Some(CostExceedsLocked); }
      if actualCost * cfg.feeBps >= U64_LIMIT { return Some(Overflow); }
      var fee := Fee(actualCost, cfg.feeBps);
      if fee > actualCost { return Some(Overflow); }
      error := PayOut(esc.vault, esc.providerToken, cfg.feeCollector, esc.consumerToken,
                      actualCost - fee, fee, esc.lockedNmc - actualCost);
      if error.None? {
        escrows := escrows[job := esc.(actualCost := actualCost, feeCollected := fee, state := Settled)];
      }
    }

    method CancelEscrow(job: string) returns (error: Option<Error>)
      modifies this
      ensures Follows(DoCancelEscrow(old(View()), Instruction.CancelEscrow(job)), error)
    {
      if config.None? || job !in escrows { return Some(AccountNotInitialized); }
      var esc := escrows[job];
      if esc.vault !in accounts || esc.consumerToken !in accounts { return Some(AccountNotInitialized); }
      if esc.state != Open && esc.state != Locked { return Some(EscrowNotOpen); }
      error := TokenTransfer(esc.vault, esc.consumerToken, esc.lockedNmc);
      if error.None? {
        escrows := escrows[job := esc.(state := Cancelled)];
      }
    }

    method UpdateConfig(signer: Key, newFeeBps: Option<nat>, newMintLimit: Option<u64>) returns (error: Option<Error>)
      modifies this
      ensures Follows(DoUpdateConfig(old(View()), Instruction.UpdateConfig(signer, newFeeBps, newMintLimit)), error)
    {
      if config.None? { return Some(AccountNotInitialized); }
      if signer != config.value.authority { return Some(Unauthorized); }
      if newFeeBps.Some? {
        if newFeeBps.value > MAX_FEE_BPS { return Some(FeeTooHigh); }
        config := Some(config.value.(feeBps := newFeeBps.value));
      }
      if newMintLimit.Some? {
        config := Some(config.value.(mintLimit := newMintLimit.value));
      }
      return None;
    }
  }
}
