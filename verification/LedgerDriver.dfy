/** The handlers as steps of the state machine: each call of the class is one step
    of `LedgerRuns`, so what holds of every run holds of every use of the class. */
module LedgerDriver {
  import opened Bytes
  import opened Prelude
  import opened Rules
  import opened Binding
  import opened Ledger
  import opened LedgerRuns

  function StateOf(chain: Chain): State
    reads chain
  {
    State(chain.accounts, chain.slot)
  }

  /** The steps that are instructions of the ledger. */
  predicate Handled(step: Step) {
    !step.ExecuteSession? && !step.Outside? && !step.Reap? && !step.Tick?
  }

  predicate OnRecords(step: Step) {
    step.Authorize? || step.ExecuteDeferred? || step.ReclaimDeferred?
  }

  /** The instruction of the step, called with the derived addresses it expects, does
      exactly what the step says, and nothing if the step is not enabled. */
  method Perform(chain: Chain, step: Step) returns (r: Result<()>)
    requires Handled(step)
    modifies chain`accounts
    ensures StateOf(chain) == Try(old(StateOf(chain)), step)
    ensures r.Ok? <==> Enabled(old(StateOf(chain)), step)
  {
    hide Enabled, Next, Try;
    if OnRecords(step) { r := PerformOnRecords(chain, step); } else { r := PerformOnOthers(chain, step); }
  }

  method PerformOnOthers(chain: Chain, step: Step) returns (r: Result<()>)
    requires Handled(step) && !OnRecords(step)
    modifies chain`accounts
    ensures StateOf(chain) == Try(old(StateOf(chain)), step)
    ensures r.Ok? <==> Enabled(old(StateOf(chain)), step)
  {
    hide CanCreateWallet, DoCreateWallet, CanAdd, DoAdd, CanRemove, DoRemove, CanTransfer, DoTransfer;
    hide CanRevoke, DoRevoke, CanExecute, Authenticated, CanCreateSession, DoCreateSession, RulesOf, EncodeRules;
    hide ContentAt, InWallet, MayAdd, Member, MayRemove, Signs, IdSeed;
    match step
    case CreateWallet(payer, seed, credential, ctx) =>
      var wallet := WalletPda(seed);
      r := chain.CreateWallet(payer, wallet, VaultPda(wallet), AuthorityPda(wallet, IdSeed(credential)), seed,
                              credential, ctx);
    case AddAuthority(payer, wallet, admin, credential, role, ctx) =>
      r := chain.AddAuthority(payer, wallet, admin, AuthorityPda(wallet, IdSeed(credential)), credential, role, ctx);
    case RemoveAuthority(wallet, admin, target, refund, ctx) =>
      r := chain.RemoveAuthority(wallet, admin, target, refund, ctx);
    case TransferOwnership(payer, wallet, admin, credential, refund, ctx) =>
      r := chain.TransferOwnership(payer, wallet, admin, AuthorityPda(wallet, IdSeed(credential)), credential, refund,
                                   ctx);
    case CreateSession(payer, wallet, admin, sessionKey, expiresAt, rules, ctx) =>
      RulesOfEncode(rules);
      r := chain.CreateSession(payer, wallet, admin, SessionPda(wallet, sessionKey), sessionKey, expiresAt,
                               EncodeRules(rules), ctx);
    case RevokeSession(payer, wallet, admin, session, refund, ctx) =>
      r := chain.RevokeSession(payer, wallet, admin, session, refund, ctx);
    case Execute(wallet, admin, ctx) =>
      r := chain.Execute(wallet, admin, ctx);
  }

  method PerformOnRecords(chain: Chain, step: Step) returns (r: Result<()>)
    requires OnRecords(step)
    modifies chain`accounts
    ensures StateOf(chain) == Try(old(StateOf(chain)), step)
    ensures r.Ok? <==> Enabled(old(StateOf(chain)), step)
  {
    if step.Authorize? { AuthoriseFacts(StateOf(chain), step); }
    hide CanAuthorize, DoAuthorize, CanExecuteDeferred, CanReclaim, Close, Stepped, ContentAt, Presents, Signs;
    match step
    case Authorize(payer, wallet, authority, instructionsHash, accountsHash, expiryOffset, ctx) =>
      var c := ContentAt(chain.accounts, authority);
      var counter: u32 := if c.Authority? then Stepped(c).counter else 0;
      r := chain.Authorize(payer, wallet, authority, DeferredPda(wallet, authority, counter), instructionsHash,
                           accountsHash, expiryOffset, ctx);
    case ExecuteDeferred(payer, wallet, record, refund, sha, presented, ctx) =>
      var ran := chain.ExecuteDeferred(payer, wallet, record, refund, sha, presented, ctx);
      r := if ran.Ok? then Ok(()) else Err(ran.error);
    case ReclaimDeferred(payer, record, refund, ctx) =>
      r := chain.ReclaimDeferred(payer, record, refund, ctx);
  }

  lemma AuthoriseFacts(s: State, step: Step)
    requires step.Authorize?
    ensures Enabled(s, step) ==> ContentAt(s.accounts, step.admin).Authority?
    ensures ContentAt(s.accounts, step.admin).Authority? ==> Stepped(ContentAt(s.accounts, step.admin)).Authority?
  {
    hide ContentAt, CanCreate, Signs;
  }
}
