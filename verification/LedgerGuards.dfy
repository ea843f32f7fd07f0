/** Who may do what in a wallet, in terms of roles and signatures alone: what no
    run changes without an owner or admin, and what they can always do. */
module LedgerGuards {
  import opened Bytes
  import opened Prelude
  import opened Rules
  import opened Validation
  import opened Limits
  import opened Binding
  import opened Ledger
  import opened LedgerRuns
  import opened LedgerSafety

  // ---------------------------------------------------------------------
  // Without owners and admins

  /** An owner or admin of the wallet authenticates the step, by a signature of its
      key or by its passkey. */
  predicate SeniorActs(s: State, step: Step, wallet: Address) {
    && HasAdmin(step)
    && var c := ContentAt(s.accounts, step.admin);
    && c.Authority? && c.wallet == wallet && (c.role == 0 || c.role == 1)
    && (if c.credential.Ed25519? then c.credential.key in step.ctx.signers else step.ctx.passkey.Ok?)
  }

  /** What an account stands for in a wallet: an authority with its credential and
      role, or a session with its key and end. */
  datatype Standing =
    | Nothing
    | AuthorityOf(credential: Credential, role: byte)
    | SessionOf(sessionKey: Pubkey, expiresAt: u64)

  function StandingIn(c: Content, wallet: Address): Standing {
    match c
    case Authority(credential, role, _, w) => if w == wallet then AuthorityOf(credential, role) else Nothing
    case Session(w, sessionKey, expiresAt, _) => if w == wallet then SessionOf(sessionKey, expiresAt) else Nothing
    case _ => Nothing
  }

  /** A step that no owner or admin of the wallet authenticates changes no authority
      of any role and no session of it, and authorises nothing. */
  lemma StandingKept(s: State, step: Step, wallet: Address, a: Address)
    requires Good(s) && Enabled(s, step) && !SeniorActs(s, step, wallet)
    requires ContentAt(s.accounts, wallet).Wallet?
    ensures StandingIn(ContentAt(Next(s, step).accounts, a), wallet) == StandingIn(ContentAt(s.accounts, a), wallet)
    ensures var now := ContentAt(Next(s, step).accounts, a);
      now.Deferred? && now.wallet == wallet ==> now == ContentAt(s.accounts, a)
  {
    StepEffect(s, step, a);
    assert Sound(s, a);
    hide Next, Good;
    if step.TransferOwnership? {
      TransferMakesOwner(s, step);
      TransferContent(s, step, wallet, a);
    } else {
      StandingContent(s, step, wallet, a);
    }
  }

  lemma TransferContent(s: State, step: Step, wallet: Address, a: Address)
    requires Enabled(s, step) && step.TransferOwnership? && !SeniorActs(s, step, wallet) && Sound(s, a)
    requires ContentAt(s.accounts, AuthorityPda(step.wallet, IdSeed(step.credential))).Empty?
    ensures StandingIn(NewContent(s, step, a), wallet) == StandingIn(ContentAt(s.accounts, a), wallet)
    ensures NewContent(s, step, a).Deferred? ==> NewContent(s, step, a) == ContentAt(s.accounts, a)
  {
    hide CanClose, Close, Create, CanCreate, Placed, WalletBacked;
  }

  lemma AdminSteps(step: Step)
    ensures HasAdmin(step) <==> (
      || step.AddAuthority? || step.RemoveAuthority? || step.TransferOwnership? || step.CreateSession?
      || step.RevokeSession? || step.Execute? || step.Authorize?)
  {
  }

  lemma StandingContent(s: State, step: Step, wallet: Address, a: Address)
    requires Enabled(s, step) && !SeniorActs(s, step, wallet) && Sound(s, a) && !step.TransferOwnership?
    requires ContentAt(s.accounts, wallet).Wallet?
    ensures StandingIn(NewContent(s, step, a), wallet) == StandingIn(ContentAt(s.accounts, a), wallet)
    ensures NewContent(s, step, a).Deferred? && NewContent(s, step, a).wallet == wallet ==>
      NewContent(s, step, a) == ContentAt(s.accounts, a)
  {
    AdminSteps(step);
    hide *;
    if step.AddAuthority? || step.CreateSession? || step.Authorize? { StandingByMakers(s, step, wallet, a); }
    else if HasAdmin(step) { StandingByClosers(s, step, wallet, a); }
    else { StandingByOthers(s, step, wallet, a); }
  }

  lemma StandingByMakers(s: State, step: Step, wallet: Address, a: Address)
    requires Enabled(s, step) && !SeniorActs(s, step, wallet)
    requires step.AddAuthority? || step.CreateSession? || step.Authorize?
    ensures StandingIn(NewContent(s, step, a), wallet) == StandingIn(ContentAt(s.accounts, a), wallet)
    ensures NewContent(s, step, a).Deferred? && NewContent(s, step, a).wallet == wallet ==>
      NewContent(s, step, a) == ContentAt(s.accounts, a)
  {
    CreatedEmpty(s, step, a);
    hide CanClose, Close, Create, Accepts, Admissible, Placed, WalletBacked, Fulfils;
  }

  lemma StandingByClosers(s: State, step: Step, wallet: Address, a: Address)
    requires Enabled(s, step) && !SeniorActs(s, step, wallet)
    requires step.RemoveAuthority? || step.RevokeSession? || step.Execute?
    ensures StandingIn(NewContent(s, step, a), wallet) == StandingIn(ContentAt(s.accounts, a), wallet)
    ensures NewContent(s, step, a).Deferred? && NewContent(s, step, a).wallet == wallet ==>
      NewContent(s, step, a) == ContentAt(s.accounts, a)
  {
    hide At, CanClose, Close, Create, CanCreate, Accepts, Admissible, Placed, WalletBacked, Fulfils;
  }

  lemma StandingByOthers(s: State, step: Step, wallet: Address, a: Address)
    requires Enabled(s, step) && Sound(s, a) && !HasAdmin(step) && ContentAt(s.accounts, wallet).Wallet?
    ensures StandingIn(NewContent(s, step, a), wallet) == StandingIn(ContentAt(s.accounts, a), wallet)
    ensures NewContent(s, step, a).Deferred? && NewContent(s, step, a).wallet == wallet ==>
      NewContent(s, step, a) == ContentAt(s.accounts, a)
  {
    if step.CreateWallet? {
      CreateEffect(s.accounts, step.payer, WalletPda(step.seed), step.ctx.rent(8), Wallet, step.ctx, a);
    }
    hide CanClose, Close, Create, Accepts, Admissible, Placed, WalletBacked, Fulfils;
  }

  /** No owner or admin of the wallet authenticates anything in the run. */
  ghost predicate NoSeniorActs(s: State, steps: seq<Step>, wallet: Address) {
    steps == [] || (
      var before, step := Run(s, steps[..|steps| - 1]), steps[|steps| - 1];
      NoSeniorActs(s, steps[..|steps| - 1], wallet) && (Enabled(before, step) ==> !SeniorActs(before, step, wallet)))
  }

  /** Without an owner or admin, over every run, every authority of the wallet,
      spenders included, and every session of it stays as it is, apart from counters
      and spending; none is added and none removed. */
  lemma {:induction false} StandingKeptOverRuns(s: State, steps: seq<Step>, wallet: Address, a: Address)
    requires Good(s) && ContentAt(s.accounts, wallet).Wallet? && NoSeniorActs(s, steps, wallet)
    ensures ContentAt(Run(s, steps).accounts, wallet).Wallet?
    ensures StandingIn(ContentAt(Run(s, steps).accounts, a), wallet) == StandingIn(ContentAt(s.accounts, a), wallet)
  {
    if steps == [] {
    } else {
      var n := |steps| - 1;
      StandingKeptOverRuns(s, steps[..n], wallet, a);
      RunGood(s, steps[..n]);
      var before := Run(s, steps[..n]);
      if Enabled(before, steps[n]) {
        assert Sound(before, wallet);
        hide Good, Enabled, Next, Sound, StandingIn, ContentAt, SeniorActs;
        WalletsStay(before, steps[n], wallet);
        StandingKept(before, steps[n], wallet, a);
      }
    }
  }

  // ---------------------------------------------------------------------
  // What each role can do

  /** The account at `authority` is an authority of the wallet with this role, and its
      key signs or its passkey was checked. */
  predicate ActsAs(m: Accounts, wallet: Address, authority: Address, role: byte, ctx: Context) {
    && ContentAt(m, wallet) == Wallet
    && var c := ContentAt(m, authority);
    && c.Authority? && c.wallet == wallet && c.role == role
    && (if c.credential.Ed25519? then c.credential.key in ctx.signers else ctx.passkey.Ok?)
  }

  lemma ActsAsIs(m: Accounts, wallet: Address, authority: Address, ctx: Context)
    ensures ContentAt(m, authority).Authority? ==>
      (InWallet(m, wallet, authority, ctx) <==> ActsAs(m, wallet, authority, ContentAt(m, authority).role, ctx))
    ensures InWallet(m, wallet, authority, ctx) ==> ContentAt(m, authority).Authority?
  {
    hide ContentAt;
  }

  /** Anyone creates a wallet with its first owner, where neither of the two accounts
      is there yet and the payer can pay for both. */
  lemma WhoCreatesWallets(m: Accounts, payer: Address, seed: Pubkey, credential: Credential, ctx: Context)
    ensures CanCreateWallet(m, payer, seed, credential, ctx) <==> (
      && CanCreate(m, payer, WalletPda(seed), ctx.rent(8), ctx)
      && CanCreate(Create(m, payer, WalletPda(seed), ctx.rent(8), Wallet), payer,
                   AuthorityPda(WalletPda(seed),
                                if credential.Ed25519? then credential.key else credential.credentialId),
                   ctx.rent(if credential.Ed25519? then 80 else 145), ctx))
  {
    hide CanCreate, Create;
  }

  /** An owner adds authorities of any of the three roles, an admin adds spenders,
      and nobody else adds anyone. */
  lemma WhoAdds(m: Accounts, payer: Address, wallet: Address, admin: Address, credential: Credential, role: byte,
                adminRole: byte, ctx: Context)
    requires ContentAt(m, admin).Authority? && ContentAt(m, admin).role == adminRole
    requires CanCreate(Authenticated(m, admin), payer, AuthorityPda(wallet, IdSeed(credential)),
                       ctx.rent(if credential.Ed25519? then 80 else 145), ctx)
    ensures CanAdd(m, payer, wallet, admin, credential, role, ctx) <==> (
      && ActsAs(m, wallet, admin, adminRole, ctx)
      && ((adminRole == 0 && (role == 0 || role == 1 || role == 2)) || (adminRole == 1 && role == 2)))
  {
    ActsAsIs(m, wallet, admin, ctx);
    hide ContentAt, CanCreate, Authenticated, ActsAs, InWallet;
  }

  /** An owner removes admins and spenders, an admin removes spenders, nobody removes
      an owner or itself, and the refund goes elsewhere. */
  lemma WhoRemoves(m: Accounts, wallet: Address, admin: Address, target: Address, refund: Address, adminRole: byte,
                   ctx: Context)
    requires ContentAt(m, admin).Authority? && ContentAt(m, admin).role == adminRole
    requires CanClose(Authenticated(m, admin), target, refund)
    ensures CanRemove(m, wallet, admin, target, refund, ctx) <==> (
      && ActsAs(m, wallet, admin, adminRole, ctx)
      && ContentAt(m, target).Authority? && ContentAt(m, target).wallet == wallet
      && admin != target && target != refund
      && ((adminRole == 0 && ContentAt(m, target).role != 0) || (adminRole == 1 && ContentAt(m, target).role == 2)))
  {
    ActsAsIs(m, wallet, admin, ctx);
    RemoveFacts(m, wallet, admin, target, refund, ctx);
    RemovableMeans(m, wallet, admin, target, refund);
    hide *;
  }

  lemma RemovableMeans(m: Accounts, wallet: Address, admin: Address, target: Address, refund: Address)
    requires ContentAt(m, admin).Authority?
    ensures var c, adminRole := ContentAt(m, target), ContentAt(m, admin).role;
      Removable(m, wallet, admin, target, refund) <==> (
        && c.Authority? && c.wallet == wallet && admin != target && target != refund
        && ((adminRole == 0 && c.role != 0) || (adminRole == 1 && c.role == 2)))
  {
    hide ContentAt;
  }

  /** Owners and admins, and only they, create sessions that end within the next
      6,480,000 slots. */
  lemma WhoCreatesSessions(m: Accounts, slot: u64, payer: Address, wallet: Address, admin: Address,
                           sessionKey: Pubkey, expiresAt: u64, rules: seq<Rule>, adminRole: byte, ctx: Context)
    requires ContentAt(m, admin).Authority? && ContentAt(m, admin).role == adminRole
    requires Admissible(rules) && |EncodeRules(rules)| <= 2048
    requires CanCreate(Authenticated(m, admin), payer, SessionPda(wallet, sessionKey),
                       ctx.rent(80 + |EncodeRules(rules)|), ctx)
    ensures CanCreateSession(m, slot, payer, wallet, admin, sessionKey, expiresAt, rules, ctx) <==> (
      && ActsAs(m, wallet, admin, adminRole, ctx) && (adminRole == 0 || adminRole == 1)
      && slot < expiresAt && (expiresAt <= slot + 6_480_000 || slot + 6_480_000 > U64_MAX))
  {
    ActsAsIs(m, wallet, admin, ctx);
    hide ContentAt, CanCreate, Authenticated, ActsAs, Admissible, EncodeRules;
  }

  /** Owners and admins, and only they, revoke sessions of their wallet. */
  lemma WhoRevokes(m: Accounts, payer: Pubkey, wallet: Address, admin: Address, session: Address, refund: Address,
                   adminRole: byte, ctx: Context)
    requires ContentAt(m, admin).Authority? && ContentAt(m, admin).role == adminRole
    requires CanClose(Authenticated(m, admin), session, refund)
    ensures CanRevoke(m, Key(payer), wallet, admin, session, refund, ctx) <==> (
      && payer in ctx.signers && ActsAs(m, wallet, admin, adminRole, ctx) && (adminRole == 0 || adminRole == 1)
      && ContentAt(m, session).Session? && ContentAt(m, session).wallet == wallet && session != refund)
  {
    ActsAsIs(m, wallet, admin, ctx);
    RevokeFacts(m, Key(payer), wallet, admin, session, refund, ctx);
    RevokeGuards(m, payer, wallet, admin, session, refund, ctx);
    hide *;
  }

  lemma RevokeGuards(m: Accounts, payer: Pubkey, wallet: Address, admin: Address, session: Address, refund: Address,
                     ctx: Context)
    requires ContentAt(m, admin).Authority?
    ensures Signs(Key(payer), ctx) <==> payer in ctx.signers
    ensures InWalletAs(m, wallet, admin, ADMIN, ctx) <==>
      InWallet(m, wallet, admin, ctx) && (ContentAt(m, admin).role == 0 || ContentAt(m, admin).role == 1)
    ensures Revocable(m, wallet, session, refund) <==>
      ContentAt(m, session).Session? && ContentAt(m, session).wallet == wallet && session != refund
    ensures ContentAt(m, session).Session? ==> !ContentAt(m, session).Empty?
  {
    hide ContentAt, InWallet;
  }

  /** Owners and admins with a passkey, and only they, give deferred authorisations,
      for 10 to 9000 slots. */
  lemma WhoAuthorises(m: Accounts, slot: u64, payer: Pubkey, wallet: Address, authority: Address, role: byte,
                      expiryOffset: u16, ctx: Context)
    requires ContentAt(m, authority).Authority? && ContentAt(m, authority).role == role
    requires slot + expiryOffset <= U64_MAX
    requires ContentAt(m, authority).credential.Passkey? ==>
      CanCreate(Authenticated(m, authority), Key(payer),
                DeferredPda(wallet, authority, (ContentAt(m, authority).counter + 1) % 0x1_0000_0000),
                ctx.rent(176), ctx)
    ensures CanAuthorize(m, slot, Key(payer), wallet, authority, expiryOffset, ctx) <==> (
      && payer in ctx.signers && ActsAs(m, wallet, authority, role, ctx) && (role == 0 || role == 1)
      && ContentAt(m, authority).credential.Passkey? && 10 <= expiryOffset <= 9000)
  {
    ActsAsIs(m, wallet, authority, ctx);
    hide ContentAt, CanCreate, Authenticated, ActsAs, InWallet;
  }

  /** Owners, and only they, hand their ownership on, to a key that is not all zero. */
  lemma WhoTransfers(m: Accounts, payer: Address, wallet: Address, current: Address, credential: Credential,
                     refund: Address, role: byte, id: Pubkey, ctx: Context)
    requires id == if credential.Ed25519? then credential.key else credential.credentialId
    requires ContentAt(m, current).Authority? && ContentAt(m, current).role == role
    requires var target := AuthorityPda(wallet, IdSeed(credential));
      var rent := ctx.rent(if credential.Ed25519? then 80 else 145);
      && CanCreate(Authenticated(m, current), payer, target, rent, ctx)
      && CanClose(Create(Authenticated(m, current), payer, target, rent, Authority(credential, 0, 0, wallet)),
                  current, refund)
    ensures CanTransfer(m, payer, wallet, current, credential, refund, ctx) <==> (
      && ActsAs(m, wallet, current, role, ctx) && role == 0 && current != refund
      && exists i :: 0 <= i < |id| && id[i] != 0)
  {
    ActsAsIs(m, wallet, current, ctx);
    assert ZeroKey(IdSeed(credential)) <==> !exists i :: 0 <= i < |id| && id[i] != 0;
    hide ContentAt, CanCreate, Create, CanClose, Authenticated, ActsAs, InWallet, ZeroKey;
  }

  /** Every authority executes. */
  lemma WhoExecutes(m: Accounts, wallet: Address, authority: Address, role: byte, ctx: Context)
    requires ContentAt(m, authority).Authority? && ContentAt(m, authority).role == role
    ensures CanExecute(m, wallet, authority, ctx) <==> ActsAs(m, wallet, authority, role, ctx)
  {
    ActsAsIs(m, wallet, authority, ctx);
  }

  /** The session key executes, up to the expiry, what the rules accept. */
  lemma WhoExecutesSessions(m: Accounts, slot: u64, wallet: Address, session: Address, sessionKey: Pubkey,
                            expiresAt: u64, rules: seq<Rule>, flow: Flow, ctx: Context)
    requires ContentAt(m, session) == Session(wallet, sessionKey, expiresAt, rules) && Windowed(rules)
    ensures CanExecuteSession(m, slot, wallet, session, flow, ctx) <==>
      ContentAt(m, wallet) == Wallet && slot <= expiresAt && sessionKey in ctx.signers && Accepts(rules, flow, slot)
    ensures forall other :: CanExecuteSession(m, slot, other, session, flow, ctx) ==> other == wallet
  {
    hide ContentAt, Accepts, Windowed;
  }

  /** Up to its expiry any signer consumes a record of the wallet by execution,
      with instructions that have its hashes and a refund to its payer; after that
      its payer reclaims it. */
  lemma WhoConsumes(m: Accounts, slot: u64, caller: Pubkey, wallet: Address, record: Address, refund: Address,
                    c: Content,
                    sha: Hash, p: Presented, ctx: Context)
    requires c == ContentAt(m, record) && c.Deferred? && CanClose(m, record, refund)
    ensures CanExecuteDeferred(m, slot, Key(caller), wallet, record, refund, sha, p, ctx) <==> (
      && caller in ctx.signers && ContentAt(m, wallet) == Wallet && c.wallet == wallet && c.payer == refund
      && slot <= c.expiresAt
      && exists ixs :: Presents(sha, p.data, p.accounts, c.instructionsHash, c.accountsHash, ixs))
    ensures CanReclaim(m, slot, Key(caller), record, refund, ctx) <==>
      caller in ctx.signers && c.payer == Key(caller) && slot > c.expiresAt
  {
    ExecuteDeferredFacts(m, slot, Key(caller), wallet, record, refund, sha, p, ctx);
    ExecutableIs(m, slot, wallet, record, refund, c);
    FulfilsMeans(sha, p, c);
    ReclaimMeans(m, slot, caller, record, refund, c, ctx);
    hide *;
  }

  lemma FulfilsMeans(sha: Hash, p: Presented, c: Content)
    requires c.Deferred?
    ensures Fulfils(sha, p, c) <==>
      exists ixs :: Presents(sha, p.data, p.accounts, c.instructionsHash, c.accountsHash, ixs)
  {
    hide Presents;
  }

  lemma ReclaimMeans(m: Accounts, slot: u64, caller: Pubkey, record: Address, refund: Address, c: Content, ctx: Context)
    requires c == ContentAt(m, record) && c.Deferred? && CanClose(m, record, refund)
    ensures CanReclaim(m, slot, Key(caller), record, refund, ctx) <==>
      caller in ctx.signers && c.payer == Key(caller) && slot > c.expiresAt
    ensures Signs(Key(caller), ctx) <==> caller in ctx.signers
  {
    hide ContentAt, CanClose;
  }

  // ---------------------------------------------------------------------
  // What creating and closing do

  /** An account is made where nothing lives. It is topped up to the rent by the
      payer, which signs and owns plain lamports; nothing else changes. */
  lemma CreateMeans(m: Accounts, payer: Address, target: Address, rent: Rent, content: Content, ctx: Context,
                    a: Address)
    ensures var balance := At(m, target).lamports;
      CanCreate(m, payer, target, rent, ctx) <==> (
        && At(m, target).content == Empty
        && (balance >= rent || (
              && payer.Key? && payer.bytes in ctx.signers && payer != target && At(m, payer).content == Empty
              && At(m, payer).lamports >= rent - balance)))
    ensures CanCreate(m, payer, target, rent, ctx) ==>
      At(Create(m, payer, target, rent, content), a) == (
        var balance := At(m, target).lamports;
        if a == target then Account(if balance >= rent then balance else rent, content)
        else if a == payer && balance < rent
        then Account(At(m, payer).lamports - (rent - balance), At(m, payer).content)
        else At(m, a))
  {
  }

  /** A closed account is empty of lamports and data, and the refund account has all
      that was in it; nothing else changes. */
  lemma CloseMeans(m: Accounts, target: Address, refund: Address, a: Address)
    ensures CanClose(m, target, refund) <==> At(m, target).lamports + At(m, refund).lamports <= U64_MAX
    ensures CanClose(m, target, refund) ==>
      At(Close(m, target, refund), a) == (
        if a == target then Account(0, Wiped)
        else if a == refund then Account(At(m, refund).lamports + At(m, target).lamports, At(m, refund).content)
        else At(m, a))
  {
  }

  /** An authentication steps the counter of a passkey, and nothing else. */
  lemma AuthenticationMeans(m: Accounts, admin: Address, a: Address)
    requires ContentAt(m, admin).Authority?
    ensures At(Authenticated(m, admin), a) == (
      match At(m, a).content
      case Authority(Passkey(id, key, party), role, counter, wallet) =>
        if a != admin then At(m, a)
        else Account(At(m, a).lamports,
                     Authority(Passkey(id, key, party), role, if counter == 0xFFFF_FFFF then 0 else counter + 1,
                            wallet))
      case _ => At(m, a))
  {
  }

  /** What the creating instructions put at their addresses. */
  lemma MadeAccounts(s: State, step: Step)
    requires Enabled(s, step)
    ensures step.CreateWallet? ==>
      var wallet := WalletPda(step.seed);
      && ContentAt(Next(s, step).accounts, wallet) == Wallet
      && ContentAt(Next(s, step).accounts, AuthorityPda(wallet, IdSeed(step.credential)))
         == Authority(step.credential, 0, 0, wallet)
    ensures step.AddAuthority? ==>
      ContentAt(Next(s, step).accounts, AuthorityPda(step.wallet, IdSeed(step.credential)))
      == Authority(step.credential, step.role, 0, step.wallet)
    ensures step.TransferOwnership? && step.admin != AuthorityPda(step.wallet, IdSeed(step.credential)) ==>
      ContentAt(Next(s, step).accounts, AuthorityPda(step.wallet, IdSeed(step.credential)))
      == Authority(step.credential, 0, 0, step.wallet)
    ensures step.CreateSession? ==>
      ContentAt(Next(s, step).accounts, SessionPda(step.wallet, step.sessionKey))
      == Session(step.wallet, step.sessionKey, step.expiresAt, step.rules)
    ensures step.Authorize? ==>
      var c := ContentAt(s.accounts, step.admin);
      c.Authority? && s.slot + step.expiryOffset <= U64_MAX
      && ContentAt(Next(s, step).accounts, DeferredPda(step.wallet, step.admin, (c.counter + 1) % 0x1_0000_0000))
         == Deferred(step.instructionsHash, step.accountsHash, step.wallet, step.admin, step.payer,
                     s.slot + step.expiryOffset)
  {
    if step.CreateWallet? {
      StepEffect(s, step, WalletPda(step.seed));
      StepEffect(s, step, AuthorityPda(WalletPda(step.seed), IdSeed(step.credential)));
    } else if step.AddAuthority? || step.TransferOwnership? {
      StepEffect(s, step, AuthorityPda(step.wallet, IdSeed(step.credential)));
    } else if step.CreateSession? {
      StepEffect(s, step, SessionPda(step.wallet, step.sessionKey));
    } else if step.Authorize? {
      assert ContentAt(s.accounts, step.admin).Authority? && ContentAt(s.accounts, step.admin).credential.Passkey?;
      StepEffect(s, step, DeferredPda(step.wallet, step.admin, Stepped(ContentAt(s.accounts, step.admin)).counter));
    }
    hide Next, Enabled, ContentAt;
  }
}
