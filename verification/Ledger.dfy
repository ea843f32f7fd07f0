/** The wallet program as a state machine over typed accounts: what each
    instruction asks for and what it does. Authentication by a passkey and rent
    come in as inputs. */
module Ledger {
  import opened Bytes
  import opened Prelude
  import opened Rules
  import opened Compact
  import opened Binding
  import Sessions
  import opened Validation
  import opened Limits

  // ---------------------------------------------------------------------
  // Accounts

  /** Derived addresses are injective in their seeds and differ from every key
      that can sign. */
  datatype Address =
    | Key(bytes: Pubkey)
    | WalletPda(seed: Pubkey)
    | VaultPda(wallet: Address)
    | AuthorityPda(wallet: Address, id: Pubkey)
    | SessionPda(wallet: Address, sessionKey: Pubkey)
    | DeferredPda(wallet: Address, authority: Address, counter: u32)

  datatype Credential = Ed25519(key: Pubkey) | Passkey(credentialId: Pubkey, publicKey: seq<byte>, rpIdHash: Pubkey)

  function IdSeed(c: Credential): Pubkey {
    match c
    case Ed25519(key) => key
    case Passkey(credentialId, _, _) => credentialId
  }

  const OWNER: byte := 0
  const ADMIN: byte := 1
  const SPENDER: byte := 2

  /** `Empty` is any account the program does not own; `Wiped` is owned by it but
      holds only zeros. */
  datatype Content =
    | Empty
    | Wiped
    | Wallet
    | Authority(credential: Credential, role: byte, counter: u32, wallet: Address)
    | Session(wallet: Address, sessionKey: Pubkey, expiresAt: u64, rules: seq<Rule>)
    | Deferred(instructionsHash: Pubkey, accountsHash: Pubkey, wallet: Address, authority: Address, payer: Address,
               expiresAt: u64)

  function Space(c: Content): nat {
    match c
    case Empty | Wiped => 0
    case Wallet => 8
    case Authority(credential, _, _, _) => if credential.Ed25519? then 80 else 145
    case Session(_, _, _, rules) => 80 + |EncodeRules(rules)|
    case Deferred(_, _, _, _, _, _) => 176
  }

  datatype Account = Account(lamports: u64, content: Content)

  type Accounts = map<Address, Account>

  /** An address without an account stands for an empty one. */
  function At(m: Accounts, a: Address): Account {
    if a in m then m[a] else Account(0, Empty)
  }

  function ContentAt(m: Accounts, a: Address): Content {
    At(m, a).content
  }

  /** No account size is free of rent. */
  type Rent = x: int | 0 < x <= U64_MAX witness 1

  /** What a transaction brings along: the keys that sign, the outcome of the
      passkey check against the authority used, and the rent by size. */
  datatype Context = Context(signers: set<Pubkey>, passkey: Result<()>, rent: nat -> Rent)

  predicate Signs(a: Address, ctx: Context) {
    a.Key? && a.bytes in ctx.signers
  }

  // ---------------------------------------------------------------------
  // The three ways an instruction changes accounts

  predicate Authenticates(c: Content, ctx: Context)
    requires c.Authority?
  {
    if c.credential.Ed25519? then c.credential.key in ctx.signers else ctx.passkey.Ok?
  }

  /** A passkey authentication steps the counter. */
  function Stepped(c: Content): Content
    requires c.Authority?
  {
    if c.credential.Ed25519? then c else c.(counter := (c.counter + 1) % 0x1_0000_0000)
  }

  function Authenticated(m: Accounts, a: Address): Accounts
    requires ContentAt(m, a).Authority?
  {
    m[a := At(m, a).(content := Stepped(ContentAt(m, a)))]
  }

  function Missing(m: Accounts, target: Address, rent: Rent): u64 {
    SatSub(rent, At(m, target).lamports)
  }

  /** An address can be initialised while nothing lives there; the payer tops it
      up to the rent, and must then sign and own plain lamports. */
  predicate CanCreate(m: Accounts, payer: Address, target: Address, rent: Rent, ctx: Context) {
    && ContentAt(m, target).Empty?
    && (Missing(m, target, rent) > 0 ==>
        (&& Signs(payer, ctx) && payer != target && ContentAt(m, payer).Empty?
         && At(m, payer).lamports >= Missing(m, target, rent)))
  }

  function Create(m: Accounts, payer: Address, target: Address, rent: Rent, content: Content): Accounts
    requires Missing(m, target, rent) > 0 ==> payer != target && At(m, payer).lamports >= Missing(m, target, rent)
  {
    var need := Missing(m, target, rent);
    if need == 0 then m[target := Account(At(m, target).lamports, content)]
    else m[payer := At(m, payer).(lamports := At(m, payer).lamports - need)][target := Account(rent, content)]
  }

  predicate CanClose(m: Accounts, target: Address, refund: Address) {
    At(m, refund).lamports + At(m, target).lamports <= U64_MAX
  }

  /** The refund account is credited first, then the target is drained and zeroed. */
  function Close(m: Accounts, target: Address, refund: Address): Accounts
    requires CanClose(m, target, refund)
  {
    var credited := At(m, refund).(lamports := At(m, refund).lamports + At(m, target).lamports);
    m[refund := credited][target := Account(0, Wiped)]
  }

  // ---------------------------------------------------------------------
  // What each instruction asks for, and what it does

  predicate Member(m: Accounts, wallet: Address, authority: Address) {
    && ContentAt(m, wallet).Wallet?
    && ContentAt(m, authority).Authority? && ContentAt(m, authority).wallet == wallet
  }

  predicate InWallet(m: Accounts, wallet: Address, authority: Address, ctx: Context) {
    Member(m, wallet, authority) && Authenticates(ContentAt(m, authority), ctx)
  }

  predicate InWalletAs(m: Accounts, wallet: Address, authority: Address, maxRole: byte, ctx: Context) {
    InWallet(m, wallet, authority, ctx) && ContentAt(m, authority).role <= maxRole
  }

  function NewAuthority(credential: Credential, role: byte, wallet: Address): Content {
    Authority(credential, role, 0, wallet)
  }

  predicate CanCreateWallet(m: Accounts, payer: Address, seed: Pubkey, credential: Credential, ctx: Context) {
    var wallet, owner := WalletPda(seed), NewAuthority(credential, OWNER, WalletPda(seed));
    && CanCreate(m, payer, wallet, ctx.rent(8), ctx)
    && CanCreate(Create(m, payer, wallet, ctx.rent(8), Wallet), payer,
                 AuthorityPda(wallet, IdSeed(credential)), ctx.rent(Space(owner)), ctx)
  }

  function DoCreateWallet(m: Accounts, payer: Address, seed: Pubkey, credential: Credential, ctx: Context): Accounts
    requires CanCreateWallet(m, payer, seed, credential, ctx)
  {
    var wallet, owner := WalletPda(seed), NewAuthority(credential, OWNER, WalletPda(seed));
    Create(Create(m, payer, wallet, ctx.rent(8), Wallet), payer,
           AuthorityPda(wallet, IdSeed(credential)), ctx.rent(Space(owner)), owner)
  }

  /** Owners may add any role, admins only spenders. */
  predicate MayAdd(adminRole: byte, newRole: byte) {
    newRole <= SPENDER && (adminRole == OWNER || (adminRole == ADMIN && newRole == SPENDER))
  }

  predicate CanAdd(m: Accounts, payer: Address, wallet: Address, admin: Address, credential: Credential, role: byte,
                   ctx: Context) {
    && InWallet(m, wallet, admin, ctx) && MayAdd(ContentAt(m, admin).role, role)
    && CanCreate(Authenticated(m, admin), payer, AuthorityPda(wallet, IdSeed(credential)),
                 ctx.rent(Space(NewAuthority(credential, role, wallet))), ctx)
  }

  function DoAdd(m: Accounts, payer: Address, wallet: Address, admin: Address, credential: Credential, role: byte,
                 ctx: Context): Accounts
    requires CanAdd(m, payer, wallet, admin, credential, role, ctx)
  {
    var created := NewAuthority(credential, role, wallet);
    Create(Authenticated(m, admin), payer, AuthorityPda(wallet, IdSeed(credential)), ctx.rent(Space(created)), created)
  }

  /** Nobody removes an owner; owners remove anyone else, admins only spenders. */
  predicate MayRemove(adminRole: byte, targetRole: byte) {
    targetRole != OWNER && (adminRole == OWNER || (adminRole == ADMIN && targetRole == SPENDER))
  }

  predicate Removable(m: Accounts, wallet: Address, admin: Address, target: Address, refund: Address)
    requires ContentAt(m, admin).Authority?
  {
    && ContentAt(m, target).Authority? && ContentAt(m, target).wallet == wallet
    && admin != target && MayRemove(ContentAt(m, admin).role, ContentAt(m, target).role)
    && target != refund
  }

  predicate CanRemove(m: Accounts, wallet: Address, admin: Address, target: Address, refund: Address, ctx: Context) {
    && InWallet(m, wallet, admin, ctx) && Removable(m, wallet, admin, target, refund)
    && CanClose(Authenticated(m, admin), target, refund)
  }

  function DoRemove(m: Accounts, wallet: Address, admin: Address, target: Address, refund: Address,
                    ctx: Context): Accounts
    requires CanRemove(m, wallet, admin, target, refund, ctx)
  {
    Close(Authenticated(m, admin), target, refund)
  }

  predicate ZeroKey(k: Pubkey) {
    forall i :: 0 <= i < |k| ==> k[i] == 0
  }

  predicate CanTransfer(m: Accounts, payer: Address, wallet: Address, current: Address, credential: Credential,
                        refund: Address, ctx: Context) {
    && !ZeroKey(IdSeed(credential)) && current != refund
    && InWalletAs(m, wallet, current, OWNER, ctx)
    && var target, owner := AuthorityPda(wallet, IdSeed(credential)), NewAuthority(credential, OWNER, wallet);
       var rent := ctx.rent(Space(owner));
    && CanCreate(Authenticated(m, current), payer, target, rent, ctx)
    && CanClose(Create(Authenticated(m, current), payer, target, rent, owner), current, refund)
  }

  function DoTransfer(m: Accounts, payer: Address, wallet: Address, current: Address, credential: Credential,
                      refund: Address, ctx: Context): Accounts
    requires CanTransfer(m, payer, wallet, current, credential, refund, ctx)
  {
    var target, owner := AuthorityPda(wallet, IdSeed(credential)), NewAuthority(credential, OWNER, wallet);
    Close(Create(Authenticated(m, current), payer, target, ctx.rent(Space(owner)), owner), current, refund)
  }

  const MAX_SESSION_SLOTS: u64 := 6_480_000

  /** Owners and admins may ask for a session that ends within the next 30 days or so. */
  predicate SessionRequest(m: Accounts, slot: u64, wallet: Address, admin: Address, expiresAt: u64) {
    && Member(m, wallet, admin) && ContentAt(m, admin).role <= ADMIN
    && slot < expiresAt <= SatAdd(slot, MAX_SESSION_SLOTS)
  }

  predicate CanCreateSession(m: Accounts, slot: u64, payer: Address, wallet: Address, admin: Address,
                             sessionKey: Pubkey,
                             expiresAt: u64, rules: seq<Rule>, ctx: Context)
  {
    && Admissible(rules) && |EncodeRules(rules)| <= Sessions.MAX_ACTIONS_BUFFER_SIZE
    && SessionRequest(m, slot, wallet, admin, expiresAt) && Authenticates(ContentAt(m, admin), ctx)
    && CanCreate(Authenticated(m, admin), payer, SessionPda(wallet, sessionKey),
                 ctx.rent(Space(Session(wallet, sessionKey, expiresAt, rules))), ctx)
  }

  function DoCreateSession(m: Accounts, slot: u64, payer: Address, wallet: Address, admin: Address, sessionKey: Pubkey,
                           expiresAt: u64, rules: seq<Rule>, ctx: Context): Accounts
    requires CanCreateSession(m, slot, payer, wallet, admin, sessionKey, expiresAt, rules, ctx)
  {
    var created := Session(wallet, sessionKey, expiresAt, rules);
    Create(Authenticated(m, admin), payer, SessionPda(wallet, sessionKey), ctx.rent(Space(created)), created)
  }

  predicate Revocable(m: Accounts, wallet: Address, session: Address, refund: Address) {
    ContentAt(m, session).Session? && ContentAt(m, session).wallet == wallet && session != refund
  }

  predicate CanRevoke(m: Accounts, payer: Address, wallet: Address, admin: Address, session: Address, refund: Address,
                      ctx: Context) {
    && Signs(payer, ctx)
    && InWalletAs(m, wallet, admin, ADMIN, ctx)
    && Revocable(m, wallet, session, refund) && CanClose(Authenticated(m, admin), session, refund)
  }

  function DoRevoke(m: Accounts, payer: Address, wallet: Address, admin: Address, session: Address, refund: Address,
                    ctx: Context): Accounts
    requires CanRevoke(m, payer, wallet, admin, session, refund, ctx)
  {
    Close(Authenticated(m, admin), session, refund)
  }

  /** Execution by an authority: what its CPIs do follows as an outside step. */
  predicate CanExecute(m: Accounts, wallet: Address, authority: Address, ctx: Context) {
    InWallet(m, wallet, authority, ctx)
  }

  /** Execution by a session, with the flow its CPIs turn out to have. */
  predicate CanExecuteSession(m: Accounts, slot: u64, wallet: Address, session: Address, flow: Flow, ctx: Context) {
    && ContentAt(m, wallet).Wallet?
    && ContentAt(m, session).Session? && ContentAt(m, session).wallet == wallet
    && slot <= ContentAt(m, session).expiresAt && ContentAt(m, session).sessionKey in ctx.signers
    && Windowed(ContentAt(m, session).rules) && Accepts(ContentAt(m, session).rules, flow, slot)
  }

  function DoExecuteSession(m: Accounts, slot: u64, wallet: Address, session: Address, flow: Flow,
                            ctx: Context): Accounts
    requires CanExecuteSession(m, slot, wallet, session, flow, ctx)
  {
    var c := ContentAt(m, session);
    m[session := At(m, session).(content := c.(rules := SettleAll(c.rules, flow, slot)))]
  }

  const MIN_EXPIRY_SLOTS: u16 := 10
  const MAX_EXPIRY_SLOTS: u16 := 9000

  function DeferredFor(m: Accounts, slot: u64, payer: Address, wallet: Address, authority: Address,
                       instructionsHash: Pubkey,
                       accountsHash: Pubkey, expiryOffset: u16): Content
    requires slot + expiryOffset <= U64_MAX
  {
    Deferred(instructionsHash, accountsHash, wallet, authority, payer, slot + expiryOffset)
  }

  predicate CanAuthorize(m: Accounts, slot: u64, payer: Address, wallet: Address, authority: Address,
                         expiryOffset: u16, ctx: Context) {
    && Signs(payer, ctx) && MIN_EXPIRY_SLOTS <= expiryOffset <= MAX_EXPIRY_SLOTS && slot + expiryOffset <= U64_MAX
    && InWalletAs(m, wallet, authority, ADMIN, ctx) && ContentAt(m, authority).credential.Passkey?
    && CanCreate(Authenticated(m, authority), payer,
                 DeferredPda(wallet, authority, Stepped(ContentAt(m, authority)).counter), ctx.rent(176), ctx)
  }

  function DoAuthorize(m: Accounts, slot: u64, payer: Address, wallet: Address, authority: Address,
                       instructionsHash: Pubkey,
                       accountsHash: Pubkey, expiryOffset: u16, ctx: Context): Accounts
    requires CanAuthorize(m, slot, payer, wallet, authority, expiryOffset, ctx)
  {
    Create(Authenticated(m, authority), payer,
           DeferredPda(wallet, authority, Stepped(ContentAt(m, authority)).counter), ctx.rent(176),
           DeferredFor(m, slot, payer, wallet, authority, instructionsHash, accountsHash, expiryOffset))
  }

  /** What an execution presents: the instruction bytes and the accounts listed. */
  datatype Presented = Presented(data: seq<byte>, accounts: seq<AccountInfo>)

  /** The bytes encode instructions with the two hashes of the record. */
  ghost predicate Fulfils(sha: Hash, p: Presented, c: Content)
    requires c.Deferred?
  {
    exists ixs :: Presents(sha, p.data, p.accounts, c.instructionsHash, c.accountsHash, ixs)
  }

  /** An unexpired record of the wallet, to be refunded to the account that paid for it. */
  predicate Executable(m: Accounts, slot: u64, wallet: Address, record: Address, refund: Address) {
    && ContentAt(m, wallet).Wallet?
    && ContentAt(m, record).Deferred? && ContentAt(m, record).wallet == wallet && ContentAt(m, record).payer == refund
    && slot <= ContentAt(m, record).expiresAt
  }

  /** Consumption by execution, up to the expiry slot. What the CPIs do follows as
      an outside step. */
  ghost predicate CanExecuteDeferred(m: Accounts, slot: u64, payer: Address, wallet: Address, record: Address,
                                     refund: Address, sha: Hash, p: Presented, ctx: Context)
  {
    && Signs(payer, ctx) && Executable(m, slot, wallet, record, refund)
    && Fulfils(sha, p, ContentAt(m, record)) && CanClose(m, record, refund)
  }

  /** Consumption by reclaiming, after the expiry slot. */
  predicate CanReclaim(m: Accounts, slot: u64, payer: Address, record: Address, refund: Address, ctx: Context) {
    && Signs(payer, ctx)
    && ContentAt(m, record).Deferred? && ContentAt(m, record).payer == payer
    && slot > ContentAt(m, record).expiresAt
    && CanClose(m, record, refund)
  }

  // ---------------------------------------------------------------------
  // The handlers

  /** The chain as the program sees it. A failed instruction is rolled back: every
      handler works on a copy that is kept only on success. */
  class Chain {
    var accounts: Accounts
    var slot: u64

    constructor ()
      ensures accounts == map[] && slot == 0
    {
      accounts := map[];
      slot := 0;
    }

    method Initialise(work: Accounts, payer: Address, target: Address, content: Content, ctx: Context)
      returns (r: Result<Accounts>)
      ensures r.Ok? <==> CanCreate(work, payer, target, ctx.rent(Space(content)), ctx)
      ensures r.Ok? ==> r.value == Create(work, payer, target, ctx.rent(Space(content)), content)
      ensures r == Err(AccountAlreadyInitialized) <==> !ContentAt(work, target).Empty?
      ensures r == Err(MissingRequiredSignature) <==> (
        && ContentAt(work, target).Empty? && At(work, target).lamports < ctx.rent(Space(content))
        && !Signs(payer, ctx))
    {
      if !ContentAt(work, target).Empty? { return Err(AccountAlreadyInitialized); }
      var rent := ctx.rent(Space(content));
      var balance := At(work, target).lamports;
      var m := work;
      if balance < rent {
        var need := rent - balance;
        if !Signs(payer, ctx) { return Err(MissingRequiredSignature); }
        if payer == target || !ContentAt(m, payer).Empty? || At(m, payer).lamports < need {
          return Err(InvalidAccountData);
        }
        m := m[payer := At(m, payer).(lamports := At(m, payer).lamports - need)];
        m := m[target := At(m, target).(lamports := balance + need)];
      }
      m := m[target := At(m, target).(content := content)];
      return Ok(m);
    }

    /** The checks shared by the handlers that an authority of the wallet calls. */
    method CheckAuthority(wallet: Address, authority: Address) returns (r: Result<Content>)
      ensures r.Ok? <==> Member(accounts, wallet, authority)
      ensures r.Ok? ==> r.value == ContentAt(accounts, authority)
      ensures r == Err(IllegalOwner) <==> ContentAt(accounts, wallet).Empty? || ContentAt(accounts, authority).Empty?
      ensures r.Err? ==> r.error == IllegalOwner || r.error == InvalidAccountData
    {
      var w, c := ContentAt(accounts, wallet), ContentAt(accounts, authority);
      if w.Empty? || c.Empty? { return Err(IllegalOwner); }
      if !w.Wallet? { return Err(InvalidAccountData); }
      if !c.Authority? { return Err(InvalidAccountData); }
      if c.wallet != wallet { return Err(InvalidAccountData); }
      return Ok(c);
    }

    /** Checks and authenticates an authority of the wallet. */
    method Enter(wallet: Address, authority: Address, ctx: Context) returns (r: Result<Accounts>)
      ensures r.Ok? <==> InWallet(accounts, wallet, authority, ctx)
      ensures r.Ok? ==> r.value == Authenticated(accounts, authority)
    {
      var checked := CheckAuthority(wallet, authority);
      if checked.Err? { return Err(checked.error); }
      r := Authenticate(authority, ctx);
    }

    /** As `Enter`, for authorities with at most the given role number. */
    method EnterAs(wallet: Address, authority: Address, maxRole: byte, ctx: Context) returns (r: Result<Accounts>)
      ensures r.Ok? <==> InWalletAs(accounts, wallet, authority, maxRole, ctx)
      ensures Member(accounts, wallet, authority) && ContentAt(accounts, authority).role > maxRole ==>
        r == Err(PermissionDenied)
      ensures r.Ok? ==> r.value == Authenticated(accounts, authority)
    {
      var checked := CheckAuthority(wallet, authority);
      if checked.Err? { return Err(checked.error); }
      if checked.value.role > maxRole { return Err(PermissionDenied); }
      r := Authenticate(authority, ctx);
    }

    method Authenticate(authority: Address, ctx: Context) returns (r: Result<Accounts>)
      requires ContentAt(accounts, authority).Authority?
      ensures r.Ok? <==> Authenticates(ContentAt(accounts, authority), ctx)
      ensures r.Ok? ==> r.value == Authenticated(accounts, authority)
      ensures r.Err? ==>
        r.error == if ContentAt(accounts, authority).credential.Ed25519? then MissingRequiredSignature
                   else ctx.passkey.error
    {
      var c := ContentAt(accounts, authority);
      if c.credential.Ed25519? {
        if c.credential.key !in ctx.signers { return Err(MissingRequiredSignature); }
      } else if ctx.passkey.Err? {
        return Err(ctx.passkey.error);
      }
      return Ok(accounts[authority := At(accounts, authority).(content := Stepped(c))]);
    }

    method CloseInto(work: Accounts, target: Address, refund: Address) returns (r: Result<Accounts>)
      ensures r.Ok? <==> CanClose(work, target, refund)
      ensures r.Ok? ==> r.value == Close(work, target, refund)
      ensures r.Err? ==> r.error == ArithmeticOverflow
    {
      var targetLamports, refundLamports := At(work, target).lamports, At(work, refund).lamports;
      if refundLamports + targetLamports > U64_MAX { return Err(ArithmeticOverflow); }
      var m := work[refund := At(work, refund).(lamports := refundLamports + targetLamports)];
      m := m[target := At(m, target).(lamports := 0)];
      m := m[target := At(m, target).(content := Wiped)];
      return Ok(m);
    }

    method CreateWallet(payer: Address, walletPda: Address, vaultPda: Address, authPda: Address, seed: Pubkey,
                        credential: Credential, ctx: Context)
      returns (r: Result<()>)
      modifies this`accounts
      ensures r.Ok? <==> (
        && walletPda == WalletPda(seed) && vaultPda == VaultPda(walletPda)
        && authPda == AuthorityPda(walletPda, IdSeed(credential))
        && CanCreateWallet(old(accounts), payer, seed, credential, ctx))
      ensures accounts == if r.Ok? then DoCreateWallet(old(accounts), payer, seed, credential, ctx) else old(accounts)
      ensures walletPda != WalletPda(seed) ==> r == Err(InvalidSeeds)
      ensures walletPda == WalletPda(seed) && !ContentAt(old(accounts), walletPda).Empty? ==>
        r == Err(AccountAlreadyInitialized)
    {
      if walletPda != WalletPda(seed) { return Err(InvalidSeeds); }
      if !ContentAt(accounts, walletPda).Empty? { return Err(AccountAlreadyInitialized); }
      if vaultPda != VaultPda(walletPda) { return Err(InvalidSeeds); }
      if authPda != AuthorityPda(walletPda, IdSeed(credential)) { return Err(InvalidSeeds); }
      if !ContentAt(accounts, authPda).Empty? { return Err(AccountAlreadyInitialized); }
      var withWallet := Initialise(accounts, payer, walletPda, Wallet, ctx);
      if withWallet.Err? { return Err(withWallet.error); }
      var withOwner := Initialise(withWallet.value, payer, authPda, NewAuthority(credential, OWNER, walletPda), ctx);
      if withOwner.Err? { return Err(withOwner.error); }
      accounts := withOwner.value;
      return Ok(());
    }

    method AddAuthority(payer: Address, wallet: Address, admin: Address, target: Address, credential: Credential,
                        role: byte, ctx: Context)
      returns (r: Result<()>)
      modifies this`accounts
      ensures r.Ok? <==> (
        && target == AuthorityPda(wallet, IdSeed(credential))
        && CanAdd(old(accounts), payer, wallet, admin, credential, role, ctx))
      ensures InWallet(old(accounts), wallet, admin, ctx) && !MayAdd(ContentAt(old(accounts), admin).role, role)
        ==> r == Err(PermissionDenied)
      ensures (&& InWallet(old(accounts), wallet, admin, ctx) && MayAdd(ContentAt(old(accounts), admin).role, role)
               && target != AuthorityPda(wallet, IdSeed(credential))) ==> r == Err(InvalidSeeds)
      ensures accounts ==
        if r.Ok? then DoAdd(old(accounts), payer, wallet, admin, credential, role, ctx) else old(accounts)
    {
      var checked := CheckAuthority(wallet, admin);
      if checked.Err? { return Err(checked.error); }
      var authenticated := Authenticate(admin, ctx);
      if authenticated.Err? { return Err(authenticated.error); }
      var adminRole := checked.value.role;
      if role > 2 { return Err(PermissionDenied); }
      if adminRole != 0 && (adminRole != 1 || role != 2) { return Err(PermissionDenied); }
      if target != AuthorityPda(wallet, IdSeed(credential)) { return Err(InvalidSeeds); }
      var work := Initialise(authenticated.value, payer, target, NewAuthority(credential, role, wallet), ctx);
      if work.Err? { return Err(work.error); }
      accounts := work.value;
      return Ok(());
    }

    method RemoveAuthority(wallet: Address, admin: Address, target: Address, refund: Address, ctx: Context)
      returns (r: Result<()>)
      modifies this`accounts
      ensures r.Ok? <==> CanRemove(old(accounts), wallet, admin, target, refund, ctx)
      ensures accounts == if r.Ok? then DoRemove(old(accounts), wallet, admin, target, refund, ctx) else old(accounts)
      ensures (&& InWallet(old(accounts), wallet, admin, ctx) && Member(old(accounts), wallet, target)
               && (admin == target || !MayRemove(ContentAt(old(accounts), admin).role,
                                                 ContentAt(old(accounts), target).role))) ==>
        r == Err(PermissionDenied)
    {
      RemoveFacts(accounts, wallet, admin, target, refund, ctx);
      assert Member(accounts, wallet, target) ==>
        ContentAt(accounts, target).Authority? && ContentAt(accounts, target).wallet == wallet;
      hide *;
      if ContentAt(accounts, target).Empty? { return Err(IllegalOwner); }
      var entered := Enter(wallet, admin, ctx);
      if entered.Err? { return Err(entered.error); }
      var removable := CheckRemovable(wallet, admin, target, refund);
      if removable.Err? { return removable; }
      var work := CloseInto(entered.value, target, refund);
      if work.Err? { return Err(work.error); }
      accounts := work.value;
      return Ok(());
    }

    method CheckRemovable(wallet: Address, admin: Address, target: Address, refund: Address) returns (r: Result<()>)
      requires ContentAt(accounts, admin).Authority?
      ensures r.Ok? <==> Removable(accounts, wallet, admin, target, refund)
      ensures r == Err(PermissionDenied) <==> (
        var t := ContentAt(accounts, target);
        t.Authority? && t.wallet == wallet && (admin == target || !MayRemove(ContentAt(accounts, admin).role, t.role)))
    {
      var adminRole, t := ContentAt(accounts, admin).role, ContentAt(accounts, target);
      if !t.Authority? { return Err(InvalidAccountData); }
      if t.wallet != wallet { return Err(InvalidAccountData); }
      if admin == target { return Err(PermissionDenied); }
      if t.role == 0 { return Err(PermissionDenied); }
      if adminRole != 0 {
        if adminRole != 1 || t.role != 2 { return Err(PermissionDenied); }
      }
      if target == refund { return Err(InvalidAccountData); }
      return Ok(());
    }

    method TransferOwnership(payer: Address, wallet: Address, current: Address, target: Address,
                             credential: Credential, refund: Address, ctx: Context)
      returns (r: Result<()>)
      modifies this`accounts
      ensures r.Ok? <==> (
        && target == AuthorityPda(wallet, IdSeed(credential))
        && CanTransfer(old(accounts), payer, wallet, current, credential, refund, ctx))
      ensures accounts ==
        if r.Ok? then DoTransfer(old(accounts), payer, wallet, current, credential, refund, ctx) else old(accounts)
    {
      TransferFacts(accounts, payer, wallet, current, credential, refund, ctx);
      hide *;
      if ZeroKey(IdSeed(credential)) { return Err(InvalidAccountData); }
      if ContentAt(accounts, wallet).Empty? || ContentAt(accounts, current).Empty? { return Err(IllegalOwner); }
      if current == refund { return Err(InvalidAccountData); }
      var entered := EnterAs(wallet, current, OWNER, ctx);
      if entered.Err? { return Err(entered.error); }
      if target != AuthorityPda(wallet, IdSeed(credential)) { return Err(InvalidSeeds); }
      var withNew := Initialise(entered.value, payer, target, NewAuthority(credential, OWNER, wallet), ctx);
      if withNew.Err? { return Err(withNew.error); }
      var work := CloseInto(withNew.value, current, refund);
      if work.Err? { return Err(work.error); }
      accounts := work.value;
      return Ok(());
    }

    method CreateSession(payer: Address, wallet: Address, admin: Address, target: Address, sessionKey: Pubkey,
                         expiresAt: u64,
                         actionsBytes: seq<byte>, ctx: Context)
      returns (r: Result<()>)
      modifies this`accounts
      ensures r.Ok? <==> (
        && target == SessionPda(wallet, sessionKey) && RulesOf(actionsBytes).Some?
        && CanCreateSession(old(accounts), slot, payer, wallet, admin, sessionKey, expiresAt,
                            RulesOf(actionsBytes).value, ctx))
      ensures r.Ok? ==>
        accounts == DoCreateSession(old(accounts), slot, payer, wallet, admin, sessionKey, expiresAt,
                                    RulesOf(actionsBytes).value, ctx)
      ensures r.Err? ==> accounts == old(accounts)
    {
      if RulesOf(actionsBytes).Some? {
        EncodeRulesOf(actionsBytes);
        SessionFacts(accounts, slot, payer, wallet, admin, sessionKey, expiresAt, RulesOf(actionsBytes).value, ctx);
      }
      hide *;
      if |actionsBytes| > Sessions.MAX_ACTIONS_BUFFER_SIZE { return Err(InvalidInstructionData); }
      var valid := ValidateActionsBuffer(actionsBytes);
      if valid.Err? { return Err(valid.error); }
      var requested := CheckSessionRequest(wallet, admin, expiresAt);
      if requested.Err? { return requested; }
      var authenticated := Authenticate(admin, ctx);
      if authenticated.Err? { return Err(authenticated.error); }
      if target != SessionPda(wallet, sessionKey) { return Err(InvalidSeeds); }
      var rules := RulesOf(actionsBytes).value;
      var work := Initialise(authenticated.value, payer, target, Session(wallet, sessionKey, expiresAt, rules), ctx);
      if work.Err? { return Err(work.error); }
      accounts := work.value;
      return Ok(());
    }

    method CheckSessionRequest(wallet: Address, admin: Address, expiresAt: u64) returns (r: Result<()>)
      ensures r.Ok? <==> SessionRequest(accounts, slot, wallet, admin, expiresAt)
      ensures r == Err(PermissionDenied) <==> Member(accounts, wallet, admin) && ContentAt(accounts, admin).role > ADMIN
      ensures r == Err(InvalidSessionDuration) <==> (
        && Member(accounts, wallet, admin) && ContentAt(accounts, admin).role <= ADMIN
        && !(slot < expiresAt <= SatAdd(slot, MAX_SESSION_SLOTS)))
      ensures r.Ok? ==> ContentAt(accounts, admin).Authority?
    {
      var checked := CheckAuthority(wallet, admin);
      if checked.Err? { return Err(checked.error); }
      if checked.value.role != 0 && checked.value.role != 1 { return Err(PermissionDenied); }
      if expiresAt <= slot { return Err(InvalidSessionDuration); }
      if expiresAt > SatAdd(slot, MAX_SESSION_SLOTS) { return Err(InvalidSessionDuration); }
      return Ok(());
    }

    method RevokeSession(payer: Address, wallet: Address, admin: Address, session: Address, refund: Address,
                         ctx: Context)
      returns (r: Result<()>)
      modifies this`accounts
      ensures r.Ok? <==> CanRevoke(old(accounts), payer, wallet, admin, session, refund, ctx)
      ensures !Signs(payer, ctx) ==> r == Err(MissingRequiredSignature)
      ensures accounts ==
        if r.Ok? then DoRevoke(old(accounts), payer, wallet, admin, session, refund, ctx) else old(accounts)
    {
      RevokeFacts(accounts, payer, wallet, admin, session, refund, ctx);
      if CanRevoke(accounts, payer, wallet, admin, session, refund, ctx) {
        RevokeIs(accounts, payer, wallet, admin, session, refund, ctx);
      }
      hide *;
      if !Signs(payer, ctx) { return Err(MissingRequiredSignature); }
      if ContentAt(accounts, session).Empty? { return Err(IllegalOwner); }
      var entered := EnterAs(wallet, admin, ADMIN, ctx);
      if entered.Err? { return Err(entered.error); }
      var revocable := CheckRevocable(wallet, session, refund);
      if revocable.Err? { return revocable; }
      var work := CloseInto(entered.value, session, refund);
      if work.Err? { return Err(work.error); }
      accounts := work.value;
      return Ok(());
    }

    method CheckRevocable(wallet: Address, session: Address, refund: Address) returns (r: Result<()>)
      ensures r.Ok? <==> Revocable(accounts, wallet, session, refund)
      ensures r == Err(InvalidSessionAccount) <==> !ContentAt(accounts, session).Session?
    {
      var c := ContentAt(accounts, session);
      if !c.Session? { return Err(InvalidSessionAccount); }
      if c.wallet != wallet { return Err(InvalidAccountData); }
      if session == refund { return Err(InvalidAccountData); }
      return Ok(());
    }

    method Execute(wallet: Address, authority: Address, ctx: Context) returns (r: Result<()>)
      modifies this`accounts
      ensures r.Ok? <==> CanExecute(old(accounts), wallet, authority, ctx)
      ensures accounts == if r.Ok? then Authenticated(old(accounts), authority) else old(accounts)
    {
      var checked := CheckAuthority(wallet, authority);
      if checked.Err? { return Err(checked.error); }
      var authenticated := Authenticate(authority, ctx);
      if authenticated.Err? { return Err(authenticated.error); }
      accounts := authenticated.value;
      return Ok(());
    }

    method Authorize(payer: Address, wallet: Address, authority: Address, target: Address, instructionsHash: Pubkey,
                     accountsHash: Pubkey,
                     expiryOffset: u16, ctx: Context)
      returns (r: Result<()>)
      modifies this`accounts
      ensures r.Ok? <==> (
        && CanAuthorize(old(accounts), slot, payer, wallet, authority, expiryOffset, ctx)
        && target == DeferredPda(wallet, authority, Stepped(ContentAt(old(accounts), authority)).counter))
      ensures Signs(payer, ctx) && !(MIN_EXPIRY_SLOTS <= expiryOffset <= MAX_EXPIRY_SLOTS) ==>
        r == Err(InvalidExpiryWindow)
      ensures r.Ok? ==>
        accounts == DoAuthorize(old(accounts), slot, payer, wallet, authority, instructionsHash, accountsHash,
                                expiryOffset, ctx)
      ensures r.Err? ==> accounts == old(accounts)
    {
      if !Signs(payer, ctx) { return Err(MissingRequiredSignature); }
      if expiryOffset < MIN_EXPIRY_SLOTS || expiryOffset > MAX_EXPIRY_SLOTS { return Err(InvalidExpiryWindow); }
      var checked := CheckAuthority(wallet, authority);
      if checked.Err? { return Err(checked.error); }
      if checked.value.credential.Ed25519? { return Err(InvalidAuthenticationKind); }
      if checked.value.role > 1 { return Err(PermissionDenied); }
      var authenticated := Authenticate(authority, ctx);
      if authenticated.Err? { return Err(authenticated.error); }
      SteppedCounter(accounts, authority);
      var counterForSeed := ContentAt(authenticated.value, authority).counter;
      if slot + expiryOffset > U64_MAX { return Err(ArithmeticOverflow); }
      if target != DeferredPda(wallet, authority, counterForSeed) { return Err(InvalidSeeds); }
      var record := Deferred(instructionsHash, accountsHash, wallet, authority, payer, slot + expiryOffset);
      var work := Initialise(authenticated.value, payer, target, record, ctx);
      if work.Err? { return Err(work.error); }
      accounts := work.value;
      return Ok(());
    }

    /** Returns the instructions that are then invoked. */
    method ExecuteDeferred(payer: Address, wallet: Address, record: Address, refund: Address, sha: Hash,
                           presented: Presented, ctx: Context)
      returns (r: Result<seq<CompactInstruction>>)
      modifies this`accounts
      ensures r.Ok? <==> CanExecuteDeferred(old(accounts), slot, payer, wallet, record, refund, sha, presented, ctx)
      ensures r.Ok? ==> (
        && ContentAt(old(accounts), record).Deferred?
        && Presents(sha, presented.data, presented.accounts, ContentAt(old(accounts), record).instructionsHash,
                    ContentAt(old(accounts), record).accountsHash, r.value))
      ensures accounts == if r.Ok? then Close(old(accounts), record, refund) else old(accounts)
    {
      ExecuteDeferredFacts(accounts, slot, payer, wallet, record, refund, sha, presented, ctx);
      hide *;
      if !Signs(payer, ctx) { return Err(MissingRequiredSignature); }
      var executable := CheckExecutable(wallet, record, refund);
      if executable.Err? { return Err(executable.error); }
      var c := executable.value;
      var checked := CheckHashes(sha, presented.data, presented.accounts, c.instructionsHash, c.accountsHash);
      FulfilsIs(sha, presented, c);
      if checked.Err? { return Err(checked.error); }
      var work := CloseInto(accounts, record, refund);
      if work.Err? { return Err(work.error); }
      accounts := work.value;
      return Ok(checked.value);
    }

    method CheckExecutable(wallet: Address, record: Address, refund: Address) returns (r: Result<Content>)
      ensures r.Ok? <==> Executable(accounts, slot, wallet, record, refund)
      ensures r.Ok? ==> r.value == ContentAt(accounts, record) && r.value.Deferred?
      ensures r == Err(DeferredAuthorizationExpired) <==> (
        && ContentAt(accounts, wallet).Wallet? && ContentAt(accounts, record).Deferred?
        && ContentAt(accounts, record).wallet == wallet && ContentAt(accounts, record).payer == refund
        && slot > ContentAt(accounts, record).expiresAt)
    {
      hide *;
      var c := ContentAt(accounts, record);
      ExecutableIs(accounts, slot, wallet, record, refund, c);
      if ContentAt(accounts, wallet).Empty? || c.Empty? { return Err(IllegalOwner); }
      if !ContentAt(accounts, wallet).Wallet? { return Err(InvalidAccountData); }
      if !c.Deferred? { return Err(InvalidAccountData); }
      if c.wallet != wallet { return Err(InvalidAccountData); }
      if c.payer != refund { return Err(InvalidAccountData); }
      if slot > c.expiresAt { return Err(DeferredAuthorizationExpired); }
      return Ok(c);
    }

    method ReclaimDeferred(payer: Address, record: Address, refund: Address, ctx: Context) returns (r: Result<()>)
      modifies this`accounts
      ensures r.Ok? <==> CanReclaim(old(accounts), slot, payer, record, refund, ctx)
      ensures r == Err(UnauthorizedReclaim) <==>
        (&& Signs(payer, ctx) && ContentAt(old(accounts), record).Deferred?
         && ContentAt(old(accounts), record).payer != payer)
      ensures r == Err(DeferredAuthorizationNotExpired) <==> (
        && Signs(payer, ctx) && ContentAt(old(accounts), record).Deferred?
        && ContentAt(old(accounts), record).payer == payer
        && slot <= ContentAt(old(accounts), record).expiresAt)
      ensures accounts == if r.Ok? then Close(old(accounts), record, refund) else old(accounts)
    {
      if !Signs(payer, ctx) { return Err(MissingRequiredSignature); }
      var c := ContentAt(accounts, record);
      if c.Empty? { return Err(IllegalOwner); }
      if !c.Deferred? { return Err(InvalidAccountData); }
      if c.payer != payer { return Err(UnauthorizedReclaim); }
      if slot <= c.expiresAt { return Err(DeferredAuthorizationNotExpired); }
      var work := CloseInto(accounts, record, refund);
      if work.Err? { return Err(work.error); }
      accounts := work.value;
      return Ok(());
    }
  }

  lemma ExecuteDeferredFacts(m: Accounts, slot: u64, payer: Address, wallet: Address, record: Address,
                             refund: Address, sha: Hash, p: Presented, ctx: Context)
    ensures Executable(m, slot, wallet, record, refund) ==> ContentAt(m, record).Deferred?
    ensures CanExecuteDeferred(m, slot, payer, wallet, record, refund, sha, p, ctx) <==> (
      && Signs(payer, ctx) && Executable(m, slot, wallet, record, refund)
      && Fulfils(sha, p, ContentAt(m, record)) && CanClose(m, record, refund))
  {
    hide Signs, ContentAt, Fulfils, CanClose;
  }

  lemma ExecutableIs(m: Accounts, slot: u64, wallet: Address, record: Address, refund: Address, c: Content)
    requires c == ContentAt(m, record)
    ensures Executable(m, slot, wallet, record, refund) <==>
      ContentAt(m, wallet).Wallet? && c.Deferred? && c.wallet == wallet && c.payer == refund && slot <= c.expiresAt
  {
    hide ContentAt;
  }

  lemma FulfilsIs(sha: Hash, p: Presented, c: Content)
    requires c.Deferred?
    ensures (forall ixs :: !Presents(sha, p.data, p.accounts, c.instructionsHash, c.accountsHash, ixs)) ==>
      !Fulfils(sha, p, c)
    ensures forall ixs ::
      Presents(sha, p.data, p.accounts, c.instructionsHash, c.accountsHash, ixs) ==> Fulfils(sha, p, c)
  {
    hide Presents;
  }

  lemma InWalletIs(m: Accounts, wallet: Address, authority: Address, ctx: Context)
    ensures InWallet(m, wallet, authority, ctx) ==> !ContentAt(m, wallet).Empty? && ContentAt(m, authority).Authority?
  {
    hide ContentAt, Authenticates;
  }

  lemma InWalletAsIs(m: Accounts, wallet: Address, authority: Address, maxRole: byte, ctx: Context)
    ensures InWalletAs(m, wallet, authority, maxRole, ctx)
      ==> !ContentAt(m, wallet).Empty? && ContentAt(m, authority).Authority?
  {
    InWalletIs(m, wallet, authority, ctx);
    hide InWallet, ContentAt;
  }

  lemma RemovableIs(m: Accounts, wallet: Address, admin: Address, target: Address, refund: Address)
    requires ContentAt(m, admin).Authority?
    ensures Removable(m, wallet, admin, target, refund) ==> ContentAt(m, target).Authority?
  {
    hide ContentAt;
  }

  lemma RevocableIs(m: Accounts, wallet: Address, session: Address, refund: Address)
    ensures Revocable(m, wallet, session, refund) ==> ContentAt(m, session).Session?
  {
    hide ContentAt;
  }

  lemma RemoveFacts(m: Accounts, wallet: Address, admin: Address, target: Address, refund: Address, ctx: Context)
    ensures InWallet(m, wallet, admin, ctx) ==> ContentAt(m, admin).Authority?
    ensures CanRemove(m, wallet, admin, target, refund, ctx) <==> (
      && !ContentAt(m, target).Empty? && InWallet(m, wallet, admin, ctx) && Removable(m, wallet, admin, target, refund)
      && CanClose(Authenticated(m, admin), target, refund))
    ensures CanRemove(m, wallet, admin, target, refund, ctx) ==>
      DoRemove(m, wallet, admin, target, refund, ctx) == Close(Authenticated(m, admin), target, refund)
  {
    InWalletIs(m, wallet, admin, ctx);
    if InWallet(m, wallet, admin, ctx) { RemovableIs(m, wallet, admin, target, refund); }
    hide ContentAt, Authenticated, Close, CanClose, InWallet, Removable;
  }

  lemma TransferFacts(m: Accounts, payer: Address, wallet: Address, current: Address, credential: Credential,
                      refund: Address, ctx: Context)
    ensures InWalletAs(m, wallet, current, OWNER, ctx) ==>
      !ContentAt(m, wallet).Empty? && ContentAt(m, current).Authority?
    ensures var target, owner := AuthorityPda(wallet, IdSeed(credential)), NewAuthority(credential, OWNER, wallet);
      var rent := ctx.rent(Space(owner));
      && (CanTransfer(m, payer, wallet, current, credential, refund, ctx) <==> (
          && !ZeroKey(IdSeed(credential)) && current != refund && InWalletAs(m, wallet, current, OWNER, ctx)
          && CanCreate(Authenticated(m, current), payer, target, rent, ctx)
          && CanClose(Create(Authenticated(m, current), payer, target, rent, owner), current, refund)))
      && (CanTransfer(m, payer, wallet, current, credential, refund, ctx) ==>
          DoTransfer(m, payer, wallet, current, credential, refund, ctx)
          == Close(Create(Authenticated(m, current), payer, target, rent, owner), current, refund))
  {
    hide Authenticated, Create, CanCreate, CanClose, Close, ZeroKey;
  }

  lemma SessionFacts(m: Accounts, slot: u64, payer: Address, wallet: Address, admin: Address, sessionKey: Pubkey,
                     expiresAt: u64, rules: seq<Rule>, ctx: Context)
    ensures SessionRequest(m, slot, wallet, admin, expiresAt) ==> ContentAt(m, admin).Authority?
    ensures CanCreateSession(m, slot, payer, wallet, admin, sessionKey, expiresAt, rules, ctx) <==> (
      && Admissible(rules) && |EncodeRules(rules)| <= Sessions.MAX_ACTIONS_BUFFER_SIZE
      && SessionRequest(m, slot, wallet, admin, expiresAt) && Authenticates(ContentAt(m, admin), ctx)
      && CanCreate(Authenticated(m, admin), payer, SessionPda(wallet, sessionKey),
                   ctx.rent(Space(Session(wallet, sessionKey, expiresAt, rules))), ctx))
    ensures CanCreateSession(m, slot, payer, wallet, admin, sessionKey, expiresAt, rules, ctx) ==>
      DoCreateSession(m, slot, payer, wallet, admin, sessionKey, expiresAt, rules, ctx)
      == Create(Authenticated(m, admin), payer, SessionPda(wallet, sessionKey),
                ctx.rent(Space(Session(wallet, sessionKey, expiresAt, rules))),
                Session(wallet, sessionKey, expiresAt, rules))
  {
    hide Admissible, EncodeRules, Authenticated, Create, CanCreate;
  }

  lemma RevokeIs(m: Accounts, payer: Address, wallet: Address, admin: Address, session: Address, refund: Address,
                 ctx: Context)
    requires CanRevoke(m, payer, wallet, admin, session, refund, ctx)
    ensures ContentAt(m, admin).Authority? && CanClose(Authenticated(m, admin), session, refund)
    ensures DoRevoke(m, payer, wallet, admin, session, refund, ctx) == Close(Authenticated(m, admin), session, refund)
  {
    hide ContentAt, Authenticated, Close, CanClose, Authenticates, Revocable, Signs;
  }

  lemma RevokeFacts(m: Accounts, payer: Address, wallet: Address, admin: Address, session: Address, refund: Address,
                    ctx: Context)
    ensures InWalletAs(m, wallet, admin, ADMIN, ctx) ==> ContentAt(m, admin).Authority?
    ensures CanRevoke(m, payer, wallet, admin, session, refund, ctx) <==> (
      && Signs(payer, ctx) && !ContentAt(m, session).Empty? && InWalletAs(m, wallet, admin, ADMIN, ctx)
      && Revocable(m, wallet, session, refund) && CanClose(Authenticated(m, admin), session, refund))
  {
    InWalletAsIs(m, wallet, admin, ADMIN, ctx);
    RevocableIs(m, wallet, session, refund);
    hide ContentAt, Authenticated, Close, CanClose, InWalletAs, Revocable, Signs;
  }

  lemma SteppedCounter(m: Accounts, a: Address)
    requires ContentAt(m, a).Authority?
    ensures ContentAt(Authenticated(m, a), a) == Stepped(ContentAt(m, a)) && Stepped(ContentAt(m, a)).Authority?
  {
  }
}
