/** Runs of the wallet program, with anything the outside may do in between, and
    what every reachable state satisfies. */
module LedgerRuns {
  import opened Bytes
  import opened Prelude
  import opened Rules
  import opened Validation
  import opened Limits
  import opened Binding
  import opened Ledger

  datatype State = State(accounts: Accounts, slot: u64)

  datatype Step =
    | CreateWallet(payer: Address, seed: Pubkey, credential: Credential, ctx: Context)
    | AddAuthority(payer: Address, wallet: Address, admin: Address, credential: Credential, role: byte, ctx: Context)
    | RemoveAuthority(wallet: Address, admin: Address, target: Address, refund: Address, ctx: Context)
    | TransferOwnership(payer: Address, wallet: Address, admin: Address, credential: Credential, refund: Address,
                        ctx: Context)
    | CreateSession(payer: Address, wallet: Address, admin: Address, sessionKey: Pubkey, expiresAt: u64,
                    rules: seq<Rule>, ctx: Context)
    | RevokeSession(payer: Address, wallet: Address, admin: Address, session: Address, refund: Address, ctx: Context)
    | Execute(wallet: Address, admin: Address, ctx: Context)
    | ExecuteSession(wallet: Address, session: Address, flow: Flow, ctx: Context)
    | Authorize(payer: Address, wallet: Address, admin: Address, instructionsHash: Pubkey, accountsHash: Pubkey,
                expiryOffset: u16, ctx: Context)
    | ExecuteDeferred(payer: Address, wallet: Address, record: Address, refund: Address, sha: Hash,
                      presented: Presented, ctx: Context)
    | ReclaimDeferred(payer: Address, record: Address, refund: Address, ctx: Context)
    | Outside(after: Accounts)
    | Reap(address: Address)
    | Tick(later: u64)

  predicate Owned(c: Content) {
    !c.Empty?
  }

  /** What other programs can do: they cannot write accounts of the program or
      take lamports from them, and an account they hand over to it holds zeros. */
  ghost predicate OutsideMay(m: Accounts, after: Accounts) {
    && (forall a :: Owned(ContentAt(m, a)) ==>
          ContentAt(after, a) == ContentAt(m, a) && At(after, a).lamports >= At(m, a).lamports)
    && (forall a :: !Owned(ContentAt(m, a)) ==> ContentAt(after, a).Empty? || ContentAt(after, a).Wiped?)
  }

  ghost predicate Enabled(s: State, step: Step) {
    var m := s.accounts;
    match step
    case CreateWallet(payer, seed, credential, ctx) => CanCreateWallet(m, payer, seed, credential, ctx)
    case AddAuthority(payer, wallet, admin, credential, role, ctx) =>
      CanAdd(m, payer, wallet, admin, credential, role, ctx)
    case RemoveAuthority(wallet, admin, target, refund, ctx) => CanRemove(m, wallet, admin, target, refund, ctx)
    case TransferOwnership(payer, wallet, admin, credential, refund, ctx) =>
      CanTransfer(m, payer, wallet, admin, credential, refund, ctx)
    case CreateSession(payer, wallet, admin, sessionKey, expiresAt, rules, ctx) =>
      CanCreateSession(m, s.slot, payer, wallet, admin, sessionKey, expiresAt, rules, ctx)
    case RevokeSession(payer, wallet, admin, session, refund, ctx) =>
      CanRevoke(m, payer, wallet, admin, session, refund, ctx)
    case Execute(wallet, admin, ctx) => CanExecute(m, wallet, admin, ctx)
    case ExecuteSession(wallet, session, flow, ctx) => CanExecuteSession(m, s.slot, wallet, session, flow, ctx)
    case Authorize(payer, wallet, admin, _, _, expiryOffset, ctx) =>
      CanAuthorize(m, s.slot, payer, wallet, admin, expiryOffset, ctx)
    case ExecuteDeferred(payer, wallet, record, refund, sha, presented, ctx) =>
      CanExecuteDeferred(m, s.slot, payer, wallet, record, refund, sha, presented, ctx)
    case ReclaimDeferred(payer, record, refund, ctx) => CanReclaim(m, s.slot, payer, record, refund, ctx)
    case Outside(after) => OutsideMay(m, after)
    case Reap(address) => At(m, address).lamports == 0
    case Tick(later) => later >= s.slot
  }

  ghost function Next(s: State, step: Step): State
    requires Enabled(s, step)
  {
    var m := s.accounts;
    match step
    case CreateWallet(payer, seed, credential, ctx) => State(DoCreateWallet(m, payer, seed, credential, ctx), s.slot)
    case AddAuthority(payer, wallet, admin, credential, role, ctx) =>
      State(DoAdd(m, payer, wallet, admin, credential, role, ctx), s.slot)
    case RemoveAuthority(wallet, admin, target, refund, ctx) =>
      State(DoRemove(m, wallet, admin, target, refund, ctx), s.slot)
    case TransferOwnership(payer, wallet, admin, credential, refund, ctx) =>
      State(DoTransfer(m, payer, wallet, admin, credential, refund, ctx), s.slot)
    case CreateSession(payer, wallet, admin, sessionKey, expiresAt, rules, ctx) =>
      State(DoCreateSession(m, s.slot, payer, wallet, admin, sessionKey, expiresAt, rules, ctx), s.slot)
    case RevokeSession(payer, wallet, admin, session, refund, ctx) =>
      State(DoRevoke(m, payer, wallet, admin, session, refund, ctx), s.slot)
    case Execute(wallet, admin, ctx) => State(Authenticated(m, admin), s.slot)
    case ExecuteSession(wallet, session, flow, ctx) =>
      State(DoExecuteSession(m, s.slot, wallet, session, flow, ctx), s.slot)
    case Authorize(payer, wallet, admin, instructionsHash, accountsHash, expiryOffset, ctx) =>
      State(DoAuthorize(m, s.slot, payer, wallet, admin, instructionsHash, accountsHash, expiryOffset, ctx), s.slot)
    case ExecuteDeferred(_, _, record, refund, _, _, _) => State(Close(m, record, refund), s.slot)
    case ReclaimDeferred(_, record, refund, _) => State(Close(m, record, refund), s.slot)
    case Outside(after) => State(after, s.slot)
    case Reap(address) => State(m[address := Account(0, Empty)], s.slot)
    case Tick(later) => State(m, later)
  }

  /** An instruction that fails changes nothing. */
  ghost function Try(s: State, step: Step): State {
    if Enabled(s, step) then Next(s, step) else s
  }

  ghost function Run(s: State, steps: seq<Step>): State {
    if steps == [] then s else Try(Run(s, steps[..|steps| - 1]), steps[|steps| - 1])
  }

  const GENESIS := State(map[], 0)

  // ---------------------------------------------------------------------
  // What a step does to one account

  lemma CreateEffect(m: Accounts, payer: Address, target: Address, rent: Rent, content: Content, ctx: Context,
                     a: Address)
    requires CanCreate(m, payer, target, rent, ctx)
    ensures var after := Create(m, payer, target, rent, content);
      && ContentAt(after, a) == (if a == target then content else ContentAt(m, a))
      && (a == target ==> At(after, a).lamports > 0)
      && (a != target && Owned(ContentAt(m, a)) ==> At(after, a).lamports == At(m, a).lamports)
  {
  }

  lemma CloseEffect(m: Accounts, target: Address, refund: Address, a: Address)
    requires CanClose(m, target, refund)
    ensures var after := Close(m, target, refund);
      && ContentAt(after, a) == (if a == target then Wiped else ContentAt(m, a))
      && (a != target ==> At(after, a).lamports >= At(m, a).lamports)
  {
  }

  lemma AuthenticatedEffect(m: Accounts, admin: Address, a: Address)
    requires ContentAt(m, admin).Authority?
    ensures var after := Authenticated(m, admin);
      && ContentAt(after, a) == (if a == admin then Stepped(ContentAt(m, a)) else ContentAt(m, a))
      && At(after, a).lamports == At(m, a).lamports
  {
  }

  /** What an address holds after an enabled step. */
  ghost function NewContent(s: State, step: Step, a: Address): Content
    requires Enabled(s, step)
  {
    var m := s.accounts;
    var was := ContentAt(m, a);
    match step
    case CreateWallet(_, seed, credential, _) =>
      if a == AuthorityPda(WalletPda(seed), IdSeed(credential)) then NewAuthority(credential, OWNER, WalletPda(seed))
      else if a == WalletPda(seed) then Wallet else was
    case AddAuthority(_, wallet, admin, credential, role, _) =>
      if a == AuthorityPda(wallet, IdSeed(credential)) then NewAuthority(credential, role, wallet)
      else if a == admin then Stepped(was) else was
    case RemoveAuthority(_, admin, target, _, _) =>
      if a == target then Wiped else if a == admin then Stepped(was) else was
    case TransferOwnership(_, wallet, admin, credential, _, _) =>
      if a == admin then Wiped
      else if a == AuthorityPda(wallet, IdSeed(credential)) then NewAuthority(credential, OWNER, wallet) else was
    case CreateSession(_, wallet, admin, sessionKey, expiresAt, rules, _) =>
      if a == SessionPda(wallet, sessionKey) then Session(wallet, sessionKey, expiresAt, rules)
      else if a == admin then Stepped(was) else was
    case RevokeSession(_, _, admin, session, _, _) =>
      if a == session then Wiped else if a == admin then Stepped(was) else was
    case Execute(_, admin, _) => if a == admin then Stepped(was) else was
    case ExecuteSession(_, session, flow, _) =>
      if a == session then was.(rules := SettleAll(was.rules, flow, s.slot)) else was
    case Authorize(payer, wallet, admin, instructionsHash, accountsHash, expiryOffset, _) =>
      if a == DeferredPda(wallet, admin, Stepped(ContentAt(m, admin)).counter)
      then DeferredFor(m, s.slot, payer, wallet, admin, instructionsHash, accountsHash, expiryOffset)
      else if a == admin then Stepped(was) else was
    case ExecuteDeferred(_, _, record, _, _, _, _) => if a == record then Wiped else was
    case ReclaimDeferred(_, record, _, _) => if a == record then Wiped else was
    case Outside(after) => ContentAt(after, a)
    case Reap(address) => if a == address then Empty else was
    case Tick(_) => was
  }

  predicate Live(c: Content) {
    !c.Empty? && !c.Wiped?
  }

  ghost predicate EffectAt(s: State, step: Step, a: Address)
    requires Enabled(s, step)
  {
    var after := Next(s, step).accounts;
    && ContentAt(after, a) == NewContent(s, step, a)
    && (Live(NewContent(s, step, a)) && (Live(ContentAt(s.accounts, a)) ==> At(s.accounts, a).lamports > 0)
        ==> At(after, a).lamports > 0)
  }

  lemma CreateWalletEffect(s: State, step: Step, a: Address)
    requires Enabled(s, step) && step.CreateWallet?
    ensures EffectAt(s, step, a)
  {
    var m := s.accounts;
    var wallet, owner := WalletPda(step.seed), NewAuthority(step.credential, OWNER, WalletPda(step.seed));
    assert CanCreate(m, step.payer, wallet, step.ctx.rent(8), step.ctx);
    var withWallet := Create(m, step.payer, wallet, step.ctx.rent(8), Wallet);
    hide At, Create, CanCreate;
    CreateEffect(m, step.payer, wallet, step.ctx.rent(8), Wallet, step.ctx, a);
    CreateEffect(withWallet, step.payer, AuthorityPda(wallet, IdSeed(step.credential)), step.ctx.rent(Space(owner)),
                 owner, step.ctx, a);
  }

  lemma AddEffect(s: State, step: Step, a: Address)
    requires Enabled(s, step) && step.AddAuthority?
    ensures EffectAt(s, step, a)
  {
    hide At, Create, CanCreate, Authenticated;
    var added := NewAuthority(step.credential, step.role, step.wallet);
    AuthenticatedEffect(s.accounts, step.admin, a);
    CreateEffect(Authenticated(s.accounts, step.admin), step.payer, AuthorityPda(step.wallet, IdSeed(step.credential)),
                 step.ctx.rent(Space(added)), added, step.ctx, a);
  }

  lemma TransferEffect(s: State, step: Step, a: Address)
    requires Enabled(s, step) && step.TransferOwnership?
    ensures EffectAt(s, step, a)
  {
    var owner := NewAuthority(step.credential, OWNER, step.wallet);
    var rent, target := step.ctx.rent(Space(owner)), AuthorityPda(step.wallet, IdSeed(step.credential));
    var entered := Authenticated(s.accounts, step.admin);
    assert CanCreate(entered, step.payer, target, rent, step.ctx);
    var created := Create(entered, step.payer, target, rent, owner);
    hide At, Create, CanCreate, Authenticated, Close, CanClose;
    AuthenticatedEffect(s.accounts, step.admin, a);
    CreateEffect(entered, step.payer, target, rent, owner, step.ctx, a);
    CloseEffect(created, step.admin, step.refund, a);
  }

  lemma CreateSessionEffect(s: State, step: Step, a: Address)
    requires Enabled(s, step) && step.CreateSession?
    ensures EffectAt(s, step, a)
  {
    hide At, Create, CanCreate, Authenticated;
    var session := Session(step.wallet, step.sessionKey, step.expiresAt, step.rules);
    AuthenticatedEffect(s.accounts, step.admin, a);
    CreateEffect(Authenticated(s.accounts, step.admin), step.payer, SessionPda(step.wallet, step.sessionKey),
                 step.ctx.rent(Space(session)), session, step.ctx, a);
  }

  lemma AuthorizeEffect(s: State, step: Step, a: Address)
    requires Enabled(s, step) && step.Authorize?
    ensures EffectAt(s, step, a)
  {
    hide At, Create, CanCreate, Authenticated;
    var m := s.accounts;
    AuthenticatedEffect(m, step.admin, a);
    CreateEffect(Authenticated(m, step.admin), step.payer,
                 DeferredPda(step.wallet, step.admin, Stepped(ContentAt(m, step.admin)).counter), step.ctx.rent(176),
                 DeferredFor(m, s.slot, step.payer, step.wallet, step.admin, step.instructionsHash, step.accountsHash,
                             step.expiryOffset),
                 step.ctx, a);
  }

  lemma ClosingEffect(s: State, step: Step, a: Address)
    requires Enabled(s, step)
      && (step.RemoveAuthority? || step.RevokeSession? || step.ExecuteDeferred? || step.ReclaimDeferred?)
    ensures EffectAt(s, step, a)
  {
    hide At, Close, CanClose, Authenticated;
    if step.RemoveAuthority? {
      AuthenticatedEffect(s.accounts, step.admin, a);
      CloseEffect(Authenticated(s.accounts, step.admin), step.target, step.refund, a);
    } else if step.RevokeSession? {
      AuthenticatedEffect(s.accounts, step.admin, a);
      CloseEffect(Authenticated(s.accounts, step.admin), step.session, step.refund, a);
    } else {
      CloseEffect(s.accounts, step.record, step.refund, a);
    }
  }

  /** Steps act as `NewContent` says, and leave live accounts with lamports. */
  lemma StepEffect(s: State, step: Step, a: Address)
    requires Enabled(s, step)
    ensures EffectAt(s, step, a)
  {
    if step.CreateWallet? { CreateWalletEffect(s, step, a); }
    else if step.AddAuthority? { AddEffect(s, step, a); }
    else if step.TransferOwnership? { TransferEffect(s, step, a); }
    else if step.CreateSession? { CreateSessionEffect(s, step, a); }
    else if step.Authorize? { AuthorizeEffect(s, step, a); }
    else if step.RemoveAuthority? || step.RevokeSession? || step.ExecuteDeferred? || step.ReclaimDeferred? {
      ClosingEffect(s, step, a);
    }
    else if step.ExecuteSession? {
      SessionEffect(s.accounts, s.slot, step.wallet, step.session, step.flow, step.ctx, a);
    }
    else if step.Execute? { AuthenticatedEffect(s.accounts, step.admin, a); }
    else if step.Reap? { ReapEffect(s.accounts, step.address, a); }
  }

  lemma SessionEffect(m: Accounts, slot: u64, wallet: Address, session: Address, flow: Flow, ctx: Context, a: Address)
    requires CanExecuteSession(m, slot, wallet, session, flow, ctx)
    ensures var after := DoExecuteSession(m, slot, wallet, session, flow, ctx);
      && ContentAt(after, a) == (
         if a == session then ContentAt(m, a).(rules := SettleAll(ContentAt(m, a).rules, flow, slot))
         else ContentAt(m, a))
      && At(after, a).lamports == At(m, a).lamports
  {
  }

  lemma ReapEffect(m: Accounts, address: Address, a: Address)
    ensures At(m[address := Account(0, Empty)], a) == if a == address then Account(0, Empty) else At(m, a)
  {
  }

  // ---------------------------------------------------------------------
  // What every reachable state satisfies

  /** Typed accounts live at the address derived from their own fields, with a
      known role. A deferred record was paid for by a key and ends within the
      longest window. */
  predicate Placed(c: Content, a: Address, slot: u64) {
    match c
    case Empty => true
    case Wiped => true
    case Wallet => a.WalletPda?
    case Authority(credential, role, _, wallet) => a == AuthorityPda(wallet, IdSeed(credential)) && role <= SPENDER
    case Session(wallet, sessionKey, _, rules) => a == SessionPda(wallet, sessionKey) && Windowed(rules)
    case Deferred(_, _, wallet, authority, payer, expiresAt) =>
      a.DeferredPda? && a.wallet == wallet && a.authority == authority && payer.Key?
        && expiresAt <= slot + MAX_EXPIRY_SLOTS as int
  }

  predicate WalletBacked(m: Accounts, c: Content) {
    c.Authority? || c.Session? ==> ContentAt(m, c.wallet).Wallet?
  }

  /** An account in its place, with the lamports to stay alive, of a wallet that exists. */
  predicate Sound(s: State, a: Address) {
    var c := ContentAt(s.accounts, a);
    && (Live(c) ==> At(s.accounts, a).lamports > 0)
    && Placed(c, a, s.slot)
    && WalletBacked(s.accounts, c)
  }

  predicate IsOwnerContent(c: Content, wallet: Address) {
    c.Authority? && c.wallet == wallet && c.role == OWNER
  }

  predicate IsOwner(m: Accounts, wallet: Address, a: Address) {
    IsOwnerContent(ContentAt(m, a), wallet)
  }

  ghost predicate HasOwner(m: Accounts, wallet: Address) {
    exists a :: IsOwner(m, wallet, a)
  }

  ghost predicate Good(s: State) {
    && (forall a :: Sound(s, a))
    && (forall wallet :: ContentAt(s.accounts, wallet).Wallet? ==> HasOwner(s.accounts, wallet))
  }

  // ---------------------------------------------------------------------
  // The ways in which a step changes one account

  ghost predicate Authorizes(s: State, step: Step, d: Address) {
    Enabled(s, step) && step.Authorize?
    && d == DeferredPda(step.wallet, step.admin, Stepped(ContentAt(s.accounts, step.admin)).counter)
  }

  ghost predicate Consumes(s: State, step: Step, d: Address) {
    Enabled(s, step) && (step.ExecuteDeferred? || step.ReclaimDeferred?) && step.record == d
  }

  /** The step may close the account: it is of the step's own kind, in the role
      and slot range it is meant for. */
  predicate ClosedBy(s: State, step: Step, a: Address) {
    var c := ContentAt(s.accounts, a);
    || (step.RemoveAuthority? && c.Authority? && c.role != OWNER && a == step.target)
    || (step.TransferOwnership? && c.Authority? && c.role == OWNER && a == step.admin)
    || (step.RevokeSession? && c.Session? && a == step.session)
    || (step.ExecuteDeferred? && c.Deferred? && a == step.record && s.slot <= c.expiresAt)
    || (step.ReclaimDeferred? && c.Deferred? && a == step.record && s.slot > c.expiresAt)
  }

  /** The step keeps the account, but for its counter or the spending of a session. */
  predicate Continues(was: Content, now: Content) {
    || now == was
    || (was.Authority? && now == Stepped(was))
    || (was.Session? && now.Session? && now == was.(rules := now.rules) && Windowed(now.rules))
  }

  /** Every change of an account is one of these: it is kept, made in its place
      where nothing lived, closed, reaped without lamports, or changed from outside. */
  ghost predicate Changes(s: State, step: Step, a: Address, now: Content) {
    var was := ContentAt(s.accounts, a);
    || (Continues(was, now) && !Authorizes(s, step, a) && !Consumes(s, step, a))
    || (was.Empty? && Live(now) && Placed(now, a, s.slot) && (now.Deferred? <==> Authorizes(s, step, a))
        && !Consumes(s, step, a))
    || (now == Wiped && ClosedBy(s, step, a) && !Authorizes(s, step, a) && (was.Deferred? <==> Consumes(s, step, a)))
    || (step.Reap? && now.Empty? && At(s.accounts, a).lamports == 0)
    || (step.Outside? && (Owned(was) ==> now == was) && (!Owned(was) ==> !Live(now)))
  }

  lemma WalletChanges(s: State, step: Step, a: Address)
    requires Enabled(s, step) && step.CreateWallet?
    ensures Changes(s, step, a, NewContent(s, step, a))
  {
    CreateEffect(s.accounts, step.payer, WalletPda(step.seed), step.ctx.rent(8), Wallet, step.ctx, a);
    hide At, Create, Windowed, ClosedBy;
  }

  lemma AddingChanges(s: State, step: Step, a: Address)
    requires Enabled(s, step) && (step.AddAuthority? || step.TransferOwnership?)
    ensures Changes(s, step, a, NewContent(s, step, a))
  {
    AuthenticatedEffect(s.accounts, step.admin, a);
    hide At, Create, Close, CanClose, Authenticated, Authenticates, Windowed;
  }

  lemma SessionChanges(s: State, step: Step, a: Address)
    requires Enabled(s, step) && step.CreateSession?
    ensures Changes(s, step, a, NewContent(s, step, a))
  {
    AuthenticatedEffect(s.accounts, step.admin, a);
    Sessions.AdmissibleIsWindowed(step.rules);
    hide At, Create, Authenticated, Authenticates, Admissible, Windowed, ClosedBy;
  }

  lemma RecordChanges(s: State, step: Step, a: Address)
    requires Enabled(s, step) && step.Authorize?
    ensures Changes(s, step, a, NewContent(s, step, a))
  {
    AuthenticatedEffect(s.accounts, step.admin, a);
    hide At, Create, Authenticated, Authenticates, Windowed, ClosedBy;
  }

  lemma ClosingChanges(s: State, step: Step, a: Address)
    requires Enabled(s, step)
    requires step.RemoveAuthority? || step.RevokeSession? || step.ExecuteDeferred? || step.ReclaimDeferred?
    ensures Changes(s, step, a, NewContent(s, step, a))
  {
    hide At, Create, CanCreate, Close, CanClose, Authenticated, Authenticates, Windowed, Placed, Fulfils;
  }

  lemma OtherChanges(s: State, step: Step, a: Address)
    requires Enabled(s, step)
    requires step.Execute? || step.ExecuteSession? || step.Outside? || step.Reap? || step.Tick?
    ensures Changes(s, step, a, NewContent(s, step, a))
  {
    hide At, Authenticates, Accepts, Placed, ClosedBy;
  }

  /** No step changes an account in any other way. */
  lemma StepChanges(s: State, step: Step, a: Address)
    requires Enabled(s, step)
    ensures Changes(s, step, a, ContentAt(Next(s, step).accounts, a))
    ensures ContentAt(Next(s, step).accounts, a) == NewContent(s, step, a)
  {
    StepEffect(s, step, a);
    hide *;
    if step.CreateWallet? { WalletChanges(s, step, a); }
    else if step.AddAuthority? || step.TransferOwnership? { AddingChanges(s, step, a); }
    else if step.CreateSession? { SessionChanges(s, step, a); }
    else if step.Authorize? { RecordChanges(s, step, a); }
    else if step.RemoveAuthority? || step.RevokeSession? || step.ExecuteDeferred? || step.ReclaimDeferred? {
      ClosingChanges(s, step, a);
    }
    else { OtherChanges(s, step, a); }
  }

  /** A wallet is never closed. */
  lemma WalletsStay(s: State, step: Step, wallet: Address)
    requires Enabled(s, step) && Sound(s, wallet) && ContentAt(s.accounts, wallet).Wallet?
    ensures ContentAt(Next(s, step).accounts, wallet).Wallet?
  {
    StepChanges(s, step, wallet);
    hide Next, Enabled, NewContent, ContentAt, At, Placed;
  }

  lemma SlotsGrow(s: State, step: Step)
    requires Enabled(s, step)
    ensures s.slot <= Next(s, step).slot
  {
  }

  lemma PlacedKept(s: State, step: Step, a: Address)
    requires Enabled(s, step) && Placed(ContentAt(s.accounts, a), a, s.slot)
    ensures Placed(NewContent(s, step, a), a, Next(s, step).slot)
  {
    SlotsGrow(s, step);
    StepChanges(s, step, a);
    hide Next, Enabled, NewContent, ContentAt, At, Windowed, ClosedBy, Authorizes, Consumes;
  }

  /** Where the wallet of a new authority or session comes from. */
  lemma WalletBefore(s: State, step: Step, a: Address)
    requires Enabled(s, step) && WalletBacked(s.accounts, ContentAt(s.accounts, a))
    requires NewContent(s, step, a).Authority? || NewContent(s, step, a).Session?
    ensures var wallet := NewContent(s, step, a).wallet;
      ContentAt(s.accounts, wallet).Wallet? || (step.CreateWallet? && wallet == WalletPda(step.seed))
  {
    hide At, CanCreate, Create, CanClose, Close, Accepts, Admissible, Authenticates;
  }

  lemma WalletThere(s: State, step: Step, a: Address)
    requires Good(s) && Enabled(s, step)
    ensures WalletBacked(Next(s, step).accounts, NewContent(s, step, a))
  {
    assert Sound(s, a);
    var c := NewContent(s, step, a);
    if c.Authority? || c.Session? {
      WalletBefore(s, step, a);
      assert Sound(s, c.wallet);
      StepEffect(s, step, c.wallet);
      hide At, Next, Enabled, Good, Sound, NewContent;
      if ContentAt(s.accounts, c.wallet).Wallet? {
        WalletsStay(s, step, c.wallet);
      } else {
        WalletMade(s, step);
      }
    }
  }

  lemma WalletMade(s: State, step: Step)
    requires Enabled(s, step) && step.CreateWallet?
    ensures NewContent(s, step, WalletPda(step.seed)).Wallet?
    ensures IsOwnerContent(NewContent(s, step, AuthorityPda(WalletPda(step.seed), IdSeed(step.credential))),
                           WalletPda(step.seed))
  {
  }

  lemma SoundKept(s: State, step: Step, a: Address)
    requires Good(s) && Enabled(s, step)
    ensures Sound(Next(s, step), a)
  {
    assert Sound(s, a);
    StepEffect(s, step, a);
    PlacedKept(s, step, a);
    WalletThere(s, step, a);
    hide At, ContentAt, Next, NewContent, Good, Placed, Enabled, WalletBacked;
  }

  // ---------------------------------------------------------------------
  // Owners

  /** An owner stays one in every step but the transfer that it signs itself. */
  lemma OwnerStays(s: State, step: Step, wallet: Address, a: Address)
    requires Enabled(s, step) && Sound(s, a) && IsOwner(s.accounts, wallet, a)
    requires !(step.TransferOwnership? && step.admin == a)
    ensures IsOwner(Next(s, step).accounts, wallet, a)
  {
    StepChanges(s, step, a);
    hide Next, Enabled, NewContent, ContentAt, At, Placed, Authorizes, Consumes;
  }

  /** The transfer makes its new authority an owner, at an address that held nothing. */
  lemma TransferMakesOwner(s: State, step: Step)
    requires Enabled(s, step) && step.TransferOwnership?
    ensures var target := AuthorityPda(step.wallet, IdSeed(step.credential));
      && IsOwner(s.accounts, step.wallet, step.admin) && ContentAt(s.accounts, target).Empty?
      && IsOwner(Next(s, step).accounts, step.wallet, target)
  {
    var target := AuthorityPda(step.wallet, IdSeed(step.credential));
    StepEffect(s, step, target);
    AuthenticatedEffect(s.accounts, step.admin, target);
    hide Next, Create, CanClose, Close, Authenticated;
  }

  lemma OwnerKept(s: State, step: Step, wallet: Address)
    requires Good(s) && Enabled(s, step) && ContentAt(Next(s, step).accounts, wallet).Wallet?
    ensures HasOwner(Next(s, step).accounts, wallet)
  {
    StepEffect(s, step, wallet);
    if step.CreateWallet? && wallet == WalletPda(step.seed) {
      WalletMade(s, step);
      StepEffect(s, step, AuthorityPda(wallet, IdSeed(step.credential)));
      assert IsOwner(Next(s, step).accounts, wallet, AuthorityPda(wallet, IdSeed(step.credential)));
    } else {
      OldWallet(s, step, wallet);
      var a :| IsOwner(s.accounts, wallet, a);
      assert Sound(s, a);
      hide At, ContentAt, Next, NewContent, Good, Sound;
      if step.TransferOwnership? && step.admin == a {
        TransferMakesOwner(s, step);
        assert IsOwner(Next(s, step).accounts, wallet, AuthorityPda(step.wallet, IdSeed(step.credential)));
      } else {
        OwnerStays(s, step, wallet, a);
      }
    }
  }

  lemma OldWallet(s: State, step: Step, wallet: Address)
    requires Enabled(s, step) && NewContent(s, step, wallet).Wallet?
      && !(step.CreateWallet? && wallet == WalletPda(step.seed))
    ensures ContentAt(s.accounts, wallet).Wallet?
  {
    hide At, CanCreate, Create, CanClose, Close, Accepts, Admissible, Authenticates;
  }

  /** Every step keeps the invariant. */
  lemma GoodKept(s: State, step: Step)
    requires Good(s) && Enabled(s, step)
    ensures Good(Next(s, step))
  {
    forall a ensures Sound(Next(s, step), a) { SoundKept(s, step, a); }
    forall wallet | ContentAt(Next(s, step).accounts, wallet).Wallet? ensures HasOwner(Next(s, step).accounts, wallet) {
      OwnerKept(s, step, wallet);
    }
    hide At, ContentAt, Next, Enabled, Sound, HasOwner;
  }

  lemma GenesisGood()
    ensures Good(GENESIS)
  {
  }

  /** In every reachable state every wallet has an owner, every role is 0, 1 or 2,
      and every account is in its place. */
  lemma {:induction false} RunGood(s: State, steps: seq<Step>)
    requires Good(s)
    ensures Good(Run(s, steps))
  {
    if steps == [] {
    } else {
      var before := Run(s, steps[..|steps| - 1]);
      RunGood(s, steps[..|steps| - 1]);
      hide Good, Enabled, Next;
      if Enabled(before, steps[|steps| - 1]) { GoodKept(before, steps[|steps| - 1]); }
    }
  }
}
