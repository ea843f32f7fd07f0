/** Safety over every run of the wallet program: owners are never lost, nobody
    but an owner changes who owns or administers a wallet, and a deferred
    authorisation is consumed at most once and in time. */
module LedgerSafety {
  import opened Bytes
  import opened Prelude
  import opened Validation
  import opened Limits
  import opened Compact
  import opened Binding
  import opened Ledger
  import opened LedgerRuns

  // ---------------------------------------------------------------------
  // Counting owners

  ghost function OwnerSet(m: Accounts, wallet: Address): set<Address> {
    set a | a in m && IsOwner(m, wallet, a)
  }

  lemma InOwnerSet(m: Accounts, wallet: Address, a: Address)
    ensures a in OwnerSet(m, wallet) <==> IsOwner(m, wallet, a)
  {
  }

  lemma {:induction false} SubsetSize<T>(a: set<T>, b: set<T>)
    requires a <= b
    ensures |a| <= |b|
  {
    if a == {} {
    } else {
      var x :| x in a;
      SubsetSize(a - {x}, b - {x});
    }
  }

  /** No step lowers the number of owners of any wallet. */
  lemma OwnersNeverFewer(s: State, step: Step, wallet: Address)
    requires Good(s) && Enabled(s, step)
    ensures |OwnerSet(Next(s, step).accounts, wallet)| >= |OwnerSet(s.accounts, wallet)|
  {
    var before, after := OwnerSet(s.accounts, wallet), OwnerSet(Next(s, step).accounts, wallet);
    forall a ensures a in before <==> IsOwner(s.accounts, wallet, a) { InOwnerSet(s.accounts, wallet, a); }
    forall a ensures a in after <==> IsOwner(Next(s, step).accounts, wallet, a) {
      InOwnerSet(Next(s, step).accounts, wallet, a);
    }
    forall a | a in before && !(step.TransferOwnership? && step.admin == a) ensures a in after {
      assert Sound(s, a);
      OwnerStays(s, step, wallet, a);
    }
    if step.TransferOwnership? && step.admin in before {
      TransferMakesOwner(s, step);
      var target := AuthorityPda(step.wallet, IdSeed(step.credential));
      assert IsOwner(s.accounts, wallet, step.admin);
      hide Good, Enabled, Next, OwnerSet, ContentAt;
      assert target !in before && target in after;
      assert before - {step.admin} + {target} <= after;
      SubsetSize(before - {step.admin} + {target}, after);
      assert |before - {step.admin} + {target}| == |before|;
    } else {
      SubsetSize(before, after);
    }
  }

  /** Over a run the number of owners of a wallet never falls. */
  lemma {:induction false} OwnersNeverFewerOverRuns(s: State, steps: seq<Step>, wallet: Address)
    requires Good(s)
    ensures |OwnerSet(Run(s, steps).accounts, wallet)| >= |OwnerSet(s.accounts, wallet)|
  {
    if steps == [] {
    } else {
      var n := |steps| - 1;
      OwnersNeverFewerOverRuns(s, steps[..n], wallet);
      RunGood(s, steps[..n]);
      var before := Run(s, steps[..n]);
      hide Good, Enabled, Next, OwnerSet;
      if Enabled(before, steps[n]) { OwnersNeverFewer(before, steps[n], wallet); }
    }
  }

  // ---------------------------------------------------------------------
  // Who owns and administers a wallet

  /** The credential and role of an owner or admin of the wallet. */
  function Senior(c: Content, wallet: Address): Option<(Credential, byte)> {
    if c.Authority? && c.wallet == wallet && c.role <= ADMIN then Some((c.credential, c.role)) else None
  }

  predicate HasAdmin(step: Step) {
    step.AddAuthority? || step.RemoveAuthority? || step.TransferOwnership? || step.CreateSession? || step.RevokeSession?
    || step.Execute? || step.Authorize?
  }

  /** The step is one that an owner of the wallet authenticates, by a signature of
      its key or by its passkey. */
  predicate OwnerActs(s: State, step: Step, wallet: Address) {
    && HasAdmin(step) && IsOwner(s.accounts, wallet, step.admin)
    && match ContentAt(s.accounts, step.admin).credential
       case Ed25519(key) => key in step.ctx.signers
       case Passkey(_, _, _) => step.ctx.passkey.Ok?
  }

  /** A step that no owner of the wallet authenticates leaves its owners and
      admins as they are, apart from their counters. */
  lemma SeniorsKept(s: State, step: Step, wallet: Address, a: Address)
    requires Good(s) && Enabled(s, step) && !OwnerActs(s, step, wallet)
    requires ContentAt(s.accounts, wallet).Wallet?
    ensures Senior(ContentAt(Next(s, step).accounts, a), wallet) == Senior(ContentAt(s.accounts, a), wallet)
  {
    StepEffect(s, step, a);
    assert Sound(s, a);
    hide Next, Good;
    if step.TransferOwnership? {
      TransferMakesOwner(s, step);
    } else {
      SeniorContent(s, step, wallet, a);
    }
  }

  lemma SeniorContent(s: State, step: Step, wallet: Address, a: Address)
    requires Enabled(s, step) && !OwnerActs(s, step, wallet) && Sound(s, a) && !step.TransferOwnership?
    requires ContentAt(s.accounts, wallet).Wallet?
    ensures Senior(NewContent(s, step, a), wallet) == Senior(ContentAt(s.accounts, a), wallet)
  {
    if HasAdmin(step) { CreatedEmpty(s, step, a); }
    hide CanClose, Close, Create, Accepts, Admissible, Authenticates, Placed, WalletBacked;
  }

  /** Steps that create an account do so where nothing lives. */
  lemma CreatedEmpty(s: State, step: Step, a: Address)
    requires Enabled(s, step) && HasAdmin(step)
    ensures step.AddAuthority? && a == AuthorityPda(step.wallet, IdSeed(step.credential)) ==>
      ContentAt(s.accounts, a).Empty?
    ensures step.CreateSession? && a == SessionPda(step.wallet, step.sessionKey) ==> ContentAt(s.accounts, a).Empty?
    ensures Authorizes(s, step, a) ==> ContentAt(s.accounts, a).Empty?
  {
    AuthenticatedEffect(s.accounts, step.admin, a);
    hide Close, Create, CanClose, Authenticated, Accepts, Admissible;
  }

  /** No owner of the wallet authenticates anything in the run. */
  ghost predicate NoOwnerActs(s: State, steps: seq<Step>, wallet: Address) {
    steps == [] || (
      var before, step := Run(s, steps[..|steps| - 1]), steps[|steps| - 1];
      NoOwnerActs(s, steps[..|steps| - 1], wallet) && (Enabled(before, step) ==> !OwnerActs(before, step, wallet)))
  }

  /** Without an owner of the wallet, no run changes its owners and admins, nor
      does it add or remove one. Steps of other wallets are no exception. */
  lemma {:induction false} SeniorsKeptOverRuns(s: State, steps: seq<Step>, wallet: Address, a: Address)
    requires Good(s) && ContentAt(s.accounts, wallet).Wallet? && NoOwnerActs(s, steps, wallet)
    ensures ContentAt(Run(s, steps).accounts, wallet).Wallet?
    ensures Senior(ContentAt(Run(s, steps).accounts, a), wallet) == Senior(ContentAt(s.accounts, a), wallet)
  {
    if steps == [] {
    } else {
      var n := |steps| - 1;
      SeniorsKeptOverRuns(s, steps[..n], wallet, a);
      RunGood(s, steps[..n]);
      var before := Run(s, steps[..n]);
      if Enabled(before, steps[n]) {
        assert Sound(before, wallet);
        hide Good, Enabled, Next, Sound, Senior, ContentAt, OwnerActs;
        WalletsStay(before, steps[n], wallet);
        SeniorsKept(before, steps[n], wallet, a);
      }
    }
  }

  // ---------------------------------------------------------------------
  // The life of a deferred authorisation

  function Pending(s: State, d: Address): nat {
    if ContentAt(s.accounts, d).Deferred? then 1 else 0
  }

  function One(b: bool): nat {
    if b then 1 else 0
  }

  lemma RecordContent(s: State, step: Step, d: Address)
    requires Enabled(s, step) && Sound(s, d)
    ensures Authorizes(s, step, d) ==> ContentAt(s.accounts, d).Empty? && NewContent(s, step, d).Deferred?
    ensures Consumes(s, step, d) ==> ContentAt(s.accounts, d).Deferred? && !NewContent(s, step, d).Deferred?
    ensures !Authorizes(s, step, d) && !Consumes(s, step, d) ==> (
      && (NewContent(s, step, d).Deferred? <==> ContentAt(s.accounts, d).Deferred?)
      && (ContentAt(s.accounts, d).Deferred? ==> NewContent(s, step, d) == ContentAt(s.accounts, d)))
  {
    StepChanges(s, step, d);
    ContinuesRecord(ContentAt(s.accounts, d), NewContent(s, step, d));
    hide Next, Enabled, NewContent, ContentAt, At, Placed, Authorizes, Consumes, ClosedBy, Continues;
  }

  lemma ContinuesRecord(was: Content, now: Content)
    ensures Continues(was, now) ==> (now.Deferred? <==> was.Deferred?) && (was.Deferred? ==> now == was)
  {
    hide Windowed;
  }

  /** A record appears exactly when it is authorised and goes exactly when it is
      consumed; in between it does not change. */
  lemma RecordStep(s: State, step: Step, d: Address)
    requires Good(s) && Enabled(s, step)
    ensures Pending(Next(s, step), d) == Pending(s, d) + One(Authorizes(s, step, d)) - One(Consumes(s, step, d))
    ensures Pending(s, d) == 1 && !Consumes(s, step, d) ==>
      ContentAt(Next(s, step).accounts, d) == ContentAt(s.accounts, d)
  {
    StepEffect(s, step, d);
    assert Sound(s, d);
    RecordContent(s, step, d);
    hide Next, NewContent, Good, Sound, Enabled, ContentAt, Authorizes, Consumes;
    assert !(Authorizes(s, step, d) && Consumes(s, step, d));
  }

  ghost function Authorizations(s: State, steps: seq<Step>, d: Address): nat {
    if steps == [] then 0
    else
      var n := |steps| - 1;
      Authorizations(s, steps[..n], d) + One(Authorizes(Run(s, steps[..n]), steps[n], d))
  }

  ghost function Consumptions(s: State, steps: seq<Step>, d: Address): nat {
    if steps == [] then 0
    else
      var n := |steps| - 1;
      Consumptions(s, steps[..n], d) + One(Consumes(Run(s, steps[..n]), steps[n], d))
  }

  /** Over every run, authorisations and consumptions of an address balance: what
      is authorised is consumed or still pending. */
  lemma {:induction false} RecordsBalance(s: State, steps: seq<Step>, d: Address)
    requires Good(s)
    ensures Pending(s, d) + Authorizations(s, steps, d) == Consumptions(s, steps, d) + Pending(Run(s, steps), d)
  {
    if steps == [] {
    } else {
      var n := |steps| - 1;
      RecordsBalance(s, steps[..n], d);
      RunGood(s, steps[..n]);
      var before := Run(s, steps[..n]);
      Unenabled(before, steps[n], d);
      hide Good, Enabled, Next, Pending, Authorizes, Consumes;
      if Enabled(before, steps[n]) { RecordStep(before, steps[n], d); }
    }
  }

  lemma Unenabled(s: State, step: Step, d: Address)
    ensures !Enabled(s, step) ==> !Authorizes(s, step, d) && !Consumes(s, step, d)
  {
  }

  /** From the start of the chain, an address is consumed at most as often as it
      was authorised, and never authorised twice without being consumed between. */
  lemma ConsumedAtMostOnceEach(steps: seq<Step>, d: Address)
    ensures Consumptions(GENESIS, steps, d) <= Authorizations(GENESIS, steps, d) <= Consumptions(GENESIS, steps, d) + 1
  {
    GenesisGood();
    RecordsBalance(GENESIS, steps, d);
  }

  /** A record that is not consumed stays as it was authorised, and time only
      moves on. */
  lemma {:induction false} RecordWaits(s: State, steps: seq<Step>, d: Address)
    requires Good(s) && Pending(s, d) == 1 && Consumptions(s, steps, d) == 0
    ensures ContentAt(Run(s, steps).accounts, d) == ContentAt(s.accounts, d) && Run(s, steps).slot >= s.slot
  {
    if steps == [] {
    } else {
      var n := |steps| - 1;
      RecordWaits(s, steps[..n], d);
      RunGood(s, steps[..n]);
      var before := Run(s, steps[..n]);
      assert Pending(before, d) == 1;
      hide Good, Enabled, Next, Pending, Authorizes, Consumes, ContentAt;
      if Enabled(before, steps[n]) {
        RecordStep(before, steps[n], d);
        SlotsGrow(before, steps[n]);
      }
    }
  }

  /** An authorisation is executed no later than 9000 slots after it was given,
      with the hashes and the payer it was given with. */
  lemma ExecutedInTime(s: State, grant: Step, steps: seq<Step>, use: Step, d: Address)
    requires Good(s) && Authorizes(s, grant, d)
    requires var granted := Next(s, grant); Consumptions(granted, steps, d) == 0
    requires var later := Run(Next(s, grant), steps); Enabled(later, use) && use.ExecuteDeferred? && use.record == d
    ensures var later := Run(Next(s, grant), steps);
      && ContentAt(later.accounts, d) == Deferred(grant.instructionsHash, grant.accountsHash, grant.wallet, grant.admin,
                                                  grant.payer, s.slot + grant.expiryOffset)
      && s.slot <= later.slot <= s.slot + grant.expiryOffset <= s.slot + MAX_EXPIRY_SLOTS as int
      && use.refund == grant.payer
  {
    var granted := Next(s, grant);
    GoodKept(s, grant);
    RecordStep(s, grant, d);
    StepEffect(s, grant, d);
    AuthorizedContent(s, grant, d);
    SlotKept(s, grant);
    RecordWaits(granted, steps, d);
    UseNeeds(Run(granted, steps), use, d);
    hide Good, Enabled, Next, Run, NewContent, Authorizes, Consumes, ContentAt;
  }

  lemma AuthorizedContent(s: State, step: Step, d: Address)
    requires Authorizes(s, step, d)
    ensures NewContent(s, step, d) == Deferred(step.instructionsHash, step.accountsHash, step.wallet, step.admin,
                                               step.payer, s.slot + step.expiryOffset)
    ensures step.expiryOffset <= MAX_EXPIRY_SLOTS
  {
  }

  lemma SlotKept(s: State, step: Step)
    requires Enabled(s, step) && !step.Tick?
    ensures Next(s, step).slot == s.slot
  {
  }

  lemma UseNeeds(s: State, use: Step, d: Address)
    requires Enabled(s, use) && use.ExecuteDeferred? && use.record == d
    ensures var c := ContentAt(s.accounts, d); c.Deferred? && s.slot <= c.expiresAt && use.refund == c.payer
  {
  }

  /** What a consumed record lets run, however long after it was authorised and
      whoever presents it: the instructions it was authorised for, short of a hash
      collision. */
  lemma OnlyTheGrantedRuns(s: State, grant: Step, steps: seq<Step>, use: Step, d: Address,
                           authorised: seq<CompactInstruction>, listed: seq<AccountInfo>, ixs: seq<CompactInstruction>)
    requires Good(s) && Authorizes(s, grant, d)
    requires var granted := Next(s, grant); Consumptions(granted, steps, d) == 0
    requires var later := Run(Next(s, grant), steps); Enabled(later, use) && use.ExecuteDeferred? && use.record == d
    requires Parseable(authorised) && AllInRange(authorised, |listed|)
    requires grant.instructionsHash == use.sha(Serialize(authorised))
    requires grant.accountsHash == use.sha(KeyBytes(ResolveAll(authorised, listed)))
    requires Encodes(use.presented.data, ixs)
    ensures AllInRange(ixs, |use.presented.accounts|)
    ensures SameOrCollide(use.sha, authorised, listed, ixs, use.presented.accounts)
  {
    ExecutedInTime(s, grant, steps, use, d);
    var c := ContentAt(Run(Next(s, grant), steps).accounts, d);
    UseFulfils(Run(Next(s, grant), steps), use, d);
    hide *;
    var ran :| Presents(use.sha, use.presented.data, use.presented.accounts, c.instructionsHash, c.accountsHash, ran);
    PresentedIs(use, c, ran, ixs);
    OnlyTheAuthorised(use.sha, authorised, listed, use.presented.data, use.presented.accounts, ixs);
  }

  lemma UseFulfils(s: State, use: Step, d: Address)
    requires Enabled(s, use) && use.ExecuteDeferred? && use.record == d
    ensures var c := ContentAt(s.accounts, d); c.Deferred? && exists ixs ::
      Presents(use.sha, use.presented.data, use.presented.accounts, c.instructionsHash, c.accountsHash, ixs)
  {
    hide Presents, ContentAt;
  }

  lemma PresentedIs(use: Step, c: Content, ran: seq<CompactInstruction>, ixs: seq<CompactInstruction>)
    requires use.ExecuteDeferred? && c.Deferred? && Encodes(use.presented.data, ixs)
    requires Presents(use.sha, use.presented.data, use.presented.accounts, c.instructionsHash, c.accountsHash, ran)
    ensures ran == ixs && AllInRange(ixs, |use.presented.accounts|)
  {
    assert Encodes(use.presented.data, ran) && AllInRange(ran, |use.presented.accounts|);
    hide *;
    UniqueDecoding(use.presented.data, ran, ixs);
  }

  /** Corollary of the two guards: for a record and all else in order, exactly one
      way out is open at any slot. */
  lemma OneWayOut(m: Accounts, slot: u64, wallet: Address, record: Address, payer: Address, sha: Hash, p: Presented,
                  ctx: Context)
    requires ContentAt(m, record).Deferred? && ContentAt(m, record).payer == payer && Signs(payer, ctx)
      && CanClose(m, record, payer)
    requires ContentAt(m, wallet).Wallet? && ContentAt(m, record).wallet == wallet
      && Fulfils(sha, p, ContentAt(m, record))
    ensures CanExecuteDeferred(m, slot, payer, wallet, record, payer, sha, p, ctx) <==>
      slot <= ContentAt(m, record).expiresAt
    ensures CanReclaim(m, slot, payer, record, payer, ctx)
      <==> !CanExecuteDeferred(m, slot, payer, wallet, record, payer, sha, p, ctx)
  {
    hide Fulfils;
  }

  /** An authority to be removed and a session to be revoked name their wallet: what
      is signed for the one account is good for one wallet only, at any time. */
  lemma TargetNamesWallet(s: State, s': State, target: Address, wallet: Address, admin: Address, refund: Address,
                          ctx: Context, wallet': Address, admin': Address, refund': Address, ctx': Context)
    requires Good(s) && Good(s')
    requires CanRemove(s.accounts, wallet, admin, target, refund, ctx)
      || exists payer :: CanRevoke(s.accounts, payer, wallet, admin, target, refund, ctx)
    requires CanRemove(s'.accounts, wallet', admin', target, refund', ctx')
      || exists payer :: CanRevoke(s'.accounts, payer, wallet', admin', target, refund', ctx')
    ensures wallet == wallet'
  {
    TargetOfWallet(s, target, wallet, admin, refund, ctx);
    TargetOfWallet(s', target, wallet', admin', refund', ctx');
  }

  lemma TargetOfWallet(s: State, target: Address, wallet: Address, admin: Address, refund: Address, ctx: Context)
    requires Good(s)
    requires CanRemove(s.accounts, wallet, admin, target, refund, ctx)
      || exists payer :: CanRevoke(s.accounts, payer, wallet, admin, target, refund, ctx)
    ensures (target.AuthorityPda? || target.SessionPda?) && target.wallet == wallet
  {
    assert Sound(s, target);
    hide Authenticates, CanClose, Authenticated, Good, WalletBacked, At;
  }
}
