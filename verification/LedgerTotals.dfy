/** Lamports: what every instruction moves it moves in full, with one exception
    that the reclaim handler leaves open. */
module LedgerTotals {
  import opened Bytes
  import opened Ledger
  import opened LedgerRuns

  ghost function SumOver(m: Accounts, s: set<Address>): nat
    decreases |s|
  {
    if s == {} then 0
    else
      var a :| a in s;
      At(m, a).lamports + SumOver(m, s - {a})
  }

  /** All lamports of all accounts. */
  ghost function Total(m: Accounts): nat {
    SumOver(m, m.Keys)
  }

  lemma {:induction false} SumSplit(m: Accounts, s: set<Address>, a: Address)
    requires a in s
    ensures SumOver(m, s) == At(m, a).lamports + SumOver(m, s - {a})
    decreases |s|
  {
    var b :| b in s && SumOver(m, s) == At(m, b).lamports + SumOver(m, s - {b});
    if b == a {
    } else {
      SumSplit(m, s - {b}, a);
      SumSplit(m, s - {a}, b);
      assert s - {b} - {a} == s - {a} - {b};
    }
  }

  lemma {:induction false} SumSame(m: Accounts, m': Accounts, s: set<Address>)
    requires forall a :: a in s ==> At(m, a).lamports == At(m', a).lamports
    ensures SumOver(m, s) == SumOver(m', s)
    decreases |s|
  {
    if s == {} {
    } else {
      var a :| a in s;
      SumSplit(m, s, a);
      SumSplit(m', s, a);
      SumSame(m, m', s - {a});
    }
  }

  /** Writing one account moves the total by that account's difference. */
  lemma UpdateTotal(m: Accounts, a: Address, acc: Account)
    ensures Total(m[a := acc]) + At(m, a).lamports == Total(m) + acc.lamports
  {
    var m' := m[a := acc];
    assert m'.Keys == m.Keys + {a};
    SumSplit(m', m'.Keys, a);
    assert m'.Keys - {a} == m.Keys - {a};
    SumSame(m, m', m.Keys - {a});
    if a in m {
      SumSplit(m, m.Keys, a);
    } else {
      assert m.Keys - {a} == m.Keys;
    }
  }

  lemma CreateTotal(m: Accounts, payer: Address, target: Address, rent: Rent, content: Content, ctx: Context)
    requires CanCreate(m, payer, target, rent, ctx)
    ensures Total(Create(m, payer, target, rent, content)) == Total(m)
  {
    var need := Missing(m, target, rent);
    if need == 0 {
      UpdateTotal(m, target, Account(At(m, target).lamports, content));
    } else {
      var debited := At(m, payer).(lamports := At(m, payer).lamports - need);
      UpdateTotal(m, payer, debited);
      UpdateTotal(m[payer := debited], target, Account(rent, content));
    }
  }

  /** Closing conserves lamports exactly when the refund goes elsewhere, or there
      is nothing to refund. */
  lemma CloseTotal(m: Accounts, target: Address, refund: Address)
    requires CanClose(m, target, refund)
    ensures Total(Close(m, target, refund)) == Total(m) - if target == refund then At(m, target).lamports else 0
  {
    var credited := At(m, refund).(lamports := At(m, refund).lamports + At(m, target).lamports);
    UpdateTotal(m, refund, credited);
    UpdateTotal(m[refund := credited], target, Account(0, Wiped));
  }

  lemma AuthenticatedTotal(m: Accounts, admin: Address)
    requires ContentAt(m, admin).Authority?
    ensures Total(Authenticated(m, admin)) == Total(m)
  {
    UpdateTotal(m, admin, At(m, admin).(content := Stepped(ContentAt(m, admin))));
  }

  /** The lamports a step destroys: only a reclaim into the record itself does. */
  function Burned(s: State, step: Step): nat {
    if step.ReclaimDeferred? && step.refund == step.record then At(s.accounts, step.record).lamports else 0
  }

  lemma CreatingTotals(s: State, step: Step)
    requires Enabled(s, step)
    requires step.AddAuthority? || step.TransferOwnership? || step.CreateSession? || step.Authorize?
    ensures Total(Next(s, step).accounts) == Total(s.accounts)
  {
    var m, payer, ctx := s.accounts, step.payer, step.ctx;
    var entered := Authenticated(m, step.admin);
    AuthenticatedTotal(m, step.admin);
    var content :=
      if step.AddAuthority? then NewAuthority(step.credential, step.role, step.wallet)
      else if step.TransferOwnership? then NewAuthority(step.credential, OWNER, step.wallet)
      else if step.CreateSession? then Session(step.wallet, step.sessionKey, step.expiresAt, step.rules)
      else DeferredFor(m, s.slot, payer, step.wallet, step.admin, step.instructionsHash, step.accountsHash,
                       step.expiryOffset);
    var target :=
      if step.AddAuthority? || step.TransferOwnership? then AuthorityPda(step.wallet, IdSeed(step.credential))
      else if step.CreateSession? then SessionPda(step.wallet, step.sessionKey)
      else DeferredPda(step.wallet, step.admin, Stepped(ContentAt(m, step.admin)).counter);
    var rent := ctx.rent(Space(content));
    assert CanCreate(entered, payer, target, rent, ctx);
    CreateTotal(entered, payer, target, rent, content, ctx);
    var created := Create(entered, payer, target, rent, content);
    if step.TransferOwnership? {
      CloseTotal(created, step.admin, step.refund);
    }
    hide Total, Authenticated, Create, Close, CanCreate, CanClose, At;
  }

  lemma WalletTotal(s: State, step: Step)
    requires Enabled(s, step) && step.CreateWallet?
    ensures Total(Next(s, step).accounts) == Total(s.accounts)
  {
    var m := s.accounts;
    var wallet, owner := WalletPda(step.seed), NewAuthority(step.credential, OWNER, WalletPda(step.seed));
    assert CanCreate(m, step.payer, wallet, step.ctx.rent(8), step.ctx);
    var withWallet := Create(m, step.payer, wallet, step.ctx.rent(8), Wallet);
    CreateTotal(m, step.payer, wallet, step.ctx.rent(8), Wallet, step.ctx);
    CreateTotal(withWallet, step.payer, AuthorityPda(wallet, IdSeed(step.credential)), step.ctx.rent(Space(owner)),
                owner, step.ctx);
    hide Total, Create, CanCreate, At;
  }

  lemma ClosingTotals(s: State, step: Step)
    requires Good(s) && Enabled(s, step)
    requires step.RemoveAuthority? || step.RevokeSession? || step.ExecuteDeferred? || step.ReclaimDeferred?
    ensures Total(Next(s, step).accounts) + Burned(s, step) == Total(s.accounts)
  {
    if step.RemoveAuthority? {
      AuthenticatedTotal(s.accounts, step.admin);
      CloseTotal(Authenticated(s.accounts, step.admin), step.target, step.refund);
    } else if step.RevokeSession? {
      AuthenticatedTotal(s.accounts, step.admin);
      CloseTotal(Authenticated(s.accounts, step.admin), step.session, step.refund);
    } else {
      assert Sound(s, step.record);
      CloseTotal(s.accounts, step.record, step.refund);
    }
    hide Total, Authenticated, Close, CanClose, At, Good;
  }

  /** In every reachable state every instruction conserves lamports under every
      aliasing its guards admit, but for a reclaim into the record itself. */
  lemma StepConserves(s: State, step: Step)
    requires Good(s) && Enabled(s, step) && !step.Outside?
    ensures Total(Next(s, step).accounts) + Burned(s, step) == Total(s.accounts)
  {
    if step.CreateWallet? { WalletTotal(s, step); }
    else if step.AddAuthority? || step.TransferOwnership? || step.CreateSession? || step.Authorize? {
      CreatingTotals(s, step);
    }
    else if step.RemoveAuthority? || step.RevokeSession? || step.ExecuteDeferred? || step.ReclaimDeferred? {
      ClosingTotals(s, step);
    }
    else if step.Execute? { AuthenticatedTotal(s.accounts, step.admin); }
    else if step.ExecuteSession? {
      var c := ContentAt(s.accounts, step.session);
      UpdateTotal(s.accounts, step.session, Next(s, step).accounts[step.session]);
    }
    else if step.Reap? { UpdateTotal(s.accounts, step.address, Account(0, Empty)); }
    hide Total, Authenticated, Close, Create, CanClose, CanCreate, Good;
  }

  /** The reclaim handler conserves lamports exactly when the refund account is
      not the record. */
  lemma ReclaimConservesExactly(s: State, step: Step)
    requires Good(s) && Enabled(s, step) && step.ReclaimDeferred?
    ensures Total(Next(s, step).accounts) == Total(s.accounts) <==> step.refund != step.record
  {
    assert Sound(s, step.record);
    ClosingTotals(s, step);
    hide Total, Next, Good;
  }

  /** The case is reachable: nothing in the guards excludes it. */
  lemma ReclaimIntoItself(s: State, payer: Address, record: Address, ctx: Context)
    requires Good(s) && ContentAt(s.accounts, record).Deferred? && ContentAt(s.accounts, record).payer == payer
    requires Signs(payer, ctx) && s.slot > ContentAt(s.accounts, record).expiresAt
    requires 2 * At(s.accounts, record).lamports <= U64_MAX
    ensures Enabled(s, ReclaimDeferred(payer, record, record, ctx))
    ensures Total(Next(s, ReclaimDeferred(payer, record, record, ctx)).accounts) < Total(s.accounts)
  {
    var step := ReclaimDeferred(payer, record, record, ctx);
    assert Sound(s, record);
    ClosingTotals(s, step);
    hide Total, Next, Good;
  }

  /** Outside steps conserve lamports as the runtime demands, and no reclaim
      refunds a record to itself. */
  ghost predicate Balanced(s: State, steps: seq<Step>) {
    steps == [] || (
      var before, step := Run(s, steps[..|steps| - 1]), steps[|steps| - 1];
      && Balanced(s, steps[..|steps| - 1])
      && (step.Outside? ==> Total(step.after) == Total(before.accounts))
      && (step.ReclaimDeferred? ==> step.refund != step.record))
  }

  lemma {:induction false} RunConserves(s: State, steps: seq<Step>)
    requires Good(s) && Balanced(s, steps)
    ensures Total(Run(s, steps).accounts) == Total(s.accounts)
  {
    if steps == [] {
    } else {
      var n := |steps| - 1;
      RunConserves(s, steps[..n]);
      RunGood(s, steps[..n]);
      var before, step := Run(s, steps[..n]), steps[n];
      OutsideTotal(before, step);
      hide Good, Enabled, Next, Total;
      if Enabled(before, step) && !step.Outside? { StepConserves(before, step); }
    }
  }

  lemma OutsideTotal(s: State, step: Step)
    requires step.Outside? ==> Total(step.after) == Total(s.accounts)
    ensures Enabled(s, step) && step.Outside? ==> Total(Next(s, step).accounts) == Total(s.accounts)
  {
  }

  /** Each instruction closes accounts of its own kind only. */
  lemma ClosesItsOwnKind(s: State, step: Step, a: Address)
    requires Good(s) && Enabled(s, step) && !step.Outside?
    requires Live(ContentAt(s.accounts, a)) && !Live(ContentAt(Next(s, step).accounts, a))
    ensures ClosedBy(s, step, a)
  {
    StepChanges(s, step, a);
    assert Sound(s, a);
    hide Next, Enabled, NewContent, ContentAt, At, Placed, Authorizes, Consumes, Good, ClosedBy, WalletBacked;
  }
}
