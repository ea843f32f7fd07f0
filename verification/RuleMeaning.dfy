/** What the rules mean to a caller, in the fields of the rules alone: what an end
    date does, what each cap lets through, which programs may be called, and
    which error a refusal has. */
module RuleMeaning {
  import opened Bytes
  import opened Prelude
  import opened Actions
  import opened Rules
  import opened Limits
  import opened Compact
  import opened Evaluate
  import opened PostActions

  // ---------------------------------------------------------------------
  // End dates

  /** The rule with the end date `e`; 0 stands for none. */
  function Dated(r: Rule, e: u64): Rule {
    match r
    case Lifetime(_, a, remaining) => Lifetime(e, a, remaining)
    case Recurring(_, a, limit, spent, window, lastReset) => Recurring(e, a, limit, spent, window, lastReset)
    case PerTx(_, a, max) => PerTx(e, a, max)
    case Allow(_, program) => Allow(e, program)
    case Deny(_, program) => Deny(e, program)
  }

  /** Up to and including its end date, the date makes no difference to a cap. */
  lemma EndDateInert(r: Rule, e: u64, f: Flow, slot: u64)
    requires Cap(r) && e != 0 && slot <= e
    ensures Fits(Dated(r, e), f, slot) <==> Fits(Dated(r, 0), f, slot)
    ensures Fits(Dated(r, 0), f, slot) && (r.Recurring? ==> r.window > 0) ==>
      Settle(Dated(r, e), f, slot) == Dated(Settle(Dated(r, 0), f, slot), e)
  {
    assert Cap(Dated(r, e)) && Cap(Dated(r, 0)) && Charge(Dated(r, e), f) == Charge(Dated(r, 0), f);
  }

  /** The rule without an end date that is still to come. */
  function Undated(r: Rule, slot: u64): Rule {
    if slot <= r.expiresAt then Dated(r, 0) else r
  }

  function AllUndated(rs: seq<Rule>, slot: u64): (us: seq<Rule>)
    ensures |us| == |rs|
  {
    seq(|rs|, i requires 0 <= i < |rs| => Undated(rs[i], slot))
  }

  lemma UndatedInert(r: Rule, f: Flow, slot: u64)
    ensures Cap(Undated(r, slot)) <==> Cap(r)
    ensures Fits(Undated(r, slot), f, slot) <==> Fits(r, f, slot)
  {
    assert Dated(r, r.expiresAt) == r;
    if Cap(r) && slot <= r.expiresAt && r.expiresAt != 0 { EndDateInert(r, r.expiresAt, f, slot); }
  }

  /** End dates still to come decide nothing about an execute. */
  lemma DatesInert(rs: seq<Rule>, f: Flow, slot: u64)
    ensures Accepts(AllUndated(rs, slot), f, slot) <==> Accepts(rs, f, slot)
  {
    forall i | 0 <= i < |rs| ensures Fits(AllUndated(rs, slot)[i], f, slot) <==> Fits(rs[i], f, slot) {
      UndatedInert(rs[i], f, slot);
    }
    hide Fits, Undated;
    if Accepts(AllUndated(rs, slot), f, slot) {
      forall i | 0 <= i < |rs| ensures Fits(rs[i], f, slot) { assert Fits(AllUndated(rs, slot)[i], f, slot); }
    }
  }

  // ---------------------------------------------------------------------
  // Programs

  /** A whitelist entry names the program and is not over. */
  predicate AllowsNow(r: Rule, program: Pubkey, slot: u64) {
    r.Allow? && r.program == program && (r.expiresAt == 0 || slot <= r.expiresAt)
  }

  predicate DeniesNow(r: Rule, program: Pubkey, slot: u64) {
    r.Deny? && r.program == program && (r.expiresAt == 0 || slot <= r.expiresAt)
  }

  /** A program may be called when a whitelist, if there is one, names it in an entry
      that is not over, and no blacklist entry that is not over names it. */
  lemma PermittedMeans(rs: seq<Rule>, program: Pubkey, slot: u64)
    ensures Permitted(rs, program, slot) <==> (
      && ((exists i :: 0 <= i < |rs| && rs[i].Allow?) ==> exists i :: 0 <= i < |rs| && AllowsNow(rs[i], program, slot))
      && !exists i :: 0 <= i < |rs| && DeniesNow(rs[i], program, slot))
  {
    forall i | 0 <= i < |rs|
      ensures Names(rs[i], ProgramWhitelist, program, slot) <==> AllowsNow(rs[i], program, slot)
      ensures Names(rs[i], ProgramBlacklist, program, slot) <==> DeniesNow(rs[i], program, slot)
    {
    }
    hide Names, AllowsNow, DeniesNow;
  }

  /** After its end date a blacklist entry bans nothing. */
  lemma ExpiredDenyIsVoid(a: seq<Rule>, e: u64, banned: Pubkey, b: seq<Rule>, program: Pubkey, slot: u64)
    requires e != 0 && slot > e
    ensures Permitted(a + [Deny(e, banned)] + b, program, slot) <==> Permitted(a + b, program, slot)
  {
    var rs, rest := a + [Deny(e, banned)] + b, a + b;
    PermittedMeans(rs, program, slot);
    PermittedMeans(rest, program, slot);
    hide Permitted;
    forall i | 0 <= i < |rest| ensures exists j :: 0 <= j < |rs| && rs[j] == rest[i] {
      var j := if i < |a| then i else i + 1;
      assert rs[j] == rest[i];
    }
    forall j | 0 <= j < |rs| && j != |a| ensures exists i :: 0 <= i < |rest| && rest[i] == rs[j] {
      var i := if j < |a| then j else j - 1;
      assert rest[i] == rs[j];
    }
    assert rs[|a|] == Deny(e, banned);
  }

  /** End dates still to come decide nothing about programs either. */
  lemma DatesInertForPrograms(rs: seq<Rule>, program: Pubkey, slot: u64)
    ensures Permitted(AllUndated(rs, slot), program, slot) <==> Permitted(rs, program, slot)
  {
    var us := AllUndated(rs, slot);
    PermittedMeans(rs, program, slot);
    PermittedMeans(us, program, slot);
    forall i | 0 <= i < |rs|
      ensures us[i].Allow? <==> rs[i].Allow?
      ensures AllowsNow(us[i], program, slot) <==> AllowsNow(rs[i], program, slot)
      ensures DeniesNow(us[i], program, slot) <==> DeniesNow(rs[i], program, slot)
    {
    }
    hide Permitted, Undated, AllUndated, AllowsNow, DeniesNow;
    if i :| 0 <= i < |rs| && AllowsNow(rs[i], program, slot) { assert AllowsNow(us[i], program, slot); }
    if i :| 0 <= i < |rs| && DeniesNow(rs[i], program, slot) { assert DeniesNow(us[i], program, slot); }
    if i :| 0 <= i < |rs| && rs[i].Allow? { assert us[i].Allow?; }
  }

  /** The verdict on one instruction, with its error. */
  lemma PreCheckMeans(rs: seq<Rule>, ix: CompactInstruction, accounts: seq<AccountInfo>, slot: u64)
    ensures ix.programIdIndex >= |accounts| <==> PreCheck(rs, ix, accounts, slot) == Err(InvalidInstructionData)
    ensures PreCheck(rs, ix, accounts, slot) == Err(ActionProgramNotWhitelisted) <==> (
      && ix.programIdIndex < |accounts| && (exists i :: 0 <= i < |rs| && rs[i].Allow?)
      && !exists i :: 0 <= i < |rs| && AllowsNow(rs[i], accounts[ix.programIdIndex].key, slot))
    ensures PreCheck(rs, ix, accounts, slot) == Ok(()) <==> (
      && ix.programIdIndex < |accounts| && Permitted(rs, accounts[ix.programIdIndex].key, slot))
    ensures PreCheck(rs, ix, accounts, slot).Err? ==>
      PreCheck(rs, ix, accounts, slot).error in
        {InvalidInstructionData, ActionProgramNotWhitelisted, ActionProgramBlacklisted}
  {
    if ix.programIdIndex < |accounts| {
      var program := accounts[ix.programIdIndex].key;
      forall i | 0 <= i < |rs|
        ensures Names(rs[i], ProgramWhitelist, program, slot) <==> AllowsNow(rs[i], program, slot)
      {
      }
      hide Names, AllowsNow;
    }
  }

  // ---------------------------------------------------------------------
  // Caps

  /** What the flow takes of the asset, net. */
  function Amount(a: Asset, f: Flow): u64 {
    match a
    case Sol => f.sol
    case Token(mint) => f.tokens(mint)
  }

  /** A lifetime cap that is not over lets through exactly what remains. */
  lemma LifetimeMeans(e: u64, a: Asset, remaining: u64, f: Flow, slot: u64)
    ensures e == 0 || slot <= e ==> (Fits(Lifetime(e, a, remaining), f, slot) <==> Amount(a, f) <= remaining)
    ensures e != 0 && slot > e ==> (Fits(Lifetime(e, a, remaining), f, slot) <==> Amount(a, f) == 0)
    ensures Fits(Lifetime(e, a, remaining), f, slot) ==>
      Settle(Lifetime(e, a, remaining), f, slot) == Lifetime(e, a, remaining - Amount(a, f))
  {
    assert Charge(Lifetime(e, a, remaining), f) == Amount(a, f);
  }

  /** A per-transaction cap lets through up to its maximum: for SOL of the gross
      outflow, for a token of the net loss. */
  lemma PerTxMeans(e: u64, a: Asset, max: u64, f: Flow, slot: u64)
    ensures var amount := if a.Sol? then f.gross else Amount(a, f);
      && (e == 0 || slot <= e ==> (Fits(PerTx(e, a, max), f, slot) <==> amount <= max))
      && (e != 0 && slot > e ==> (Fits(PerTx(e, a, max), f, slot) <==> amount == 0))
      && (Fits(PerTx(e, a, max), f, slot) ==> Settle(PerTx(e, a, max), f, slot) == PerTx(e, a, max))
  {
    assert Charge(PerTx(e, a, max), f) == if a.Sol? then f.gross else Amount(a, f);
  }

  /** A recurring cap lets through the limit once its window is over, before that
      what is left of it. Its counters then hold what was spent, and where the
      window began on the grid of its length. */
  lemma RecurringMeans(e: u64, a: Asset, limit: u64, spent: u64, window: u64, lastReset: u64, f: Flow, slot: u64)
    requires limit < U64_MAX && window > 0
    ensures var r, amount := Recurring(e, a, limit, spent, window, lastReset), Amount(a, f);
      && (e == 0 || slot <= e ==> (Fits(r, f, slot) <==>
            amount == 0 || (if slot > lastReset + window then amount <= limit else spent + amount <= limit)))
      && (e != 0 && slot > e ==> (Fits(r, f, slot) <==> amount == 0))
      && (Fits(r, f, slot) && amount == 0 ==> Settle(r, f, slot) == r)
      && (Fits(r, f, slot) && amount > 0 && slot > lastReset + window ==>
            Settle(r, f, slot) == Recurring(e, a, limit, amount, window, slot - slot % window))
      && (Fits(r, f, slot) && amount > 0 && slot <= lastReset + window ==>
            Settle(r, f, slot) == Recurring(e, a, limit, spent + amount, window, lastReset))
  {
    assert Charge(Recurring(e, a, limit, spent, window, lastReset), f) == Amount(a, f);
    GridPoint(slot, window);
    AlignedBounds(slot, window);
    hide Aligned;
  }

  lemma GridPoint(slot: nat, window: nat)
    requires window > 0
    ensures Aligned(slot, window) == slot - slot % window
  {
  }

  // ---------------------------------------------------------------------
  // Errors

  /** The error of a cap that refuses. */
  function RefusalOf(r: Rule): Error
    requires r.Lifetime? || r.Recurring? || r.PerTx?
  {
    match r
    case Lifetime(_, Sol, _) => ActionSolLimitExceeded
    case Recurring(_, Sol, _, _, _, _) => ActionSolRecurringLimitExceeded
    case PerTx(_, Sol, _) => ActionSolMaxPerTxExceeded
    case Lifetime(_, Token(_), _) => ActionTokenLimitExceeded
    case Recurring(_, Token(_), _, _, _, _) => ActionTokenRecurringLimitExceeded
    case PerTx(_, Token(_), _) => ActionTokenMaxPerTxExceeded
  }

  /** Rule `i` is the one that is reported: it refuses, no SOL cap before it does,
      and if it is a token cap no SOL cap at all and no token cap before it. */
  predicate Reported(rs: seq<Rule>, f: Flow, slot: u64, i: nat) {
    && i < |rs| && (rs[i].Lifetime? || rs[i].Recurring? || rs[i].PerTx?) && !Fits(rs[i], f, slot)
    && (forall k :: 0 <= k < i && Cap(rs[k]) && rs[k].asset.Sol? == rs[i].asset.Sol? ==> Fits(rs[k], f, slot))
    && (rs[i].asset.Token? ==> forall k :: 0 <= k < |rs| && Cap(rs[k]) && rs[k].asset.Sol? ==> Fits(rs[k], f, slot))
  }

  lemma {:induction false} FirstErrorAt(rs: seq<Rule>, f: Flow, slot: u64, solPass: bool) returns (i: nat)
    requires FirstError(rs, f, slot, solPass).Some?
    ensures i < |rs| && Cap(rs[i]) && rs[i].asset.Sol? == solPass && !Fits(rs[i], f, slot)
    ensures FirstError(rs, f, slot, solPass) == Some(LimitError(rs[i]))
    ensures forall k :: 0 <= k < i && Cap(rs[k]) && rs[k].asset.Sol? == solPass ==> Fits(rs[k], f, slot)
  {
    var n := |rs| - 1;
    hide Fits;
    if FirstError(rs[..n], f, slot, solPass).Some? {
      i := FirstErrorAt(rs[..n], f, slot, solPass);
      assert forall k :: 0 <= k < n ==> rs[..n][k] == rs[k];
    } else {
      i := n;
      NoFirstError(rs[..n], f, slot, solPass);
      forall k | 0 <= k < n && Cap(rs[k]) && rs[k].asset.Sol? == solPass ensures Fits(rs[k], f, slot) {
        assert rs[..n][k] == rs[k] && RuleError(rs[..n][k], f, slot, solPass).None?;
      }
    }
  }

  /** A refusal reports the error of one rule, which is determined by the rules. */
  lemma RefusalMeans(rs: seq<Rule>, f: Flow, slot: u64) returns (i: nat)
    requires !Accepts(rs, f, slot)
    ensures Reported(rs, f, slot, i) && PostError(rs, f, slot) == Some(RefusalOf(rs[i]))
  {
    NoErrorIsAcceptance(rs, f, slot);
    hide Fits, FirstError, Accepts;
    if FirstError(rs, f, slot, true).Some? {
      i := FirstErrorAt(rs, f, slot, true);
    } else {
      i := FirstErrorAt(rs, f, slot, false);
      NoFirstError(rs, f, slot, true);
      forall k | 0 <= k < |rs| && Cap(rs[k]) && rs[k].asset.Sol? ensures Fits(rs[k], f, slot) {
        assert RuleError(rs[k], f, slot, true).None?;
      }
    }
  }
}
