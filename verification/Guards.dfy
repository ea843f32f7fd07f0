/** The conditions of the executing instructions, written out on the accounts and
    bytes they are asked of, and what they mean over the life of a session. */
module Guards {
  import opened Slices
  import opened Bytes
  import opened Prelude
  import opened Rules
  import opened Limits
  import opened Compact
  import opened Tokens
  import opened Evaluate
  import opened PostActions
  import opened RuleMeaning
  import opened Snapshots
  import opened SessionExecute
  import opened Binding
  import opened Json
  import opened Webauthn
  import opened Introspection
  import opened Secp256r1
  import opened Deferred
  import opened AuthorityExecute
  import C = Credentials
  import S = Sessions
  import R = SessionRuns

  // ---------------------------------------------------------------------
  // Execution by a session

  /** The instruction names a program and accounts of the list, and the program is
      not this one. */
  predicate Callable(ix: CompactInstruction, accounts: seq<AccountInfo>, programId: Pubkey) {
    && ix.programIdIndex < |accounts| && accounts[ix.programIdIndex].key != programId
    && forall k :: 0 <= k < |ix.accounts| ==> ix.accounts[k] < |accounts|
  }

  lemma CallableIs(ix: CompactInstruction, accounts: seq<AccountInfo>, programId: Pubkey)
    ensures Invocable(ix, accounts, programId) <==> Callable(ix, accounts, programId)
  {
  }

  /** The first three accounts: a wallet and a writable account of this program. */
  lemma AccountsFitMeans(programId: Pubkey, accounts: seq<AccountInfo>)
    ensures AccountsFit(programId, accounts) <==> (
      && |accounts| >= 4 && accounts[1].owner == programId && accounts[2].owner == programId
      && |accounts[1].data| > 0 && accounts[1].data[0] == 1 && accounts[2].isWritable)
  {
  }

  lemma SessionOpenMeans(accounts: seq<AccountInfo>, session: seq<byte>, slot: u64)
    requires |accounts| >= 4
    ensures SessionOpen(accounts, session, slot) <==> (
      && |session| >= 80 && session[0] == 3 && session[8..40] == accounts[1].key && slot <= ReadU64(session, 72)
      && exists i :: 0 <= i < |accounts| && accounts[i].isSigner && accounts[i].key == session[40..72])
  {
  }

  /** Everything a session execute depends on: the accounts, the session that is open
      and whose key signs, programs that are permitted, the vault, what the CPIs
      left untouched, and the caps. One signing entry of the key is enough. */
  lemma AdmittedMeans(programId: Pubkey, accounts: seq<AccountInfo>, data: seq<byte>, session: seq<byte>,
                      vault: Pubkey, cpi: nat -> seq<AccountInfo>, stackHeight: nat, slot: u64, rs: seq<Rule>,
                      ixs: seq<CompactInstruction>)
    requires Runtime(cpi, accounts)
    ensures Admitted(programId, accounts, data, session, vault, cpi, stackHeight, slot, rs, ixs) <==> (
      && |accounts| >= 4 && accounts[1].owner == programId && accounts[2].owner == programId
      && |accounts[1].data| > 0 && accounts[1].data[0] == 1 && accounts[2].isWritable
      && Encodes(data, ixs) && stackHeight <= 1
      && |session| >= 80 && session[0] == 3 && session[8..40] == accounts[1].key && slot <= ReadU64(session, 72)
      && (exists i :: 0 <= i < |accounts| && accounts[i].isSigner && accounts[i].key == session[40..72])
      && (forall i :: 0 <= i < |ixs| ==>
            Callable(ixs[i], accounts, programId) && Permitted(rs, accounts[ixs[i].programIdIndex].key, slot))
      && vault == accounts[3].key
      && Untouched(accounts, Final(accounts, cpi, |ixs|), session, vault, rs)
      && Accepts(rs, ExecutedFlow(accounts, cpi, vault, |ixs|), slot))
  {
    AccountsFitMeans(programId, accounts);
    if |accounts| >= 4 {
      SessionOpenMeans(accounts, session, slot);
      VaultBalanceStep(accounts, cpi, |ixs|);
      UntouchedMeans(accounts, Final(accounts, cpi, |ixs|), session, vault, rs);
      ProgramsMean(rs, ixs, accounts, slot, programId);
      AdmittedUnfolds(programId, accounts, data, session, vault, cpi, stackHeight, slot, rs, ixs);
    } else {
      NotAdmitted(programId, accounts, data, session, vault, cpi, stackHeight, slot, rs, ixs);
    }
    hide *;
  }

  lemma AdmittedUnfolds(programId: Pubkey, accounts: seq<AccountInfo>, data: seq<byte>, session: seq<byte>,
                        vault: Pubkey, cpi: nat -> seq<AccountInfo>, stackHeight: nat, slot: u64, rs: seq<Rule>,
                        ixs: seq<CompactInstruction>)
    requires Runtime(cpi, accounts) && |accounts| >= 4 && |Final(accounts, cpi, |ixs|)| == |accounts|
    ensures Admitted(programId, accounts, data, session, vault, cpi, stackHeight, slot, rs, ixs) <==> (
      && AccountsFit(programId, accounts) && Encodes(data, ixs)
      && stackHeight <= 1 && SessionOpen(accounts, session, slot)
      && PreChecked(rs, ixs, accounts, slot) && vault == accounts[3].key && AllInvocable(ixs, accounts, programId)
      && VaultIntact(accounts, Final(accounts, cpi, |ixs|), session, vault, rs)
      && Accepts(rs, ExecutedFlow(accounts, cpi, vault, |ixs|), slot))
  {
    hide Runtime, AccountsFit, Encodes, SessionOpen, PreChecked, AllInvocable, VaultIntact, Accepts, ExecutedFlow;
    hide Final;
  }

  lemma NotAdmitted(programId: Pubkey, accounts: seq<AccountInfo>, data: seq<byte>, session: seq<byte>,
                    vault: Pubkey, cpi: nat -> seq<AccountInfo>, stackHeight: nat, slot: u64, rs: seq<Rule>,
                    ixs: seq<CompactInstruction>)
    requires Runtime(cpi, accounts) && |accounts| < 4
    ensures !Admitted(programId, accounts, data, session, vault, cpi, stackHeight, slot, rs, ixs)
  {
  }

  lemma ProgramsMean(rs: seq<Rule>, ixs: seq<CompactInstruction>, accounts: seq<AccountInfo>, slot: u64,
                     programId: Pubkey)
    ensures (PreChecked(rs, ixs, accounts, slot) && AllInvocable(ixs, accounts, programId)) <==>
      forall i :: 0 <= i < |ixs| ==>
        Callable(ixs[i], accounts, programId) && Permitted(rs, accounts[ixs[i].programIdIndex].key, slot)
  {
    forall i | 0 <= i < |ixs|
      ensures Invocable(ixs[i], accounts, programId) <==> Callable(ixs[i], accounts, programId)
      ensures Callable(ixs[i], accounts, programId) ==> (
        PreCheck(rs, ixs[i], accounts, slot).Ok? <==> Permitted(rs, accounts[ixs[i].programIdIndex].key, slot))
    {
      CallableIs(ixs[i], accounts, programId);
      hide Whitelisted, Blacklisted, HasWhitelist;
    }
    hide Invocable, Callable, PreCheck, Permitted;
    if forall i :: 0 <= i < |ixs| ==>
        Callable(ixs[i], accounts, programId) && Permitted(rs, accounts[ixs[i].programIdIndex].key, slot) {
      forall i | 0 <= i < |ixs|
        ensures PreCheck(rs, ixs[i], accounts, slot).Ok? && Invocable(ixs[i], accounts, programId)
      {
        assert Callable(ixs[i], accounts, programId);
      }
    }
  }

  /** What is measured of an execute: the loss of the vault and of its balance in
      each mint from before the first CPI to behind the last, and the sum of the
      losses of the single CPIs, capped; a gain counts as no loss. */
  lemma ExecutedFlowMeans(accounts: seq<AccountInfo>, cpi: nat -> seq<AccountInfo>, vault: Pubkey, n: nat, mint: Pubkey)
    requires Runtime(cpi, accounts) && |accounts| >= 4
    ensures var f, last := ExecutedFlow(accounts, cpi, vault, n), Final(accounts, cpi, n);
      var gone, drops := Balance(accounts, vault, mint) - Balance(last, vault, mint),
                         Drops(accounts[3].lamports, VaultBalances(accounts, cpi, n));
      && |last| >= 4
      && f.sol == (if last[3].lamports < accounts[3].lamports then accounts[3].lamports - last[3].lamports else 0)
      && f.gross == (if drops <= 0xFFFF_FFFF_FFFF_FFFF then drops else 0xFFFF_FFFF_FFFF_FFFF)
      && f.tokens(mint) == (if gone > 0 then gone else 0)
  {
    FinalLength(accounts, cpi, n);
    hide Balance, Drops, VaultBalances, Runtime, Final;
  }

  predicate CapOn(r: Rule, mint: seq<byte>) {
    (r.Lifetime? || r.Recurring? || r.PerTx?) && r.asset.Token? && r.asset.mint == mint
  }

  /** A token account of the vault for a listed mint. */
  predicate Counted(acc: AccountInfo, vault: Pubkey, rs: seq<Rule>) {
    && (acc.owner == SPL_TOKEN_PROGRAM_ID || acc.owner == SPL_TOKEN_2022_PROGRAM_ID) && |acc.data| >= 165
    && acc.data[32..64] == vault
    && exists i :: 0 <= i < |rs| && CapOn(rs[i], acc.data[0..32])
  }

  /** The account is still a token account of a token program, with the same owner,
      delegate and close authority. */
  predicate SameAuthorities(acc: AccountInfo, now: AccountInfo) {
    && (now.owner == SPL_TOKEN_PROGRAM_ID || now.owner == SPL_TOKEN_2022_PROGRAM_ID)
    && |now.data| >= 165 && |acc.data| >= 165
    && now.data[32..64] == acc.data[32..64] && now.data[72..108] == acc.data[72..108]
    && now.data[129..165] == acc.data[129..165]
  }

  /** The first account that is listed with its key has the same authorities. */
  predicate StillIts(acc: AccountInfo, last: seq<AccountInfo>) {
    exists j :: (
      && 0 <= j < |last| && last[j].key == acc.key && (forall k :: 0 <= k < j ==> last[k].key != acc.key)
      && SameAuthorities(acc, last[j]))
  }

  /** What the CPIs must leave alone: with rules stored, owner and data length of the
      vault; and the authorities of the counted token accounts. */
  predicate Untouched(accounts: seq<AccountInfo>, last: seq<AccountInfo>, session: seq<byte>, vault: Pubkey,
                      rs: seq<Rule>)
    requires |accounts| >= 4 && |last| >= 4
  {
    && (|session| > 80 ==> last[3].owner == accounts[3].owner && |last[3].data| == |accounts[3].data|)
    && forall i :: 0 <= i < |accounts| && Counted(accounts[i], vault, rs) ==> StillIts(accounts[i], last)
  }

  lemma CountedIs(acc: AccountInfo, vault: Pubkey, rs: seq<Rule>)
    ensures Watched(acc, vault, Mints(rs)) <==> Counted(acc, vault, rs)
  {
    if |acc.data| >= 165 { MintsListed(rs, acc.data[0..32]); }
  }

  lemma StillItsIs(acc: AccountInfo, last: seq<AccountInfo>)
    requires TokenAccount(acc)
    ensures Unchanged(AuthorityOf(acc), last) <==> StillIts(acc, last)
  {
    forall now: AccountInfo | now.key == acc.key
      ensures TokenAccount(now) && AuthorityOf(now) == AuthorityOf(acc) <==> SameAuthorities(acc, now)
    {
    }
    if FindByKey(last, acc.key).Some? {
      var j := FoundFirst(last, acc.key);
    }
    hide FindByKey, SameAuthorities;
  }

  lemma {:induction false} OnlyWatched(accounts: seq<AccountInfo>, vault: Pubkey, mints: seq<Pubkey>,
                                       snap: TokenAuthoritySnapshot)
    returns (i: nat)
    requires snap in Authorities(accounts, vault, mints)
    ensures i < |accounts| && Watched(accounts[i], vault, mints) && AuthorityOf(accounts[i]) == snap
  {
    var n := |accounts| - 1;
    hide Watched, AuthorityOf;
    if snap in Authorities(accounts[..n], vault, mints) {
      i := OnlyWatched(accounts[..n], vault, mints, snap);
    } else {
      i := n;
    }
  }

  lemma UntouchedMeans(accounts: seq<AccountInfo>, last: seq<AccountInfo>, session: seq<byte>, vault: Pubkey,
                       rs: seq<Rule>)
    requires |accounts| >= 4 && |last| >= 4
    ensures VaultIntact(accounts, last, session, vault, rs) <==> Untouched(accounts, last, session, vault, rs)
  {
    forall i | 0 <= i < |accounts| && Counted(accounts[i], vault, rs)
      ensures TokenAccount(accounts[i]) && AuthorityOf(accounts[i]) in Authorities(accounts, vault, Mints(rs))
      ensures Unchanged(AuthorityOf(accounts[i]), last) <==> StillIts(accounts[i], last)
    {
      CountedIs(accounts[i], vault, rs);
      WatchedAreSnapshotted(accounts, vault, Mints(rs), i);
      StillItsIs(accounts[i], last);
    }
    forall snap | snap in Authorities(accounts, vault, Mints(rs))
      ensures exists i :: (
        && 0 <= i < |accounts| && Counted(accounts[i], vault, rs) && TokenAccount(accounts[i])
        && AuthorityOf(accounts[i]) == snap)
    {
      var i := OnlyWatched(accounts, vault, Mints(rs), snap);
      CountedIs(accounts[i], vault, rs);
    }
    hide Authorities, Mints, Counted, StillIts, Unchanged, AuthorityOf, TokenAccount;
  }

  /** The error of the checks behind the CPIs: with rules stored a changed owner of
      the vault comes first and its data length second, then any counted token
      account that is not left alone, then the cap that is reported. */
  lemma AfterErrorMeans(accounts: seq<AccountInfo>, last: seq<AccountInfo>, session: seq<byte>, vault: Pubkey,
                        rs: seq<Rule>, grossOut: u64, slot: u64)
    returns (i: nat)
    requires |accounts| >= 4 && |last| >= 4
    requires !(VaultIntact(accounts, last, session, vault, rs)
               && Accepts(rs, MeasuredFlow(accounts, last, vault, grossOut), slot))
    ensures var e, f := AfterError(accounts, last, session, vault, rs, grossOut, slot),
                        MeasuredFlow(accounts, last, vault, grossOut);
      if |session| > 80 && last[3].owner != accounts[3].owner then e == SessionVaultOwnerChanged
      else if |session| > 80 && |last[3].data| != |accounts[3].data| then e == SessionVaultDataLenChanged
      else if exists k :: 0 <= k < |accounts| && Counted(accounts[k], vault, rs) && !StillIts(accounts[k], last)
      then e == SessionTokenAuthorityChanged
      else Reported(rs, f, slot, i) && e == RefusalOf(rs[i])
  {
    var f := MeasuredFlow(accounts, last, vault, grossOut);
    i := 0;
    UntouchedMeans(accounts, last, session, vault, rs);
    AfterErrorOrder(accounts, last, session, vault, rs, grossOut, slot);
    hide *;
    if VaultIntact(accounts, last, session, vault, rs) { i := RefusalMeans(rs, f, slot); }
    UntouchedParts(accounts, last, session, vault, rs);
  }

  lemma AfterErrorOrder(accounts: seq<AccountInfo>, last: seq<AccountInfo>, session: seq<byte>, vault: Pubkey,
                        rs: seq<Rule>, grossOut: u64, slot: u64)
    requires |accounts| >= 4 && |last| >= 4
    ensures var e := AfterError(accounts, last, session, vault, rs, grossOut, slot);
      if |session| > 80 && last[3].owner != accounts[3].owner then e == SessionVaultOwnerChanged
      else if |session| > 80 && |last[3].data| != |accounts[3].data| then e == SessionVaultDataLenChanged
      else if !VaultIntact(accounts, last, session, vault, rs) then e == SessionTokenAuthorityChanged
      else
        var p := PostError(rs, MeasuredFlow(accounts, last, vault, grossOut), slot);
        p.Some? ==> e == p.value
  {
    hide MeasuredFlow, PostError, Unchanged, Authorities, Mints;
  }

  lemma UntouchedParts(accounts: seq<AccountInfo>, last: seq<AccountInfo>, session: seq<byte>, vault: Pubkey,
                       rs: seq<Rule>)
    requires |accounts| >= 4 && |last| >= 4
    ensures Untouched(accounts, last, session, vault, rs) <==> (
      && (|session| > 80 ==> last[3].owner == accounts[3].owner && |last[3].data| == |accounts[3].data|)
      && !exists k :: 0 <= k < |accounts| && Counted(accounts[k], vault, rs) && !StillIts(accounts[k], last))
  {
    hide Counted, StillIts;
  }

  /** From creation on, after any calls: when the next call runs the instructions
      `ixs`. The session key that was stated at creation signs, no later than the
      stated slot, at top level and for the wallet of the session; the rules that
      were stored at creation permit the programs; and the caps, with what earlier
      calls left of them, accept what the CPIs took. */
  lemma NextCall(p: R.Place, bump: byte, wallet: Pubkey, args: S.SessionArgs, calls: seq<R.Call>, call: R.Call,
                 ixs: seq<CompactInstruction>)
    requires S.AdmissibleActions(args.actions) && Runtime(call.cpi, call.accounts)
    ensures RulesOf(args.actions).Some? && R.Valid(R.Created(bump, wallet, args))
    ensures Windowed(RulesOf(args.actions).value)
    ensures var rs, start, accounts := RulesOf(args.actions).value, R.Created(bump, wallet, args), call.accounts;
      R.RunsList(p, R.AfterCalls(p, start, calls), call, ixs) <==> (
        && |accounts| >= 4 && accounts[1].owner == p.programId && accounts[2].owner == p.programId
        && |accounts[1].data| > 0 && accounts[1].data[0] == 1 && accounts[2].isWritable
        && Encodes(call.data, ixs) && call.stackHeight <= 1
        && accounts[1].key == wallet && call.slot <= args.expiresAt
        && (exists i :: 0 <= i < |accounts| && accounts[i].isSigner && accounts[i].key == args.sessionKey)
        && ProgramsAllowed(rs, ixs, accounts, call.slot, p.programId)
        && p.vault == accounts[3].key && |Final(accounts, call.cpi, |ixs|)| >= 4
        && Untouched(accounts, Final(accounts, call.cpi, |ixs|), start, p.vault, rs)
        && Accepts(After(rs, R.Events(p, start, calls)), ExecutedFlow(accounts, call.cpi, p.vault, |ixs|), call.slot))
  {
    var start := R.Created(bump, wallet, args);
    R.SessionFollowsRules(p, bump, wallet, args, calls);
    hide *;
    var rs, es, session := RulesOf(args.actions).value, R.Events(p, start, calls), R.AfterCalls(p, start, calls);
    ProgramsKept(rs, es, ixs, call.accounts, call.slot, p.programId);
    if |call.accounts| >= 4 {
      FinalLength(call.accounts, call.cpi, |ixs|);
      UntouchedKept(call.accounts, Final(call.accounts, call.cpi, |ixs|), start, session, p.vault, rs, es);
    }
    CallMeans(p, bump, wallet, args, session, call, ixs);
  }

  lemma FinalLength(accounts: seq<AccountInfo>, cpi: nat -> seq<AccountInfo>, n: nat)
    requires Runtime(cpi, accounts)
    ensures |Final(accounts, cpi, n)| == |accounts|
  {
  }

  /** The same on the bytes and rules that are stored now. */
  lemma CallMeans(p: R.Place, bump: byte, wallet: Pubkey, args: S.SessionArgs, session: seq<byte>, call: R.Call,
                  ixs: seq<CompactInstruction>)
    requires |session| >= 80 && session[..80] == S.Header(bump, wallet, args) && Runtime(call.cpi, call.accounts)
    ensures var accounts, rs := call.accounts, R.StoredRules(session);
      R.RunsList(p, session, call, ixs) <==> (
        && |accounts| >= 4 && accounts[1].owner == p.programId && accounts[2].owner == p.programId
        && |accounts[1].data| > 0 && accounts[1].data[0] == 1 && accounts[2].isWritable
        && Encodes(call.data, ixs) && call.stackHeight <= 1
        && accounts[1].key == wallet && call.slot <= args.expiresAt
        && (exists i :: 0 <= i < |accounts| && accounts[i].isSigner && accounts[i].key == args.sessionKey)
        && ProgramsAllowed(rs, ixs, accounts, call.slot, p.programId)
        && p.vault == accounts[3].key && |Final(accounts, call.cpi, |ixs|)| >= 4
        && Untouched(accounts, Final(accounts, call.cpi, |ixs|), session, p.vault, rs)
        && Accepts(rs, ExecutedFlow(accounts, call.cpi, p.vault, |ixs|), call.slot))
  {
    CreatedHeader(bump, wallet, args, session);
    assert session[0] == 3 by { assert session[0] == session[..80][0] == S.Header(bump, wallet, args)[0]; }
    RunsListIs(p, session, call, ixs);
    FinalLength(call.accounts, call.cpi, |ixs|);
    AllowedIs(R.StoredRules(session), ixs, call.accounts, call.slot, p.programId);
    hide *;
    AdmittedMeans(p.programId, call.accounts, call.data, session, p.vault, call.cpi, call.stackHeight, call.slot,
                  R.StoredRules(session), ixs);
  }

  /** Every instruction may be invoked, and the rules permit its program. */
  predicate ProgramsAllowed(rs: seq<Rule>, ixs: seq<CompactInstruction>, accounts: seq<AccountInfo>, slot: u64,
                            programId: Pubkey) {
    forall i :: 0 <= i < |ixs| ==>
      Callable(ixs[i], accounts, programId) && Permitted(rs, accounts[ixs[i].programIdIndex].key, slot)
  }

  lemma AllowedIs(rs: seq<Rule>, ixs: seq<CompactInstruction>, accounts: seq<AccountInfo>, slot: u64,
                  programId: Pubkey)
    ensures ProgramsAllowed(rs, ixs, accounts, slot, programId) <==>
      forall i :: 0 <= i < |ixs| ==>
        Callable(ixs[i], accounts, programId) && Permitted(rs, accounts[ixs[i].programIdIndex].key, slot)
  {
    hide Permitted;
  }

  lemma ProgramsKept(rs: seq<Rule>, es: seq<Event>, ixs: seq<CompactInstruction>, accounts: seq<AccountInfo>, slot: u64,
                     programId: Pubkey)
    requires Windowed(rs)
    ensures ProgramsAllowed(After(rs, es), ixs, accounts, slot, programId) <==>
      ProgramsAllowed(rs, ixs, accounts, slot, programId)
  {
    forall i | 0 <= i < |ixs| && ixs[i].programIdIndex < |accounts|
      ensures Permitted(After(rs, es), accounts[ixs[i].programIdIndex].key, slot) <==>
        Permitted(rs, accounts[ixs[i].programIdIndex].key, slot)
    {
      PermittedKept(rs, es, accounts[ixs[i].programIdIndex].key, slot);
    }
    hide Permitted, After, Windowed;
  }

  /** Program lists do not change. */
  lemma PermittedKept(rs: seq<Rule>, es: seq<Event>, program: Pubkey, slot: u64)
    requires Windowed(rs)
    ensures Permitted(After(rs, es), program, slot) <==> Permitted(rs, program, slot)
  {
    var now := After(rs, es);
    PermittedMeans(rs, program, slot);
    PermittedMeans(now, program, slot);
    forall i | 0 <= i < |rs|
      ensures now[i].Allow? <==> rs[i].Allow?
      ensures AllowsNow(now[i], program, slot) <==> AllowsNow(rs[i], program, slot)
      ensures DeniesNow(now[i], program, slot) <==> DeniesNow(rs[i], program, slot)
    {
      RuleShapeKept(rs, es, i);
    }
    hide Permitted, After, Windowed, AllowsNow, DeniesNow;
    if i :| 0 <= i < |rs| && AllowsNow(rs[i], program, slot) { assert AllowsNow(now[i], program, slot); }
    if i :| 0 <= i < |rs| && DeniesNow(rs[i], program, slot) { assert DeniesNow(now[i], program, slot); }
    if i :| 0 <= i < |rs| && rs[i].Allow? { assert now[i].Allow?; }
  }

  /** Nor does what the CPIs must leave alone. */
  lemma UntouchedKept(accounts: seq<AccountInfo>, last: seq<AccountInfo>, start: seq<byte>, session: seq<byte>,
                      vault: Pubkey, rs: seq<Rule>, es: seq<Event>)
    requires |accounts| >= 4 && |last| >= 4 && |session| == |start| && Windowed(rs)
    ensures Untouched(accounts, last, session, vault, After(rs, es)) <==> Untouched(accounts, last, start, vault, rs)
  {
    forall i | 0 <= i < |accounts|
      ensures Counted(accounts[i], vault, After(rs, es)) <==> Counted(accounts[i], vault, rs)
    {
      CountedKept(accounts[i], vault, rs, es);
    }
    hide Counted, StillIts, After, Windowed;
  }

  lemma CountedKept(acc: AccountInfo, vault: Pubkey, rs: seq<Rule>, es: seq<Event>)
    requires Windowed(rs)
    ensures Counted(acc, vault, After(rs, es)) <==> Counted(acc, vault, rs)
  {
    if |acc.data| >= 165 {
      var now, mint := After(rs, es), acc.data[0..32];
      forall i | 0 <= i < |rs| ensures CapOn(now[i], mint) <==> CapOn(rs[i], mint) {
        RuleShapeKept(rs, es, i);
      }
      hide CapOn, After, Windowed;
      if i :| 0 <= i < |rs| && CapOn(rs[i], mint) { assert CapOn(now[i], mint); }
    }
  }

  lemma RunsListIs(p: R.Place, session: seq<byte>, call: R.Call, ixs: seq<CompactInstruction>)
    requires Runtime(call.cpi, call.accounts)
    ensures R.RunsList(p, session, call, ixs) <==>
      Admitted(p.programId, call.accounts, call.data, session, p.vault, call.cpi, call.stackHeight, call.slot,
               R.StoredRules(session), ixs)
  {
    hide Runtime, Admitted;
  }

  /** A session account that still has the header it was created with. */
  lemma CreatedHeader(bump: byte, wallet: Pubkey, args: S.SessionArgs, session: seq<byte>)
    requires |session| >= 80 && session[..80] == S.Header(bump, wallet, args)
    ensures session[8..40] == wallet && session[40..72] == args.sessionKey && ReadU64(session, 72) == args.expiresAt
  {
    S.HeaderFields(bump, wallet, args, session[80..]);
    hide S.Header, ReadU64;
    SplitAt(session, 80);
  }

  // ---------------------------------------------------------------------
  // Execution by an authority

  /** Everything an execute by an authority depends on. An Ed25519 authority needs one
      signing entry of its key; a passkey needs an authentic payload behind the
      instructions, over them and the hash of the keys they resolve to. */
  lemma AuthorityAdmitsMeans(sha: Hash, x: Input, authority: seq<byte>, ixs: seq<CompactInstruction>)
    requires Encodes(x.data, ixs)
    ensures AuthorityAdmits(sha, x, authority, ixs) <==> (
      && |x.accounts| >= 4 && x.accounts[1].owner == x.programId && x.accounts[2].owner == x.programId
      && |x.accounts[1].data| > 0 && x.accounts[1].data[0] == 1 && x.accounts[2].isWritable
      && |authority| >= 48 && authority[0] == 2 && authority[16..48] == x.accounts[1].key
      && x.vault == x.accounts[3].key
      && (forall i :: 0 <= i < |ixs| ==> Callable(ixs[i], x.accounts, x.programId))
      && ((authority[1] == 0 && |authority| >= 80
           && exists i :: 0 <= i < |x.accounts| && x.accounts[i].isSigner && x.accounts[i].key == authority[48..80])
          || (authority[1] == 1 && SignedByPasskey(sha, x, authority, ixs))))
  {
    AccountsFitMeans(x.programId, x.accounts);
    forall i | 0 <= i < |ixs|
      ensures Invocable(ixs[i], x.accounts, x.programId) <==> Callable(ixs[i], x.accounts, x.programId)
    {
      CallableIs(ixs[i], x.accounts, x.programId);
    }
    hide Encodes, AccountsFit, Invocable, Callable, AuthenticBytes, AllInRange, Serialize, KeyBytes, ResolveAll;
  }

  ghost predicate SignedByPasskey(sha: Hash, x: Input, authority: seq<byte>, ixs: seq<CompactInstruction>)
    requires Encodes(x.data, ixs)
  {
    && AllInRange(ixs, |x.accounts|)
    && AuthenticBytes(sha, authority,
                      Call(x.accounts, x.data[|Serialize(ixs)|..],
                           Serialize(ixs) + sha(KeyBytes(ResolveAll(ixs, x.accounts))), 4, x.programId, x.stackHeight,
                           x.slot, x.previous))
  }

  /** An account made for a key executes what the key signs, for its wallet. */
  lemma CreatedKeyExecutes(sha: Hash, x: Input, key: Pubkey, role: byte, bump: byte, wallet: Pubkey,
                           ixs: seq<CompactInstruction>)
    requires Encodes(x.data, ixs)
    ensures AuthorityAdmits(sha, x, C.AuthorityBytes(sha, C.StatedEd25519(key), role, bump, wallet), ixs) <==> (
      && |x.accounts| >= 4 && x.accounts[1].owner == x.programId && x.accounts[2].owner == x.programId
      && |x.accounts[1].data| > 0 && x.accounts[1].data[0] == 1 && x.accounts[2].isWritable
      && x.accounts[1].key == wallet && x.vault == x.accounts[3].key
      && (forall i :: 0 <= i < |ixs| ==> Callable(ixs[i], x.accounts, x.programId))
      && exists i :: 0 <= i < |x.accounts| && x.accounts[i].isSigner && x.accounts[i].key == key)
  {
    var authority := C.AuthorityBytes(sha, C.StatedEd25519(key), role, bump, wallet);
    C.AuthorityFields(sha, C.StatedEd25519(key), role, bump, wallet);
    assert |authority| == 80 && C.KindOf(C.StatedEd25519(key)) == 0;
    AuthorityAdmitsMeans(sha, x, authority, ixs);
    hide *;
  }

  /** Everything the authentication of a passkey depends on, on the bytes. */
  lemma AuthenticMeans(sha: Hash, a: seq<byte>, c: Call, p: Payload)
    requires Representable(p)
    ensures Authentic(sha, a, c, p) <==> (
      && c.stackHeight <= 1 && |a| >= 145 && |PayloadBytes(p)| >= 18
      && ReadU32(PayloadBytes(p), 8) == (ReadU32(a, 8) + 1) % 0x1_0000_0000
      && ReadU64(PayloadBytes(p), 0) <= c.slot < ReadU64(PayloadBytes(p), 0) + 150
      && |c.accounts| > 0 && c.accounts[0].isSigner
      && Extract(p.clientDataJson, [116, 121, 112, 101])
         == Some([119, 101, 98, 97, 117, 116, 104, 110, 46, 103, 101, 116])
      && Extract(p.clientDataJson, [99, 104, 97, 108, 108, 101, 110, 103, 101]) == Some(Encode(sha(
           [c.discriminator] + p.prefix + c.signedPayload + c.accounts[0].key
           + LeEncode((ReadU32(a, 8) + 1) % 0x1_0000_0000, 4) + c.programId)))
      && |p.authenticatorData| >= 37 && p.authenticatorData[32] % 2 == 1 && p.authenticatorData[..32] == a[113..145]
      && p.prefix[12] < |c.accounts| && c.accounts[p.prefix[12]].key == INSTRUCTIONS_ID
      && c.previous.currentIndex > 0 && c.previous.programId == SECP256R1_PROGRAM_ID
      && VerifyInstructionData(c.previous.data, a[80..113], p.authenticatorData, sha(p.clientDataJson)).Ok?)
  {
    hide Extract, Encode, LeEncode, ReadU32, ReadU64, VerifyInstructionData, PayloadBytes;
  }

  /** Whatever authenticates names the stored relying party and has the user present. */
  lemma AuthenticFlags(sha: Hash, a: seq<byte>, c: Call, p: Payload)
    requires AuthenticBytes(sha, a, c) && Representable(p) && PayloadBytes(p) == c.payload
    ensures |a| >= 145 && |p.authenticatorData| >= 37
    ensures p.authenticatorData[32] % 2 == 1 && p.authenticatorData[..32] == a[113..145]
  {
    OnlySplit(sha, a, c, p);
    AuthenticMeans(sha, a, c, p);
    hide *;
  }

  // ---------------------------------------------------------------------
  // Execution of a deferred authorisation

  /** Everything the execution of a record depends on. */
  lemma DeferredAdmittedMeans(sha: Hash, programId: Pubkey, accounts: seq<AccountInfo>, data: seq<byte>,
                              record: seq<byte>, vault: Pubkey, slot: u64, ixs: seq<CompactInstruction>)
    requires Encodes(data, ixs)
    ensures DeferredAdmitted(sha, programId, accounts, data, record, vault, slot, ixs) <==> (
      && |accounts| >= 5 && accounts[0].isSigner && accounts[1].owner == programId && accounts[3].owner == programId
      && |accounts[1].data| > 0 && accounts[1].data[0] == 1
      && |record| >= 176 && record[0] == 4 && record[72..104] == accounts[1].key && record[136..168] == accounts[4].key
      && slot <= ReadU64(record, 168)
      && sha(Serialize(ixs)) == record[8..40] && AllInRange(ixs, |accounts|)
      && sha(KeyBytes(ResolveAll(ixs, accounts))) == record[40..72]
      && accounts[2].key == vault && accounts[3].lamports + accounts[4].lamports <= U64_MAX
      && forall i :: 0 <= i < |ixs| ==> Callable(ixs[i], accounts, programId))
  {
    forall i | 0 <= i < |ixs|
      ensures Invocable(ixs[i], accounts, programId) <==> Callable(ixs[i], accounts, programId)
    {
      CallableIs(ixs[i], accounts, programId);
    }
    hide Encodes, Invocable, Callable, AllInRange, Serialize, KeyBytes, ResolveAll, ReadU64;
  }

  /** A record that was made for these very instructions and keys executes them, up
      to its expiry, for its wallet, and refunded to the account that paid for it. */
  lemma GrantedExecutes(sha: Hash, programId: Pubkey, accounts: seq<AccountInfo>, data: seq<byte>, a: Authorisation,
                        record: seq<byte>, vault: Pubkey, slot: u64, ixs: seq<CompactInstruction>)
    requires Encodes(data, ixs) && AllInRange(ixs, |accounts|)
    requires a.instructionsHash == sha(Serialize(ixs)) && a.accountsHash == sha(KeyBytes(ResolveAll(ixs, accounts)))
    requires |record| == 176 && record[..8] == [4, 1, a.bump, 0, 0, 0, 0, 0] && ReadRecord(record) == a
    ensures DeferredAdmitted(sha, programId, accounts, data, record, vault, slot, ixs) <==> (
      && |accounts| >= 5 && accounts[0].isSigner && accounts[1].owner == programId && accounts[3].owner == programId
      && |accounts[1].data| > 0 && accounts[1].data[0] == 1
      && accounts[1].key == a.wallet && accounts[4].key == a.payer && slot <= a.expiresAt
      && accounts[2].key == vault && accounts[3].lamports + accounts[4].lamports <= U64_MAX
      && forall i :: 0 <= i < |ixs| ==> accounts[ixs[i].programIdIndex].key != programId)
  {
    DeferredAdmittedMeans(sha, programId, accounts, data, record, vault, slot, ixs);
    assert record[0] == record[..8][0];
    forall i | 0 <= i < |ixs|
      ensures ixs[i].programIdIndex < |accounts|
      ensures Callable(ixs[i], accounts, programId) <==> accounts[ixs[i].programIdIndex].key != programId
    {
      assert InRange(ixs[i], |accounts|);
    }
    hide Encodes, Callable, AllInRange, Serialize, KeyBytes, ResolveAll, ReadU64, DeferredAdmitted;
  }

  // ---------------------------------------------------------------------
  // What runs

  /** The instruction at position `i` of what an execute invokes is the listed one: its
      program, the keys behind its indexes in order, and its own data. */
  predicate InvokedAt(invoked: seq<Resolved>, ixs: seq<CompactInstruction>, accounts: seq<AccountInfo>, i: nat) {
    && |invoked| == |ixs| && i < |ixs| && ixs[i].programIdIndex < |accounts|
    && invoked[i].programId == accounts[ixs[i].programIdIndex].key && invoked[i].data == ixs[i].data
    && |invoked[i].accounts| == |ixs[i].accounts|
    && forall k :: 0 <= k < |ixs[i].accounts| ==>
         ixs[i].accounts[k] < |accounts| && invoked[i].accounts[k] == accounts[ixs[i].accounts[k]].key
  }

  lemma ResolvedIsInvoked(ixs: seq<CompactInstruction>, accounts: seq<AccountInfo>, i: nat)
    requires i < |ixs| && forall j :: 0 <= j < |ixs| ==> InRange(ixs[j], |accounts|)
    ensures InvokedAt(ResolveAll(ixs, accounts), ixs, accounts, i)
  {
    ResolvedFields(ixs, accounts, i);
    hide ResolveAll, InRange;
  }

  /** What a session execute invoked. */
  lemma SessionInvoked(programId: Pubkey, accounts: seq<AccountInfo>, data: seq<byte>, session: seq<byte>,
                       vault: Pubkey, cpi: nat -> seq<AccountInfo>, stackHeight: nat, slot: u64, rs: seq<Rule>,
                       ixs: seq<CompactInstruction>, i: nat)
    requires Runtime(cpi, accounts) && i < |ixs|
    requires Admitted(programId, accounts, data, session, vault, cpi, stackHeight, slot, rs, ixs)
    ensures forall j :: 0 <= j < |ixs| ==> InRange(ixs[j], |accounts|)
    ensures InvokedAt(ResolveAll(ixs, accounts), ixs, accounts, i)
  {
    AdmittedMeans(programId, accounts, data, session, vault, cpi, stackHeight, slot, rs, ixs);
    CallableInRange(ixs, accounts, programId);
    hide *;
    ResolvedIsInvoked(ixs, accounts, i);
  }

  /** What an execute by an authority invoked. */
  lemma AuthorityInvoked(sha: Hash, x: Input, authority: seq<byte>, ixs: seq<CompactInstruction>, i: nat)
    requires AuthorityAdmits(sha, x, authority, ixs) && i < |ixs|
    ensures forall j :: 0 <= j < |ixs| ==> InRange(ixs[j], |x.accounts|)
    ensures InvokedAt(ResolveAll(ixs, x.accounts), ixs, x.accounts, i)
  {
    assert Encodes(x.data, ixs);
    AuthorityAdmitsMeans(sha, x, authority, ixs);
    CallableInRange(ixs, x.accounts, x.programId);
    hide *;
    ResolvedIsInvoked(ixs, x.accounts, i);
  }

  /** What the execution of a record invoked. */
  lemma DeferredInvoked(sha: Hash, programId: Pubkey, accounts: seq<AccountInfo>, data: seq<byte>, record: seq<byte>,
                        vault: Pubkey, slot: u64, ixs: seq<CompactInstruction>, i: nat)
    requires DeferredAdmitted(sha, programId, accounts, data, record, vault, slot, ixs) && i < |ixs|
    ensures forall j :: 0 <= j < |ixs| ==> InRange(ixs[j], |accounts|)
    ensures InvokedAt(ResolveAll(ixs, accounts), ixs, accounts, i)
  {
    assert Encodes(data, ixs);
    DeferredAdmittedMeans(sha, programId, accounts, data, record, vault, slot, ixs);
    CallableInRange(ixs, accounts, programId);
    hide *;
    ResolvedIsInvoked(ixs, accounts, i);
  }

  lemma CallableInRange(ixs: seq<CompactInstruction>, accounts: seq<AccountInfo>, programId: Pubkey)
    ensures (forall i :: 0 <= i < |ixs| ==> Callable(ixs[i], accounts, programId)) ==>
      forall i :: 0 <= i < |ixs| ==> InRange(ixs[i], |accounts|)
  {
  }
}
