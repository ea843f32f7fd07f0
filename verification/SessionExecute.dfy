/** One execute authorised by a session: the guards, the CPI loop with its
    measure of gross outflow, and the checks behind it. Each CPI is an
    arbitrary change of the listed accounts. */
module SessionExecute {
  import opened Bytes
  import opened Prelude
  import opened Rules
  import opened Limits
  import opened Tokens
  import opened Compact
  import opened Evaluate
  import opened Snapshots
  import opened PostActions

  const WALLET: byte := 1
  const AUTHORITY: byte := 2
  const SESSION: byte := 3

  // ---------------------------------------------------------------------
  // Gross and net outflow

  /** The exact sum of the single losses along a sequence of balances. */
  function Drops(before: u64, posts: seq<u64>): nat {
    if posts == [] then 0
    else
      var n := |posts| - 1;
      Drops(before, posts[..n]) + SatSub(BalanceAt(before, posts, n), posts[n])
  }

  /** The balance after the first `k` CPIs. */
  function BalanceAt(before: u64, posts: seq<u64>, k: nat): u64
    requires k <= |posts|
  {
    if k == 0 then before else posts[k - 1]
  }

  lemma {:induction false} DropsPrefix(before: u64, posts: seq<u64>, k: nat)
    requires k <= |posts|
    ensures Drops(before, posts[..k]) <= Drops(before, posts)
  {
    if k < |posts| {
      DropsPrefix(before, posts[..|posts| - 1], k);
      assert posts[..|posts| - 1][..k] == posts[..k];
    } else {
      assert posts[..k] == posts;
    }
  }

  /** Gross outflow dominates the net loss between any two points of the run. */
  lemma {:induction false} DropsDominate(before: u64, posts: seq<u64>, j: nat, k: nat)
    requires j <= k <= |posts|
    ensures BalanceAt(before, posts, j) - BalanceAt(before, posts, k) <= Drops(before, posts)
  {
    if j == k {
    } else {
      var n := k - 1;
      var head := posts[..k];
      DropsPrefix(before, posts, k);
      assert head[..n] == posts[..n];
      DropsDominate(before, posts[..n], j, n);
      assert BalanceAt(before, posts[..n], j) == BalanceAt(before, posts, j);
      assert BalanceAt(before, posts[..n], n) == BalanceAt(before, posts, n) == BalanceAt(before, head, n);
    }
  }

  /** Gross outflow adds up over any split of the run. */
  lemma {:induction false} DropsSplit(before: u64, posts: seq<u64>, k: nat)
    requires k <= |posts|
    ensures Drops(before, posts)
      == Drops(before, posts[..k]) + Drops(BalanceAt(before, posts, k), posts[k..])
  {
    if k == |posts| {
      assert posts[..k] == posts;
    } else {
      var n := |posts| - 1;
      DropsSplit(before, posts[..n], k);
      assert posts[..n][..k] == posts[..k] && posts[k..][..n - k] == posts[..n][k..];
      assert BalanceAt(before, posts[..n], k) == BalanceAt(before, posts, k);
      assert BalanceAt(BalanceAt(before, posts, k), posts[k..], n - k) == BalanceAt(before, posts, n);
    }
  }

  /** While the balance only falls, gross outflow is exactly what is gone; while it
      never falls, nothing. With the split this fixes it on every run. */
  lemma {:induction false} DropsExactly(before: u64, posts: seq<u64>)
    ensures (forall k :: 0 <= k < |posts| ==> BalanceAt(before, posts, k) >= posts[k]) ==>
      Drops(before, posts) == before - BalanceAt(before, posts, |posts|)
    ensures (forall k :: 0 <= k < |posts| ==> BalanceAt(before, posts, k) <= posts[k]) ==> Drops(before, posts) == 0
  {
    if posts == [] {
    } else {
      var n := |posts| - 1;
      var head := posts[..n];
      DropsExactly(before, head);
      assert Drops(before, posts) == Drops(before, head) + SatSub(BalanceAt(before, posts, n), posts[n]);
      assert BalanceAt(before, posts, |posts|) == posts[n];
      forall k | 0 <= k <= n ensures BalanceAt(before, head, k) == BalanceAt(before, posts, k) { }
      hide Drops, BalanceAt;
      assert forall k :: 0 <= k < n ==> head[k] == posts[k];
    }
  }

  /** A session with a per-transaction SOL cap never loses more than the cap
      between any two points of the CPI sequence, so not at any prefix either. */
  lemma PerTxBoundsEveryPrefix(rs: seq<Rule>, f: Flow, slot: u64, i: nat, before: u64, posts: seq<u64>, j: nat, k: nat)
    requires i < |rs| && rs[i].PerTx? && rs[i].asset.Sol? && Accepts(rs, f, slot)
    requires f.gross == Min(Drops(before, posts), U64_MAX)
    requires j <= k <= |posts|
    ensures BalanceAt(before, posts, j) - BalanceAt(before, posts, k) <= rs[i].max
    ensures Expired(rs[i], slot) ==> BalanceAt(before, posts, j) <= BalanceAt(before, posts, k)
  {
    DropsDominate(before, posts, j, k);
    assert Fits(rs[i], f, slot);
  }

  // ---------------------------------------------------------------------
  // The CPI loop

  /** The account list after each CPI, as the runtime leaves it: the same
      accounts in the same order. */
  ghost predicate Runtime(cpi: nat -> seq<AccountInfo>, accounts: seq<AccountInfo>) {
    forall i :: |cpi(i)| == |accounts| && forall k :: 0 <= k < |accounts| ==> cpi(i)[k].key == accounts[k].key
  }

  function Final(accounts: seq<AccountInfo>, cpi: nat -> seq<AccountInfo>, n: nat): seq<AccountInfo> {
    if n == 0 then accounts else cpi(n - 1)
  }

  /** The vault balance after each of the first `n` CPIs. */
  ghost function VaultBalances(accounts: seq<AccountInfo>, cpi: nat -> seq<AccountInfo>, n: nat): (posts: seq<u64>)
    requires Runtime(cpi, accounts) && |accounts| >= 4
    ensures |posts| == n
  {
    if n == 0 then [] else VaultBalances(accounts, cpi, n - 1) + [Final(accounts, cpi, n)[3].lamports]
  }

  lemma VaultBalanceStep(accounts: seq<AccountInfo>, cpi: nat -> seq<AccountInfo>, n: nat)
    requires Runtime(cpi, accounts) && |accounts| >= 4
    ensures |Final(accounts, cpi, n)| == |accounts|
    ensures BalanceAt(accounts[3].lamports, VaultBalances(accounts, cpi, n), n) == Final(accounts, cpi, n)[3].lamports
    ensures n > 0 ==> (
      Drops(accounts[3].lamports, VaultBalances(accounts, cpi, n)) ==
      Drops(accounts[3].lamports, VaultBalances(accounts, cpi, n - 1))
      + SatSub(Final(accounts, cpi, n - 1)[3].lamports, Final(accounts, cpi, n)[3].lamports))
  {
    if n > 0 {
      var posts := VaultBalances(accounts, cpi, n);
      assert posts[..n - 1] == VaultBalances(accounts, cpi, n - 1);
      assert BalanceAt(accounts[3].lamports, posts, n - 1) == Final(accounts, cpi, n - 1)[3].lamports by {
        if n > 1 { assert posts[n - 2] == VaultBalances(accounts, cpi, n - 1)[n - 2]; }
      }
    }
  }

  predicate Invocable(ix: CompactInstruction, accounts: seq<AccountInfo>, programId: Pubkey) {
    InRange(ix, |accounts|) && accounts[ix.programIdIndex].key != programId
  }

  ghost predicate AllInvocable(ixs: seq<CompactInstruction>, accounts: seq<AccountInfo>, programId: Pubkey) {
    forall i :: 0 <= i < |ixs| ==> Invocable(ixs[i], accounts, programId)
  }

  /** Invokes the instructions in order and tracks the gross outflow of the vault. */
  method InvokeAll(programId: Pubkey, accounts: seq<AccountInfo>, ixs: seq<CompactInstruction>,
                   cpi: nat -> seq<AccountInfo>)
    returns (r: Result<()>, invoked: seq<Resolved>, grossOut: u64)
    requires |accounts| >= 4 && Runtime(cpi, accounts)
    ensures r.Ok? <==> AllInvocable(ixs, accounts, programId)
    ensures r.Ok? ==> invoked == ResolveAll(ixs, accounts)
    ensures r.Ok? ==> grossOut == Min(Drops(accounts[3].lamports, VaultBalances(accounts, cpi, |ixs|)), U64_MAX)
    ensures r.Err? ==> r.error == InvalidInstructionData || r.error == SelfReentrancyNotAllowed
    ensures r == Err(SelfReentrancyNotAllowed) ==>
      exists i :: 0 <= i < |ixs| && InRange(ixs[i], |accounts|) && accounts[ixs[i].programIdIndex].key == programId
    ensures r.Err? ==> |invoked| < |ixs| && !Invocable(ixs[|invoked|], accounts, programId)
    ensures forall i :: 0 <= i < |invoked| && i < |ixs| ==>
      Invocable(ixs[i], accounts, programId) && invoked[i] == Resolve(ixs[i], accounts)
  {
    hide Drops, VaultBalances, Runtime;
    grossOut := 0;
    invoked := [];
    var prevVaultLamports := accounts[3].lamports;
    assert Drops(accounts[3].lamports, VaultBalances(accounts, cpi, 0)) == 0 by { NoDrops(accounts, cpi); }
    for n := 0 to |ixs|
      invariant |invoked| == n
      invariant forall i :: 0 <= i < n ==>
        Invocable(ixs[i], accounts, programId) && invoked[i] == Resolve(ixs[i], accounts)
      invariant |Final(accounts, cpi, n)| == |accounts|
      invariant prevVaultLamports == Final(accounts, cpi, n)[3].lamports
      invariant grossOut == Min(Drops(accounts[3].lamports, VaultBalances(accounts, cpi, n)), U64_MAX)
    {
      VaultBalanceStep(accounts, cpi, n);
      VaultBalanceStep(accounts, cpi, n + 1);
      var decompressed := Decompress(ixs[n], accounts);
      if decompressed.Err? {
        return Err(decompressed.error), invoked, grossOut;
      }
      if decompressed.value.programId == programId {
        return Err(SelfReentrancyNotAllowed), invoked, grossOut;
      }
      invoked := invoked + [decompressed.value];
      var post := cpi(n)[3].lamports;
      if prevVaultLamports > post {
        grossOut := SatAdd(grossOut, prevVaultLamports - post);
      }
      prevVaultLamports := post;
    }
    return Ok(()), invoked, grossOut;
  }

  lemma NoDrops(accounts: seq<AccountInfo>, cpi: nat -> seq<AccountInfo>)
    requires Runtime(cpi, accounts) && |accounts| >= 4
    ensures Drops(accounts[3].lamports, VaultBalances(accounts, cpi, 0)) == 0
    ensures forall i :: |cpi(i)| == |accounts|
  {
  }

  // ---------------------------------------------------------------------
  // The guards

  /** The account checks every execute starts with. */
  predicate AccountsFit(programId: Pubkey, accounts: seq<AccountInfo>) {
    && |accounts| >= 4
    && accounts[1].owner == programId && accounts[2].owner == programId
    && |accounts[1].data| > 0 && accounts[1].data[0] == WALLET
    && accounts[2].isWritable
  }

  method CheckAccounts(programId: Pubkey, accounts: seq<AccountInfo>) returns (r: Result<()>)
    ensures r.Ok? <==> AccountsFit(programId, accounts)
    ensures r.Err? ==> r.error in {NotEnoughAccountKeys, IllegalOwner, InvalidAccountData}
    ensures r == Err(NotEnoughAccountKeys) <==> |accounts| < 4
    ensures r == Err(IllegalOwner) <==>
      |accounts| >= 4 && (accounts[1].owner != programId || accounts[2].owner != programId)
  {
    if |accounts| < 4 { return Err(NotEnoughAccountKeys); }
    var walletPda, authorityPda := accounts[1], accounts[2];
    if walletPda.owner != programId || authorityPda.owner != programId { return Err(IllegalOwner); }
    if |walletPda.data| == 0 || walletPda.data[0] != WALLET { return Err(InvalidAccountData); }
    if !authorityPda.isWritable { return Err(InvalidAccountData); }
    return Ok(());
  }

  predicate SignedBy(accounts: seq<AccountInfo>, key: Pubkey) {
    exists i :: 0 <= i < |accounts| && accounts[i].isSigner && accounts[i].key == key
  }

  /** A session account of this wallet whose key signs, at a slot up to its expiry. */
  predicate SessionOpen(accounts: seq<AccountInfo>, session: seq<byte>, slot: u64)
    requires |accounts| >= 4
  {
    && |session| >= SESSION_HEADER_SIZE && session[0] == SESSION
    && session[8..40] == accounts[1].key
    && slot <= ReadU64(session, 72)
    && SignedBy(accounts, session[40..72])
  }

  method CheckSession(accounts: seq<AccountInfo>, session: seq<byte>, stackHeight: nat, slot: u64)
    returns (r: Result<()>)
    requires |accounts| >= 4 && |session| > 0
    ensures r.Ok? <==> stackHeight <= 1 && SessionOpen(accounts, session, slot)
    ensures r == Err(PermissionDenied) <==> session[0] == SESSION && stackHeight > 1
    ensures r == Err(SessionExpired) <==> (
      && session[0] == SESSION && stackHeight <= 1 && |session| >= SESSION_HEADER_SIZE
      && session[8..40] == accounts[1].key && slot > ReadU64(session, 72))
    ensures r == Err(MissingRequiredSignature) <==> (
      && session[0] == SESSION && stackHeight <= 1 && |session| >= SESSION_HEADER_SIZE
      && session[8..40] == accounts[1].key && slot <= ReadU64(session, 72) && !SignedBy(accounts, session[40..72]))
  {
    if session[0] != SESSION { return Err(InvalidAccountData); }
    if stackHeight > 1 { return Err(PermissionDenied); }
    if |session| < SESSION_HEADER_SIZE { return Err(InvalidAccountData); }
    if session[8..40] != accounts[1].key { return Err(InvalidAccountData); }
    if slot > ReadU64(session, 72) { return Err(SessionExpired); }
    var sessionKey := session[40..72];
    for i := 0 to |accounts|
      invariant forall k :: 0 <= k < i ==> !(accounts[k].isSigner && accounts[k].key == sessionKey)
    {
      if accounts[i].isSigner && accounts[i].key == sessionKey { return Ok(()); }
    }
    return Err(MissingRequiredSignature);
  }

  // ---------------------------------------------------------------------
  // The whole execute

  /** What an execute took from the vault, measured on the listed accounts. */
  function MeasuredFlow(before: seq<AccountInfo>, after: seq<AccountInfo>, vault: Pubkey, gross: u64): Flow
    requires |before| >= 4 && |after| >= 4
  {
    Flow(SatSub(before[3].lamports, after[3].lamports), gross,
         (m: Pubkey) => SatSub(Balance(before, vault, m), Balance(after, vault, m)))
  }

  /** Only the flow of the listed mints matters to the rules. */
  lemma FlowsAgree(rs: seq<Rule>, f: Flow, g: Flow, slot: u64)
    requires f.sol == g.sol && f.gross == g.gross
    requires forall m: Pubkey :: m in Mints(rs) ==> f.tokens(m) == g.tokens(m)
    ensures Accepts(rs, f, slot) <==> Accepts(rs, g, slot)
    ensures Accepts(rs, f, slot) && Windowed(rs) ==> SettleAll(rs, f, slot) == SettleAll(rs, g, slot)
  {
    forall i | 0 <= i < |rs| ensures Cap(rs[i]) ==> Charge(rs[i], f) == Charge(rs[i], g) {
      if TokenCap(rs[i]) { MintsListed(rs, rs[i].asset.mint); }
    }
    assert forall i :: 0 <= i < |rs| ==> (Fits(rs[i], f, slot) <==> Fits(rs[i], g, slot));
  }

  /** The flow of an execute that ran all of `n` CPIs. */
  ghost function ExecutedFlow(accounts: seq<AccountInfo>, cpi: nat -> seq<AccountInfo>, vault: Pubkey, n: nat): Flow
    requires Runtime(cpi, accounts) && |accounts| >= 4
  {
    VaultBalanceStep(accounts, cpi, n);
    MeasuredFlow(accounts, Final(accounts, cpi, n), vault,
                 Min(Drops(accounts[3].lamports, VaultBalances(accounts, cpi, n)), U64_MAX))
  }

  /** What the checks behind the CPI loop ask of the accounts: the vault keeps its
      owner and data length, listed token accounts keep their authorities. */
  ghost predicate VaultIntact(accounts: seq<AccountInfo>, last: seq<AccountInfo>, session: seq<byte>, vault: Pubkey,
                              rs: seq<Rule>)
    requires |accounts| >= 4 && |last| >= 4
  {
    && (HasActions(session) ==> last[3].owner == accounts[3].owner && |last[3].data| == |accounts[3].data|)
    && forall snap :: snap in Authorities(accounts, vault, Mints(rs)) ==> Unchanged(snap, last)
  }

  ghost predicate PreChecked(rs: seq<Rule>, ixs: seq<CompactInstruction>, accounts: seq<AccountInfo>, slot: u64) {
    forall i :: 0 <= i < |ixs| ==> PreCheck(rs, ixs[i], accounts, slot).Ok?
  }

  /** The conditions on an open session and its parsed instructions. */
  ghost predicate RunAdmitted(programId: Pubkey, accounts: seq<AccountInfo>, session: seq<byte>, vault: Pubkey,
                              cpi: nat -> seq<AccountInfo>, slot: u64, rs: seq<Rule>, ixs: seq<CompactInstruction>)
    requires Runtime(cpi, accounts) && |accounts| >= 4
  {
    && PreChecked(rs, ixs, accounts, slot) && vault == accounts[3].key
    && AllInvocable(ixs, accounts, programId)
    && |Final(accounts, cpi, |ixs|)| == |accounts|
    && VaultIntact(accounts, Final(accounts, cpi, |ixs|), session, vault, rs)
    && Accepts(rs, ExecutedFlow(accounts, cpi, vault, |ixs|), slot)
  }

  /** The conditions under which a session may execute the instructions `ixs`. */
  ghost predicate Admitted(programId: Pubkey, accounts: seq<AccountInfo>, data: seq<byte>, session: seq<byte>,
                           vault: Pubkey, cpi: nat -> seq<AccountInfo>, stackHeight: nat, slot: u64,
                           rs: seq<Rule>, ixs: seq<CompactInstruction>)
    requires Runtime(cpi, accounts)
  {
    && AccountsFit(programId, accounts) && Encodes(data, ixs)
    && stackHeight <= 1 && SessionOpen(accounts, session, slot)
    && RunAdmitted(programId, accounts, session, vault, cpi, slot, rs, ixs)
  }

  /** What was measured before the CPIs. */
  datatype Before = Before(tokens: seq<TokenSnapshot>, authorities: seq<TokenAuthoritySnapshot>)

  predicate SnapshotsOf(before: Before, accounts: seq<AccountInfo>, vault: Pubkey, rs: seq<Rule>) {
    && (forall m: Pubkey :: m in Mints(rs) ==> SnapshotAmount(before.tokens, m) == Balance(accounts, vault, m))
    && before.authorities == Authorities(accounts, vault, Mints(rs))
  }

  method TakeSnapshots(session: seq<byte>, accounts: seq<AccountInfo>, vault: Pubkey, ghost rs: seq<Rule>)
    returns (r: Result<Before>)
    requires Stores(session, rs)
    ensures r.Ok? && SnapshotsOf(r.value, accounts, vault, rs)
  {
    hide Stores, Mints, Balance, SnapshotAmount, Authorities, HasActions;
    var tokens := SnapshotTokenBalances(session, accounts, vault, rs);
    var authorities := SnapshotTokenAuthorities(session, accounts, vault, rs);
    return Ok(Before(tokens.value, authorities.value));
  }

  lemma NoRules(session: seq<byte>, rs: seq<Rule>, f: Flow, slot: u64)
    requires Stores(session, rs) && !HasActions(session)
    ensures Accepts(rs, f, slot) && Stores(session, SettleAll(rs, f, slot))
  {
  }

  /** The error of the checks behind the CPI loop: a changed vault first, then a
      changed token account, then the first limit exceeded. */
  ghost function AfterError(accounts: seq<AccountInfo>, last: seq<AccountInfo>, session: seq<byte>, vault: Pubkey,
                            rs: seq<Rule>, grossOut: u64, slot: u64): Error
    requires |accounts| >= 4 && |last| >= 4
  {
    if HasActions(session) && last[3].owner != accounts[3].owner then SessionVaultOwnerChanged
    else if HasActions(session) && |last[3].data| != |accounts[3].data| then SessionVaultDataLenChanged
    else if exists snap :: snap in Authorities(accounts, vault, Mints(rs)) && !Unchanged(snap, last)
    then SessionTokenAuthorityChanged
    else
      var e := PostError(rs, MeasuredFlow(accounts, last, vault, grossOut), slot);
      if e.Some? then e.value else InvalidAccountData
  }

  lemma {:induction false} FirstErrorsAgree(rs: seq<Rule>, f: Flow, g: Flow, slot: u64, solPass: bool)
    requires forall i :: 0 <= i < |rs| ==> RuleError(rs[i], f, slot, solPass) == RuleError(rs[i], g, slot, solPass)
    ensures FirstError(rs, f, slot, solPass) == FirstError(rs, g, slot, solPass)
  {
    if rs == [] {
    } else {
      var a := rs[..|rs| - 1];
      assert forall i :: 0 <= i < |a| ==> a[i] == rs[i];
      FirstErrorsAgree(a, f, g, slot, solPass);
    }
  }

  lemma ErrorsAgree(rs: seq<Rule>, f: Flow, g: Flow, slot: u64)
    requires f.sol == g.sol && f.gross == g.gross
    requires forall m: Pubkey :: m in Mints(rs) ==> f.tokens(m) == g.tokens(m)
    ensures PostError(rs, f, slot) == PostError(rs, g, slot)
  {
    forall i | 0 <= i < |rs|
      ensures RuleError(rs[i], f, slot, true) == RuleError(rs[i], g, slot, true)
      ensures RuleError(rs[i], f, slot, false) == RuleError(rs[i], g, slot, false)
    {
      if TokenCap(rs[i]) { MintsListed(rs, rs[i].asset.mint); }
    }
    FirstErrorsAgree(rs, f, g, slot, true);
    FirstErrorsAgree(rs, f, g, slot, false);
  }

  /** The checks behind the CPIs have errors of their own. */
  lemma AfterErrorKinds(accounts: seq<AccountInfo>, last: seq<AccountInfo>, session: seq<byte>, vault: Pubkey,
                        rs: seq<Rule>, grossOut: u64, slot: u64)
    requires |accounts| >= 4 && |last| >= 4
    ensures AfterError(accounts, last, session, vault, rs, grossOut, slot)
      !in {SessionExpired, MissingRequiredSignature}
  {
    var f := MeasuredFlow(accounts, last, vault, grossOut);
    LimitErrorKinds(rs, f, slot, true);
    LimitErrorKinds(rs, f, slot, false);
    hide MeasuredFlow, FirstError, Unchanged, Authorities, Mints;
  }

  lemma {:induction false} LimitErrorKinds(rs: seq<Rule>, f: Flow, slot: u64, solPass: bool)
    ensures FirstError(rs, f, slot, solPass).Some? ==>
      FirstError(rs, f, slot, solPass).value !in {SessionExpired, MissingRequiredSignature}
  {
    if rs == [] {
    } else {
      LimitErrorKinds(rs[..|rs| - 1], f, slot, solPass);
      hide Fits;
    }
  }

  /** The checks behind the CPI loop: on success the rules are settled with the
      measured flow, otherwise no byte changes. */
  method CheckAfter(accounts: seq<AccountInfo>, last: seq<AccountInfo>, session: array<byte>, vault: Pubkey,
                    before: Before, grossOut: u64, slot: u64, ghost rs: seq<Rule>)
    returns (r: Result<()>)
    requires Stores(session[..], rs) && |accounts| >= 4 && |last| == |accounts|
    requires SnapshotsOf(before, accounts, vault, rs)
    modifies session
    ensures var f := MeasuredFlow(accounts, last, vault, grossOut);
      && (r.Ok? <==> VaultIntact(accounts, last, old(session[..]), vault, rs) && Accepts(rs, f, slot))
      && (r.Ok? ==> Stores(session[..], SettleAll(rs, f, slot)))
    ensures r.Err? ==> session[..] == old(session[..])
    ensures r.Err? ==> r.error == AfterError(accounts, last, old(session[..]), vault, rs, grossOut, slot)
    ensures session.Length >= SESSION_HEADER_SIZE ==>
      session[..][..SESSION_HEADER_SIZE] == old(session[..])[..SESSION_HEADER_SIZE]
  {
    ghost var f := MeasuredFlow(accounts, last, vault, grossOut);
    ghost var g := FlowOf(before.tokens, last, vault, accounts[3].lamports, last[3].lamports, grossOut);
    FlowsAgree(rs, f, g, slot);
    ErrorsAgree(rs, f, g, slot);
    assert Windowed(rs);
    hide PostError, Stores, Mints, Balance, SnapshotAmount, Authorities, Unchanged, Accepts, Windowed;
    if HasActions(session[..]) {
      if last[3].owner != accounts[3].owner { return Err(SessionVaultOwnerChanged); }
      if |last[3].data| != |accounts[3].data| { return Err(SessionVaultDataLenChanged); }
    }
    var authorities := VerifyTokenAuthoritiesUnchanged(before.authorities, last);
    if authorities.Err? { return Err(authorities.error); }
    if HasActions(session[..]) {
      r := EvaluatePostActions(session, last, vault, accounts[3].lamports, last[3].lamports, grossOut, before.tokens,
                               slot, rs);
    } else {
      NoRules(session[..], rs, f, slot);
      r := Ok(());
    }
  }

  /** Every check before the CPIs passes, and no CPI is refused. */
  ghost predicate CpisRun(accounts: seq<AccountInfo>, vault: Pubkey, slot: u64, rs: seq<Rule>,
                          ixs: seq<CompactInstruction>, programId: Pubkey)
    requires |accounts| >= 4
  {
    PreChecked(rs, ixs, accounts, slot) && vault == accounts[3].key && AllInvocable(ixs, accounts, programId)
  }

  /** The error of the checks behind the CPIs of a whole run. */
  ghost function RunError(accounts: seq<AccountInfo>, session: seq<byte>, vault: Pubkey, cpi: nat -> seq<AccountInfo>,
                          slot: u64, rs: seq<Rule>, n: nat): Error
    requires Runtime(cpi, accounts) && |accounts| >= 4
  {
    VaultBalanceStep(accounts, cpi, n);
    AfterError(accounts, Final(accounts, cpi, n), session, vault, rs,
               Min(Drops(accounts[3].lamports, VaultBalances(accounts, cpi, n)), U64_MAX), slot)
  }

  /** A readable list and a session of this wallet, called at top level. */
  ghost predicate ForThisWallet(programId: Pubkey, accounts: seq<AccountInfo>, data: seq<byte>, session: seq<byte>,
                                stackHeight: nat) {
    && AccountsFit(programId, accounts) && (exists list :: Encodes(data, list))
    && stackHeight <= 1 && |session| >= 80 && session[0] == 3 && session[8..40] == accounts[1].key
  }

  /** Succeeds exactly when the session may execute the instructions that the
      input encodes. Then it has invoked exactly those, in order, and the session
      stores the settled rules behind an unchanged header; on any error the
      session is unchanged. */
  method ExecuteSession(programId: Pubkey, accounts: seq<AccountInfo>, instructionData: seq<byte>, session: array<byte>,
                        vaultKey: Pubkey, cpi: nat -> seq<AccountInfo>, stackHeight: nat,
                        currentSlot: u64, ghost rs: seq<Rule>)
    returns (r: Result<()>, invoked: seq<Resolved>, ghost ixs: seq<CompactInstruction>)
    requires Stores(session[..], rs) && Runtime(cpi, accounts)
    requires session.Length > 0 ==> session[0] != AUTHORITY
    modifies session
    ensures r.Ok? ==> (
      && Admitted(programId, accounts, instructionData, old(session[..]), vaultKey, cpi, stackHeight, currentSlot, rs,
                  ixs)
      && invoked == ResolveAll(ixs, accounts)
      && Stores(session[..], SettleAll(rs, ExecutedFlow(accounts, cpi, vaultKey, |ixs|), currentSlot))
      && session[..][..SESSION_HEADER_SIZE] == old(session[..])[..SESSION_HEADER_SIZE])
    ensures r.Err? ==> session[..] == old(session[..])
    ensures r.Err? ==> forall list ::
      !Admitted(programId, accounts, instructionData, session[..], vaultKey, cpi, stackHeight, currentSlot, rs, list)
    ensures r == Err(SessionExpired) <==>
      ForThisWallet(programId, accounts, instructionData, old(session[..]), stackHeight)
      && currentSlot > ReadU64(old(session[..]), 72)
    ensures r == Err(MissingRequiredSignature) <==>
      ForThisWallet(programId, accounts, instructionData, old(session[..]), stackHeight)
      && currentSlot <= ReadU64(old(session[..]), 72) && !SignedBy(accounts, old(session[..])[40..72])
    ensures (&& r.Err? && AccountsFit(programId, accounts) && |accounts| >= 4 && Encodes(instructionData, ixs)
             && stackHeight <= 1 && SessionOpen(accounts, old(session[..]), currentSlot)
             && CpisRun(accounts, vaultKey, currentSlot, rs, ixs, programId)) ==>
      r.error == RunError(accounts, old(session[..]), vaultKey, cpi, currentSlot, rs, |ixs|)
    ensures ForThisWallet(programId, accounts, instructionData, old(session[..]), stackHeight) ==>
      Encodes(instructionData, ixs)
  {
    ghost var start := session[..];
    assert AccountsFit(programId, accounts) ==> |accounts| >= 4;
    assert |start| == 0 && |accounts| >= 4 ==> !SessionOpen(accounts, start, currentSlot);
    hide Runtime, Stores, Encodes, SessionOpen, PreChecked, AllInvocable, VaultIntact, Accepts, AccountsFit;
    hide CpisRun, RunError;
    invoked, ixs := [], [];
    var accountsFit := CheckAccounts(programId, accounts);
    if accountsFit.Err? { return Err(accountsFit.error), invoked, ixs; }
    if session.Length == 0 { return Err(InvalidAccountData), invoked, ixs; }
    var parsed := ParseCompactInstructions(instructionData);
    if parsed.Err? { return Err(parsed.error), invoked, ixs; }
    ixs := parsed.value.0;
    OnlyParsed(programId, accounts, instructionData, start, vaultKey, cpi, stackHeight, currentSlot, rs, ixs);
    var open := CheckSession(accounts, session[..], stackHeight, currentSlot);
    if open.Err? { return Err(open.error), invoked, ixs; }
    r, invoked := RunSession(programId, accounts, parsed.value.0, session, vaultKey, cpi, currentSlot, rs);
  }

  lemma OnlyParsed(programId: Pubkey, accounts: seq<AccountInfo>, data: seq<byte>, session: seq<byte>, vault: Pubkey,
                   cpi: nat -> seq<AccountInfo>, stackHeight: nat, slot: u64,
                   rs: seq<Rule>, ixs: seq<CompactInstruction>)
    requires Runtime(cpi, accounts) && Encodes(data, ixs)
    ensures forall list ::
      Admitted(programId, accounts, data, session, vault, cpi, stackHeight, slot, rs, list) ==> list == ixs
  {
    hide Encodes, SessionOpen, PreChecked, AllInvocable, VaultIntact, Accepts, AccountsFit, ExecutedFlow, Final;
    forall list | Admitted(programId, accounts, data, session, vault, cpi, stackHeight, slot, rs, list)
      ensures list == ixs
    {
      UniqueDecoding(data, list, ixs);
    }
  }

  method RunSession(programId: Pubkey, accounts: seq<AccountInfo>, ixs: seq<CompactInstruction>, session: array<byte>,
                    vaultKey: Pubkey, cpi: nat -> seq<AccountInfo>, currentSlot: u64, ghost rs: seq<Rule>)
    returns (r: Result<()>, invoked: seq<Resolved>)
    requires Stores(session[..], rs) && Runtime(cpi, accounts) && |accounts| >= 4
    modifies session
    ensures r.Ok? ==> (
      && RunAdmitted(programId, accounts, old(session[..]), vaultKey, cpi, currentSlot, rs, ixs)
      && invoked == ResolveAll(ixs, accounts)
      && Stores(session[..], SettleAll(rs, ExecutedFlow(accounts, cpi, vaultKey, |ixs|), currentSlot)))
    ensures r.Err? ==> session[..] == old(session[..])
    ensures r.Err? ==> !RunAdmitted(programId, accounts, session[..], vaultKey, cpi, currentSlot, rs, ixs)
    ensures r != Err(SessionExpired) && r != Err(MissingRequiredSignature)
    ensures r.Err? && CpisRun(accounts, vaultKey, currentSlot, rs, ixs, programId) ==>
      r.error == RunError(accounts, old(session[..]), vaultKey, cpi, currentSlot, rs, |ixs|)
    ensures session.Length >= SESSION_HEADER_SIZE ==>
      session[..][..SESSION_HEADER_SIZE] == old(session[..])[..SESSION_HEADER_SIZE]
  {
    invoked := [];
    VaultBalanceStep(accounts, cpi, |ixs|);
    PreCheckSkipped(session[..], rs, ixs, accounts, currentSlot, programId);
    hide Runtime, Stores, PreChecked, AllInvocable, VaultIntact, Accepts, SnapshotsOf, Drops, VaultBalances;
    if HasActions(session[..]) {
      var pre := EvaluatePreActions(session[..], ixs, accounts, currentSlot, rs);
      PreCheckedIs(rs, ixs, accounts, currentSlot);
      if pre.Err? {
        PreErrorKinds(rs, ixs, accounts, currentSlot, pre);
        return Err(pre.error), invoked;
      }
    }
    if accounts[3].key != vaultKey { return Err(InvalidSeeds), invoked; }
    var before := TakeSnapshots(session[..], accounts, vaultKey, rs);
    var ran: Result<()>, grossOut: u64;
    ran, invoked, grossOut := InvokeAll(programId, accounts, ixs, cpi);
    if ran.Err? { return Err(ran.error), invoked; }
    AfterErrorKinds(accounts, Final(accounts, cpi, |ixs|), session[..], vaultKey, rs, grossOut, currentSlot);
    r := CheckAfter(accounts, Final(accounts, cpi, |ixs|), session, vaultKey, before.value, grossOut, currentSlot, rs);
  }

  lemma PreErrorKinds(rs: seq<Rule>, ixs: seq<CompactInstruction>, accounts: seq<AccountInfo>, slot: u64,
                      r: Result<()>)
    requires exists i: nat :: FirstFailure(rs, ixs, accounts, slot, i) && PreCheck(rs, ixs[i], accounts, slot) == r
    ensures r != Err(SessionExpired) && r != Err(MissingRequiredSignature)
  {
  }

  lemma PreCheckedIs(rs: seq<Rule>, ixs: seq<CompactInstruction>, accounts: seq<AccountInfo>, slot: u64)
    ensures PreChecked(rs, ixs, accounts, slot) <==>
      forall i :: 0 <= i < |ixs| ==> PreCheck(rs, ixs[i], accounts, slot).Ok?
  {
  }

  /** Without stored rules the skipped pre-check would have passed. */
  lemma PreCheckSkipped(session: seq<byte>, rs: seq<Rule>, ixs: seq<CompactInstruction>, accounts: seq<AccountInfo>,
                        slot: u64,
                        programId: Pubkey)
    requires Stores(session, rs)
    ensures !HasActions(session) && AllInvocable(ixs, accounts, programId) ==> PreChecked(rs, ixs, accounts, slot)
  {
  }

  /** Corollary of the admission: every program an admitted execute invokes is a
      permitted one and not the program itself. */
  lemma ProgramsRestricted(programId: Pubkey, accounts: seq<AccountInfo>, data: seq<byte>, session: seq<byte>,
                           vault: Pubkey,
                           cpi: nat -> seq<AccountInfo>, stackHeight: nat, slot: u64, rs: seq<Rule>,
                           ixs: seq<CompactInstruction>, i: nat)
    requires Runtime(cpi, accounts) && i < |ixs|
    requires Admitted(programId, accounts, data, session, vault, cpi, stackHeight, slot, rs, ixs)
    ensures var program := ResolveAll(ixs, accounts)[i].programId;
      program != programId && Permitted(rs, program, slot)
  {
    hide Accepts, VaultIntact, SessionOpen, Encodes, Listed, HasWhitelist;
    assert PreCheck(rs, ixs[i], accounts, slot).Ok? && Invocable(ixs[i], accounts, programId);
  }

  /** Every token account that counted for a listed mint keeps its authorities
      through an admitted execute. */
  lemma AuthoritiesKept(programId: Pubkey, accounts: seq<AccountInfo>, data: seq<byte>, session: seq<byte>,
                        vault: Pubkey,
                        cpi: nat -> seq<AccountInfo>, stackHeight: nat, slot: u64, rs: seq<Rule>,
                        ixs: seq<CompactInstruction>, i: nat, mint: Pubkey)
    requires Runtime(cpi, accounts) && i < |accounts|
    requires Admitted(programId, accounts, data, session, vault, cpi, stackHeight, slot, rs, ixs)
    requires ListedMint(rs, mint) && Holds(accounts[i], vault, mint)
    ensures var found := FindByKey(Final(accounts, cpi, |ixs|), accounts[i].key);
      && found.Some? && TokenAccount(found.value) && found.value.data[32..64] == vault
      && found.value.data[72..108] == accounts[i].data[72..108]
      && found.value.data[129..165] == accounts[i].data[129..165]
  {
    hide Accepts, SessionOpen, Encodes, PreChecked, AllInvocable, AccountsFit, FindByKey, Unchanged, Holds;
    AuthorityFrozen(accounts, Final(accounts, cpi, |ixs|), vault, rs, i, mint);
  }

  lemma BalanceAtPrefix(before: u64, posts: seq<u64>, last: u64, k: nat)
    requires k <= |posts|
    ensures BalanceAt(before, posts + [last], k) == BalanceAt(before, posts, k)
  {
  }

  lemma LastVaultBalance(accounts: seq<AccountInfo>, cpi: nat -> seq<AccountInfo>, n: nat)
    requires Runtime(cpi, accounts) && |accounts| >= 4 && n > 0
    ensures |Final(accounts, cpi, n)| == |accounts|
    ensures VaultBalances(accounts, cpi, n)
      == VaultBalances(accounts, cpi, n - 1) + [Final(accounts, cpi, n)[3].lamports]
  {
  }

  lemma {:induction false} VaultBalanceAt(accounts: seq<AccountInfo>, cpi: nat -> seq<AccountInfo>, n: nat, k: nat)
    requires Runtime(cpi, accounts) && |accounts| >= 4 && k <= n
    ensures |Final(accounts, cpi, k)| == |accounts|
    ensures BalanceAt(accounts[3].lamports, VaultBalances(accounts, cpi, n), k) == Final(accounts, cpi, k)[3].lamports
  {
    hide *;
    VaultBalanceStep(accounts, cpi, k);
    if k == n {
    } else {
      VaultBalanceAt(accounts, cpi, n - 1, k);
      LastVaultBalance(accounts, cpi, n);
      BalanceAtPrefix(accounts[3].lamports, VaultBalances(accounts, cpi, n - 1),
                      Final(accounts, cpi, n)[3].lamports, k);
    }
  }

  /** With a per-transaction SOL cap an admitted execute never stands more than
      the cap below its starting balance, after any number of its CPIs. */
  lemma NoPrefixLosesMore(programId: Pubkey, accounts: seq<AccountInfo>, data: seq<byte>, session: seq<byte>,
                          vault: Pubkey,
                          cpi: nat -> seq<AccountInfo>, stackHeight: nat, slot: u64, rs: seq<Rule>,
                          ixs: seq<CompactInstruction>, i: nat, k: nat)
    requires Runtime(cpi, accounts) && i < |rs| && rs[i].PerTx? && rs[i].asset.Sol? && k <= |ixs|
    requires Admitted(programId, accounts, data, session, vault, cpi, stackHeight, slot, rs, ixs)
    ensures |Final(accounts, cpi, k)| == |accounts| >= 4
    ensures accounts[3].lamports - Final(accounts, cpi, k)[3].lamports <= rs[i].max
  {
    VaultBalanceAt(accounts, cpi, |ixs|, k);
    hide SessionOpen, Encodes, PreChecked, AllInvocable, VaultIntact, Drops, VaultBalances, Accepts, Runtime;
    PerTxBoundsEveryPrefix(rs, ExecutedFlow(accounts, cpi, vault, |ixs|), slot, i, accounts[3].lamports,
                           VaultBalances(accounts, cpi, |ixs|), 0, k);
  }
}
