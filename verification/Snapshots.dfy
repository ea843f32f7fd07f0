/** The snapshots taken before the CPI loop of a session execute. */
module Snapshots {
  import opened Bytes
  import opened Prelude
  import opened Actions
  import opened Rules
  import opened Validation
  import opened Limits
  import opened Tokens
  import opened Evaluate

  predicate TokenCap(r: Rule) {
    Cap(r) && r.asset.Token?
  }

  /** Some token rule names the mint. */
  predicate ListedMint(rs: seq<Rule>, mint: Pubkey) {
    exists i :: 0 <= i < |rs| && TokenCap(rs[i]) && rs[i].asset.mint == mint
  }

  /** The mints of the token rules, each once, in order of first mention. */
  function Mints(rs: seq<Rule>): seq<Pubkey> {
    if rs == [] then []
    else
      var r, mints := rs[|rs| - 1], Mints(rs[..|rs| - 1]);
      if TokenCap(r) && r.asset.mint !in mints then mints + [r.asset.mint] else mints
  }

  predicate TokenTag(t: ActionType) {
    t == TokenLimit || t == TokenRecurringLimit || t == TokenMaxPerTx
  }

  lemma MintsStep(rs: seq<Rule>, n: nat)
    requires n < |rs|
    ensures Mints(rs[..0]) == []
    ensures var mints := Mints(rs[..n]);
      if TokenTag(Tag(rs[n])) && Key(rs[n]) !in mints then Mints(rs[..n + 1]) == mints + [Key(rs[n])]
      else Mints(rs[..n + 1]) == mints
  {
    assert rs[..n + 1][..n] == rs[..n] && rs[..n + 1][n] == rs[n];
  }

  lemma {:induction false} MintsListed(rs: seq<Rule>, mint: Pubkey)
    ensures mint in Mints(rs) <==> ListedMint(rs, mint)
  {
    if rs == [] {
    } else {
      var n := |rs| - 1;
      var a := rs[..n];
      MintsListed(a, mint);
      if ListedMint(rs, mint) {
        var i :| 0 <= i < |rs| && TokenCap(rs[i]) && rs[i].asset.mint == mint;
        assert i < n ==> a[i] == rs[i];
      }
      if ListedMint(a, mint) {
        var i :| 0 <= i < n && TokenCap(a[i]) && a[i].asset.mint == mint;
        assert rs[i] == a[i];
      }
    }
  }

  lemma {:induction false} MintsDistinct(rs: seq<Rule>, i: nat, j: nat)
    requires i < j < |Mints(rs)|
    ensures Mints(rs)[i] != Mints(rs)[j]
  {
    if rs == [] || j >= |Mints(rs[..|rs| - 1])| {
    } else {
      MintsDistinct(rs[..|rs| - 1], i, j);
    }
  }

  method CollectMints(buf: seq<byte>, views: seq<ActionView>, ghost rs: seq<Rule>) returns (mints: seq<Pubkey>)
    requires ShowsAll(buf, views, rs)
    ensures mints == Mints(rs)
  {
    mints := [];
    assert Mints(rs[..0]) == [];
    hide Mints, Tag, Key, ShowsAll;
    for n := 0 to |views|
      invariant mints == Mints(rs[..n])
    {
      var view := views[n];
      ShownView(buf, views, rs, n);
      MintsStep(rs, n);
      if TokenTag(view.actionType) {
        var mint := buf[view.dataOffset..view.dataOffset + 32];
        if mint !in mints {
          mints := mints + [mint];
        }
      }
    }
    assert rs[..|views|] == rs;
  }

  // ---------------------------------------------------------------------
  // Balances

  datatype TokenSnapshot = TokenSnapshot(mint: Pubkey, amount: u64)

  /** The amount of the first snapshot of a mint, zero without one. */
  function SnapshotAmount(snaps: seq<TokenSnapshot>, mint: Pubkey): u64 {
    if snaps == [] then 0
    else if snaps[0].mint == mint then snaps[0].amount
    else SnapshotAmount(snaps[1..], mint)
  }

  predicate HasSnapshot(snaps: seq<TokenSnapshot>, mint: Pubkey) {
    exists i :: 0 <= i < |snaps| && snaps[i].mint == mint
  }

  lemma {:induction false} SnapshotAppend(snaps: seq<TokenSnapshot>, s: TokenSnapshot, mint: Pubkey)
    ensures SnapshotAmount(snaps + [s], mint) ==
      if HasSnapshot(snaps, mint) then SnapshotAmount(snaps, mint) else if s.mint == mint then s.amount else 0
    ensures !HasSnapshot(snaps, mint) ==> SnapshotAmount(snaps, mint) == 0
  {
    if snaps != [] {
      SnapshotAppend(snaps[1..], s, mint);
      assert (snaps + [s])[1..] == snaps[1..] + [s];
      assert HasSnapshot(snaps[1..], mint) ==> HasSnapshot(snaps, mint) by {
        if HasSnapshot(snaps[1..], mint) {
          var i :| 0 <= i < |snaps[1..]| && snaps[1..][i].mint == mint;
          assert snaps[i + 1].mint == mint;
        }
      }
      if HasSnapshot(snaps, mint) && snaps[0].mint != mint {
        var i :| 0 <= i < |snaps| && snaps[i].mint == mint;
        assert snaps[1..][i - 1].mint == mint;
      }
    } else {
      assert (snaps + [s])[1..] == [];
    }
  }

  /** Snapshots the balance of every listed mint: looking a listed mint up in the
      result gives its balance in the given accounts. */
  method SnapshotTokenBalances(sessionData: seq<byte>, accounts: seq<AccountInfo>, vaultKey: Pubkey,
                               ghost rs: seq<Rule>)
    returns (r: Result<seq<TokenSnapshot>>)
    requires Stores(sessionData, rs)
    ensures r.Ok?
    ensures forall m: Pubkey :: m in Mints(rs) ==> SnapshotAmount(r.value, m) == Balance(accounts, vaultKey, m)
  {
    if !HasActions(sessionData) { return Ok([]); }
    var actionsBuf := sessionData[SESSION_HEADER_SIZE..];
    var actions := ParseStored(actionsBuf, rs);
    var mints := CollectMints(actionsBuf, actions.value, rs);
    var snapshots := SnapshotMints(accounts, vaultKey, mints, rs);
    return Ok(snapshots);
  }

  method SnapshotMints(accounts: seq<AccountInfo>, vaultKey: Pubkey, mints: seq<Pubkey>, ghost rs: seq<Rule>)
    returns (snapshots: seq<TokenSnapshot>)
    requires mints == Mints(rs)
    ensures forall m: Pubkey :: m in mints ==> SnapshotAmount(snapshots, m) == Balance(accounts, vaultKey, m)
  {
    snapshots := [];
    for n := 0 to |mints|
      invariant forall k :: 0 <= k < n ==> SnapshotAmount(snapshots, mints[k]) == Balance(accounts, vaultKey, mints[k])
      invariant forall k :: n <= k < |mints| ==> !HasSnapshot(snapshots, mints[k])
    {
      forall k | n < k < |mints| ensures mints[k] != mints[n] { MintsDistinct(rs, n, k); }
      forall k | 0 <= k < n ensures mints[k] != mints[n] { MintsDistinct(rs, k, n); }
      var amount := FindTokenBalance(accounts, vaultKey, mints[n]);
      var s := TokenSnapshot(mints[n], if amount.Some? then amount.value else 0);
      forall k | 0 <= k < |mints| { SnapshotAppend(snapshots, s, mints[k]); }
      if amount.Some? {
        snapshots := snapshots + [s];
      }
    }
  }

  // ---------------------------------------------------------------------
  // Authorities

  /** An account whose balance counts for a listed mint of the vault. */
  predicate Watched(acc: AccountInfo, vault: Pubkey, mints: seq<Pubkey>) {
    TokenAccount(acc) && acc.data[32..64] == vault && acc.data[0..32] in mints
  }

  function Authorities(accounts: seq<AccountInfo>, vault: Pubkey, mints: seq<Pubkey>): seq<TokenAuthoritySnapshot> {
    if accounts == [] then []
    else
      var acc := accounts[|accounts| - 1];
      Authorities(accounts[..|accounts| - 1], vault, mints)
        + if Watched(acc, vault, mints) then [AuthorityOf(acc)] else []
  }

  lemma {:induction false} WatchedAreSnapshotted(accounts: seq<AccountInfo>, vault: Pubkey, mints: seq<Pubkey>, i: nat)
    requires i < |accounts| && Watched(accounts[i], vault, mints)
    ensures AuthorityOf(accounts[i]) in Authorities(accounts, vault, mints)
  {
    if i == |accounts| - 1 {
    } else {
      WatchedAreSnapshotted(accounts[..|accounts| - 1], vault, mints, i);
    }
  }

  method SnapshotTokenAuthorities(sessionData: seq<byte>, accounts: seq<AccountInfo>, vaultKey: Pubkey,
                                  ghost rs: seq<Rule>)
    returns (r: Result<seq<TokenAuthoritySnapshot>>)
    requires Stores(sessionData, rs)
    ensures r.Ok?
    ensures r.value == Authorities(accounts, vaultKey, Mints(rs))
  {
    if !HasActions(sessionData) {
      NoAuthorities(accounts, vaultKey);
      return Ok([]);
    }
    var actionsBuf := sessionData[SESSION_HEADER_SIZE..];
    var actions := ParseStored(actionsBuf, rs);
    var mints := CollectMints(actionsBuf, actions.value, rs);
    if |mints| == 0 {
      NoAuthorities(accounts, vaultKey);
      return Ok([]);
    }
    var out := WatchAccounts(accounts, vaultKey, mints);
    return Ok(out);
  }

  lemma {:induction false} NoAuthorities(accounts: seq<AccountInfo>, vault: Pubkey)
    ensures Authorities(accounts, vault, []) == []
  {
    if accounts == [] {
    } else {
      NoAuthorities(accounts[..|accounts| - 1], vault);
    }
  }

  method WatchAccounts(accounts: seq<AccountInfo>, vaultKey: Pubkey, mints: seq<Pubkey>)
    returns (out: seq<TokenAuthoritySnapshot>)
    ensures out == Authorities(accounts, vaultKey, mints)
  {
    out := [];
    for n := 0 to |accounts|
      invariant out == Authorities(accounts[..n], vaultKey, mints)
    {
      var acc := accounts[n];
      assert accounts[..n + 1][..n] == accounts[..n] && accounts[..n + 1][n] == acc;
      if acc.owner != SPL_TOKEN_PROGRAM_ID && acc.owner != SPL_TOKEN_2022_PROGRAM_ID { continue; }
      if |acc.data| < TOKEN_ACCOUNT_MIN_SIZE { continue; }
      if acc.data[32..64] != vaultKey { continue; }
      if acc.data[0..32] !in mints { continue; }
      out := out + [TokenAuthoritySnapshot(acc.key, acc.data[32..64], acc.data[72..108], acc.data[129..165])];
    }
    assert accounts[..|accounts|] == accounts;
  }

  /** If the check after the CPIs passes, every account that counted for a listed
      mint before them is still a token account of the vault, with the delegate
      and close authority it had. */
  lemma AuthorityFrozen(before: seq<AccountInfo>, after: seq<AccountInfo>, vault: Pubkey, rs: seq<Rule>, i: nat,
                        mint: Pubkey)
    requires i < |before| && ListedMint(rs, mint) && Holds(before[i], vault, mint)
    requires forall snap :: snap in Authorities(before, vault, Mints(rs)) ==> Unchanged(snap, after)
    ensures var found := FindByKey(after, before[i].key);
      && found.Some? && TokenAccount(found.value)
      && found.value.data[32..64] == vault
      && found.value.data[72..108] == before[i].data[72..108]
      && found.value.data[129..165] == before[i].data[129..165]
  {
    MintsListed(rs, mint);
    WatchedAreSnapshotted(before, vault, Mints(rs), i);
    assert Unchanged(AuthorityOf(before[i]), after);
  }
}
