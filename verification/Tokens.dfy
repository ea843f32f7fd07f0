/** Token accounts as the session engine reads them: total balances per mint,
    and the authority fields that must not change while a session executes. */
module Tokens {
  import opened Bytes
  import opened Prelude

  const TOKEN_ACCOUNT_MIN_SIZE: nat := 165

  const SPL_TOKEN_PROGRAM_ID: Pubkey := [
    6, 221, 246, 225, 215, 101, 161, 147, 217, 203, 225, 70, 206, 235, 121, 172, 28, 180, 133,
    237, 95, 91, 55, 145, 58, 140, 245, 133, 126, 255, 0, 169]

  const SPL_TOKEN_2022_PROGRAM_ID: Pubkey := [
    6, 221, 246, 225, 238, 117, 143, 222, 170, 164, 12, 4, 223, 116, 174, 240, 70, 137, 163, 89,
    77, 149, 128, 12, 61, 73, 196, 253, 210, 164, 82, 159]

  predicate TokenProgram(owner: Pubkey) {
    owner == SPL_TOKEN_PROGRAM_ID || owner == SPL_TOKEN_2022_PROGRAM_ID
  }

  /** An account with the layout of a token account: the mint in bytes 0..32,
      its authority in 32..64, the amount in 64..72, the delegate in 72..108
      and the close authority in 129..165. */
  predicate TokenAccount(acc: AccountInfo) {
    TokenProgram(acc.owner) && |acc.data| >= TOKEN_ACCOUNT_MIN_SIZE
  }

  predicate Holds(acc: AccountInfo, vault: Pubkey, mint: Pubkey) {
    TokenAccount(acc) && acc.data[0..32] == mint && acc.data[32..64] == vault
  }

  function Amount(acc: AccountInfo, vault: Pubkey, mint: Pubkey): u64 {
    if Holds(acc, vault, mint) then ReadU64(acc.data, 64) else 0
  }

  /** The exact sum over all matching accounts. */
  function Total(accounts: seq<AccountInfo>, vault: Pubkey, mint: Pubkey): nat {
    if accounts == [] then 0
    else Total(accounts[..|accounts| - 1], vault, mint) + Amount(accounts[|accounts| - 1], vault, mint)
  }

  predicate AnyHolds(accounts: seq<AccountInfo>, vault: Pubkey, mint: Pubkey) {
    exists i :: 0 <= i < |accounts| && Holds(accounts[i], vault, mint)
  }

  function Balance(accounts: seq<AccountInfo>, vault: Pubkey, mint: Pubkey): u64 {
    Min(Total(accounts, vault, mint), U64_MAX)
  }

  /** The saturating loop returns the exact sum, capped once at the end. */
  method FindTokenBalance(accounts: seq<AccountInfo>, vaultKey: Pubkey, mint: Pubkey) returns (r: Option<u64>)
    ensures r.Some? <==> AnyHolds(accounts, vaultKey, mint)
    ensures r.Some? ==> r.value == Balance(accounts, vaultKey, mint)
    ensures r.None? ==> Balance(accounts, vaultKey, mint) == 0
  {
    var total: u64 := 0;
    var found := false;
    for i := 0 to |accounts|
      invariant found <==> AnyHolds(accounts[..i], vaultKey, mint)
      invariant total == Balance(accounts[..i], vaultKey, mint)
      invariant !found ==> Total(accounts[..i], vaultKey, mint) == 0
    {
      var acc := accounts[i];
      assert accounts[..i + 1][..i] == accounts[..i] && accounts[..i + 1][i] == acc;
      assert forall k :: 0 <= k < i ==> accounts[..i + 1][k] == accounts[..i][k];
      if acc.owner != SPL_TOKEN_PROGRAM_ID && acc.owner != SPL_TOKEN_2022_PROGRAM_ID { continue; }
      if |acc.data| < TOKEN_ACCOUNT_MIN_SIZE { continue; }
      if acc.data[0..32] != mint { continue; }
      if acc.data[32..64] != vaultKey { continue; }
      total := SatAdd(total, ReadU64(acc.data, 64));
      found := true;
    }
    assert accounts[..|accounts|] == accounts;
    return if found then Some(total) else None;
  }

  lemma {:induction false} TotalAppend(a: seq<AccountInfo>, b: seq<AccountInfo>, vault: Pubkey, mint: Pubkey)
    ensures Total(a + b, vault, mint) == Total(a, vault, mint) + Total(b, vault, mint)
  {
    if b == [] {
      assert a + b == a;
    } else {
      var n := |b| - 1;
      TotalAppend(a, b[..n], vault, mint);
      assert (a + b)[..|a + b| - 1] == a + b[..n];
    }
  }

  lemma TotalOne(acc: AccountInfo, vault: Pubkey, mint: Pubkey)
    ensures Total([acc], vault, mint) == Amount(acc, vault, mint)
  {
    assert [acc][..0] == [];
  }

  /** A listed account that holds nothing of the mint for the vault (a foreign,
      undersized or zero-balance account) changes the balance nowhere in the list. */
  lemma DummyIgnored(a: seq<AccountInfo>, dummy: AccountInfo, b: seq<AccountInfo>, vault: Pubkey, mint: Pubkey)
    requires Amount(dummy, vault, mint) == 0
    ensures Balance(a + [dummy] + b, vault, mint) == Balance(a + b, vault, mint)
  {
    TotalAppend(a + [dummy], b, vault, mint);
    TotalAppend(a, [dummy], vault, mint);
    TotalAppend(a, b, vault, mint);
    TotalOne(dummy, vault, mint);
  }

  lemma TotalWithout(b: seq<AccountInfo>, i: nat, vault: Pubkey, mint: Pubkey)
    requires i < |b|
    ensures Total(b, vault, mint) == Amount(b[i], vault, mint) + Total(b[..i] + b[i + 1..], vault, mint)
    ensures multiset(b[..i] + b[i + 1..]) == multiset(b) - multiset{b[i]}
  {
    hide Total, Amount;
    assert b == (b[..i] + [b[i]]) + b[i + 1..];
    assert multiset(b) == multiset(b[..i] + b[i + 1..]) + multiset{b[i]};
    TotalAppend(b[..i] + [b[i]], b[i + 1..], vault, mint);
    TotalAppend(b[..i], [b[i]], vault, mint);
    TotalAppend(b[..i], b[i + 1..], vault, mint);
    TotalOne(b[i], vault, mint);
  }

  /** The balance does not depend on the order of the accounts. */
  lemma {:induction false} TotalPermuted(a: seq<AccountInfo>, b: seq<AccountInfo>, vault: Pubkey, mint: Pubkey)
    requires multiset(a) == multiset(b)
    ensures Total(a, vault, mint) == Total(b, vault, mint)
    decreases |a|
  {
    hide Total, Amount;
    if a == [] {
      assert |multiset(b)| == 0;
      assert b == a;
    } else {
      assert a[0] in multiset(b);
      var i :| 0 <= i < |b| && b[i] == a[0];
      TotalWithout(a, 0, vault, mint);
      TotalWithout(b, i, vault, mint);
      var restA, restB := a[..0] + a[1..], b[..i] + b[i + 1..];
      assert multiset(restA) == multiset(restB) && |restA| < |a|;
      TotalPermuted(restA, restB, vault, mint);
    }
  }

  // ---------------------------------------------------------------------
  // Authority fields

  datatype TokenAuthoritySnapshot = TokenAuthoritySnapshot(
    accountKey: Pubkey, owner: seq<byte>, delegate: seq<byte>, closeAuthority: seq<byte>)

  function AuthorityOf(acc: AccountInfo): TokenAuthoritySnapshot
    requires TokenAccount(acc)
  {
    TokenAuthoritySnapshot(acc.key, acc.data[32..64], acc.data[72..108], acc.data[129..165])
  }

  /** The first listed account with a key. */
  function FindByKey(accounts: seq<AccountInfo>, key: Pubkey): (r: Option<AccountInfo>)
    ensures r.Some? ==> r.value in accounts && r.value.key == key
    ensures r.None? ==> forall acc :: acc in accounts ==> acc.key != key
  {
    if accounts == [] then None
    else if accounts[0].key == key then Some(accounts[0])
    else FindByKey(accounts[1..], key)
  }

  lemma {:induction false} FoundFirst(accounts: seq<AccountInfo>, key: Pubkey) returns (j: nat)
    requires FindByKey(accounts, key).Some?
    ensures j < |accounts| && FindByKey(accounts, key) == Some(accounts[j]) && accounts[j].key == key
    ensures forall k :: 0 <= k < j ==> accounts[k].key != key
  {
    if accounts[0].key == key {
      j := 0;
    } else {
      var rest := FoundFirst(accounts[1..], key);
      j := rest + 1;
      forall k | 0 <= k < j ensures accounts[k].key != key {
        assert k > 0 ==> accounts[1..][k - 1] == accounts[k];
      }
    }
  }

  predicate Unchanged(snap: TokenAuthoritySnapshot, accounts: seq<AccountInfo>) {
    match FindByKey(accounts, snap.accountKey)
    case None => false
    case Some(acc) => TokenAccount(acc) && AuthorityOf(acc) == snap
  }

  method VerifyTokenAuthoritiesUnchanged(snapshots: seq<TokenAuthoritySnapshot>, accounts: seq<AccountInfo>)
    returns (r: Result<()>)
    ensures r.Ok? <==> forall snap :: snap in snapshots ==> Unchanged(snap, accounts)
    ensures r.Err? ==> r.error == SessionTokenAuthorityChanged
  {
    for i := 0 to |snapshots|
      invariant forall k :: 0 <= k < i ==> Unchanged(snapshots[k], accounts)
    {
      var snap := snapshots[i];
      assert snap in snapshots;
      var found := FindByKey(accounts, snap.accountKey);
      if found.None? { return Err(SessionTokenAuthorityChanged); }
      var acc := found.value;
      if acc.owner != SPL_TOKEN_PROGRAM_ID && acc.owner != SPL_TOKEN_2022_PROGRAM_ID {
        return Err(SessionTokenAuthorityChanged);
      }
      if |acc.data| < TOKEN_ACCOUNT_MIN_SIZE { return Err(SessionTokenAuthorityChanged); }
      if acc.data[32..64] != snap.owner { return Err(SessionTokenAuthorityChanged); }
      if acc.data[72..108] != snap.delegate { return Err(SessionTokenAuthorityChanged); }
      if acc.data[129..165] != snap.closeAuthority { return Err(SessionTokenAuthorityChanged); }
    }
    return Ok(());
  }
}
