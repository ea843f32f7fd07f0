/** One execute authorised by an authority of the wallet: an Ed25519 key that
    signs the transaction, or a passkey that signed these very instructions. */
module AuthorityExecute {
  import opened Bytes
  import opened Prelude
  import opened Compact
  import opened SessionExecute
  import opened Binding
  import opened Deferred
  import opened Secp256r1

  const AUTHORITY_HEADER_SIZE: nat := 48
  const EXECUTE: byte := 4

  /** What one execute is given beside the authority account. */
  datatype Input = Input(programId: Pubkey, accounts: seq<AccountInfo>, data: seq<byte>, vault: Pubkey,
                         stackHeight: nat, slot: u64, previous: Previous)

  /** An authority account of the wallet listed second. */
  predicate OfWallet(accounts: seq<AccountInfo>, authority: seq<byte>)
    requires |accounts| >= 4
  {
    && |authority| >= AUTHORITY_HEADER_SIZE && authority[0] == AUTHORITY
    && authority[16..48] == accounts[1].key
  }

  /** The key behind the header signs the transaction. */
  predicate KeySigns(accounts: seq<AccountInfo>, authority: seq<byte>) {
    |authority| >= AUTHORITY_HEADER_SIZE + 32 && SignedBy(accounts, authority[48..80])
  }

  method CheckKeySigns(accounts: seq<AccountInfo>, authority: seq<byte>) returns (r: Result<()>)
    ensures r.Ok? <==> KeySigns(accounts, authority)
    ensures r == Err(MissingRequiredSignature) <==>
      |authority| >= AUTHORITY_HEADER_SIZE + 32 && !SignedBy(accounts, authority[48..80])
  {
    if |authority| < AUTHORITY_HEADER_SIZE + 32 { return Err(InvalidAccountData); }
    var key := authority[48..80];
    for i := 0 to |accounts|
      invariant forall k :: 0 <= k < i ==> !(accounts[k].isSigner && accounts[k].key == key)
    {
      if accounts[i].isSigner && accounts[i].key == key { return Ok(()); }
    }
    return Err(MissingRequiredSignature);
  }

  /** What a passkey signs for an execute: the bytes of the instructions, then the
      hash of the keys they resolve to. */
  function Signable(sha: Hash, accounts: seq<AccountInfo>, ixs: seq<CompactInstruction>): seq<byte>
    requires Writable(ixs) && AllInRange(ixs, |accounts|)
  {
    Serialize(ixs) + sha(KeyBytes(ResolveAll(ixs, accounts)))
  }

  /** The payload of the authenticator follows the instructions. */
  function PasskeyCall(sha: Hash, x: Input, ixs: seq<CompactInstruction>): Call
    requires Encodes(x.data, ixs) && AllInRange(ixs, |x.accounts|)
  {
    Call(x.accounts, x.data[|Serialize(ixs)|..], Signable(sha, x.accounts, ixs), EXECUTE, x.programId, x.stackHeight,
         x.slot, x.previous)
  }

  ghost predicate PasskeySigns(sha: Hash, x: Input, authority: seq<byte>, ixs: seq<CompactInstruction>)
    requires Encodes(x.data, ixs)
  {
    AllInRange(ixs, |x.accounts|) && AuthenticBytes(sha, authority, PasskeyCall(sha, x, ixs))
  }

  ghost predicate Authorised(sha: Hash, x: Input, authority: seq<byte>, ixs: seq<CompactInstruction>)
    requires |authority| >= AUTHORITY_HEADER_SIZE && Encodes(x.data, ixs)
  {
    || (authority[1] == 0 && KeySigns(x.accounts, authority))
    || (authority[1] == 1 && PasskeySigns(sha, x, authority, ixs))
  }

  /** The conditions under which an authority may execute the instructions `ixs`. */
  ghost predicate AuthorityAdmits(sha: Hash, x: Input, authority: seq<byte>, ixs: seq<CompactInstruction>) {
    && AccountsFit(x.programId, x.accounts) && OfWallet(x.accounts, authority)
    && Encodes(x.data, ixs) && Authorised(sha, x, authority, ixs)
    && x.vault == x.accounts[3].key && AllInvocable(ixs, x.accounts, x.programId)
  }

  /** The account after its authority was used. */
  function Used(authority: seq<byte>): seq<byte>
    requires |authority| >= AUTHORITY_HEADER_SIZE && (authority[1] == 1 ==> |authority| >= AUTHORITY_SIZE)
  {
    if authority[1] == 1 then Stepped(authority) else authority
  }

  /** The two ways to authenticate. A passkey account has its counter stepped. */
  method AuthenticateExecute(sha: Hash, x: Input, ixs: seq<CompactInstruction>, compactLen: nat, authority: array<byte>)
    returns (r: Result<()>)
    requires authority.Length >= AUTHORITY_HEADER_SIZE && Encodes(x.data, ixs)
      && compactLen == |Serialize(ixs)| <= |x.data|
    requires x.data[..compactLen] == Serialize(ixs)
    modifies authority
    ensures r.Ok? <==> Authorised(sha, x, old(authority[..]), ixs)
    ensures r.Ok? ==> (old(authority[1]) == 1 ==> authority.Length >= AUTHORITY_SIZE)
    ensures r.Ok? ==> authority[..] == Used(old(authority[..]))
    ensures r.Err? ==> authority[..] == old(authority[..])
    ensures old(authority[1]) == 0 ==> (
      r == Err(MissingRequiredSignature) <==>
        |old(authority[..])| >= 80 && !SignedBy(x.accounts, old(authority[..])[48..80]))
    ensures old(authority[1]) > 1 ==> r == Err(InvalidAuthenticationKind)
  {
    hide KeySigns, AuthenticBytes, Encodes, AllInRange, KeyBytes, ResolveAll, Serialize, Stepped;
    if authority[1] == 0 {
      r := CheckKeySigns(x.accounts, authority[..]);
    } else if authority[1] == 1 {
      var accountsHash := ComputeAccountsHash(sha, x.accounts, ixs);
      if accountsHash.Err? { return Err(accountsHash.error); }
      var signable := x.data[..compactLen] + accountsHash.value;
      r := Authenticate(sha, authority, Call(x.accounts, x.data[compactLen..], signable, EXECUTE, x.programId,
                                             x.stackHeight, x.slot, x.previous));
    } else {
      r := Err(InvalidAuthenticationKind);
    }
  }

  /** A readable list, and an account that holds a key of this wallet. */
  ghost predicate KeyOfWallet(x: Input, authority: seq<byte>) {
    && AccountsFit(x.programId, x.accounts) && (exists list :: Encodes(x.data, list))
    && OfWallet(x.accounts, authority) && authority[1] == 0 && |authority| >= 80
  }

  /** Succeeds exactly when an authority of the wallet may execute the encoded
      instructions. Then exactly these ran, in order, and of the account at most the
      counter has changed; on an error the runtime discards all writes. */
  method ExecuteAuthority(sha: Hash, x: Input, authority: array<byte>)
    returns (r: Result<()>, invoked: seq<Resolved>, ghost ixs: seq<CompactInstruction>)
    requires authority.Length > 0 ==> authority[0] != SESSION
    modifies authority
    ensures r.Ok? ==> (
      && AuthorityAdmits(sha, x, old(authority[..]), ixs)
      && invoked == ResolveAll(ixs, x.accounts)
      && (old(authority[1]) == 1 ==> authority.Length >= AUTHORITY_SIZE)
      && authority[..] == Used(old(authority[..])))
    ensures r.Err? ==> authority[..] == old(authority[..])
    ensures r.Err? ==> forall list :: !AuthorityAdmits(sha, x, authority[..], list)
    ensures KeyOfWallet(x, old(authority[..])) ==> (
      r == Err(MissingRequiredSignature) <==> !SignedBy(x.accounts, old(authority[..])[48..80]))
  {
    var start := authority[..];
    invoked, ixs := [], [];
    AdmitsNeeds(sha, x, start);
    KeyOfWalletIs(x, start);
    hide *;
    var accountsFit := CheckAccounts(x.programId, x.accounts);
    if accountsFit.Err? { return Err(accountsFit.error), invoked, ixs; }
    if |start| == 0 { return Err(InvalidAccountData), invoked, ixs; }
    var parsed := ParseCompactInstructions(x.data);
    if parsed.Err? { return Err(parsed.error), invoked, ixs; }
    ixs := parsed.value.0;
    AdmitsIs(sha, x, start, ixs);
    var ofWallet := CheckOfWallet(x.accounts, start);
    if ofWallet.Err? { return Err(ofWallet.error), invoked, ixs; }
    r := AuthenticateExecute(sha, x, parsed.value.0, parsed.value.1, authority);
    if r.Err? { return; }
    if x.accounts[3].key != x.vault {
      Restore(authority, start);
      return Err(InvalidSeeds), invoked, ixs;
    }
    r, invoked := InvokeInOrder(x.programId, x.accounts, parsed.value.0);
    InvocableIs(ixs, x.accounts, x.programId);
    if r.Err? { Restore(authority, start); }
  }

  lemma KeyOfWalletIs(x: Input, authority: seq<byte>)
    ensures KeyOfWallet(x, authority) ==> (
      && AccountsFit(x.programId, x.accounts) && |x.accounts| >= 4 && (exists list :: Encodes(x.data, list))
      && OfWallet(x.accounts, authority) && |authority| >= 80 && authority[1] == 0)
  {
    hide Encodes;
  }

  method CheckOfWallet(accounts: seq<AccountInfo>, authority: seq<byte>) returns (r: Result<()>)
    requires |accounts| >= 4 && |authority| > 0
    ensures r.Ok? <==> OfWallet(accounts, authority)
    ensures r.Err? ==> r.error == InvalidAccountData
    ensures OfWallet(accounts, authority) ==> |authority| >= AUTHORITY_HEADER_SIZE
  {
    if authority[0] != AUTHORITY { return Err(InvalidAccountData); }
    if |authority| < AUTHORITY_HEADER_SIZE { return Err(InvalidAccountData); }
    if authority[16..48] != accounts[1].key { return Err(InvalidAccountData); }
    return Ok(());
  }

  lemma InvocableIs(ixs: seq<CompactInstruction>, accounts: seq<AccountInfo>, programId: Pubkey)
    ensures AllInvocable(ixs, accounts, programId) <==>
      forall i :: 0 <= i < |ixs| ==> Invocable(ixs[i], accounts, programId)
    ensures AllInvocable(ixs, accounts, programId) ==> AllInRange(ixs, |accounts|)
  {
  }

  lemma AdmitsNeeds(sha: Hash, x: Input, authority: seq<byte>)
    ensures forall list :: AuthorityAdmits(sha, x, authority, list) ==>
      AccountsFit(x.programId, x.accounts) && |authority| > 0 && Encodes(x.data, list)
    ensures AccountsFit(x.programId, x.accounts) ==> |x.accounts| >= 4
  {
    hide Encodes, AllInvocable, Authorised;
  }

  lemma AdmitsIs(sha: Hash, x: Input, authority: seq<byte>, ixs: seq<CompactInstruction>)
    requires AccountsFit(x.programId, x.accounts) && |x.accounts| >= 4 && Encodes(x.data, ixs)
    ensures OfWallet(x.accounts, authority) ==> |authority| >= AUTHORITY_HEADER_SIZE
    ensures AuthorityAdmits(sha, x, authority, ixs) <==> (
      && OfWallet(x.accounts, authority) && Authorised(sha, x, authority, ixs)
      && x.vault == x.accounts[3].key && AllInvocable(ixs, x.accounts, x.programId))
    ensures forall list :: AuthorityAdmits(sha, x, authority, list) ==> list == ixs
  {
    hide Encodes, AllInvocable, Authorised, AccountsFit;
    forall list | AuthorityAdmits(sha, x, authority, list) ensures list == ixs { UniqueDecoding(x.data, list, ixs); }
  }

  /** The execute was admitted by a passkey, on the payload `p` behind the instructions. */
  ghost predicate ByPasskey(sha: Hash, x: Input, authority: seq<byte>, ixs: seq<CompactInstruction>, p: Payload) {
    && AuthorityAdmits(sha, x, authority, ixs) && authority[1] == 1
    && Representable(p) && PayloadBytes(p) == x.data[|Serialize(ixs)|..]
  }

  lemma ByPasskeyFacts(sha: Hash, x: Input, authority: seq<byte>, ixs: seq<CompactInstruction>, p: Payload)
    requires ByPasskey(sha, x, authority, ixs, p)
    ensures Encodes(x.data, ixs) && Parseable(ixs) && AllInRange(ixs, |x.accounts|) && |x.accounts| > 0
    ensures Representable(p) && |authority| >= AUTHORITY_SIZE
    ensures Authentic(sha, authority, PasskeyCall(sha, x, ixs), p)
  {
    assert Encodes(x.data, ixs) && AllInRange(ixs, |x.accounts|);
    assert AuthenticBytes(sha, authority, PasskeyCall(sha, x, ixs));
    assert Parseable(ixs) && |x.accounts| > 0;
    assert PayloadBytes(p) == PasskeyCall(sha, x, ixs).payload && Representable(p);
    hide *;
    OnlySplit(sha, authority, PasskeyCall(sha, x, ixs), p);
    AuthenticSize(sha, authority, PasskeyCall(sha, x, ixs), p);
  }

  lemma AuthenticSize(sha: Hash, authority: seq<byte>, c: Call, p: Payload)
    requires Representable(p) && Authentic(sha, authority, c, p)
    ensures |authority| >= AUTHORITY_SIZE
  {
    hide Fresh, ClientDataFits, Signed;
  }

  /** A passkey authorises one list of instructions: two executes admitted on one
      client data ran the same programs on the same accounts with the same data, for
      one payer, program and count, short of a hash collision. */
  lemma ExecutedIsSigned(sha: Hash, x: Input, a: seq<byte>, ixs: seq<CompactInstruction>, p: Payload,
                         x': Input, a': seq<byte>, ixs': seq<CompactInstruction>, p': Payload)
    requires ByPasskey(sha, x, a, ixs, p) && ByPasskey(sha, x', a', ixs', p') && p.clientDataJson == p'.clientDataJson
    ensures Encodes(x.data, ixs) && AllInRange(ixs, |x.accounts|) && |x.accounts| > 0 && |a| >= AUTHORITY_SIZE
    ensures Encodes(x'.data, ixs') && AllInRange(ixs', |x'.accounts|) && |x'.accounts| > 0 && |a'| >= AUTHORITY_SIZE
    ensures || (ResolveAll(ixs, x.accounts) == ResolveAll(ixs', x'.accounts)
                && x.accounts[0].key == x'.accounts[0].key && x.programId == x'.programId
                && NextCounter(a) == NextCounter(a'))
            || Collide(sha, Challenged(PasskeyCall(sha, x, ixs), p.prefix, NextCounter(a)),
                       Challenged(PasskeyCall(sha, x', ixs'), p'.prefix, NextCounter(a')))
            || Collide(sha, KeyBytes(ResolveAll(ixs, x.accounts)), KeyBytes(ResolveAll(ixs', x'.accounts)))
  {
    hide *;
    ByPasskeyFacts(sha, x, a, ixs, p);
    ByPasskeyFacts(sha, x', a', ixs', p');
    var c, c' := PasskeyCall(sha, x, ixs), PasskeyCall(sha, x', ixs');
    ClientDataBinds(sha, a, c, p, a', c', p');
    if SameRequest(c, c') {
      RequestIs(sha, x, ixs, x', ixs');
      SignedPayloadBinds(sha, ixs, x.accounts, ixs', x'.accounts);
    }
  }

  lemma RequestIs(sha: Hash, x: Input, ixs: seq<CompactInstruction>, x': Input, ixs': seq<CompactInstruction>)
    requires Encodes(x.data, ixs) && AllInRange(ixs, |x.accounts|) && |x.accounts| > 0
    requires Encodes(x'.data, ixs') && AllInRange(ixs', |x'.accounts|) && |x'.accounts| > 0
    requires SameRequest(PasskeyCall(sha, x, ixs), PasskeyCall(sha, x', ixs'))
    ensures Serialize(ixs) + sha(KeyBytes(ResolveAll(ixs, x.accounts)))
      == Serialize(ixs') + sha(KeyBytes(ResolveAll(ixs', x'.accounts)))
    ensures x.accounts[0].key == x'.accounts[0].key && x.programId == x'.programId
  {
    hide Encodes, Serialize, KeyBytes, ResolveAll, AllInRange;
  }
}
