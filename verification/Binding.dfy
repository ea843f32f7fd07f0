/** What a hash of compact bytes and a hash of account keys bind. */
module Binding {
  import opened Bytes
  import opened Prelude
  import opened Flat
  import opened Compact

  /** The hash is any function to 32 bytes. */
  type Hash = seq<byte> -> Pubkey

  /** Two inputs that break collision resistance. */
  ghost predicate Collide(sha: Hash, a: seq<byte>, b: seq<byte>) {
    a != b && sha(a) == sha(b)
  }

  // ---------------------------------------------------------------------
  // The hash over account keys

  function KeysOf(r: Resolved): seq<Pubkey> {
    [r.programId] + r.accounts
  }

  function KeyLists(rs: seq<Resolved>): seq<seq<Pubkey>> {
    seq(|rs|, i requires 0 <= i < |rs| => KeysOf(rs[i]))
  }

  /** The keys in hashing order: per instruction the program, then its accounts. */
  function AllKeys(rs: seq<Resolved>): seq<Pubkey> {
    Flatten(KeyLists(rs))
  }

  /** The bytes the accounts hash is taken of. */
  function KeyBytes(rs: seq<Resolved>): seq<byte> {
    Flatten(AllKeys(rs))
  }

  predicate AllInRange(ixs: seq<CompactInstruction>, count: nat) {
    forall i :: 0 <= i < |ixs| ==> InRange(ixs[i], count)
  }

  method CollectKeys(accounts: seq<AccountInfo>, ix: CompactInstruction) returns (r: Result<seq<Pubkey>>)
    ensures r.Ok? <==> InRange(ix, |accounts|)
    ensures r.Ok? ==> r.value == KeysOf(Resolve(ix, accounts))
    ensures r.Err? ==> r.error == InvalidInstructionData
  {
    if ix.programIdIndex >= |accounts| { return Err(InvalidInstructionData); }
    var keys: seq<Pubkey> := [accounts[ix.programIdIndex].key];
    for k := 0 to |ix.accounts|
      invariant |keys| == k + 1 && keys[0] == accounts[ix.programIdIndex].key
      invariant forall j :: 0 <= j < k ==> ix.accounts[j] < |accounts| && keys[j + 1] == accounts[ix.accounts[j]].key
    {
      var idx := ix.accounts[k];
      if idx >= |accounts| { return Err(InvalidInstructionData); }
      keys := keys + [accounts[idx].key];
    }
    return Ok(keys);
  }

  /** The hash of the keys that the instructions resolve to. */
  method ComputeAccountsHash(sha: Hash, accounts: seq<AccountInfo>, ixs: seq<CompactInstruction>)
    returns (r: Result<Pubkey>)
    ensures r.Ok? <==> AllInRange(ixs, |accounts|)
    ensures r.Ok? ==> r.value == sha(KeyBytes(ResolveAll(ixs, accounts)))
    ensures r.Err? ==> r.error == InvalidInstructionData
  {
    hide Flatten, KeysOf, Resolve, InRange;
    var refs: seq<Pubkey> := [];
    ghost var done: seq<Resolved> := [];
    assert refs == AllKeys(done) by { FlattenNone<Pubkey>(); assert KeyLists([]) == []; }
    for n := 0 to |ixs|
      invariant forall i :: 0 <= i < n ==> InRange(ixs[i], |accounts|)
      invariant |done| == n && forall i :: 0 <= i < n ==> done[i] == Resolve(ixs[i], accounts)
      invariant refs == AllKeys(done)
    {
      var keys := CollectKeys(accounts, ixs[n]);
      if keys.Err? { return Err(keys.error); }
      AllKeysAppend(done, Resolve(ixs[n], accounts));
      done := done + [Resolve(ixs[n], accounts)];
      refs := refs + keys.value;
    }
    assert done == ResolveAll(ixs, accounts);
    return Ok(sha(Flatten(refs)));
  }

  lemma AllKeysAppend(rs: seq<Resolved>, r: Resolved)
    ensures AllKeys(rs + [r]) == AllKeys(rs) + KeysOf(r)
  {
    assert KeyLists(rs + [r]) == KeyLists(rs) + [KeysOf(r)];
    FlattenAppend(KeyLists(rs), [KeysOf(r)]);
    FlattenOne(KeysOf(r));
  }

  // ---------------------------------------------------------------------
  // Binding

  /** A concatenation can be split again by someone who knows the lengths. */
  lemma {:induction false} FlattenByShape<T>(a: seq<seq<T>>, b: seq<seq<T>>)
    requires |a| == |b| && forall i :: 0 <= i < |a| ==> |a[i]| == |b[i]|
    requires Flatten(a) == Flatten(b)
    ensures a == b
  {
    if a == [] {
    } else {
      var n := |a[0]|;
      assert Flatten(a)[..n] == a[0] && Flatten(b)[..n] == b[0];
      assert Flatten(a)[n..] == Flatten(a[1..]) && Flatten(b)[n..] == Flatten(b[1..]);
      FlattenByShape(a[1..], b[1..]);
      assert a == [a[0]] + a[1..] && b == [b[0]] + b[1..];
    }
  }

  /** The compact instructions and the concatenated keys determine what the
      instructions resolve to. */
  lemma KeysDetermine(ixs: seq<CompactInstruction>, a: seq<AccountInfo>, b: seq<AccountInfo>)
    requires AllInRange(ixs, |a|) && AllInRange(ixs, |b|)
    requires KeyBytes(ResolveAll(ixs, a)) == KeyBytes(ResolveAll(ixs, b))
    ensures ResolveAll(ixs, a) == ResolveAll(ixs, b)
  {
    var ra, rb := ResolveAll(ixs, a), ResolveAll(ixs, b);
    FlattenInjective(AllKeys(ra), AllKeys(rb), 32);
    FlattenByShape(KeyLists(ra), KeyLists(rb));
    forall i | 0 <= i < |ixs| ensures ra[i] == rb[i] {
      assert KeysOf(ra[i]) == KeyLists(ra)[i] == KeyLists(rb)[i] == KeysOf(rb[i]);
      assert ra[i].programId == KeysOf(ra[i])[0] && ra[i].accounts == KeysOf(ra[i])[1..];
      assert rb[i].programId == KeysOf(rb[i])[0] && rb[i].accounts == KeysOf(rb[i])[1..];
    }
  }

  /** The instruction lists the parser can produce. */
  predicate Parseable(ixs: seq<CompactInstruction>) {
    |ixs| <= MAX_COMPACT_INSTRUCTIONS && AllSized(ixs)
  }

  /** Whoever presents other bytes or other accounts with the same two hashes
      either resolves to exactly the same programs, accounts and data, or
      exhibits a collision of the hash. */
  lemma HashesBind(sha: Hash, ixs: seq<CompactInstruction>, a: seq<AccountInfo>, ixs': seq<CompactInstruction>,
                   b: seq<AccountInfo>)
    requires Parseable(ixs) && Parseable(ixs')
    requires AllInRange(ixs, |a|) && AllInRange(ixs', |b|)
    requires sha(Serialize(ixs)) == sha(Serialize(ixs'))
    requires sha(KeyBytes(ResolveAll(ixs, a))) == sha(KeyBytes(ResolveAll(ixs', b)))
    ensures ResolveAll(ixs, a) == ResolveAll(ixs', b)
      || Collide(sha, Serialize(ixs), Serialize(ixs'))
      || Collide(sha, KeyBytes(ResolveAll(ixs, a)), KeyBytes(ResolveAll(ixs', b)))
  {
    assert Encodes(Serialize(ixs), ixs) && Encodes(Serialize(ixs'), ixs');
    hide KeyBytes, ResolveAll, Encodes, Serialize;
    if Serialize(ixs) == Serialize(ixs') {
      UniqueDecoding(Serialize(ixs), ixs, ixs');
      if KeyBytes(ResolveAll(ixs, a)) == KeyBytes(ResolveAll(ixs', b)) {
        KeysDetermine(ixs, a, b);
      }
    }
  }

  /** The payload a passkey signs for a direct execute, compact bytes followed by
      the accounts hash, binds in the same way. */
  lemma SignedPayloadBinds(sha: Hash, ixs: seq<CompactInstruction>, a: seq<AccountInfo>,
                           ixs': seq<CompactInstruction>, b: seq<AccountInfo>)
    requires Parseable(ixs) && Parseable(ixs')
    requires AllInRange(ixs, |a|) && AllInRange(ixs', |b|)
    requires Serialize(ixs) + sha(KeyBytes(ResolveAll(ixs, a))) == Serialize(ixs') + sha(KeyBytes(ResolveAll(ixs', b)))
    ensures ResolveAll(ixs, a) == ResolveAll(ixs', b)
      || Collide(sha, KeyBytes(ResolveAll(ixs, a)), KeyBytes(ResolveAll(ixs', b)))
  {
    hide KeyBytes, ResolveAll, Encodes, Serialize;
    var s, h := Serialize(ixs), sha(KeyBytes(ResolveAll(ixs, a)));
    var s', h' := Serialize(ixs'), sha(KeyBytes(ResolveAll(ixs', b)));
    assert |s + h| == |s| + 32 && |s' + h'| == |s'| + 32;
    assert s == (s + h)[..|s|] && s' == (s' + h')[..|s|];
    assert h == (s + h)[|s|..] && h' == (s' + h')[|s|..];
    HashesBind(sha, ixs, a, ixs', b);
  }

  // ---------------------------------------------------------------------
  // Presenting instructions for two stored hashes

  /** The two hashes are those of the instructions on these accounts. */
  predicate HashesMatch(sha: Hash, accounts: seq<AccountInfo>, instructionsHash: Pubkey, accountsHash: Pubkey,
                        ixs: seq<CompactInstruction>)
    requires Writable(ixs)
  {
    && sha(Serialize(ixs)) == instructionsHash
    && AllInRange(ixs, |accounts|)
    && sha(KeyBytes(ResolveAll(ixs, accounts))) == accountsHash
  }

  /** The input bytes start with `ixs`, and these have the two hashes. */
  predicate Presents(sha: Hash, data: seq<byte>, accounts: seq<AccountInfo>, instructionsHash: Pubkey,
                     accountsHash: Pubkey, ixs: seq<CompactInstruction>)
  {
    Encodes(data, ixs) && HashesMatch(sha, accounts, instructionsHash, accountsHash, ixs)
  }

  method CheckHashes(sha: Hash, data: seq<byte>, accounts: seq<AccountInfo>, instructionsHash: Pubkey,
                     accountsHash: Pubkey)
    returns (r: Result<seq<CompactInstruction>>)
    ensures r.Ok? ==> Presents(sha, data, accounts, instructionsHash, accountsHash, r.value)
    ensures r.Err? ==> forall ixs :: !Presents(sha, data, accounts, instructionsHash, accountsHash, ixs)
    ensures r.Err? ==> r.error == InvalidInstructionData || r.error == DeferredHashMismatch
    ensures r == Err(InvalidInstructionData) <==>
      forall ixs :: Encodes(data, ixs) ==> sha(Serialize(ixs)) == instructionsHash && !AllInRange(ixs, |accounts|)
  {
    var parsed := ParseCompactInstructions(data);
    if parsed.Err? { return Err(parsed.error); }
    var (ixs, compactLen) := parsed.value;
    forall list | Encodes(data, list) ensures list == ixs { UniqueDecoding(data, list, ixs); }
    assert |ixs| <= 0xFF;
    hide Encodes, KeyBytes, ResolveAll, Flatten, LeEncode;
    if sha(data[..compactLen]) != instructionsHash { return Err(DeferredHashMismatch); }
    var presented := ComputeAccountsHash(sha, accounts, ixs);
    if presented.Err? { return Err(presented.error); }
    if presented.value != accountsHash { return Err(DeferredHashMismatch); }
    return Ok(ixs);
  }

  /** The list `ran` resolves as the authorised one did, or the hash collides. */
  ghost predicate SameOrCollide(sha: Hash, authorised: seq<CompactInstruction>, listed: seq<AccountInfo>,
                                ran: seq<CompactInstruction>, accounts: seq<AccountInfo>)
    requires Writable(authorised) && Writable(ran)
    requires AllInRange(authorised, |listed|) && AllInRange(ran, |accounts|)
  {
    || ResolveAll(ran, accounts) == ResolveAll(authorised, listed)
    || Collide(sha, Serialize(authorised), Serialize(ran))
    || Collide(sha, KeyBytes(ResolveAll(authorised, listed)), KeyBytes(ResolveAll(ran, accounts)))
  }

  /** What is presented for the hashes of `authorised` on the accounts `listed` is
      that very list, short of a hash collision. */
  lemma OnlyTheAuthorised(sha: Hash, authorised: seq<CompactInstruction>, listed: seq<AccountInfo>, data: seq<byte>,
                          accounts: seq<AccountInfo>, ixs: seq<CompactInstruction>)
    requires Parseable(authorised) && AllInRange(authorised, |listed|)
    requires Presents(sha, data, accounts, sha(Serialize(authorised)), sha(KeyBytes(ResolveAll(authorised, listed))),
                      ixs)
    ensures SameOrCollide(sha, authorised, listed, ixs, accounts)
  {
    hide KeyBytes, ResolveAll, Serialize;
    HashesBind(sha, authorised, listed, ixs, accounts);
  }
}
