/** Deferred authorisations: the record that holds one, and its execution. */
module Deferred {
  import opened Bytes
  import opened Prelude
  import opened Compact
  import opened SessionExecute
  import opened Binding

  const DEFERRED: byte := 4
  const DEFERRED_SIZE: nat := 176

  predicate DeferredAccountsFit(programId: Pubkey, accounts: seq<AccountInfo>) {
    && |accounts| >= 5 && accounts[0].isSigner
    && accounts[1].owner == programId && accounts[3].owner == programId
    && |accounts[1].data| > 0 && accounts[1].data[0] == WALLET
  }

  /** A record of this wallet, refunding to the account that paid for it, not yet expired. */
  predicate RecordOpen(accounts: seq<AccountInfo>, record: seq<byte>, slot: u64)
    requires |accounts| >= 5
  {
    && |record| >= DEFERRED_SIZE && record[0] == DEFERRED
    && record[72..104] == accounts[1].key
    && record[136..168] == accounts[4].key
    && slot <= ReadU64(record, 168)
  }

  predicate DeferredAdmitted(sha: Hash, programId: Pubkey, accounts: seq<AccountInfo>, data: seq<byte>,
                             record: seq<byte>, vault: Pubkey, slot: u64, ixs: seq<CompactInstruction>)
  {
    && DeferredAccountsFit(programId, accounts) && RecordOpen(accounts, record, slot)
    && Presents(sha, data, accounts, record[8..40], record[40..72], ixs)
    && accounts[2].key == vault
    && accounts[3].lamports + accounts[4].lamports <= U64_MAX
    && forall i :: 0 <= i < |ixs| ==> Invocable(ixs[i], accounts, programId)
  }

  method CheckRecord(programId: Pubkey, accounts: seq<AccountInfo>, record: seq<byte>, slot: u64)
    returns (r: Result<()>)
    ensures r.Ok? <==> DeferredAccountsFit(programId, accounts) && RecordOpen(accounts, record, slot)
    ensures r == Err(DeferredAuthorizationExpired) <==> (
      && DeferredAccountsFit(programId, accounts) && |record| >= DEFERRED_SIZE && slot > ReadU64(record, 168)
      && record[0] == DEFERRED && record[72..104] == accounts[1].key && record[136..168] == accounts[4].key)
  {
    if |accounts| < 5 { return Err(NotEnoughAccountKeys); }
    if !accounts[0].isSigner { return Err(MissingRequiredSignature); }
    if accounts[1].owner != programId || accounts[3].owner != programId { return Err(IllegalOwner); }
    if |accounts[1].data| == 0 || accounts[1].data[0] != WALLET { return Err(InvalidAccountData); }
    if |record| < DEFERRED_SIZE { return Err(InvalidAccountData); }
    if record[0] != DEFERRED { return Err(InvalidAccountData); }
    if record[72..104] != accounts[1].key { return Err(InvalidAccountData); }
    if record[136..168] != accounts[4].key { return Err(InvalidAccountData); }
    if slot > ReadU64(record, 168) { return Err(DeferredAuthorizationExpired); }
    return Ok(());
  }

  method InvokeInOrder(programId: Pubkey, accounts: seq<AccountInfo>, ixs: seq<CompactInstruction>)
    returns (r: Result<()>, invoked: seq<Resolved>)
    ensures r.Ok? <==> forall i :: 0 <= i < |ixs| ==> Invocable(ixs[i], accounts, programId)
    ensures r.Ok? ==> invoked == ResolveAll(ixs, accounts)
    ensures r.Err? ==> r.error == InvalidInstructionData || r.error == SelfReentrancyNotAllowed
  {
    invoked := [];
    for n := 0 to |ixs|
      invariant |invoked| == n
      invariant forall i :: 0 <= i < n ==>
        Invocable(ixs[i], accounts, programId) && invoked[i] == Resolve(ixs[i], accounts)
    {
      var decompressed := Decompress(ixs[n], accounts);
      if decompressed.Err? { return Err(decompressed.error), invoked; }
      if decompressed.value.programId == programId { return Err(SelfReentrancyNotAllowed), invoked; }
      invoked := invoked + [decompressed.value];
    }
    return Ok(()), invoked;
  }

  method FillZero(data: array<byte>)
    modifies data
    ensures data[..] == seq(data.Length, _ => 0)
  {
    for i := 0 to data.Length
      invariant forall k :: 0 <= k < i ==> data[k] == 0
    {
      data[i] := 0;
    }
  }

  /** The new balances when the record is closed: the refund account is credited
      first, then the record is drained. */
  method CloseRecord(record: AccountInfo, refund: AccountInfo) returns (r: Result<map<Pubkey, u64>>)
    ensures r.Ok? <==> record.lamports + refund.lamports <= U64_MAX
    ensures r.Ok? ==> r.value.Keys == {record.key, refund.key} && r.value[record.key] == 0
    ensures r.Ok? && record.key != refund.key ==> r.value[refund.key] == record.lamports + refund.lamports
    ensures r.Err? ==> r.error == ArithmeticOverflow
  {
    if refund.lamports + record.lamports > U64_MAX { return Err(ArithmeticOverflow); }
    var lamports: map<Pubkey, u64> := map[refund.key := refund.lamports + record.lamports];
    lamports := lamports[record.key := 0];
    return Ok(lamports);
  }

  /** Consumes the record: it is closed and wiped before the instructions run. On an
      error the runtime discards all writes of the transaction. */
  method ExecuteDeferred(sha: Hash, programId: Pubkey, accounts: seq<AccountInfo>, instructionData: seq<byte>,
                         record: array<byte>, vaultKey: Pubkey, currentSlot: u64)
    returns (r: Result<()>, invoked: seq<Resolved>, lamports: map<Pubkey, u64>, ghost ixs: seq<CompactInstruction>)
    modifies record
    ensures r.Ok? ==> (
      && DeferredAdmitted(sha, programId, accounts, instructionData, old(record[..]), vaultKey, currentSlot, ixs)
      && invoked == ResolveAll(ixs, accounts)
      && record[..] == seq(record.Length, _ => 0))
    ensures r.Ok? ==> (
      && lamports.Keys == {accounts[3].key, accounts[4].key} && lamports[accounts[3].key] == 0
      && (accounts[3].key != accounts[4].key ==>
          lamports[accounts[4].key] == accounts[3].lamports + accounts[4].lamports))
    ensures r.Err? ==> record[..] == old(record[..]) && lamports == map[]
    ensures r.Err? ==> forall list ::
      !DeferredAdmitted(sha, programId, accounts, instructionData, record[..], vaultKey, currentSlot, list)
  {
    var start := record[..];
    invoked, lamports, ixs := [], map[], [];
    AdmittedNeeds(sha, programId, accounts, instructionData, start, vaultKey, currentSlot);
    hide *;
    var open := CheckRecord(programId, accounts, start, currentSlot);
    if open.Err? { return Err(open.error), invoked, lamports, ixs; }
    OpenSize(programId, accounts, start, currentSlot);
    var checked := CheckHashes(sha, instructionData, accounts, start[8..40], start[40..72]);
    if checked.Err? { return Err(checked.error), invoked, lamports, ixs; }
    ixs := checked.value;
    AdmittedIs(sha, programId, accounts, instructionData, start, vaultKey, currentSlot, ixs);
    if accounts[2].key != vaultKey { return Err(InvalidSeeds), invoked, lamports, ixs; }
    var closed := CloseRecord(accounts[3], accounts[4]);
    if closed.Err? { return Err(closed.error), invoked, lamports, ixs; }
    FillZero(record);
    r, invoked := InvokeInOrder(programId, accounts, checked.value);
    if r.Err? {
      Restore(record, start);
    } else {
      lamports := closed.value;
    }
  }

  /** What the runtime does with the account of a failed transaction. */
  method Restore(data: array<byte>, start: seq<byte>)
    requires data.Length == |start|
    modifies data
    ensures data[..] == start
  {
    CopyInto(data, 0, start);
  }

  lemma OpenSize(programId: Pubkey, accounts: seq<AccountInfo>, record: seq<byte>, slot: u64)
    requires DeferredAccountsFit(programId, accounts)
    ensures |accounts| >= 5
    ensures RecordOpen(accounts, record, slot) ==> |record| >= 176 && DEFERRED_SIZE == 176
  {
  }

  lemma AdmittedNeeds(sha: Hash, programId: Pubkey, accounts: seq<AccountInfo>, data: seq<byte>, record: seq<byte>,
                      vault: Pubkey, slot: u64)
    ensures DeferredAccountsFit(programId, accounts) ==> |accounts| >= 5
    ensures forall list :: DeferredAdmitted(sha, programId, accounts, data, record, vault, slot, list) ==> (
      && DeferredAccountsFit(programId, accounts) && RecordOpen(accounts, record, slot)
      && |record| >= 176 && Presents(sha, data, accounts, record[8..40], record[40..72], list))
  {
    hide Presents;
  }

  lemma AdmittedIs(sha: Hash, programId: Pubkey, accounts: seq<AccountInfo>, data: seq<byte>, record: seq<byte>,
                   vault: Pubkey, slot: u64, ixs: seq<CompactInstruction>)
    requires DeferredAccountsFit(programId, accounts) && |accounts| >= 5 && RecordOpen(accounts, record, slot)
    requires |record| >= 176 && Presents(sha, data, accounts, record[8..40], record[40..72], ixs)
    ensures AllInRange(ixs, |accounts|)
    ensures DeferredAdmitted(sha, programId, accounts, data, record, vault, slot, ixs) <==> (
      && accounts[2].key == vault && accounts[3].lamports + accounts[4].lamports <= U64_MAX
      && forall i :: 0 <= i < |ixs| ==> Invocable(ixs[i], accounts, programId))
    ensures forall list ::
      DeferredAdmitted(sha, programId, accounts, data, record, vault, slot, list) ==> list == ixs
  {
    assert Encodes(data, ixs);
    hide Encodes, HashesMatch, Invocable, DeferredAccountsFit, RecordOpen;
    assert HashesMatch(sha, accounts, record[8..40], record[40..72], ixs);
    AllInRangeOf(sha, accounts, record[8..40], record[40..72], ixs);
    forall list | DeferredAdmitted(sha, programId, accounts, data, record, vault, slot, list) ensures list == ixs {
      UniqueDecoding(data, list, ixs);
    }
  }

  lemma AllInRangeOf(sha: Hash, accounts: seq<AccountInfo>, instructionsHash: Pubkey, accountsHash: Pubkey,
                     ixs: seq<CompactInstruction>)
    requires Writable(ixs) && HashesMatch(sha, accounts, instructionsHash, accountsHash, ixs)
    ensures AllInRange(ixs, |accounts|)
  {
    hide Serialize, KeyBytes, ResolveAll;
  }

  // ---------------------------------------------------------------------
  // The record

  /** What a record holds. */
  datatype Authorisation = Authorisation(bump: byte, instructionsHash: Pubkey, accountsHash: Pubkey, wallet: Pubkey,
                                         authority: Pubkey, payer: Pubkey, expiresAt: u64)

  /** The record as its readers see it. */
  function ReadRecord(record: seq<byte>): Authorisation
    requires |record| >= DEFERRED_SIZE
  {
    Authorisation(record[2], record[8..40], record[40..72], record[72..104], record[104..136], record[136..168],
                  ReadU64(record, 168))
  }

  /** Fields that follow an eight-byte header without a gap are read back. */
  lemma RecordFields(record: seq<byte>, header: seq<byte>, a: Authorisation)
    requires |header| == 8 && header[2] == a.bump
    requires record == header + a.instructionsHash + a.accountsHash + a.wallet + a.authority + a.payer
      + LeEncode(a.expiresAt, 8)
    ensures |record| == DEFERRED_SIZE && record[..8] == header && ReadRecord(record) == a
    ensures record[8..40] == a.instructionsHash && record[40..72] == a.accountsHash && record[72..104] == a.wallet
    ensures record[104..136] == a.authority && record[136..168] == a.payer && ReadU64(record, 168) == a.expiresAt
  {
    hide LeEncode, LeDecode;
    assert record[168..176] == LeEncode(a.expiresAt, 8);
    U64RoundTrip(record, 168, a.expiresAt);
    hide ReadU64;
    assert record[8..40] == a.instructionsHash && record[40..72] == a.accountsHash;
    assert record[72..104] == a.wallet && record[104..136] == a.authority && record[136..168] == a.payer;
  }

  /** Writes a record field by field; readers find what was written. */
  method WriteRecord(data: array<byte>, a: Authorisation)
    requires data.Length == DEFERRED_SIZE
    modifies data
    ensures ReadRecord(data[..]) == a
    ensures data[8..40] == a.instructionsHash && data[40..72] == a.accountsHash && data[72..104] == a.wallet
    ensures data[104..136] == a.authority && data[136..168] == a.payer && ReadU64(data[..], 168) == a.expiresAt
    ensures data[..8] == [DEFERRED, 1, a.bump, 0, 0, 0, 0, 0]
  {
    assert data.Length == 176;
    hide *;
    var header := [DEFERRED, 1, a.bump, 0, 0, 0, 0, 0];
    ghost var empty := data[..];
    CopyInto(data, 0, header);
    ghost var headed := data[..];
    SpliceExtends(empty, headed, 0, header);
    CopyInto(data, 8, a.instructionsHash);
    ghost var hashed := data[..];
    SpliceExtends(headed, hashed, 8, a.instructionsHash);
    CopyInto(data, 40, a.accountsHash);
    ghost var bound := data[..];
    SpliceExtends(hashed, bound, 40, a.accountsHash);
    CopyInto(data, 72, a.wallet);
    ghost var placed := data[..];
    SpliceExtends(bound, placed, 72, a.wallet);
    CopyInto(data, 104, a.authority);
    ghost var granted := data[..];
    SpliceExtends(placed, granted, 104, a.authority);
    CopyInto(data, 136, a.payer);
    ghost var paid := data[..];
    SpliceExtends(granted, paid, 136, a.payer);
    WriteU64(data, 168, a.expiresAt);
    SpliceExtends(paid, data[..], 168, LeEncode(a.expiresAt, 8));
    assert [] + header == header;
    RecordFields(data[..], header, a);
  }

  /** From authorisation to execution: a record made for `authorised` against
      `listed` executes that very list, up to its expiry and against whatever
      accounts are presented, short of a hash collision. */
  lemma AuthorisationBindsExecution(sha: Hash, programId: Pubkey, authorised: seq<CompactInstruction>,
                                    listed: seq<AccountInfo>, a: Authorisation, record: seq<byte>,
                                    accounts: seq<AccountInfo>, data: seq<byte>, vault: Pubkey, slot: u64,
                                    ixs: seq<CompactInstruction>)
    requires Parseable(authorised) && AllInRange(authorised, |listed|)
    requires a.instructionsHash == sha(Serialize(authorised))
    requires a.accountsHash == sha(KeyBytes(ResolveAll(authorised, listed)))
    requires |record| == DEFERRED_SIZE && ReadRecord(record) == a
    requires DeferredAdmitted(sha, programId, accounts, data, record, vault, slot, ixs)
    ensures slot <= a.expiresAt && accounts[1].key == a.wallet && accounts[4].key == a.payer
    ensures SameOrCollide(sha, authorised, listed, ixs, accounts)
  {
    hide KeyBytes, ResolveAll, Serialize, ReadU64, SameOrCollide;
    OnlyTheAuthorised(sha, authorised, listed, data, accounts, ixs);
  }
}
