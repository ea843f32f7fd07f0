/** One authentication by a passkey: the signed payload, the challenge and what it
    binds, and the counter. */
module Secp256r1 {
  import opened Slices
  import opened Bytes
  import opened Prelude
  import opened Json
  import opened Webauthn
  import opened Introspection
  import opened Binding

  const MAX_SLOT_AGE: u64 := 150
  const COUNTER_OFFSET: nat := 8
  const PUBKEY_OFFSET: nat := 80
  const RP_ID_HASH_OFFSET: nat := 113
  const AUTHORITY_SIZE: nat := 145
  const COUNTER_RANGE: nat := 0x1_0000_0000

  const INSTRUCTIONS_ID: Pubkey := [
    6, 167, 213, 23, 24, 123, 209, 102, 53, 218, 212, 4, 85, 253, 194, 192,
    193, 36, 198, 143, 33, 86, 117, 165, 219, 186, 203, 95, 8, 0, 0, 0]

  const SECP256R1_PROGRAM_ID: Pubkey := [
    6, 146, 13, 236, 47, 234, 113, 181, 183, 35, 129, 77, 116, 45, 169, 3, 28, 131, 231, 95, 219,
    121, 93, 86, 142, 117, 71, 128, 32, 0, 0, 0]

  /** The bytes of `type`, `challenge` and `webauthn.get`. */
  const TYPE: seq<byte> := [116, 121, 112, 101]
  const CHALLENGE: seq<byte> := [99, 104, 97, 108, 108, 101, 110, 103, 101]
  const WEBAUTHN_GET: seq<byte> := [119, 101, 98, 97, 117, 116, 104, 110, 46, 103, 101, 116]

  // ---------------------------------------------------------------------
  // The payload

  /** The fixed prefix (slot, counter, sysvar index, reserved byte), the
      authenticator data and the client data. */
  datatype Payload = Payload(prefix: seq<byte>, authenticatorData: seq<byte>, clientDataJson: seq<byte>)

  predicate Representable(p: Payload) {
    && |p.prefix| == 14 && |p.authenticatorData| < 0x1_0000
    && p.clientDataJson != [] && |p.clientDataJson| < 0x1_0000
  }

  function PayloadBytes(p: Payload): seq<byte> {
    p.prefix + (LeEncode(|p.authenticatorData|, 2) + (p.authenticatorData
    + (LeEncode(|p.clientDataJson|, 2) + p.clientDataJson)))
  }

  method SplitPayload(bytes: seq<byte>) returns (r: Result<Payload>)
    requires |bytes| >= 18
    ensures r.Ok? ==> Representable(r.value) && PayloadBytes(r.value) == bytes
    ensures r.Err? ==> r.error == InvalidAuthorityPayload && forall p :: Representable(p) ==> PayloadBytes(p) != bytes
  {
    if Splits(bytes) { SplitBytes(bytes); } else { Unsplittable(bytes); }
    hide PayloadBytes, ReadU16, Representable;
    var authDataLen: nat := ReadU16(bytes, 14);
    if |bytes| < 16 + authDataLen + 2 { return Err(InvalidAuthorityPayload); }
    var authenticatorData := bytes[16..16 + authDataLen];
    var cdjLenOffset := 16 + authDataLen;
    var cdjLen: nat := ReadU16(bytes, cdjLenOffset);
    var cdjOffset := cdjLenOffset + 2;
    if cdjLen == 0 || |bytes| != cdjOffset + cdjLen { return Err(InvalidAuthorityPayload); }
    var clientDataJson := bytes[cdjOffset..cdjOffset + cdjLen];
    assert clientDataJson == bytes[cdjOffset..];
    return Ok(Payload(bytes[..14], authenticatorData, clientDataJson));
  }

  lemma Unsplittable(bytes: seq<byte>)
    requires |bytes| >= 18 && !Splits(bytes)
    ensures forall p :: Representable(p) ==> PayloadBytes(p) != bytes
  {
    hide PayloadBytes, Splits;
    forall p | Representable(p) ensures PayloadBytes(p) != bytes {
      BytesSplit(p);
    }
  }

  predicate Splits(bytes: seq<byte>)
    requires |bytes| >= 18
  {
    var n := ReadU16(bytes, 14);
    |bytes| >= 16 + n + 2 && ReadU16(bytes, 16 + n) > 0 && |bytes| == 16 + n + 2 + ReadU16(bytes, 16 + n)
  }

  function SplitOf(bytes: seq<byte>): Payload
    requires |bytes| >= 18 && Splits(bytes)
  {
    var n := ReadU16(bytes, 14);
    Payload(bytes[..14], bytes[16..16 + n], bytes[18 + n..])
  }

  lemma U16Bytes(s: seq<byte>, i: nat)
    requires i + 2 <= |s|
    ensures LeEncode(ReadU16(s, i), 2) == s[i..i + 2]
  {
    LeEncodeDecode(s[i..i + 2]);
    hide LeEncode, LeDecode;
  }

  lemma FiveParts(s: seq<byte>, n: nat)
    requires 18 + n <= |s|
    ensures s == s[..14] + (s[14..16] + (s[16..16 + n] + (s[16 + n..18 + n] + s[18 + n..])))
  {
    SplitAt(s, 14);
    Cut(s, 14, 16);
    Cut(s, 16, 16 + n);
    Cut(s, 16 + n, 18 + n);
  }

  lemma PayloadIs(s: seq<byte>, n: nat)
    requires 18 + n <= |s| && n < 0x1_0000 && |s| - 18 - n < 0x1_0000
    requires LeEncode(n, 2) == s[14..16] && LeEncode(|s| - 18 - n, 2) == s[16 + n..18 + n]
    ensures PayloadBytes(Payload(s[..14], s[16..16 + n], s[18 + n..]))
      == s[..14] + (s[14..16] + (s[16..16 + n] + (s[16 + n..18 + n] + s[18 + n..])))
  {
    hide LeEncode;
  }

  lemma SplitBytes(bytes: seq<byte>)
    requires |bytes| >= 18 && Splits(bytes)
    ensures Representable(SplitOf(bytes)) && PayloadBytes(SplitOf(bytes)) == bytes
  {
    var n: nat := ReadU16(bytes, 14);
    U16Bytes(bytes, 14);
    U16Bytes(bytes, 16 + n);
    hide LeEncode, ReadU16, PayloadBytes;
    assert |bytes| == 18 + n + ReadU16(bytes, 16 + n);
    PayloadIs(bytes, n);
    FiveParts(bytes, n);
  }

  lemma BytesSplit(p: Payload)
    requires Representable(p)
    ensures |PayloadBytes(p)| >= 18 && Splits(PayloadBytes(p)) && SplitOf(PayloadBytes(p)) == p
  {
    PayloadParts(p);
    U16Back(|p.authenticatorData|);
    U16Back(|p.clientDataJson|);
    hide LeEncode, LeDecode, PayloadBytes;
  }

  /** Where the parts of an encoded payload lie. */
  lemma PayloadParts(p: Payload)
    requires Representable(p)
    ensures var bytes, n := PayloadBytes(p), |p.authenticatorData|;
      && |bytes| == 18 + n + |p.clientDataJson| && bytes[..14] == p.prefix
      && bytes[14..16] == LeEncode(n, 2) && bytes[16..16 + n] == p.authenticatorData
      && bytes[16 + n..18 + n] == LeEncode(|p.clientDataJson|, 2) && bytes[18 + n..] == p.clientDataJson
  {
    var bytes, n := PayloadBytes(p), |p.authenticatorData|;
    var json := LeEncode(|p.clientDataJson|, 2) + p.clientDataJson;
    var data := p.authenticatorData + json;
    hide LeEncode;
    Join(p.prefix, LeEncode(n, 2) + data);
    PartAt(bytes, 14, LeEncode(n, 2), data);
    PartAt(bytes, 16, p.authenticatorData, json);
    PartAt(bytes, 16 + n, LeEncode(|p.clientDataJson|, 2), p.clientDataJson);
  }

  // ---------------------------------------------------------------------
  // Authentication

  /** The previous instruction of the transaction, as the runtime reports it. */
  datatype Previous = Previous(currentIndex: u16, programId: Pubkey, data: seq<byte>)

  /** The counter test and the freshness of the stated slot. */
  predicate Fresh(counter: u32, payload: seq<byte>, slot: u64) {
    && |payload| >= 18
    && ReadU32(payload, 8) == (counter + 1) % COUNTER_RANGE
    && ReadU64(payload, 0) <= slot < ReadU64(payload, 0) + MAX_SLOT_AGE
  }

  /** What the challenge is a hash of. */
  function ChallengeInput(discriminator: seq<byte>, prefix: seq<byte>, signedPayload: seq<byte>, payer: Pubkey,
                          counter: u32, programId: Pubkey): seq<byte>
  {
    discriminator + prefix + signedPayload + payer + LeEncode(counter, 4) + programId
  }

  /** What a challenge is a hash of fixes all six parts, since only the signed
      payload has no fixed length. */
  lemma ChallengeBinds(sha: Hash, d: byte, prefix: seq<byte>, signedPayload: seq<byte>, payer: Pubkey, counter: u32,
                       programId: Pubkey, d': byte, prefix': seq<byte>, signedPayload': seq<byte>, payer': Pubkey,
                       counter': u32, programId': Pubkey)
    requires |prefix| == 14 && |prefix'| == 14
    requires sha(ChallengeInput([d], prefix, signedPayload, payer, counter, programId))
      == sha(ChallengeInput([d'], prefix', signedPayload', payer', counter', programId'))
    ensures (d == d' && prefix == prefix' && signedPayload == signedPayload' && payer == payer' && counter == counter'
             && programId == programId')
      || Collide(sha, ChallengeInput([d], prefix, signedPayload, payer, counter, programId),
                 ChallengeInput([d'], prefix', signedPayload', payer', counter', programId'))
  {
    var a := ChallengeInput([d], prefix, signedPayload, payer, counter, programId);
    var b := ChallengeInput([d'], prefix', signedPayload', payer', counter', programId');
    ChallengeParts(d, prefix, signedPayload, payer, counter, programId);
    ChallengeParts(d', prefix', signedPayload', payer', counter', programId');
    CounterBack(counter);
    CounterBack(counter');
    hide ChallengeInput, LeEncode, LeDecode;
  }

  lemma CounterBack(counter: u32)
    ensures LeDecode(LeEncode(counter, 4)) == counter
  {
    PowConstants();
    LeDecodeEncode(counter, 4);
  }

  lemma ChallengeParts(d: byte, prefix: seq<byte>, signedPayload: seq<byte>, payer: Pubkey, counter: u32,
                       programId: Pubkey)
    requires |prefix| == 14
    ensures var s := ChallengeInput([d], prefix, signedPayload, payer, counter, programId);
      var n := |s| - 68;
      && n == 15 + |signedPayload| && s[0] == d && s[1..15] == prefix && s[15..n] == signedPayload
      && s[n..n + 32] == payer && s[n + 32..n + 36] == LeEncode(counter, 4) && s[n + 36..] == programId
  {
    var s := ChallengeInput([d], prefix, signedPayload, payer, counter, programId);
    var n := 15 + |signedPayload|;
    hide LeEncode;
    ChallengeNested([d], prefix, signedPayload, payer, LeEncode(counter, 4), programId);
    hide ChallengeInput;
    PartAt(s, 0, [d], prefix + (signedPayload + (payer + (LeEncode(counter, 4) + programId))));
    PartAt(s, 1, prefix, signedPayload + (payer + (LeEncode(counter, 4) + programId)));
    PartAt(s, 15, signedPayload, payer + (LeEncode(counter, 4) + programId));
    PartAt(s, n, payer, LeEncode(counter, 4) + programId);
    PartAt(s, n + 32, LeEncode(counter, 4), programId);
    assert s[0] == s[0..1][0];
  }

  lemma ChallengeNested(a: seq<byte>, b: seq<byte>, c: seq<byte>, d: seq<byte>, e: seq<byte>, f: seq<byte>)
    ensures var s := a + b + c + d + e + f; s[0..] == s == a + (b + (c + (d + (e + f))))
  {
  }

  /** The client data names the right ceremony and carries the challenge. */
  predicate ClientDataFits(json: seq<byte>, challenge: seq<byte>) {
    Extract(json, TYPE) == Some(WEBAUTHN_GET) && Extract(json, CHALLENGE) == Some(Encode(challenge))
  }

  /** The authenticator data is for this relying party with the user present, and
      the previous instruction verified a signature by the stored key over it
      and the client data hash. */
  predicate Signed(sha: Hash, authority: seq<byte>, accounts: seq<AccountInfo>, p: Payload, previous: Previous)
    requires |authority| >= AUTHORITY_SIZE && |p.prefix| == 14
  {
    && |p.authenticatorData| >= AUTH_DATA_MIN_LEN && UserPresent(p.authenticatorData)
    && RpIdHash(p.authenticatorData) == authority[RP_ID_HASH_OFFSET..AUTHORITY_SIZE]
    && p.prefix[12] < |accounts| && accounts[p.prefix[12]].key == INSTRUCTIONS_ID
    && previous.currentIndex > 0 && previous.programId == SECP256R1_PROGRAM_ID
    && VerifyInstructionData(previous.data, authority[PUBKEY_OFFSET..PUBKEY_OFFSET + 33],
                             p.authenticatorData, sha(p.clientDataJson)).Ok?
  }

  predicate PayerSigns(accounts: seq<AccountInfo>) {
    |accounts| > 0 && accounts[0].isSigner
  }

  method CheckClientData(json: seq<byte>, challenge: seq<byte>) returns (r: Result<()>)
    ensures r.Ok? <==> ClientDataFits(json, challenge)
    ensures r == Err(InvalidMessage) <==> (
      || Extract(json, TYPE).None?
      || (Extract(json, TYPE) == Some(WEBAUTHN_GET) && Extract(json, CHALLENGE).None?))
    ensures r == Err(InvalidAuthenticationKind) <==>
      Extract(json, TYPE).Some? && Extract(json, TYPE) != Some(WEBAUTHN_GET)
    ensures r.Err? ==>
      r.error == InvalidMessage || r.error == InvalidAuthenticationKind || r.error == InvalidMessageHash
  {
    hide Extract, Encode;
    var typeValue := ExtractTopLevelStringField(json, TYPE);
    if typeValue.Err? { return Err(typeValue.error); }
    if typeValue.value != WEBAUTHN_GET { return Err(InvalidAuthenticationKind); }
    var challengeValue := ExtractTopLevelStringField(json, CHALLENGE);
    if challengeValue.Err? { return Err(challengeValue.error); }
    var expected := Base64UrlEncodeNoPad(challenge);
    var equal := CtEq(challengeValue.value, expected);
    if !equal { return Err(InvalidMessageHash); }
    return Ok(());
  }

  lemma VerifyErrorKinds(data: seq<byte>, key: seq<byte>, authData: seq<byte>, hash: seq<byte>)
    requires |key| == 33 && |hash| == 32
    ensures VerifyInstructionData(data, key, authData, hash).Err? ==>
      VerifyInstructionData(data, key, authData, hash).error in {InvalidInstruction, InvalidPubkey, InvalidMessageHash}
  {
    hide ReadU16;
  }

  method CheckSignature(sha: Hash, authority: seq<byte>, accounts: seq<AccountInfo>, p: Payload, previous: Previous)
    returns (r: Result<()>)
    requires |authority| >= AUTHORITY_SIZE && |p.prefix| == 14
    ensures r.Ok? <==> Signed(sha, authority, accounts, p, previous)
    ensures r == Err(PermissionDenied) <==>
      |p.authenticatorData| >= AUTH_DATA_MIN_LEN && p.authenticatorData[32] % 2 == 0
    ensures r.Err? ==>
      r.error in {InvalidAuthorityPayload, PermissionDenied, InvalidPubkey, InvalidInstruction, InvalidMessageHash}
  {
    VerifyErrorKinds(previous.data, authority[PUBKEY_OFFSET..PUBKEY_OFFSET + 33], p.authenticatorData,
                     sha(p.clientDataJson));
    hide VerifyInstructionData;
    if |p.authenticatorData| < AUTH_DATA_MIN_LEN { return Err(InvalidAuthorityPayload); }
    if !UserPresent(p.authenticatorData) { return Err(PermissionDenied); }
    if RpIdHash(p.authenticatorData) != authority[RP_ID_HASH_OFFSET..RP_ID_HASH_OFFSET + 32] {
      return Err(InvalidPubkey);
    }
    var sysvarIxIndex := p.prefix[12];
    if sysvarIxIndex >= |accounts| { return Err(InvalidAuthorityPayload); }
    if accounts[sysvarIxIndex].key != INSTRUCTIONS_ID { return Err(InvalidInstruction); }
    if previous.currentIndex == 0 { return Err(InvalidInstruction); }
    if previous.programId != SECP256R1_PROGRAM_ID { return Err(InvalidInstruction); }
    return VerifyInstructionData(previous.data, authority[PUBKEY_OFFSET..PUBKEY_OFFSET + 33],
                                 p.authenticatorData, sha(p.clientDataJson));
  }

  method CheckFresh(payload: seq<byte>, authority: seq<byte>, stackHeight: nat, slot: u64) returns (r: Result<()>)
    requires |payload| >= 18
    ensures r.Ok? <==> stackHeight <= 1 && |authority| >= 48 && Fresh(ReadU32(authority, COUNTER_OFFSET), payload, slot)
    ensures r == Err(PermissionDenied) <==> stackHeight > 1
    ensures r == Err(InvalidSignatureAge) <==>
      stackHeight <= 1 && !(ReadU64(payload, 0) <= slot < ReadU64(payload, 0) + MAX_SLOT_AGE)
    ensures r == Err(SignatureReused) <==> (
      && stackHeight <= 1 && ReadU64(payload, 0) <= slot < ReadU64(payload, 0) + MAX_SLOT_AGE
      && |authority| >= 48 && ReadU32(payload, 8) != (ReadU32(authority, COUNTER_OFFSET) + 1) % COUNTER_RANGE)
    ensures r.Err? ==> r.error in {PermissionDenied, InvalidSignatureAge, InvalidAuthorityPayload, SignatureReused}
  {
    hide ReadU32, ReadU64;
    var stated := ReadU64(payload, 0);
    var submitted := ReadU32(payload, 8);
    if stackHeight > 1 { return Err(PermissionDenied); }
    if stated > slot { return Err(InvalidSignatureAge); }
    if slot - stated >= MAX_SLOT_AGE { return Err(InvalidSignatureAge); }
    if |authority| < 48 { return Err(InvalidAuthorityPayload); }
    if submitted != (ReadU32(authority, COUNTER_OFFSET) + 1) % COUNTER_RANGE { return Err(SignatureReused); }
    return Ok(());
  }

  /** What one call of the authenticator is given beside the authority account. */
  datatype Call = Call(accounts: seq<AccountInfo>, payload: seq<byte>, signedPayload: seq<byte>, discriminator: byte,
                       programId: Pubkey, stackHeight: nat, slot: u64, previous: Previous)

  /** The counter that the next payload must carry. */
  function NextCounter(authority: seq<byte>): u32
    requires |authority| >= AUTHORITY_SIZE
  {
    (ReadU32(authority, COUNTER_OFFSET) + 1) % COUNTER_RANGE
  }

  function Challenged(c: Call, prefix: seq<byte>, counter: u32): seq<byte>
    requires |c.accounts| > 0
  {
    ChallengeInput([c.discriminator], prefix, c.signedPayload, c.accounts[0].key, counter, c.programId)
  }

  /** The conditions under which the payload `p` authenticates. */
  predicate Authentic(sha: Hash, authority: seq<byte>, c: Call, p: Payload)
    requires Representable(p)
  {
    && c.stackHeight <= 1 && |authority| >= AUTHORITY_SIZE
    && Fresh(ReadU32(authority, COUNTER_OFFSET), PayloadBytes(p), c.slot) && PayerSigns(c.accounts)
    && ClientDataFits(p.clientDataJson, sha(Challenged(c, p.prefix, NextCounter(authority))))
    && Signed(sha, authority, c.accounts, p, c.previous)
  }

  ghost predicate AuthenticBytes(sha: Hash, authority: seq<byte>, c: Call) {
    exists p :: Representable(p) && PayloadBytes(p) == c.payload && Authentic(sha, authority, c, p)
  }

  /** The slot stated in the payload is at most 149 slots back. */
  predicate InWindow(c: Call)
    requires |c.payload| >= 18
  {
    ReadU64(c.payload, 0) <= c.slot < ReadU64(c.payload, 0) + 150
  }

  /** All the checks, in the order they are made. */
  method CheckAuthentic(sha: Hash, authority: seq<byte>, c: Call) returns (r: Result<()>)
    ensures r.Ok? <==> AuthenticBytes(sha, authority, c)
    ensures r == Err(InvalidSignatureAge) <==> |c.payload| >= 18 && c.stackHeight <= 1 && !InWindow(c)
    ensures r == Err(SignatureReused) <==> (
      && |c.payload| >= 18 && c.stackHeight <= 1 && InWindow(c) && |authority| >= 48
      && ReadU32(c.payload, 8) != (ReadU32(authority, 8) + 1) % 0x1_0000_0000)
    ensures r == Err(MissingRequiredSignature) <==> (
      && |c.payload| >= 18 && c.stackHeight <= 1 && InWindow(c) && |authority| >= 145
      && ReadU32(c.payload, 8) == (ReadU32(authority, 8) + 1) % 0x1_0000_0000
      && |c.accounts| > 0 && !c.accounts[0].isSigner)
  {
    if AuthenticBytes(sha, authority, c) { Necessary(sha, authority, c); }
    hide AuthenticBytes, ClientDataFits, Signed, Fresh, ReadU32, LeEncode, Representable, PayloadBytes;
    if |c.payload| < 18 { return Err(InvalidAuthorityPayload); }
    var inTime := CheckFresh(c.payload, authority, c.stackHeight, c.slot);
    if inTime.Err? { return Err(inTime.error); }
    if |authority| < AUTHORITY_SIZE { return Err(InvalidAuthorityPayload); }
    if |c.accounts| == 0 { return Err(NotEnoughAccountKeys); }
    if !c.accounts[0].isSigner { return Err(MissingRequiredSignature); }
    var expectedCounter: u32 := (ReadU32(authority, COUNTER_OFFSET) + 1) % COUNTER_RANGE;
    var challenge := sha(ChallengeInput([c.discriminator], c.payload[..14], c.signedPayload, c.accounts[0].key,
                                        expectedCounter, c.programId));
    var split := SplitPayload(c.payload);
    if split.Err? { return Err(split.error); }
    OnlySplit(sha, authority, c, split.value);
    var clientData := CheckClientData(split.value.clientDataJson, challenge);
    if clientData.Err? { return Err(clientData.error); }
    r := CheckSignature(sha, authority, c.accounts, split.value, c.previous);
  }

  /** Accepts exactly the authentic payloads. Acceptance steps the counter, the
      only bytes that change; a refusal changes nothing. */
  method Authenticate(sha: Hash, authority: array<byte>, c: Call) returns (r: Result<()>)
    modifies authority
    ensures r.Ok? <==> AuthenticBytes(sha, old(authority[..]), c)
    ensures r.Ok? ==> authority.Length >= AUTHORITY_SIZE && authority[..] == Stepped(old(authority[..]))
    ensures r.Err? ==> authority[..] == old(authority[..])
    ensures r == Err(InvalidSignatureAge) <==> |c.payload| >= 18 && c.stackHeight <= 1 && !InWindow(c)
    ensures r == Err(SignatureReused) <==> (
      && |c.payload| >= 18 && c.stackHeight <= 1 && InWindow(c) && authority.Length >= 48
      && ReadU32(c.payload, 8) != (ReadU32(old(authority[..]), 8) + 1) % 0x1_0000_0000)
  {
    r := CheckAuthentic(sha, authority[..], c);
    if r.Err? { return; }
    Necessary(sha, authority[..], c);
    hide AuthenticBytes, ReadU32, LeEncode, Splice;
    var expectedCounter: u32 := (ReadU32(authority[..], COUNTER_OFFSET) + 1) % COUNTER_RANGE;
    CopyInto(authority, COUNTER_OFFSET, LeEncode(expectedCounter, 4));
  }

  /** The authority account with its counter stepped, wrapping at 2^32. */
  function Stepped(authority: seq<byte>): (s: seq<byte>)
    requires |authority| >= AUTHORITY_SIZE
    ensures |s| == |authority|
  {
    Splice(authority, COUNTER_OFFSET, LeEncode(NextCounter(authority), 4))
  }

  lemma Necessary(sha: Hash, authority: seq<byte>, c: Call)
    requires AuthenticBytes(sha, authority, c)
    ensures |c.payload| >= 18 && c.stackHeight <= 1 && |authority| >= AUTHORITY_SIZE
    ensures Fresh(ReadU32(authority, COUNTER_OFFSET), c.payload, c.slot) && PayerSigns(c.accounts)
  {
  }

  lemma OnlySplit(sha: Hash, authority: seq<byte>, c: Call, p: Payload)
    requires Representable(p) && PayloadBytes(p) == c.payload
    ensures |c.payload| >= 18 && Splits(c.payload) && SplitOf(c.payload) == p
    ensures |p.prefix| == 14 && p.prefix == c.payload[..14]
    ensures AuthenticBytes(sha, authority, c) <==> Authentic(sha, authority, c, p)
  {
    BytesSplit(p);
    forall q | Representable(q) && PayloadBytes(q) == c.payload ensures q == p { BytesSplit(q); }
  }

  /** What stepping does to the fields of the account. */
  lemma SteppedFields(authority: seq<byte>)
    requires |authority| >= AUTHORITY_SIZE
    ensures ReadU32(Stepped(authority), COUNTER_OFFSET) == NextCounter(authority)
    ensures Stepped(authority)[..8] == authority[..8] && Stepped(authority)[12..] == authority[12..]
  {
    var next := NextCounter(authority);
    PowConstants();
    LeDecodeEncode(next, 4);
    hide NextCounter;
    assert Stepped(authority)[8..12] == LeEncode(next, 4);
  }

  /** The two calls ask for the same: instruction, signed payload, payer and program. */
  predicate SameRequest(c: Call, c': Call)
    requires |c.accounts| > 0 && |c'.accounts| > 0
  {
    && c.discriminator == c'.discriminator && c.signedPayload == c'.signedPayload
    && c.accounts[0].key == c'.accounts[0].key && c.programId == c'.programId
  }

  /** Client data that authenticates two calls was made for one: the same request,
      with the same prefix and counter, short of a collision. */
  lemma ClientDataBinds(sha: Hash, a: seq<byte>, c: Call, p: Payload, a': seq<byte>, c': Call, p': Payload)
    requires Representable(p) && Representable(p') && p.clientDataJson == p'.clientDataJson
    requires Authentic(sha, a, c, p) && Authentic(sha, a', c', p')
    ensures |c.accounts| > 0 && |c'.accounts| > 0 && |a| >= AUTHORITY_SIZE && |a'| >= AUTHORITY_SIZE
    ensures (SameRequest(c, c') && p.prefix == p'.prefix && NextCounter(a) == NextCounter(a'))
      || Collide(sha, Challenged(c, p.prefix, NextCounter(a)), Challenged(c', p'.prefix, NextCounter(a')))
  {
    var n, n' := NextCounter(a), NextCounter(a');
    var challenge, challenge' := sha(Challenged(c, p.prefix, n)), sha(Challenged(c', p'.prefix, n'));
    assert ClientDataFits(p.clientDataJson, challenge) && ClientDataFits(p.clientDataJson, challenge');
    assert Encode(challenge) == Encode(challenge');
    assert |p.prefix| == 14 && |p'.prefix| == 14;
    hide Encode, ClientDataFits, Authentic, Representable, NextCounter, ChallengeInput;
    EncodeInjective(challenge, challenge');
    ChallengeBinds(sha, c.discriminator, p.prefix, c.signedPayload, c.accounts[0].key, n, c.programId,
                   c'.discriminator, p'.prefix, c'.signedPayload, c'.accounts[0].key, n', c'.programId);
  }
}
