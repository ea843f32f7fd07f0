/** Passkey accounts as they are created: what two creations for one credential
    have in common, and that each of them can be authenticated. */
module PasskeyAccounts {
  import opened Slices
  import opened Bytes
  import opened Prelude
  import opened Binding
  import opened Json
  import opened JsonText
  import opened Webauthn
  import opened Introspection
  import opened Secp256r1
  import opened PasskeyRuns
  import opened Credentials

  // ---------------------------------------------------------------------
  // Creations

  /** The bytes of a new passkey authority. */
  function NewAccount(sha: Hash, s: Stated, role: byte, bump: byte, wallet: Pubkey): (b: seq<byte>)
    requires Allowed(s) && s.StatedPasskey?
    ensures |b| == AUTHORITY_SIZE
  {
    CreatedFields(sha, s, role, bump, wallet);
    AuthorityBytes(sha, s, role, bump, wallet)
  }

  lemma CreatedFields(sha: Hash, s: Stated, role: byte, bump: byte, wallet: Pubkey)
    requires Allowed(s) && s.StatedPasskey?
    ensures |AuthorityBytes(sha, s, role, bump, wallet)| == AUTHORITY_SIZE
    ensures ReadU32(AuthorityBytes(sha, s, role, bump, wallet), COUNTER_OFFSET) == 0
    ensures AuthorityBytes(sha, s, role, bump, wallet)[RP_ID_HASH_OFFSET..AUTHORITY_SIZE] == sha(s.rpId)
  {
    AuthorityFields(sha, s, role, bump, wallet);
    hide AuthorityBytes, ReadU32;
  }

  /** Accounts made for passkeys of one relying party start alike, whatever the
      wallet, the role, the bump and even the key: the counter is at zero. */
  lemma CreatedAlike(sha: Hash, s: Stated, role: byte, bump: byte, wallet: Pubkey,
                     s': Stated, role': byte, bump': byte, wallet': Pubkey)
    requires Allowed(s) && s.StatedPasskey? && Allowed(s') && s'.StatedPasskey? && s.rpId == s'.rpId
    ensures ReadU32(NewAccount(sha, s, role, bump, wallet), COUNTER_OFFSET) == 0
    ensures SameCount(NewAccount(sha, s, role, bump, wallet), NewAccount(sha, s', role', bump', wallet'))
    ensures SameParty(NewAccount(sha, s, role, bump, wallet), NewAccount(sha, s', role', bump', wallet'))
  {
    CreatedFields(sha, s, role, bump, wallet);
    CreatedFields(sha, s', role', bump', wallet');
    CountIs(NewAccount(sha, s, role, bump, wallet), NewAccount(sha, s', role', bump', wallet'));
    hide AuthorityBytes, ReadU32, NextCounter;
  }

  /** A passkey that is an authority of two wallets, or was removed and added again:
      the exact condition for a payload to pass on both accounts is that the two
      have accepted equally often, modulo 2^32, and that the second call renews it. */
  lemma SecondCreation(sha: Hash, s: Stated, role: byte, bump: byte, wallet: Pubkey, calls: seq<Call>, c: Call,
                       role': byte, bump': byte, wallet': Pubkey, calls': seq<Call>, c': Call, p: Payload)
    requires Allowed(s) && s.StatedPasskey? && Representable(p) && PayloadBytes(p) == c.payload && Resubmits(c, c')
    requires AuthenticBytes(sha, AfterCalls(sha, NewAccount(sha, s, role, bump, wallet), calls), c)
    ensures |c.accounts| > 0 && |PayloadBytes(p)| >= 18
    ensures var a, b := NewAccount(sha, s, role, bump, wallet), NewAccount(sha, s, role', bump', wallet');
      || (AuthenticBytes(sha, AfterCalls(sha, b, calls'), c') <==> (
            && Acceptances(sha, a, calls) % COUNTER_RANGE == Acceptances(sha, b, calls') % COUNTER_RANGE
            && Renews(sha, b, c', p, c.accounts[0].key)))
      || (|c'.accounts| > 0
          && Collide(sha, Challenged(c, p.prefix, NextCounter(AfterCalls(sha, a, calls))),
                     Challenged(c', p.prefix, NextCounter(AfterCalls(sha, b, calls')))))
  {
    hide *;
    CreatedAlike(sha, s, role, bump, wallet, s, role', bump', wallet');
    SecondAccount(sha, NewAccount(sha, s, role, bump, wallet), calls, c,
                  NewAccount(sha, s, role', bump', wallet'), calls', c', p);
  }

  // ---------------------------------------------------------------------
  // Authentic payloads

  /** A member whose value is a string. */
  function StringMember(key: seq<byte>, body: seq<byte>, rest: Members): Members {
    Member([], key, [], [], Str(body), [], rest)
  }

  /** The client data of a ceremony, as a JSON object of two members. */
  function ClientData(challenge: seq<byte>): Value {
    Obj([], StringMember(TYPE, WEBAUTHN_GET, StringMember(CHALLENGE, Encode(challenge), NoMembers)))
  }

  predicate PlainText(s: seq<byte>) {
    forall i :: 0 <= i < |s| ==> s[i] != QUOTE && s[i] != BACKSLASH
  }

  lemma {:induction false} PlainBody(s: seq<byte>)
    requires PlainText(s)
    ensures StringBody(s) && Plain(s)
  {
    if s == [] {
    } else {
      PlainBody(s[1..]);
    }
  }

  lemma EncodedBody(d: seq<byte>)
    ensures StringBody(Encode(d)) && Plain(Encode(d))
  {
    forall i | 0 <= i < |Encode(d)| ensures Encode(d)[i] != QUOTE && Encode(d)[i] != BACKSLASH {
      EncodeAlphabet(d, i);
    }
    hide Encode;
    PlainBody(Encode(d));
  }

  lemma StringMemberFacts(key: seq<byte>, body: seq<byte>, rest: Members, k: seq<byte>)
    requires StringBody(key) && Plain(key) && StringBody(body) && Plain(body) && WellFormedMembers(rest)
    ensures |MembersText(StringMember(key, body, rest), k)|
      == |key| + |body| + 5 + if rest.NoMembers? then |k| else 1 + |MembersText(rest, k)|
    ensures WellFormedMembers(StringMember(key, body, rest))
    ensures Lookup(StringMember(key, body, rest), key) == Some(body)
    ensures forall other :: other != key ==> Lookup(StringMember(key, body, rest), other) == Lookup(rest, other)
  {
    hide StringBody, Plain;
    assert Text(Str(body), k) == Quoted(body, k);
    assert WellFormed(Str(body)) && Unescaped(Str(body));
  }

  lemma ObjectFacts(members: Members)
    requires members.Member?
    ensures Text(Obj([], members), []) == [OPEN_BRACE] + MembersText(members, [CLOSE_BRACE] + [])
    ensures WellFormedMembers(members) ==> WellFormed(Obj([], members))
    ensures WellFormedMembers(NoMembers)
  {
  }

  lemma FieldNames()
    ensures StringBody(TYPE) && Plain(TYPE) && StringBody(CHALLENGE) && Plain(CHALLENGE)
    ensures StringBody(WEBAUTHN_GET) && Plain(WEBAUTHN_GET)
    ensures TYPE != CHALLENGE && |TYPE| == 4 && |CHALLENGE| == 9 && |WEBAUTHN_GET| == 12
  {
    hide StringBody, Plain;
    PlainBody(TYPE);
    PlainBody(CHALLENGE);
    PlainBody(WEBAUTHN_GET);
  }

  lemma ClientDataShape(challenge: seq<byte>)
    requires |challenge| == 32
    ensures WellFormed(ClientData(challenge)) && 0 < |Text(ClientData(challenge), [])| < 0x1_0000
    ensures ClientData(challenge).Obj?
    ensures Lookup(ClientData(challenge).members, TYPE) == Some(WEBAUTHN_GET)
    ensures Lookup(ClientData(challenge).members, CHALLENGE) == Some(Encode(challenge))
  {
    var second := StringMember(CHALLENGE, Encode(challenge), NoMembers);
    var members := StringMember(TYPE, WEBAUTHN_GET, second);
    assert ClientData(challenge) == Obj([], members) && second.Member? && members.Member?;
    hide *;
    EncodeLength(challenge);
    EncodedBody(challenge);
    FieldNames();
    ObjectFacts(members);
    StringMemberFacts(CHALLENGE, Encode(challenge), NoMembers, [CLOSE_BRACE] + []);
    StringMemberFacts(TYPE, WEBAUTHN_GET, second, [CLOSE_BRACE] + []);
  }

  lemma ClientDataLookup(challenge: seq<byte>)
    requires |challenge| == 32
    ensures ClientDataFits(Text(ClientData(challenge), []), challenge)
    ensures 0 < |Text(ClientData(challenge), [])| < 0x1_0000
  {
    var v := ClientData(challenge);
    hide Encode, Extract, StringBody, Plain, Text, Lookup, WellFormed, ClientData;
    ClientDataShape(challenge);
    assert [] + Text(v, []) == Text(v, []);
    ExtractIsLookup([], v, [], TYPE);
    ExtractIsLookup([], v, [], CHALLENGE);
  }

  /** Bytes that verify under a key over a message: the signature itself is the
      business of the program that was invoked. */
  function Verified(key: seq<byte>, p: Payload, sha: Hash): (d: seq<byte>)
    requires |key| == COMPRESSED_PUBKEY_SIZE && |p.authenticatorData| + 32 < 0x1_0000
    ensures VerifyInstructionData(d, key, p.authenticatorData, sha(p.clientDataJson)).Ok?
  {
    var signature: seq<byte> := seq(SIGNATURE_SIZE, _ => 0);
    LayoutAccepted(key, p.authenticatorData, sha(p.clientDataJson), 0, signature, 0, []);
    Layout(key, p.authenticatorData + sha(p.clientDataJson), 0, signature, 0, [])
  }

  /** Slot and counter, then the index 1 of the sysvar and a reserved byte. */
  function Prefix(slot: u64, counter: u32): (s: seq<byte>)
    ensures |s| == 14
  {
    LeEncode(slot, 8) + LeEncode(counter, 4) + [1, 0]
  }

  /** What an authenticator returns for a relying party with the user present: its
      hash, then flags with the lowest bit set, and anything behind them. */
  predicate FreeData(d: seq<byte>, party: seq<byte>) {
    37 <= |d| < 0xFFE0 && d[..32] == party && d[32] % 2 == 1
  }

  function Answer(authority: seq<byte>, challenge: seq<byte>, slot: u64, authData: seq<byte>): Payload
    requires |authority| >= AUTHORITY_SIZE
  {
    Payload(Prefix(slot, NextCounter(authority)), authData, Text(ClientData(challenge), []))
  }

  /** Every account can be authenticated at any slot, for any request and payer,
      whatever the account list holds behind the payer and the sysvar, and whatever
      the authenticator sets besides the hash of the relying party and presence. */
  lemma Authenticable(sha: Hash, authority: seq<byte>, payer: AccountInfo, sysvar: AccountInfo,
                      others: seq<AccountInfo>, authData: seq<byte>, signedPayload: seq<byte>, discriminator: byte,
                      programId: Pubkey, slot: u64, index: u16)
    returns (c: Call, p: Payload)
    requires |authority| >= AUTHORITY_SIZE && payer.isSigner && sysvar.key == INSTRUCTIONS_ID && index > 0
    requires 37 <= |authData| < 0xFFE0 && authData[..32] == authority[113..145] && authData[32] % 2 == 1
    ensures AuthenticBytes(sha, authority, c) && Representable(p) && PayloadBytes(p) == c.payload
    ensures p.authenticatorData == authData
    ensures c.accounts == [payer, sysvar] + others && c.signedPayload == signedPayload
    ensures c.discriminator == discriminator && c.programId == programId && c.slot == slot
    ensures c.previous.currentIndex == index
  {
    var accounts := [payer, sysvar] + others;
    var prefix := Prefix(slot, NextCounter(authority));
    var input := ChallengeInput([discriminator], prefix, signedPayload, payer.key, NextCounter(authority), programId);
    p := Answer(authority, sha(input), slot, authData);
    c := Call(accounts, PayloadBytes(p), signedPayload, discriminator, programId, 1, slot,
              Previous(index, SECP256R1_PROGRAM_ID, Verified(authority[PUBKEY_OFFSET..PUBKEY_OFFSET + 33], p, sha)));
    assert FreeData(authData, authority[RP_ID_HASH_OFFSET..AUTHORITY_SIZE]);
    AnswerFits(authority, sha(input), slot, authData);
    assert Challenged(c, prefix, NextCounter(authority)) == input;
    assert p.prefix == prefix && prefix[12] == 1;
    AuthenticIs(sha, authority, c, p);
    assert p.prefix[12] < |accounts| && accounts[p.prefix[12]] == sysvar;
    hide AuthenticBytes, Authentic, PayloadBytes, ClientDataFits, ReadU32, ReadU64, ChallengeInput, Answer, Prefix,
      NextCounter, UserPresent, RpIdHash, VerifyInstructionData, FreeData;
    assert Renews(sha, authority, c, p, payer.key);
    assert Authentic(sha, authority, c, p);
    OnlySplit(sha, authority, c, p);
  }

  lemma AnswerFits(authority: seq<byte>, challenge: Pubkey, slot: u64, authData: seq<byte>)
    requires |authority| >= AUTHORITY_SIZE && FreeData(authData, authority[RP_ID_HASH_OFFSET..AUTHORITY_SIZE])
    ensures var p := Answer(authority, challenge, slot, authData);
      && Representable(p) && |PayloadBytes(p)| >= 18
      && ReadU64(PayloadBytes(p), 0) == slot && ReadU32(PayloadBytes(p), 8) == NextCounter(authority)
      && 37 <= |p.authenticatorData| < 0xFFE0 && UserPresent(p.authenticatorData)
      && RpIdHash(p.authenticatorData) == authority[RP_ID_HASH_OFFSET..AUTHORITY_SIZE]
      && ClientDataFits(p.clientDataJson, challenge)
  {
    var p := Answer(authority, challenge, slot, authData);
    FreeDataFields(authData, authority[RP_ID_HASH_OFFSET..AUTHORITY_SIZE]);
    hide Text, ClientData, ClientDataFits, NextCounter, PayloadBytes, Prefix, FreeData, UserPresent, RpIdHash, ReadU32,
      ReadU64;
    ClientDataLookup(challenge);
    BytesSplit(p);
    PayloadParts(p);
    PrefixFields(PayloadBytes(p), slot, NextCounter(authority));
  }

  lemma FreeDataFields(d: seq<byte>, party: seq<byte>)
    requires FreeData(d, party)
    ensures 37 <= |d| < 0xFFE0 && UserPresent(d) && RpIdHash(d) == party
  {
  }

  lemma PrefixFields(s: seq<byte>, slot: u64, counter: u32)
    requires |s| >= 18 && s[..14] == Prefix(slot, counter)
    ensures ReadU64(s, 0) == slot && ReadU32(s, 8) == counter
  {
    TakeSlice(s, 14, 0, 8);
    TakeSlice(s, 14, 8, 12);
    ThreeParts(LeEncode(slot, 8), LeEncode(counter, 4), [1, 0]);
    PowConstants();
    LeDecodeEncode(slot, 8);
    LeDecodeEncode(counter, 4);
    hide LeEncode, LeDecode;
    assert s[0..8] == Prefix(slot, counter)[..8];
  }

  /** The condition of `AcceptedElsewhere` can be met: given an accepted call, any
      account with the same counter and relying party accepts the payload in a
      second call, with its own key, another previous instruction, any slot in
      the window and any account list that names the payer and the sysvar. */
  lemma SecondCall(sha: Hash, a: seq<byte>, c: Call, p: Payload, b: seq<byte>, accounts: seq<AccountInfo>, slot: u64,
                   index: u16)
    returns (c': Call)
    requires |a| >= AUTHORITY_SIZE && |b| >= AUTHORITY_SIZE && SameCount(a, b) && SameParty(a, b) && index > 0
    requires AuthenticBytes(sha, a, c) && Representable(p) && PayloadBytes(p) == c.payload && |c.payload| >= 18
    requires ReadU64(c.payload, 0) <= slot < ReadU64(c.payload, 0) + MAX_SLOT_AGE
    requires PayerSigns(accounts) && |c.accounts| > 0 && accounts[0].key == c.accounts[0].key
    requires |p.prefix| == 14 && p.prefix[12] < |accounts| && accounts[p.prefix[12]].key == INSTRUCTIONS_ID
    ensures AuthenticBytes(sha, b, c') && Resubmits(c, c')
    ensures c'.accounts == accounts && c'.slot == slot && c'.previous.currentIndex == index
  {
    OnlySplit(sha, a, c, p);
    AuthDataFits(sha, a, c, p);
    hide AuthenticBytes, Authentic, PayloadBytes, ClientDataFits, ReadU32, ReadU64, ChallengeInput, NextCounter,
      UserPresent, RpIdHash, VerifyInstructionData, Verified, Layout, SameCount, Representable;
    c' := Call(accounts, c.payload, c.signedPayload, c.discriminator, c.programId, 1, slot,
               Previous(index, SECP256R1_PROGRAM_ID, Verified(b[PUBKEY_OFFSET..PUBKEY_OFFSET + 33], p, sha)));
    CountIs(a, b);
    assert Challenged(c', p.prefix, NextCounter(b)) == Challenged(c, p.prefix, NextCounter(a));
    assert Renews(sha, b, c', p, accounts[0].key);
    hide Challenged, Renews;
    AuthenticIs(sha, a, c, p);
    AuthenticIs(sha, b, c', p);
    OnlySplit(sha, b, c', p);
  }

  lemma AuthDataFits(sha: Hash, a: seq<byte>, c: Call, p: Payload)
    requires Representable(p) && Authentic(sha, a, c, p)
    ensures |p.authenticatorData| + 32 < 0x1_0000
  {
    hide VerifyInstructionData, ClientDataFits, PayloadBytes, Challenged, ReadU32, ReadU64;
    AcceptedIsLayout(c.previous.data, a[PUBKEY_OFFSET..PUBKEY_OFFSET + 33], p.authenticatorData, sha(p.clientDataJson));
  }
}
