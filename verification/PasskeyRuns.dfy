/** Authentication by passkeys over runs of calls: the counter history of an
    account, and what a second account makes of the same payload. */
module PasskeyRuns {
  import opened Slices
  import opened Bytes
  import opened Prelude
  import opened Binding
  import opened Webauthn
  import opened Introspection
  import opened Secp256r1

  // ---------------------------------------------------------------------
  // The counter over a run

  /** The account after a sequence of calls, refused ones included. */
  ghost function AfterCalls(sha: Hash, authority: seq<byte>, calls: seq<Call>): (s: seq<byte>)
    requires |authority| >= AUTHORITY_SIZE
    ensures |s| == |authority|
  {
    if calls == [] then authority
    else
      var n := |calls| - 1;
      var before := AfterCalls(sha, authority, calls[..n]);
      if AuthenticBytes(sha, before, calls[n]) then Stepped(before) else before
  }

  ghost predicate AcceptedAt(sha: Hash, authority: seq<byte>, calls: seq<Call>, i: nat)
    requires |authority| >= AUTHORITY_SIZE && i < |calls|
  {
    AuthenticBytes(sha, AfterCalls(sha, authority, calls[..i]), calls[i])
  }

  /** How many calls were accepted. */
  ghost function Acceptances(sha: Hash, authority: seq<byte>, calls: seq<Call>): nat
    requires |authority| >= AUTHORITY_SIZE
  {
    if calls == [] then 0
    else
      var n := |calls| - 1;
      Acceptances(sha, authority, calls[..n]) + if AcceptedAt(sha, authority, calls, n) then 1 else 0
  }

  /** The authenticator on the bytes is one step of the run. */
  method Handle(sha: Hash, authority: array<byte>, c: Call, ghost start: seq<byte>, ghost calls: seq<Call>)
    returns (r: Result<()>)
    requires |start| >= AUTHORITY_SIZE && authority[..] == AfterCalls(sha, start, calls)
    modifies authority
    ensures r.Ok? <==> AcceptedAt(sha, start, calls + [c], |calls|)
    ensures authority[..] == AfterCalls(sha, start, calls + [c])
  {
    assert (calls + [c])[..|calls|] == calls;
    hide AuthenticBytes, Stepped;
    r := Authenticate(sha, authority, c);
  }

  lemma NextMod(a: nat, b: nat)
    requires a == b % COUNTER_RANGE
    ensures (a + 1) % COUNTER_RANGE == (b + 1) % COUNTER_RANGE
  {
  }

  /** The counter counts the acceptances modulo 2^32, and no other byte of the
      account ever changes. */
  lemma {:induction false} CounterCounts(sha: Hash, authority: seq<byte>, calls: seq<Call>)
    requires |authority| >= AUTHORITY_SIZE
    ensures ReadU32(AfterCalls(sha, authority, calls), COUNTER_OFFSET)
      == (ReadU32(authority, COUNTER_OFFSET) + Acceptances(sha, authority, calls)) % COUNTER_RANGE
    ensures AfterCalls(sha, authority, calls)[..8] == authority[..8]
    ensures AfterCalls(sha, authority, calls)[12..] == authority[12..]
  {
    hide ReadU32, Stepped, AuthenticBytes;
    if calls == [] {
    } else {
      var n := |calls| - 1;
      var before := AfterCalls(sha, authority, calls[..n]);
      CounterCounts(sha, authority, calls[..n]);
      SteppedFields(before);
      NextMod(ReadU32(before, COUNTER_OFFSET),
              ReadU32(authority, COUNTER_OFFSET) + Acceptances(sha, authority, calls[..n]));
    }
  }

  /** The payload of each acceptance carries its number, and its slot is recent. */
  lemma AcceptanceNumbered(sha: Hash, authority: seq<byte>, calls: seq<Call>, i: nat)
    requires |authority| >= AUTHORITY_SIZE && i < |calls| && AcceptedAt(sha, authority, calls, i)
    ensures |calls[i].payload| >= 18
    ensures ReadU32(calls[i].payload, 8)
      == (ReadU32(authority, COUNTER_OFFSET) + Acceptances(sha, authority, calls[..i]) + 1) % COUNTER_RANGE
    ensures ReadU64(calls[i].payload, 0) <= calls[i].slot < ReadU64(calls[i].payload, 0) + MAX_SLOT_AGE
  {
    hide ReadU32, ReadU64, AfterCalls, Acceptances, AuthenticBytes;
    Necessary(sha, AfterCalls(sha, authority, calls[..i]), calls[i]);
    CounterCounts(sha, authority, calls[..i]);
    NextMod(ReadU32(AfterCalls(sha, authority, calls[..i]), COUNTER_OFFSET),
            ReadU32(authority, COUNTER_OFFSET) + Acceptances(sha, authority, calls[..i]));
  }

  lemma LastAcceptance(sha: Hash, authority: seq<byte>, calls: seq<Call>, j: nat)
    requires |authority| >= AUTHORITY_SIZE && j < |calls|
    ensures Acceptances(sha, authority, calls[..j + 1])
      == Acceptances(sha, authority, calls[..j]) + if AcceptedAt(sha, authority, calls, j) then 1 else 0
  {
    var upto := calls[..j + 1];
    TakeTake(calls, j, j + 1);
    assert AcceptedAt(sha, authority, upto, j) == AcceptedAt(sha, authority, calls, j);
    assert upto != [] && |upto| - 1 == j;
    hide AuthenticBytes, AfterCalls, AcceptedAt;
  }

  lemma {:induction false} AcceptancesGrow(sha: Hash, authority: seq<byte>, calls: seq<Call>, i: nat, j: nat)
    requires |authority| >= AUTHORITY_SIZE && i < j <= |calls| && AcceptedAt(sha, authority, calls, i)
    ensures Acceptances(sha, authority, calls[..i]) < Acceptances(sha, authority, calls[..j])
  {
    hide *;
    LastAcceptance(sha, authority, calls, j - 1);
    if i == j - 1 {
    } else {
      AcceptancesGrow(sha, authority, calls, i, j - 1);
    }
  }

  /** On one account since its creation, a payload is accepted a second time only
      after a whole turn of the counter, and within 150 slots of the first time. */
  lemma ReplayNeedsFullTurn(sha: Hash, authority: seq<byte>, calls: seq<Call>, i: nat, j: nat)
    requires |authority| >= AUTHORITY_SIZE && i < j < |calls|
    requires AcceptedAt(sha, authority, calls, i) && AcceptedAt(sha, authority, calls, j)
    requires calls[i].payload == calls[j].payload
    ensures Acceptances(sha, authority, calls[..j]) - Acceptances(sha, authority, calls[..i]) >= COUNTER_RANGE
    ensures -(MAX_SLOT_AGE as int) < calls[j].slot - calls[i].slot < MAX_SLOT_AGE
  {
    hide ReadU32, ReadU64, AfterCalls, Acceptances, AcceptedAt;
    AcceptanceNumbered(sha, authority, calls, i);
    AcceptanceNumbered(sha, authority, calls, j);
    AcceptancesGrow(sha, authority, calls, i, j);
    EqualModApart(ReadU32(authority, COUNTER_OFFSET) + Acceptances(sha, authority, calls[..i]) + 1,
                  ReadU32(authority, COUNTER_OFFSET) + Acceptances(sha, authority, calls[..j]) + 1);
  }

  lemma EqualModApart(a: nat, b: nat)
    requires a < b && a % COUNTER_RANGE == b % COUNTER_RANGE
    ensures b - a >= COUNTER_RANGE
  {
  }

  /** Within one turn the counters committed by two acceptances differ, so the
      addresses seeded with them differ. */
  lemma SeedsDistinct(sha: Hash, authority: seq<byte>, calls: seq<Call>, i: nat, j: nat)
    requires |authority| >= AUTHORITY_SIZE && i < j < |calls|
    requires AcceptedAt(sha, authority, calls, i) && AcceptedAt(sha, authority, calls, j)
    requires Acceptances(sha, authority, calls[..j]) - Acceptances(sha, authority, calls[..i]) < COUNTER_RANGE
    ensures ReadU32(AfterCalls(sha, authority, calls[..i + 1]), COUNTER_OFFSET)
      != ReadU32(AfterCalls(sha, authority, calls[..j + 1]), COUNTER_OFFSET)
  {
    hide ReadU32, AfterCalls, Acceptances, AcceptedAt;
    CounterCounts(sha, authority, calls[..i + 1]);
    CounterCounts(sha, authority, calls[..j + 1]);
    LastAcceptance(sha, authority, calls, i);
    LastAcceptance(sha, authority, calls, j);
    AcceptancesGrow(sha, authority, calls, i, j);
    var a := ReadU32(authority, COUNTER_OFFSET) + Acceptances(sha, authority, calls[..i + 1]);
    var b := ReadU32(authority, COUNTER_OFFSET) + Acceptances(sha, authority, calls[..j + 1]);
    if a % COUNTER_RANGE == b % COUNTER_RANGE { EqualModApart(a, b); }
  }

  // ---------------------------------------------------------------------
  // The same payload in another call

  /** Both calls hand in the same payload for the same instruction and program. */
  predicate Resubmits(c: Call, c': Call) {
    && c.payload == c'.payload && c.signedPayload == c'.signedPayload
    && c.discriminator == c'.discriminator && c.programId == c'.programId
  }

  /** What the authenticator looks at in the account besides the key: counter and
      relying party. Neither the wallet nor the account's own address is among it. */
  predicate SameCount(a: seq<byte>, b: seq<byte>)
    requires |a| >= AUTHORITY_SIZE && |b| >= AUTHORITY_SIZE
  {
    a[COUNTER_OFFSET..12] == b[COUNTER_OFFSET..12]
  }

  predicate SameParty(a: seq<byte>, b: seq<byte>)
    requires |a| >= AUTHORITY_SIZE && |b| >= AUTHORITY_SIZE
  {
    a[RP_ID_HASH_OFFSET..AUTHORITY_SIZE] == b[RP_ID_HASH_OFFSET..AUTHORITY_SIZE]
  }

  /** What a call must bring along for the payload `p` on the account `b`: height,
      slot window, the payer, the sysvar at the stated index, and a previous
      instruction that verified a signature under the key of `b`. */
  predicate Renews(sha: Hash, b: seq<byte>, c: Call, p: Payload, payer: Pubkey)
    requires |b| >= AUTHORITY_SIZE && Representable(p) && |PayloadBytes(p)| >= 18
  {
    && c.stackHeight <= 1
    && ReadU64(PayloadBytes(p), 0) <= c.slot < ReadU64(PayloadBytes(p), 0) + MAX_SLOT_AGE
    && PayerSigns(c.accounts) && c.accounts[0].key == payer
    && p.prefix[12] < |c.accounts| && c.accounts[p.prefix[12]].key == INSTRUCTIONS_ID
    && c.previous.currentIndex > 0 && c.previous.programId == SECP256R1_PROGRAM_ID
    && VerifyInstructionData(c.previous.data, b[PUBKEY_OFFSET..PUBKEY_OFFSET + 33], p.authenticatorData,
                             sha(p.clientDataJson)).Ok?
  }

  /** What an authentic payload is in the account's terms. */
  lemma AuthenticIs(sha: Hash, a: seq<byte>, c: Call, p: Payload)
    requires Representable(p) && |a| >= AUTHORITY_SIZE && |PayloadBytes(p)| >= 18
    ensures Authentic(sha, a, c, p) <==> (
      && |c.accounts| > 0 && Renews(sha, a, c, p, c.accounts[0].key)
      && ReadU32(PayloadBytes(p), 8) == NextCounter(a)
      && ClientDataFits(p.clientDataJson, sha(Challenged(c, p.prefix, NextCounter(a))))
      && |p.authenticatorData| >= AUTH_DATA_MIN_LEN && UserPresent(p.authenticatorData)
      && RpIdHash(p.authenticatorData) == a[RP_ID_HASH_OFFSET..AUTHORITY_SIZE])
  {
    hide ClientDataFits, PayloadBytes, ReadU32, ReadU64, VerifyInstructionData, Challenged, UserPresent, RpIdHash;
  }

  /** The exact condition for a payload that one account accepted to be accepted
      once more, in any other call and by any account: the same counter and relying
      party, the same payer, a slot in the window, the sysvar, and a signature
      under the key of that account; short of a hash collision. */
  lemma AcceptedElsewhere(sha: Hash, a: seq<byte>, c: Call, b: seq<byte>, c': Call, p: Payload)
    requires |b| >= AUTHORITY_SIZE && Representable(p) && PayloadBytes(p) == c.payload && Resubmits(c, c')
    requires AuthenticBytes(sha, a, c)
    ensures |a| >= AUTHORITY_SIZE && |c.accounts| > 0 && |PayloadBytes(p)| >= 18
    ensures (AuthenticBytes(sha, b, c') <==>
             SameCount(a, b) && SameParty(a, b) && Renews(sha, b, c', p, c.accounts[0].key))
      || (|c'.accounts| > 0
          && Collide(sha, Challenged(c, p.prefix, NextCounter(a)), Challenged(c', p.prefix, NextCounter(b))))
  {
    OnlySplit(sha, a, c, p);
    OnlySplit(sha, b, c', p);
    Necessary(sha, a, c);
    AuthenticIs(sha, a, c, p);
    AuthenticIs(sha, b, c', p);
    CountIs(a, b);
    hide AuthenticBytes, Authentic, PayloadBytes, SameCount, ClientDataFits, NextCounter, RpIdHash, UserPresent,
      VerifyInstructionData, Representable, ReadU32, ReadU64, Fresh;
    if Authentic(sha, b, c', p) {
      ClientDataBinds(sha, a, c, p, b, c', p);
    }
  }

  /** Equal counter bytes, equal counters and equal next counters are the same. */
  lemma CountIs(a: seq<byte>, b: seq<byte>)
    requires |a| >= AUTHORITY_SIZE && |b| >= AUTHORITY_SIZE
    ensures SameCount(a, b) <==> ReadU32(a, COUNTER_OFFSET) == ReadU32(b, COUNTER_OFFSET)
    ensures SameCount(a, b) <==> NextCounter(a) == NextCounter(b)
  {
    LeEncodeDecode(a[8..12]);
    LeEncodeDecode(b[8..12]);
    NextSame(ReadU32(a, COUNTER_OFFSET), ReadU32(b, COUNTER_OFFSET));
    hide LeEncode, LeDecode;
  }

  lemma NextSame(x: u32, y: u32)
    ensures (x + 1) % COUNTER_RANGE == (y + 1) % COUNTER_RANGE <==> x == y
  {
  }

  /** Two accounts that start with one counter and relying party, such as the same
      credential in two wallets, or removed and added again: after any calls on
      each, the second accepts the first one's payload exactly when both have
      accepted equally often, modulo 2^32, and the call renews it. */
  lemma SecondAccount(sha: Hash, a: seq<byte>, calls: seq<Call>, c: Call, b: seq<byte>, calls': seq<Call>, c': Call,
                      p: Payload)
    requires |a| >= AUTHORITY_SIZE && |b| >= AUTHORITY_SIZE && SameCount(a, b) && SameParty(a, b)
    requires Representable(p) && PayloadBytes(p) == c.payload && Resubmits(c, c')
    requires AuthenticBytes(sha, AfterCalls(sha, a, calls), c)
    ensures |c.accounts| > 0 && |PayloadBytes(p)| >= 18
    ensures (AuthenticBytes(sha, AfterCalls(sha, b, calls'), c') <==> (
               && Acceptances(sha, a, calls) % COUNTER_RANGE == Acceptances(sha, b, calls') % COUNTER_RANGE
               && Renews(sha, b, c', p, c.accounts[0].key)))
      || (|c'.accounts| > 0
          && Collide(sha, Challenged(c, p.prefix, NextCounter(AfterCalls(sha, a, calls))),
                     Challenged(c', p.prefix, NextCounter(AfterCalls(sha, b, calls')))))
  {
    var now, now' := AfterCalls(sha, a, calls), AfterCalls(sha, b, calls');
    hide *;
    CountersAgree(sha, a, calls, b, calls');
    AcceptedElsewhere(sha, now, c, now', c', p);
    RenewsKept(sha, b, now', c', p, c.accounts[0].key);
  }

  lemma RenewsKept(sha: Hash, b: seq<byte>, now: seq<byte>, c: Call, p: Payload, payer: Pubkey)
    requires |now| == |b| >= AUTHORITY_SIZE && now[12..] == b[12..] && Representable(p) && |PayloadBytes(p)| >= 18
    ensures Renews(sha, now, c, p, payer) <==> Renews(sha, b, c, p, payer)
  {
    DropSlice(b, 12, 68, 101);
    DropSlice(now, 12, 68, 101);
    hide VerifyInstructionData, PayloadBytes, Representable;
  }

  lemma CountersAgree(sha: Hash, a: seq<byte>, calls: seq<Call>, b: seq<byte>, calls': seq<Call>)
    requires |a| >= AUTHORITY_SIZE && |b| >= AUTHORITY_SIZE && SameCount(a, b) && SameParty(a, b)
    ensures AfterCalls(sha, b, calls')[12..] == b[12..] && |AfterCalls(sha, b, calls')| == |b|
    ensures SameParty(AfterCalls(sha, a, calls), AfterCalls(sha, b, calls'))
    ensures SameCount(AfterCalls(sha, a, calls), AfterCalls(sha, b, calls'))
      <==> Acceptances(sha, a, calls) % COUNTER_RANGE == Acceptances(sha, b, calls') % COUNTER_RANGE
  {
    hide ReadU32, AfterCalls, Acceptances, SameCount, SameParty;
    CounterCounts(sha, a, calls);
    CounterCounts(sha, b, calls');
    CountIs(a, b);
    CountIs(AfterCalls(sha, a, calls), AfterCalls(sha, b, calls'));
    PartyKept(a, AfterCalls(sha, a, calls), b, AfterCalls(sha, b, calls'));
    SameModulo(ReadU32(a, COUNTER_OFFSET), Acceptances(sha, a, calls), Acceptances(sha, b, calls'));
  }

  lemma PartyKept(a: seq<byte>, a': seq<byte>, b: seq<byte>, b': seq<byte>)
    requires |a'| == |a| >= AUTHORITY_SIZE && |b'| == |b| >= AUTHORITY_SIZE && SameParty(a, b)
    requires a'[12..] == a[12..] && b'[12..] == b[12..]
    ensures SameParty(a', b')
  {
    DropSlice(a, 12, 101, 133);
    DropSlice(a', 12, 101, 133);
    DropSlice(b, 12, 101, 133);
    DropSlice(b', 12, 101, 133);
  }

  /** Counting on from below the range, with one wrap at most. */
  function Wrapped(start: u32, r: u32): nat {
    if start + r < COUNTER_RANGE then start + r else start + r - COUNTER_RANGE
  }

  lemma CountFrom(start: u32, m: nat)
    ensures m % COUNTER_RANGE < COUNTER_RANGE
    ensures (start + m) % COUNTER_RANGE == Wrapped(start, m % COUNTER_RANGE)
  {
    var q, r := m / COUNTER_RANGE, m % COUNTER_RANGE;
    if start + r < COUNTER_RANGE {
      DivModUnique(start + m, COUNTER_RANGE, q, start + r);
    } else {
      DivModUnique(start + m, COUNTER_RANGE, q + 1, start + r - COUNTER_RANGE);
    }
  }

  lemma SameModulo(start: u32, m: nat, n: nat)
    ensures (start + m) % COUNTER_RANGE == (start + n) % COUNTER_RANGE <==> m % COUNTER_RANGE == n % COUNTER_RANGE
  {
    CountFrom(start, m);
    CountFrom(start, n);
  }
}
