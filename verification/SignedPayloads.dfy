/** What a passkey signs for each instruction, and what a signature binds. */
module SignedPayloads {
  import opened Slices
  import opened Bytes
  import opened Prelude
  import opened Compact
  import opened Binding
  import opened Secp256r1
  import opened AuthorityExecute
  import C = Credentials
  import S = Sessions

  /** The instructions a passkey can authenticate, with what their handlers put into
      the signed payload. No handler puts in the wallet or the authority. */
  datatype Instruction =
    | AddAuthority(fixed: seq<byte>, credential: C.Stated, payer: Pubkey)
    | RemoveAuthority(target: Pubkey, refund: Pubkey)
    | TransferOwnership(credential: C.Stated, payer: Pubkey, refund: Pubkey)
    | Execute(ixs: seq<CompactInstruction>, accountsHash: Pubkey)
    | CreateSession(part: seq<byte>, args: S.SessionArgs, payer: Pubkey)
    | Authorize(instructionsHash: Pubkey, accountsHash: Pubkey, expiryOffset: u16)
    | RevokeSession(session: Pubkey, refund: Pubkey)

  /** What the handlers let through to the authentication. */
  predicate Parsed(i: Instruction) {
    match i
    case AddAuthority(fixed, credential, _) =>
      |fixed| == 8 && C.Allowed(credential) && fixed[0] == C.KindOf(credential)
    case TransferOwnership(credential, _, _) => C.Allowed(credential)
    case Execute(ixs, _) => Parseable(ixs)
    case CreateSession(part, args, _) => S.Carries(part, args)
    case _ => true
  }

  function Discriminator(i: Instruction): byte {
    match i
    case AddAuthority(_, _, _) => 1
    case RemoveAuthority(_, _) => 2
    case TransferOwnership(_, _, _) => 3
    case Execute(_, _) => 4
    case CreateSession(_, _, _) => 5
    case Authorize(_, _, _) => 6
    case RevokeSession(_, _) => 9
  }

  function SignedPayload(i: Instruction): seq<byte>
    requires Parsed(i)
  {
    match i
    case AddAuthority(fixed, credential, payer) => fixed + C.StatedBytes(credential) + payer
    case RemoveAuthority(target, refund) => target + refund
    case TransferOwnership(credential, payer, refund) =>
      [C.KindOf(credential)] + C.StatedBytes(credential) + payer + refund
    case Execute(ixs, accountsHash) => Serialize(ixs) + accountsHash
    case CreateSession(part, _, payer) => part + payer
    case Authorize(instructionsHash, accountsHash, expiryOffset) =>
      instructionsHash + accountsHash + LeEncode(expiryOffset, 2)
    case RevokeSession(session, refund) => session + refund
  }

  // ---------------------------------------------------------------------
  // The payload determines the instruction

  lemma SameSplit<T>(a: seq<T>, b: seq<T>, a': seq<T>, b': seq<T>)
    requires a + b == a' + b' && |b| == |b'|
    ensures a == a' && b == b'
  {
    assert |a| == |a'|;
    Join(a, b);
    Join(a', b');
  }

  lemma SameStated(a: C.Stated, b: C.Stated)
    requires C.Allowed(a) && C.Allowed(b) && C.KindOf(a) == C.KindOf(b) && C.StatedBytes(a) == C.StatedBytes(b)
    ensures a == b
  {
    hide *;
    C.StatedUnique(a, b, C.StatedBytes(a));
  }

  lemma AddDetermines(i: Instruction, j: Instruction)
    requires i.AddAuthority? && j.AddAuthority? && Parsed(i) && Parsed(j) && SignedPayload(i) == SignedPayload(j)
    ensures i == j
  {
    hide C.StatedBytes;
    SameSplit(i.fixed + C.StatedBytes(i.credential), i.payer, j.fixed + C.StatedBytes(j.credential), j.payer);
    Join(i.fixed, C.StatedBytes(i.credential));
    Join(j.fixed, C.StatedBytes(j.credential));
    SameStated(i.credential, j.credential);
  }

  lemma TransferDetermines(i: Instruction, j: Instruction)
    requires i.TransferOwnership? && j.TransferOwnership? && Parsed(i) && Parsed(j)
      && SignedPayload(i) == SignedPayload(j)
    ensures i == j
  {
    hide C.StatedBytes;
    var front, front' := [C.KindOf(i.credential)], [C.KindOf(j.credential)];
    var a, a' := front + C.StatedBytes(i.credential), front' + C.StatedBytes(j.credential);
    SameSplit(a + i.payer, i.refund, a' + j.payer, j.refund);
    SameSplit(a, i.payer, a', j.payer);
    Join(front, C.StatedBytes(i.credential));
    Join(front', C.StatedBytes(j.credential));
    assert front[0] == front'[0];
    SameStated(i.credential, j.credential);
  }

  lemma ExecuteDetermines(i: Instruction, j: Instruction)
    requires i.Execute? && j.Execute? && Parsed(i) && Parsed(j) && SignedPayload(i) == SignedPayload(j)
    ensures i == j
  {
    assert Encodes(Serialize(i.ixs), i.ixs) && Encodes(Serialize(j.ixs), j.ixs);
    hide Serialize, Encodes, AllSized;
    SameSplit(Serialize(i.ixs), i.accountsHash, Serialize(j.ixs), j.accountsHash);
    UniqueDecoding(Serialize(i.ixs), i.ixs, j.ixs);
  }

  lemma SessionDetermines(i: Instruction, j: Instruction)
    requires i.CreateSession? && j.CreateSession? && Parsed(i) && Parsed(j) && SignedPayload(i) == SignedPayload(j)
    ensures i == j
  {
    hide S.Carries;
    SameSplit(i.part, i.payer, j.part, j.payer);
    S.CarriedDetermines(i.part, i.args, j.args);
  }

  lemma AuthorizeDetermines(i: Instruction, j: Instruction)
    requires i.Authorize? && j.Authorize? && SignedPayload(i) == SignedPayload(j)
    ensures i == j
  {
    PowConstants();
    LeDecodeEncode(i.expiryOffset, 2);
    LeDecodeEncode(j.expiryOffset, 2);
    hide LeEncode, LeDecode;
    SameSplit(i.instructionsHash + i.accountsHash, LeEncode(i.expiryOffset, 2),
              j.instructionsHash + j.accountsHash, LeEncode(j.expiryOffset, 2));
    SameSplit(i.instructionsHash, i.accountsHash, j.instructionsHash, j.accountsHash);
  }

  /** Instruction and signed payload together determine everything that is in it. */
  lemma PayloadDetermines(i: Instruction, j: Instruction)
    requires Parsed(i) && Parsed(j) && Discriminator(i) == Discriminator(j) && SignedPayload(i) == SignedPayload(j)
    ensures i == j
  {
    match i
    case AddAuthority(_, _, _) => AddDetermines(i, j);
    case TransferOwnership(_, _, _) => TransferDetermines(i, j);
    case Execute(_, _) => ExecuteDetermines(i, j);
    case CreateSession(_, _, _) => SessionDetermines(i, j);
    case Authorize(_, _, _) => AuthorizeDetermines(i, j);
    case RemoveAuthority(target, refund) => SameSplit(target, refund, j.target, j.refund);
    case RevokeSession(session, refund) => SameSplit(session, refund, j.session, j.refund);
  }

  /** The call authenticates this instruction. */
  predicate For(c: Call, i: Instruction) {
    Parsed(i) && c.discriminator == Discriminator(i) && c.signedPayload == SignedPayload(i)
  }

  /** The discriminators and payloads, written out. */
  lemma ForMeans(c: Call, i: Instruction)
    requires Parsed(i)
    ensures For(c, i) <==>
      match i
      case AddAuthority(fixed, credential, payer) =>
        c.discriminator == 1 && c.signedPayload == fixed + C.StatedBytes(credential) + payer
      case RemoveAuthority(target, refund) => c.discriminator == 2 && c.signedPayload == target + refund
      case TransferOwnership(credential, payer, refund) =>
        && c.discriminator == 3
        && c.signedPayload == [if credential.StatedEd25519? then 0 else 1] + C.StatedBytes(credential) + payer + refund
      case Execute(ixs, accountsHash) => c.discriminator == 4 && c.signedPayload == Serialize(ixs) + accountsHash
      case CreateSession(part, _, payer) => c.discriminator == 5 && c.signedPayload == part + payer
      case Authorize(instructionsHash, accountsHash, expiryOffset) =>
        c.discriminator == 6 && c.signedPayload == instructionsHash + accountsHash + LeEncode(expiryOffset, 2)
      case RevokeSession(session, refund) => c.discriminator == 9 && c.signedPayload == session + refund
  {
    hide C.StatedBytes, Serialize, LeEncode;
  }

  /** One signature, one instruction: what authenticates on the same client data is
      the same instruction with the same arguments, for the same payer, program and
      count, short of a hash collision. */
  lemma OneInstruction(sha: Hash, a: seq<byte>, c: Call, p: Payload, i: Instruction,
                       a': seq<byte>, c': Call, p': Payload, j: Instruction)
    requires Representable(p) && Representable(p') && p.clientDataJson == p'.clientDataJson
    requires Authentic(sha, a, c, p) && Authentic(sha, a', c', p') && For(c, i) && For(c', j)
    ensures |c.accounts| > 0 && |c'.accounts| > 0 && |a| >= AUTHORITY_SIZE && |a'| >= AUTHORITY_SIZE
    ensures || (i == j && c.accounts[0].key == c'.accounts[0].key && c.programId == c'.programId
                && NextCounter(a) == NextCounter(a'))
            || Collide(sha, Challenged(c, p.prefix, NextCounter(a)), Challenged(c', p'.prefix, NextCounter(a')))
  {
    hide Authentic, Representable, NextCounter, Challenged, SignedPayload, Parsed, Discriminator;
    ClientDataBinds(sha, a, c, p, a', c', p');
    if SameRequest(c, c') { PayloadDetermines(i, j); }
  }

  // ---------------------------------------------------------------------
  // The payload is the front of the instruction data

  /** What is signed for a new authority is the data up to the credential, then the payer. */
  lemma AddSigned(data: seq<byte>, credential: C.Stated, payer: Pubkey)
    requires |data| >= 8 && C.Allowed(credential) && data[0] == C.KindOf(credential)
    requires C.StatedBytes(credential) <= data[8..]
    ensures 8 + |C.StatedBytes(credential)| <= |data|
    ensures data[..8 + |C.StatedBytes(credential)|] + payer == SignedPayload(AddAuthority(data[..8], credential, payer))
  {
    hide C.StatedBytes;
    var n := |C.StatedBytes(credential)|;
    DropSlice(data, 8, 0, n);
    assert data[8..][0..n] == C.StatedBytes(credential);
    CutTake(data, 8, 8 + n);
  }

  /** For a transfer it is the data up to the credential, then payer and refund account. */
  lemma TransferSigned(data: seq<byte>, credential: C.Stated, payer: Pubkey, refund: Pubkey)
    requires |data| >= 1 && C.Allowed(credential) && data[0] == C.KindOf(credential)
    requires C.StatedBytes(credential) <= data[1..]
    ensures 1 + |C.StatedBytes(credential)| <= |data|
    ensures data[..1 + |C.StatedBytes(credential)|] + payer + refund
      == SignedPayload(TransferOwnership(credential, payer, refund))
  {
    hide C.StatedBytes;
    var n := |C.StatedBytes(credential)|;
    DropSlice(data, 1, 0, n);
    assert data[1..][0..n] == C.StatedBytes(credential);
    CutTake(data, 1, 1 + n);
    assert data[..1] == [data[0]];
  }

  /** For an execute it is the instructions, then the hash of the keys they resolve to. */
  lemma ExecuteSigned(sha: Hash, x: Input, ixs: seq<CompactInstruction>)
    requires Encodes(x.data, ixs) && AllInRange(ixs, |x.accounts|)
    ensures For(PasskeyCall(sha, x, ixs), Execute(ixs, sha(KeyBytes(ResolveAll(ixs, x.accounts)))))
    ensures x.data[..|Serialize(ixs)|] == Serialize(ixs)
  {
    hide Serialize, KeyBytes, ResolveAll, AllInRange;
  }

  /** For a deferred authorisation it is the first 66 bytes of the data. */
  lemma AuthorizeSigned(data: seq<byte>)
    requires |data| >= 66
    ensures data[..66] == SignedPayload(Authorize(data[..32], data[32..64], ReadU16(data, 64)))
  {
    LeEncodeDecode(data[64..66]);
    hide LeEncode, LeDecode;
    CutTake(data, 64, 66);
    CutTake(data, 32, 64);
  }
}
