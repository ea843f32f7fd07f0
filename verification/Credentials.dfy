/** The credential of a new authority: how it is read from instruction data and
    how the authority account that holds it is laid out. */
module Credentials {
  import opened Bytes
  import opened Prelude
  import opened Slices
  import opened Binding
  import opened Ledger

  const HEADER_SIZE: nat := 48
  const MAX_RP_ID_LEN: nat := 253

  /** What an instruction states: a key, or a passkey with its relying party id. */
  datatype Stated =
    | StatedEd25519(key: Pubkey)
    | StatedPasskey(credentialId: Pubkey, publicKey: seq<byte>, rpId: seq<byte>)

  predicate Allowed(c: Stated) {
    c.StatedPasskey? ==> |c.publicKey| == 33 && 1 <= |c.rpId| <= MAX_RP_ID_LEN
  }

  function StatedBytes(c: Stated): seq<byte>
    requires Allowed(c)
  {
    match c
    case StatedEd25519(key) => key
    case StatedPasskey(credentialId, publicKey, rpId) => credentialId + (publicKey + ([|rpId|] + rpId))
  }

  function KindOf(c: Stated): byte {
    if c.StatedEd25519? then 0 else 1
  }

  /** Reads the credential at the front of the data. */
  method ParseCredential(kind: byte, rest: seq<byte>) returns (r: Result<Stated>)
    ensures r.Ok? ==> Allowed(r.value) && KindOf(r.value) == kind && StatedBytes(r.value) <= rest
    ensures r.Ok? <==> (
      || (kind == 0 && |rest| >= 32)
      || (kind == 1 && |rest| >= 66 && 1 <= rest[65] <= 253 && |rest| >= 66 + rest[65] as int))
    ensures r.Ok? && kind == 0 ==> r.value == StatedEd25519(rest[..32])
    ensures r.Ok? && kind == 1 ==>
      r.value == StatedPasskey(rest[..32], rest[32..65], rest[66..66 + rest[65] as int])
    ensures r == Err(InvalidAuthenticationKind) <==> kind > 1
    ensures r.Err? ==> forall c :: Allowed(c) && KindOf(c) == kind ==> !(StatedBytes(c) <= rest)
  {
    forall c | Allowed(c) && KindOf(c) == kind && StatedBytes(c) <= rest ensures Readable(kind, rest) {
      ReadableBack(c, rest);
    }
    hide StatedBytes;
    if kind == 0 {
      if |rest| < 32 { return Err(InvalidInstructionData); }
      var c := StatedEd25519(rest[..32]);
      KeyRead(rest);
      return Ok(c);
    }
    if kind == 1 {
      if |rest| < 66 { return Err(InvalidInstructionData); }
      var rpIdLen: nat := rest[65];
      if rpIdLen == 0 || rpIdLen > 253 { return Err(InvalidInstructionData); }
      if |rest| < 66 + rpIdLen { return Err(InvalidInstructionData); }
      var c := StatedPasskey(rest[..32], rest[32..65], rest[66..66 + rpIdLen]);
      PasskeyRead(rest, rpIdLen);
      return Ok(c);
    }
    return Err(InvalidAuthenticationKind);
  }

  predicate Readable(kind: byte, rest: seq<byte>) {
    (kind == 0 && |rest| >= 32) || (kind == 1 && |rest| >= 66 && 1 <= rest[65] <= 253 && |rest| >= 66 + rest[65] as int)
  }

  lemma ReadableBack(c: Stated, rest: seq<byte>)
    requires Allowed(c) && StatedBytes(c) <= rest
    ensures Readable(KindOf(c), rest)
  {
    if c.StatedPasskey? {
      assert StatedBytes(c)[65] == |c.rpId|;
    }
  }

  lemma KeyRead(rest: seq<byte>)
    requires |rest| >= 32
    ensures StatedBytes(StatedEd25519(rest[..32])) <= rest
  {
  }

  lemma PasskeyBytes(c: Stated)
    requires Allowed(c) && c.StatedPasskey?
    ensures StatedBytes(c) == c.credentialId + (c.publicKey + ([|c.rpId|] + c.rpId))
  {
  }

  lemma PasskeyParts(rest: seq<byte>, n: nat)
    requires |rest| >= 66 + n && rest[65] == n
    ensures rest[..32] + (rest[32..65] + ([n] + rest[66..66 + n])) == rest[..66 + n]
  {
    SubCut(rest, 65, 66, 66 + n);
    SubCut(rest, 32, 65, 66 + n);
    CutTake(rest, 32, 66 + n);
    assert rest[65..66] == [n];
  }

  lemma PasskeyRead(rest: seq<byte>, n: nat)
    requires 1 <= n <= 253 && |rest| >= 66 + n && rest[65] == n
    ensures StatedBytes(StatedPasskey(rest[..32], rest[32..65], rest[66..66 + n])) <= rest
  {
    hide StatedBytes;
    PasskeyBytes(StatedPasskey(rest[..32], rest[32..65], rest[66..66 + n]));
    PasskeyParts(rest, n);
  }

  /** Data never starts with two different credentials of one kind, so what is
      signed is what is stored. */
  lemma StatedUnique(a: Stated, b: Stated, rest: seq<byte>)
    requires Allowed(a) && Allowed(b) && KindOf(a) == KindOf(b) && StatedBytes(a) <= rest && StatedBytes(b) <= rest
    ensures a == b
  {
    if a.StatedPasskey? {
      StatedParts(a, rest);
      StatedParts(b, rest);
    } else {
      assert a.key == rest[..32] == b.key;
    }
  }

  lemma StatedParts(c: Stated, rest: seq<byte>)
    requires Allowed(c) && c.StatedPasskey? && StatedBytes(c) <= rest
    ensures |rest| >= 66 && rest[65] == |c.rpId| && |rest| >= 66 + |c.rpId|
    ensures rest[..32] == c.credentialId && rest[32..65] == c.publicKey && rest[66..66 + |c.rpId|] == c.rpId
  {
    var s := StatedBytes(c);
    assert s[..32] == c.credentialId && s[32..65] == c.publicKey && s[65] == |c.rpId| && s[66..] == c.rpId;
    assert rest[..|s|] == s;
    assert rest[66..66 + |c.rpId|] == s[66..];
  }

  // ---------------------------------------------------------------------
  // The account

  /** The relying party id is hashed once, when the account is made. */
  function Stored(sha: Hash, c: Stated): Credential {
    match c
    case StatedEd25519(key) => Ed25519(key)
    case StatedPasskey(credentialId, publicKey, rpId) => Passkey(credentialId, publicKey, sha(rpId))
  }

  function AuthorityHeader(kind: byte, role: byte, bump: byte, wallet: Pubkey): (s: seq<byte>)
    ensures |s| == HEADER_SIZE
  {
    [2, kind, role, bump, 1, 0, 0, 0] + LeEncode(0, 4) + [0, 0, 0, 0] + wallet
  }

  function CredentialBytes(sha: Hash, c: Stated): (s: seq<byte>)
    requires Allowed(c)
    ensures |s| == if c.StatedEd25519? then 32 else 97
  {
    match c
    case StatedEd25519(key) => key
    case StatedPasskey(credentialId, publicKey, rpId) => credentialId + (publicKey + sha(rpId))
  }

  function AuthorityBytes(sha: Hash, c: Stated, role: byte, bump: byte, wallet: Pubkey): seq<byte>
    requires Allowed(c)
  {
    AuthorityHeader(KindOf(c), role, bump, wallet) + CredentialBytes(sha, c)
  }

  lemma AuthorityParts(sha: Hash, c: Stated, role: byte, bump: byte, wallet: Pubkey)
    requires Allowed(c)
    ensures var h := AuthorityHeader(KindOf(c), role, bump, wallet);
      c.StatedEd25519? ==> AuthorityBytes(sha, c, role, bump, wallet) == [] + h + c.key
    ensures var h := AuthorityHeader(KindOf(c), role, bump, wallet);
      c.StatedPasskey? ==>
        AuthorityBytes(sha, c, role, bump, wallet) == [] + h + c.credentialId + c.publicKey + sha(c.rpId)
  {
    hide AuthorityHeader;
  }

  method WriteAuthority(sha: Hash, data: array<byte>, c: Stated, role: byte, bump: byte, wallet: Pubkey)
    requires Allowed(c) && data.Length == Space(NewAuthority(Stored(sha, c), role, Key(wallet)))
    modifies data
    ensures data[..] == AuthorityBytes(sha, c, role, bump, wallet)
  {
    var header := AuthorityHeader(KindOf(c), role, bump, wallet);
    AuthorityParts(sha, c, role, bump, wallet);
    assert data.Length == HEADER_SIZE + if c.StatedEd25519? then 32 else 97;
    hide *;
    ghost var start := data[..];
    CopyInto(data, 0, header);
    ghost var headed := data[..];
    SpliceExtends(start, headed, 0, header);
    if c.StatedEd25519? {
      CopyInto(data, HEADER_SIZE, c.key);
      SpliceExtends(headed, data[..], HEADER_SIZE, c.key);
    } else {
      CopyInto(data, HEADER_SIZE, c.credentialId);
      ghost var named := data[..];
      SpliceExtends(headed, named, HEADER_SIZE, c.credentialId);
      CopyInto(data, HEADER_SIZE + 32, c.publicKey);
      ghost var keyed := data[..];
      SpliceExtends(named, keyed, HEADER_SIZE + 32, c.publicKey);
      CopyInto(data, HEADER_SIZE + 65, sha(c.rpId));
      SpliceExtends(keyed, data[..], HEADER_SIZE + 65, sha(c.rpId));
    }
  }

  lemma HeaderFields(kind: byte, role: byte, bump: byte, wallet: Pubkey)
    ensures var h := AuthorityHeader(kind, role, bump, wallet);
      h[0] == 2 && h[1] == kind && h[2] == role && h[16..48] == wallet && h[8..12] == LeEncode(0, 4)
  {
    hide LeEncode;
  }

  lemma CredentialFields(sha: Hash, c: Stated, h: seq<byte>)
    requires Allowed(c) && |h| == HEADER_SIZE
    ensures var s := h + CredentialBytes(sha, c);
      && (c.StatedEd25519? ==> s[48..80] == c.key)
      && (c.StatedPasskey? ==> s[48..80] == c.credentialId && s[80..113] == c.publicKey && s[113..145] == sha(c.rpId))
  {
    var s := h + CredentialBytes(sha, c);
    if c.StatedPasskey? {
      assert s[48..80] == c.credentialId && s[80..113] == c.publicKey && s[113..145] == sha(c.rpId);
    }
  }

  /** The fields lie where the authenticators read them, and the counter starts at zero. */
  lemma AuthorityFields(sha: Hash, c: Stated, role: byte, bump: byte, wallet: Pubkey)
    requires Allowed(c)
    ensures var s := AuthorityBytes(sha, c, role, bump, wallet);
      && |s| == Space(NewAuthority(Stored(sha, c), role, Key(wallet)))
      && s[0] == 2 && s[1] == KindOf(c) && s[2] == role && s[16..48] == wallet && ReadU32(s, 8) == 0
      && (c.StatedEd25519? ==> s[48..80] == c.key)
      && (c.StatedPasskey? ==> s[48..80] == c.credentialId && s[80..113] == c.publicKey && s[113..145] == sha(c.rpId))
  {
    var s, h := AuthorityBytes(sha, c, role, bump, wallet), AuthorityHeader(KindOf(c), role, bump, wallet);
    HeaderFields(KindOf(c), role, bump, wallet);
    CredentialFields(sha, c, h);
    PowConstants();
    LeDecodeEncode(0, 4);
    hide LeEncode, LeDecode, AuthorityHeader, CredentialBytes;
    assert s[8..12] == h[8..12] && s[16..48] == h[16..48];
  }
}
