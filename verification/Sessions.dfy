/** The creation of a session account: its arguments and the bytes written. */
module Sessions {
  import opened Slices
  import opened Bytes
  import opened Prelude
  import opened Actions
  import opened Rules
  import opened Validation
  import opened Limits
  import opened Evaluate

  const MAX_ACTIONS_BUFFER_SIZE: nat := 2048

  datatype SessionArgs = SessionArgs(sessionKey: Pubkey, expiresAt: u64, actions: seq<byte>)

  function FixedPart(args: SessionArgs): (s: seq<byte>)
    ensures |s| == 40
  {
    args.sessionKey + LeEncode(args.expiresAt, 8)
  }

  /** The bytes that carry the arguments, and that a passkey signs: the fixed part
      alone from old clients, else followed by the length and the actions. */
  predicate Carries(part: seq<byte>, args: SessionArgs) {
    || (args.actions == [] && part == FixedPart(args))
    || (|args.actions| <= MAX_ACTIONS_BUFFER_SIZE
        && part == FixedPart(args) + (LeEncode(|args.actions|, 2) + args.actions))
  }

  predicate AdmissibleActions(actions: seq<byte>) {
    RulesOf(actions).Some? && Admissible(RulesOf(actions).value)
  }

  /** The argument bytes are read from the front; what follows is left to the
      authentication. */
  method ParseCreateSessionArgs(data: seq<byte>) returns (r: Result<(SessionArgs, nat)>)
    ensures r.Ok? ==> (
      && r.value.1 <= |data| && Carries(data[..r.value.1], r.value.0) && AdmissibleActions(r.value.0.actions)
      && (r.value.1 == 40 <==> |data| < 42))
    ensures r.Ok? ==> (
      && r.value.0.sessionKey == data[..32] && r.value.0.expiresAt == ReadU64(data, 32)
      && r.value.0.actions == if |data| < 42 then [] else data[42..r.value.1])
    ensures r.Ok? <==> |data| >= 40 && (|data| >= 42 ==> (
      var n := ReadU16(data, 40);
      n <= 2048 && 42 + n <= |data| && AdmissibleActions(data[42..42 + n])))
  {
    NothingAdmissible();
    assert MAX_ACTIONS_BUFFER_SIZE == 2048;
    hide *;
    if |data| < 40 { return Err(InvalidInstructionData); }
    var sessionKey: Pubkey := data[..32];
    var expiresAt := ReadU64(data, 32);
    var argsEnd: nat := 40;
    if |data| >= 42 {
      var actionsLen: nat := ReadU16(data, 40);
      if actionsLen > MAX_ACTIONS_BUFFER_SIZE { return Err(InvalidInstructionData); }
      if actionsLen > 0 {
        var actionsEnd: nat := 42 + actionsLen;
        if |data| < actionsEnd { return Err(InvalidInstructionData); }
        var actionsBytes := data[42..actionsEnd];
        var valid := ValidateActionsBuffer(actionsBytes);
        ValidIs(actionsBytes);
        if valid.Err? { return Err(valid.error); }
        LongCarried(data, actionsLen);
        return Ok((SessionArgs(sessionKey, expiresAt, actionsBytes), actionsEnd));
      }
      assert data[42..42] == [];
      LongCarried(data, 0);
      argsEnd := 42;
      return Ok((SessionArgs(sessionKey, expiresAt, []), argsEnd));
    }
    ShortCarried(data);
    return Ok((SessionArgs(sessionKey, expiresAt, []), argsEnd));
  }

  /** The first 40 bytes carry key and expiry. */
  lemma FixedRead(data: seq<byte>, actions: seq<byte>)
    requires |data| >= 40
    ensures data[..40] == FixedPart(SessionArgs(data[..32], ReadU64(data, 32), actions))
  {
    LeEncodeDecode(data[32..40]);
    hide LeEncode, LeDecode;
    CutTake(data, 32, 40);
  }

  lemma ShortCarried(data: seq<byte>)
    requires |data| >= 40
    ensures Carries(data[..40], SessionArgs(data[..32], ReadU64(data, 32), []))
  {
    FixedRead(data, []);
    hide ReadU64, FixedPart;
  }

  lemma LongCarried(data: seq<byte>, n: nat)
    requires |data| >= 42 + n && n == ReadU16(data, 40) && n <= MAX_ACTIONS_BUFFER_SIZE
    ensures Carries(data[..42 + n], SessionArgs(data[..32], ReadU64(data, 32), data[42..42 + n]))
  {
    FixedRead(data, data[42..42 + n]);
    LeEncodeDecode(data[40..42]);
    assert LeEncode(n, 2) == data[40..42];
    hide ReadU64, ReadU16, FixedPart, LeEncode, LeDecode;
    SubCut(data, 40, 42, 42 + n);
    CutTake(data, 40, 42 + n);
  }

  lemma NothingAdmissible()
    ensures AdmissibleActions([])
  {
    RulesOfFacts([]);
  }

  lemma ValidIs(actions: seq<byte>)
    ensures AdmissibleActions(actions) <==> RulesOf(actions).Some? && Admissible(RulesOf(actions).value)
  {
  }

  lemma FixedDetermines(a: SessionArgs, b: SessionArgs)
    requires FixedPart(a) == FixedPart(b)
    ensures a.sessionKey == b.sessionKey && a.expiresAt == b.expiresAt
  {
    PowConstants();
    LeDecodeEncode(a.expiresAt, 8);
    LeDecodeEncode(b.expiresAt, 8);
    hide LeEncode, LeDecode;
    assert FixedPart(a)[..32] == a.sessionKey && FixedPart(b)[..32] == b.sessionKey;
    assert FixedPart(a)[32..] == LeEncode(a.expiresAt, 8) && FixedPart(b)[32..] == LeEncode(b.expiresAt, 8);
  }

  lemma CarriedParts(part: seq<byte>, a: SessionArgs)
    requires Carries(part, a)
    ensures |part| >= 40 && part[..40] == FixedPart(a)
    ensures (|part| == 40 && a.actions == []) || (|part| >= 42 && a.actions == part[42..])
  {
    hide LeEncode, FixedPart;
  }

  /** What is signed determines the arguments. */
  lemma CarriedDetermines(part: seq<byte>, a: SessionArgs, b: SessionArgs)
    requires Carries(part, a) && Carries(part, b)
    ensures a == b
  {
    CarriedParts(part, a);
    CarriedParts(part, b);
    FixedDetermines(a, b);
  }

  // ---------------------------------------------------------------------
  // The account

  function Header(bump: byte, wallet: Pubkey, args: SessionArgs): (s: seq<byte>)
    ensures |s| == SESSION_HEADER_SIZE
  {
    [3, bump, 1, 0, 0, 0, 0, 0] + (wallet + FixedPart(args))
  }

  /** The fields are found where the session branch of execute reads them. */
  lemma HeaderFields(bump: byte, wallet: Pubkey, args: SessionArgs, tail: seq<byte>)
    ensures var s := Header(bump, wallet, args) + tail;
      && s[..8] == [3, bump, 1, 0, 0, 0, 0, 0] && s[0] == 3 && s[8..40] == wallet
      && s[40..72] == args.sessionKey && ReadU64(s, 72) == args.expiresAt
      && s[SESSION_HEADER_SIZE..] == tail
  {
    var s := Header(bump, wallet, args) + tail;
    hide LeEncode, LeDecode;
    assert s[8..40] == wallet && s[40..72] == args.sessionKey;
    assert s[72..80] == LeEncode(args.expiresAt, 8);
    hide ReadU64, Header;
    U64RoundTrip(s, 72, args.expiresAt);
  }

  /** The new account stores the rules. */
  lemma CreatedSessionStores(bump: byte, wallet: Pubkey, args: SessionArgs)
    requires AdmissibleActions(args.actions)
    ensures Stores(Header(bump, wallet, args) + args.actions, RulesOf(args.actions).value)
  {
    var rs := RulesOf(args.actions).value;
    EncodeRulesOf(args.actions);
    AdmissibleIsWindowed(rs);
    RulesOfFacts(args.actions);
    HeaderFields(bump, wallet, args, args.actions);
    hide RulesOf, EncodeRules, Windowed, Admissible, Header, ReadU64;
  }

  lemma AdmissibleIsWindowed(rs: seq<Rule>)
    requires Admissible(rs)
    ensures Windowed(rs) && |rs| <= MAX_ACTIONS
  {
    forall i | 0 <= i < |rs| ensures rs[i].Recurring? ==> rs[i].window > 0 {
      assert Fresh(rs[i]);
    }
  }

  /** Writes the account: its readers find the fields, and execute finds the rules. */
  method WriteSession(data: array<byte>, bump: byte, wallet: Pubkey, args: SessionArgs)
    requires data.Length == SESSION_HEADER_SIZE + |args.actions|
    modifies data
    ensures data[..8] == [3, bump, 1, 0, 0, 0, 0, 0]
    ensures data[8..40] == wallet && data[40..72] == args.sessionKey && ReadU64(data[..], 72) == args.expiresAt
    ensures data[SESSION_HEADER_SIZE..] == args.actions
    ensures AdmissibleActions(args.actions) ==> Stores(data[..], RulesOf(args.actions).value)
    ensures data[..] == Header(bump, wallet, args) + args.actions
  {
    HeaderFields(bump, wallet, args, args.actions);
    if AdmissibleActions(args.actions) { CreatedSessionStores(bump, wallet, args); }
    ghost var start := data[..];
    assert SESSION_HEADER_SIZE == 80;
    hide *;
    CopyInto(data, 0, Header(bump, wallet, args));
    ghost var headed := data[..];
    SpliceExtends(start, headed, 0, Header(bump, wallet, args));
    assert [] + Header(bump, wallet, args) == Header(bump, wallet, args);
    if |args.actions| > 0 {
      CopyInto(data, SESSION_HEADER_SIZE, args.actions);
      SpliceExtends(headed, data[..], SESSION_HEADER_SIZE, args.actions);
    }
    assert data[..] == Header(bump, wallet, args) + args.actions;
  }
}
