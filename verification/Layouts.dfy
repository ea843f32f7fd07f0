/** The formats on literal bytes: what a client must write and will read. */
module Layouts {
  import opened Bytes
  import opened Prelude
  import opened Flat
  import opened Actions
  import opened Rules
  import opened Validation
  import opened Tokens
  import J = Json
  import T = JsonText
  import W = Webauthn
  import I = Introspection
  import C = Compact
  import B = Binding

  // ---------------------------------------------------------------------
  // Integers

  /** The least significant byte comes first. */
  lemma LittleEndian(a: byte, b: byte, c: byte, d: byte)
    ensures LeEncode(a + 0x100 * b + 0x1_0000 * c + 0x100_0000 * d, 4) == [a, b, c, d]
    ensures LeDecode([a, b, c, d]) == a + 0x100 * b + 0x1_0000 * c + 0x100_0000 * d
    ensures ReadU32([a, b, c, d], 0) == a + 0x100 * b + 0x1_0000 * c + 0x100_0000 * d
    ensures ReadU16([a, b], 0) == a + 0x100 * b
  {
    var s := [a, b, c, d];
    assert s[1..] == [b, c, d] && [b, c, d][1..] == [c, d] && [c, d][1..] == [d] && [d][1..] == [];
    assert LeDecode([c, d]) == c + 0x100 * d by { assert LeDecode([d]) == d; }
    assert LeDecode([b, c, d]) == b + 0x100 * c + 0x1_0000 * d;
    assert s[0..4] == s;
    LeEncodeDecode(s);
    assert [a, b][1..] == [b] && [b][1..] == [] && LeDecode([b]) == b;
    assert [a, b][0..2] == [a, b];
  }

  /** Sums stop at 2^64-1 and differences at zero. */
  lemma Saturation(a: u64, b: u64)
    ensures SatAdd(a, b) == if a + b > 0xFFFF_FFFF_FFFF_FFFF then 0xFFFF_FFFF_FFFF_FFFF else a + b
    ensures SatSub(a, b) == if a >= b then a - b else 0
  {
  }

  // ---------------------------------------------------------------------
  // Rules

  /** The type bytes: 1 to 6 for the caps, 10 and 11 for the program lists. */
  lemma TypeBytes(v: byte)
    ensures FromU8(1) == Ok(SolLimit) && FromU8(2) == Ok(SolRecurringLimit) && FromU8(3) == Ok(SolMaxPerTx)
    ensures FromU8(4) == Ok(TokenLimit) && FromU8(5) == Ok(TokenRecurringLimit) && FromU8(6) == Ok(TokenMaxPerTx)
    ensures FromU8(10) == Ok(ProgramWhitelist) && FromU8(11) == Ok(ProgramBlacklist)
    ensures !(1 <= v <= 6 || v == 10 || v == 11) ==> FromU8(v) == Err(ActionBufferInvalid)
  {
  }

  lemma OneRule(r: Rule)
    ensures EncodeRules([r]) == EncodeRecord(RecordOf(r))
  {
    assert Encoded(RecordsOf([r])) == [EncodeRecord(RecordOf(r))];
    hide EncodeRecord, RecordOf;
    FlattenOne(EncodeRecord(RecordOf(r)));
  }

  lemma CellsOne(a: u64)
    ensures Flatten(Cells([a])) == LeEncode(a, 8)
  {
    assert Cells([a]) == [LeEncode(a, 8)];
    FlattenOne(LeEncode(a, 8));
  }

  lemma CellsFour(a: u64, b: u64, c: u64, d: u64)
    ensures Flatten(Cells([a, b, c, d])) == LeEncode(a, 8) + LeEncode(b, 8) + LeEncode(c, 8) + LeEncode(d, 8)
  {
    hide LeEncode;
    assert Cells([a, b, c, d]) == [LeEncode(a, 8)] + [LeEncode(b, 8)] + [LeEncode(c, 8)] + [LeEncode(d, 8)];
    FlattenAppend([LeEncode(a, 8)] + [LeEncode(b, 8)] + [LeEncode(c, 8)], [LeEncode(d, 8)]);
    FlattenAppend([LeEncode(a, 8)] + [LeEncode(b, 8)], [LeEncode(c, 8)]);
    FlattenAppend([LeEncode(a, 8)], [LeEncode(b, 8)]);
    FlattenOne(LeEncode(a, 8));
    FlattenOne(LeEncode(b, 8));
    FlattenOne(LeEncode(c, 8));
    FlattenOne(LeEncode(d, 8));
  }

  lemma SizeBytes()
    ensures LeEncode(8, 2) == [8, 0] && LeEncode(32, 2) == [32, 0]
    ensures LeEncode(40, 2) == [40, 0] && LeEncode(64, 2) == [64, 0]
  {
  }

  lemma RecordBytes(r: Rule, code: byte, size: byte, body: seq<byte>)
    requires Code(Tag(r)) == code && Payload(r) == body && |body| == size && LeEncode(size, 2) == [size, 0]
    ensures EncodeRules([r]) == [code, size, 0] + LeEncode(r.expiresAt, 8) + body
  {
    OneRule(r);
    assert EncodeRecord(RecordOf(r)) == [code] + LeEncode(|body|, 2) + LeEncode(r.expiresAt, 8) + body;
    hide EncodeRecord, EncodeRules, LeEncode, Payload;
    assert [code] + [size, 0] == [code, size, 0];
  }

  /** A rule on SOL: type, payload size, end date, counters. A recurring rule stores
      limit, spent, window and last reset in this order. */
  lemma SolRuleBytes(e: u64, n: u64, spent: u64, window: u64, lastReset: u64)
    ensures EncodeRules([Lifetime(e, Sol, n)]) == [1, 8, 0] + LeEncode(e, 8) + LeEncode(n, 8)
    ensures EncodeRules([PerTx(e, Sol, n)]) == [3, 8, 0] + LeEncode(e, 8) + LeEncode(n, 8)
    ensures EncodeRules([Recurring(e, Sol, n, spent, window, lastReset)])
      == [2, 32, 0] + LeEncode(e, 8)
         + (LeEncode(n, 8) + LeEncode(spent, 8) + LeEncode(window, 8) + LeEncode(lastReset, 8))
  {
    SizeBytes();
    CellsOne(n);
    CellsFour(n, spent, window, lastReset);
    hide LeEncode, Flatten, Cells;
    var four := LeEncode(n, 8) + LeEncode(spent, 8) + LeEncode(window, 8) + LeEncode(lastReset, 8);
    assert [] + LeEncode(n, 8) == LeEncode(n, 8) && [] + four == four;
    RecordBytes(Lifetime(e, Sol, n), 1, 8, LeEncode(n, 8));
    RecordBytes(PerTx(e, Sol, n), 3, 8, LeEncode(n, 8));
    RecordBytes(Recurring(e, Sol, n, spent, window, lastReset), 2, 32, four);
  }

  /** A rule on a token: the mint comes before the counters. */
  lemma TokenRuleBytes(e: u64, mint: Pubkey, n: u64, spent: u64, window: u64, lastReset: u64)
    ensures EncodeRules([Lifetime(e, Token(mint), n)]) == [4, 40, 0] + LeEncode(e, 8) + (mint + LeEncode(n, 8))
    ensures EncodeRules([PerTx(e, Token(mint), n)]) == [6, 40, 0] + LeEncode(e, 8) + (mint + LeEncode(n, 8))
    ensures EncodeRules([Recurring(e, Token(mint), n, spent, window, lastReset)])
      == [5, 64, 0] + LeEncode(e, 8)
         + (mint + (LeEncode(n, 8) + LeEncode(spent, 8) + LeEncode(window, 8) + LeEncode(lastReset, 8)))
  {
    SizeBytes();
    CellsOne(n);
    CellsFour(n, spent, window, lastReset);
    hide LeEncode, Flatten, Cells;
    var four := LeEncode(n, 8) + LeEncode(spent, 8) + LeEncode(window, 8) + LeEncode(lastReset, 8);
    RecordBytes(Lifetime(e, Token(mint), n), 4, 40, mint + LeEncode(n, 8));
    RecordBytes(PerTx(e, Token(mint), n), 6, 40, mint + LeEncode(n, 8));
    RecordBytes(Recurring(e, Token(mint), n, spent, window, lastReset), 5, 64, mint + four);
  }

  /** A program rule: the id of the program. */
  lemma ProgramRuleBytes(e: u64, program: Pubkey)
    ensures EncodeRules([Allow(e, program)]) == [10, 32, 0] + LeEncode(e, 8) + program
    ensures EncodeRules([Deny(e, program)]) == [11, 32, 0] + LeEncode(e, 8) + program
  {
    SizeBytes();
    assert Cells([]) == [];
    FlattenNone<byte>();
    hide LeEncode, Cells;
    assert program + [] == program;
    RecordBytes(Allow(e, program), 10, 32, program);
    RecordBytes(Deny(e, program), 11, 32, program);
  }

  /** Two caps of one kind on one asset. */
  predicate Doubled(a: Rule, b: Rule) {
    match a
    case Lifetime(_, asset, _) => b.Lifetime? && b.asset == asset
    case Recurring(_, asset, _, _, _, _) => b.Recurring? && b.asset == asset
    case PerTx(_, asset, _) => b.PerTx? && b.asset == asset
    case _ => false
  }

  /** What creation accepts: at most 16 rules, not both kinds of program list, no two
      caps of one kind on one asset, and recurring caps unused, with a window. */
  lemma AdmissibleMeans(rs: seq<Rule>)
    ensures Admissible(rs) <==> (
      && |rs| <= 16
      && !((exists i :: 0 <= i < |rs| && rs[i].Allow?) && (exists i :: 0 <= i < |rs| && rs[i].Deny?))
      && (forall i, j :: 0 <= i < j < |rs| ==> !Doubled(rs[i], rs[j]))
      && (forall i :: 0 <= i < |rs| && rs[i].Recurring? ==>
            rs[i].spent == 0 && rs[i].lastReset == 0 && rs[i].window > 0))
  {
    forall i, j | 0 <= i < j < |rs| ensures Doubled(rs[i], rs[j]) <==> Clash(rs[i], rs[j]) {
    }
    hide Doubled, Clash;
  }

  // ---------------------------------------------------------------------
  // Token accounts

  /** An entry counts with the amount in bytes 64..72 if it belongs to one of the two
      token programs, has at least 165 bytes, and names mint and vault; otherwise
      it counts nothing. */
  lemma AmountMeans(acc: AccountInfo, vault: Pubkey, mint: Pubkey)
    ensures Amount(acc, vault, mint) ==
      if (acc.owner == SPL_TOKEN_PROGRAM_ID || acc.owner == SPL_TOKEN_2022_PROGRAM_ID) && |acc.data| >= 165
        && acc.data[0..32] == mint && acc.data[32..64] == vault
      then ReadU64(acc.data, 64) else 0
  {
  }

  // ---------------------------------------------------------------------
  // Instructions and keys

  lemma OneCompact(ix: C.CompactInstruction)
    requires |ix.accounts| <= 0xFF
    ensures C.Serialize([ix])
      == [1] + ([ix.programIdIndex, |ix.accounts|] + ix.accounts + LeEncode(|ix.data|, 2) + ix.data)
  {
    assert C.Encoded([ix]) == [C.ToBytes(ix)];
    FlattenOne(C.ToBytes(ix));
    hide LeEncode;
  }

  /** A list is read if it has at most 16 instructions, each with at most 255 accounts
      and 65535 bytes of data, and the bytes start with it. */
  lemma EncodesMeans(bytes: seq<byte>, ixs: seq<C.CompactInstruction>)
    ensures C.Encodes(bytes, ixs) <==> (
      && |ixs| <= 16 && (forall i :: 0 <= i < |ixs| ==> |ixs[i].accounts| <= 255 && |ixs[i].data| <= 65535)
      && |bytes| >= |C.Serialize(ixs)| && bytes[..|C.Serialize(ixs)|] == C.Serialize(ixs))
  {
    forall i | 0 <= i < |ixs| ensures C.Sized(ixs[i]) <==> |ixs[i].accounts| <= 255 && |ixs[i].data| <= 65535 {
    }
    hide C.Sized, C.Encoded, Flatten;
    if C.Encodes(bytes, ixs) {
      assert forall i :: 0 <= i < |ixs| ==> C.Sized(ixs[i]);
    }
  }

  /** The count, then program index, number of accounts, their indexes, the length of
      the data and the data. */
  lemma CompactBytes(program: byte, a: byte, b: byte, data: seq<byte>)
    requires |data| < 256
    ensures C.Serialize([C.CompactInstruction(program, [a, b], data)]) == [1, program, 2, a, b, |data|, 0] + data
  {
    OneCompact(C.CompactInstruction(program, [a, b], data));
    ShortLength(|data|);
    hide C.Serialize, LeEncode;
    assert [1] + ([program, 2] + [a, b] + [|data|, 0] + data) == [1, program, 2, a, b, |data|, 0] + data;
  }

  lemma ShortLength(n: nat)
    requires n < 256
    ensures LeEncode(n, 2) == [n, 0]
  {
  }

  /** The accounts hash is taken of each program, followed by its accounts. */
  lemma HashedKeys(p: Pubkey, a: Pubkey, b: Pubkey, data: seq<byte>, q: Pubkey, data': seq<byte>)
    ensures B.KeyBytes([C.Resolved(p, [a, b], data), C.Resolved(q, [], data')]) == p + a + b + q
  {
    var rs := [C.Resolved(p, [a, b], data), C.Resolved(q, [], data')];
    assert B.KeysOf(rs[0]) == [p, a, b] && B.KeysOf(rs[1]) == [q];
    assert B.KeyLists(rs) == [[p, a, b]] + [[q]];
    FlattenAppend([[p, a, b]], [[q]]);
    FlattenOne([p, a, b]);
    FlattenOne([q]);
    assert B.AllKeys(rs) == [p] + [a] + [b] + [q];
    FlattenAppend([p] + [a] + [b], [q]);
    FlattenAppend([p] + [a], [b]);
    FlattenAppend([p], [a]);
    FlattenOne(p);
    FlattenOne(a);
    FlattenOne(b);
    FlattenOne(q);
  }

  // ---------------------------------------------------------------------
  // Texts

  /** One byte is two letters, its upper six bits and then its lower two: A to Z for
      0 to 25, a to z for 26 to 51, 0 to 9 for 52 to 61, minus for 62, underscore for 63. */
  lemma OneByteText(x: byte)
    ensures |W.Encode([x])| == 2
    ensures x < 104 ==> W.Encode([x])[0] == 'A' as int + x / 4
    ensures 104 <= x < 208 ==> W.Encode([x])[0] == 'a' as int + (x / 4 - 26)
    ensures 208 <= x < 248 ==> W.Encode([x])[0] == '0' as int + (x / 4 - 52)
    ensures 248 <= x < 252 ==> W.Encode([x])[0] == '-' as int
    ensures 252 <= x ==> W.Encode([x])[0] == '_' as int
    ensures W.Encode([x])[1] == [65, 81, 103, 119][x % 4]
  {
    var s := W.Symbols(x, 0, 0);
    assert W.Sextet(x, 0, 0, 0) == x / 4 && W.Sextet(x, 0, 0, 1) == x % 4 * 16;
    assert W.Encode([x]) == s[..2];
    assert s[0] == W.Symbol(x / 4) && s[1] == W.Symbol(x % 4 * 16);
    hide W.Encode, W.Symbols, W.Sextet;
    assert x % 4 == 0 || x % 4 == 1 || x % 4 == 2 || x % 4 == 3;
  }

  /** "Man" is "TWFu", and the bytes FB FF are "-_8". */
  lemma KnownTexts()
    ensures W.Encode([77, 97, 110]) == [84, 87, 70, 117]
    ensures W.Encode([251, 255]) == [45, 95, 56]
  {
    assert [77, 97, 110][3..] == [];
    assert W.Symbols(77, 97, 110) == [84, 87, 70, 117];
    assert W.Symbols(251, 255, 0)[..3] == [45, 95, 56];
    hide W.Symbols;
  }

  /** In {"a":"b"} the field a is b. */
  lemma KnownObject()
    ensures J.Extract([123, 34, 97, 34, 58, 34, 98, 34, 125], [97]) == Some([98])
  {
    var members := T.Member([], [97], [], [], T.Str([98]), [], T.NoMembers);
    var v := T.Obj([], members);
    KnownTree(members, v);
    hide *;
    assert [] + T.Text(v, []) == T.Text(v, []);
    NothingBlank();
    T.ExtractIsLookup([], v, [], [97]);
  }

  lemma NothingBlank()
    ensures T.Blank([])
  {
  }

  lemma KnownTree(members: T.Members, v: T.Value)
    requires members == T.Member([], [97], [], [], T.Str([98]), [], T.NoMembers) && v == T.Obj([], members)
    ensures T.Text(v, []) == [123, 34, 97, 34, 58, 34, 98, 34, 125]
    ensures T.WellFormed(v) && v.Obj? && T.Lookup(v.members, [97]) == Some([98])
  {
    OneLetter(97);
    OneLetter(98);
    KnownString();
    hide T.StringBody, T.Text, T.Quoted;
    assert T.WellFormed(T.Str([98])) && T.WellFormedMembers(T.NoMembers);
    assert T.MembersText(members, [125]) == [] + T.Quoted([97], [] + ([58] + ([] + T.Text(T.Str([98]), [] + [125]))));
    KnownObjectText(v, members);
  }

  lemma OneLetter(x: byte)
    requires x != 34 && x != 92
    ensures T.StringBody([x]) && T.Plain([x])
  {
    assert [x][1..] == [];
  }

  lemma KnownString()
    ensures T.Text(T.Str([98]), [] + [125]) == [34, 98, 34, 125]
    ensures T.Quoted([97], [] + ([58] + ([] + [34, 98, 34, 125]))) == [34, 97, 34, 58, 34, 98, 34, 125]
  {
  }

  lemma KnownObjectText(v: T.Value, members: T.Members)
    requires members.Member? && v == T.Obj([], members)
    ensures T.Text(v, []) == [123] + T.MembersText(members, [125])
  {
    assert [J.CLOSE_BRACE] + [] == [125];
  }

  /** Tab, line feed, form feed, carriage return and blank are passed over, no other
      byte is. */
  lemma BlankBytes(b: byte, rest: seq<byte>)
    ensures b in {9, 10, 12, 13, 32} ==> J.SkipWs([b] + rest) == J.SkipWs(rest)
    ensures b !in {9, 10, 12, 13, 32} ==> J.SkipWs([b] + rest) == [b] + rest
  {
    assert ([b] + rest)[1..] == rest;
  }

  /** The offset record of the signature instruction: signature at 16, key at 80,
      message at 114, each in this instruction. */
  lemma OffsetBytes(second: byte, n: u16)
    ensures I.OffsetRecord(second, n)
      == [1, second] + ([16, 0, 255, 255, 80, 0, 255, 255, 114, 0] + LeEncode(n, 2) + [255, 255])
  {
    WordBytes();
    assert I.StandardOffsets(n) == [16, 0xFFFF, 80, 0xFFFF, 114, n, 0xFFFF];
    assert I.OffsetRecord(second, n) == [1, second] + I.Words16(I.StandardOffsets(n));
    hide LeEncode, I.OffsetRecord, I.StandardOffsets;
    SevenWords(16, 0xFFFF, 80, 0xFFFF, 114, n, 0xFFFF);
    hide I.Words16;
    assert [16, 0] + ([255, 255] + ([80, 0] + ([255, 255] + ([114, 0] + (LeEncode(n, 2) + [255, 255])))))
      == [16, 0, 255, 255, 80, 0, 255, 255, 114, 0] + LeEncode(n, 2) + [255, 255];
  }

  lemma WordBytes()
    ensures LeEncode(16, 2) == [16, 0] && LeEncode(0xFFFF, 2) == [255, 255] && LeEncode(80, 2) == [80, 0]
    ensures LeEncode(114, 2) == [114, 0]
  {
  }

  lemma SevenWords(a: u16, b: u16, c: u16, d: u16, e: u16, f: u16, g: u16)
    ensures I.Words16([a, b, c, d, e, f, g])
      == LeEncode(a, 2) + (LeEncode(b, 2) + (LeEncode(c, 2) + (LeEncode(d, 2) + (LeEncode(e, 2)
         + (LeEncode(f, 2) + LeEncode(g, 2))))))
  {
    hide LeEncode;
    WordsStep(a, [b, c, d, e, f, g]);
    WordsStep(b, [c, d, e, f, g]);
    WordsStep(c, [d, e, f, g]);
    WordsStep(d, [e, f, g]);
    WordsStep(e, [f, g]);
    WordsStep(f, [g]);
    LastWord(g);
    hide I.Words16;
    assert [a] + [b, c, d, e, f, g] == [a, b, c, d, e, f, g] && [b] + [c, d, e, f, g] == [b, c, d, e, f, g];
    assert [c] + [d, e, f, g] == [c, d, e, f, g] && [d] + [e, f, g] == [d, e, f, g];
    assert [e] + [f, g] == [e, f, g] && [f] + [g] == [f, g];
  }

  lemma WordsStep(w: u16, ws: seq<u16>)
    ensures I.Words16([w] + ws) == LeEncode(w, 2) + I.Words16(ws)
  {
    assert ([w] + ws)[1..] == ws;
  }

  lemma LastWord(w: u16)
    ensures I.Words16([w]) == LeEncode(w, 2)
  {
    assert [w][1..] == [];
  }
}
