/** The check of the signature-verification instruction that must come before
    an instruction signed by a passkey. */
module Introspection {
  import opened Slices
  import opened Bytes
  import opened Prelude

  const SIGNATURE_OFFSETS_START: nat := 2
  const DATA_START: nat := 16
  const SIGNATURE_DATA_OFFSET: nat := 16
  const PUBKEY_DATA_OFFSET: nat := 80
  const MESSAGE_DATA_OFFSET: nat := 114
  const MESSAGE_DATA_SIZE: nat := 32
  const COMPRESSED_PUBKEY_SIZE: nat := 33
  const SIGNATURE_SIZE: nat := 64
  const THIS_INSTRUCTION: u16 := 0xFFFF

  datatype SignatureOffsets = SignatureOffsets(
    signatureOffset: u16, signatureInstructionIndex: u16,
    publicKeyOffset: u16, publicKeyInstructionIndex: u16,
    messageDataOffset: u16, messageDataSize: u16, messageInstructionIndex: u16)

  function FromBytes(bytes: seq<byte>): (r: Result<SignatureOffsets>)
    ensures r.Ok? <==> |bytes| == 14
  {
    if |bytes| != 14 then Err(InvalidInstruction)
    else Ok(SignatureOffsets(ReadU16(bytes, 0), ReadU16(bytes, 2), ReadU16(bytes, 4), ReadU16(bytes, 6),
                             ReadU16(bytes, 8), ReadU16(bytes, 10), ReadU16(bytes, 12)))
  }

  /** The tests in the order they are made. */
  function VerifyInstructionData(data: seq<byte>, expectedPubkey: seq<byte>, authData: seq<byte>,
                                 clientDataHash: seq<byte>)
    : Result<()>
    requires |expectedPubkey| == COMPRESSED_PUBKEY_SIZE && |clientDataHash| == 32
  {
    if |data| < DATA_START then Err(InvalidInstruction)
    else if data[0] == 0 || data[0] > 1 then Err(InvalidInstruction)
    else if |data| < MESSAGE_DATA_OFFSET + MESSAGE_DATA_SIZE then Err(InvalidInstruction)
    else
      match FromBytes(data[SIGNATURE_OFFSETS_START..DATA_START])
      case Err(e) => Err(e)
      case Ok(o) =>
        var expectedLen := |authData| + |clientDataHash|;
        var hashStart := MESSAGE_DATA_OFFSET + |authData|;
        if o.signatureInstructionIndex != THIS_INSTRUCTION then Err(InvalidInstruction)
        else if o.publicKeyInstructionIndex != THIS_INSTRUCTION then Err(InvalidInstruction)
        else if o.messageInstructionIndex != THIS_INSTRUCTION then Err(InvalidInstruction)
        else if o.signatureOffset != SIGNATURE_DATA_OFFSET then Err(InvalidInstruction)
        else if o.publicKeyOffset != PUBKEY_DATA_OFFSET then Err(InvalidInstruction)
        else if o.messageDataOffset != MESSAGE_DATA_OFFSET then Err(InvalidInstruction)
        else if o.messageDataSize != expectedLen then Err(InvalidInstruction)
        else if |data| < MESSAGE_DATA_OFFSET + expectedLen then Err(InvalidInstruction)
        else if data[PUBKEY_DATA_OFFSET..PUBKEY_DATA_OFFSET + COMPRESSED_PUBKEY_SIZE] != expectedPubkey then
          Err(InvalidPubkey)
        else if data[MESSAGE_DATA_OFFSET..hashStart] != authData then Err(InvalidMessageHash)
        else if data[hashStart..hashStart + 32] != clientDataHash then Err(InvalidMessageHash)
        else Ok(())
  }

  // ---------------------------------------------------------------------
  // A reader that only follows the embedded offsets

  function Part(data: seq<byte>, offset: nat, size: nat): Option<seq<byte>> {
    if offset + size <= |data| then Some(data[offset..offset + size]) else None
  }

  /** What the signature verification itself works on: the signature, the key and
      the message that the first offset record names. */
  datatype Claim = Claim(signature: Option<seq<byte>>, key: Option<seq<byte>>, message: Option<seq<byte>>)

  /** Each item comes from this instruction or, through its index, from another one. */
  function FollowOffsets(data: seq<byte>, others: u16 -> seq<byte>): Claim
    requires |data| >= DATA_START
  {
    var sigIx, keyIx, msgIx := ReadU16(data, 4), ReadU16(data, 8), ReadU16(data, 14);
    Claim(Part(if sigIx == THIS_INSTRUCTION then data else others(sigIx), ReadU16(data, 2), SIGNATURE_SIZE),
          Part(if keyIx == THIS_INSTRUCTION then data else others(keyIx), ReadU16(data, 6), COMPRESSED_PUBKEY_SIZE),
          Part(if msgIx == THIS_INSTRUCTION then data else others(msgIx), ReadU16(data, 10), ReadU16(data, 12)))
  }

  lemma ReadShifted(data: seq<byte>, i: nat)
    requires |data| >= DATA_START && i <= 12
    ensures ReadU16(data[2..16], i) == ReadU16(data, i + 2)
  {
    SubSlice(data, 2, 16, i, i + 2);
  }

  lemma OffsetsRead(data: seq<byte>)
    requires |data| >= DATA_START
    ensures FromBytes(data[2..16]) == Ok(SignatureOffsets(
      ReadU16(data, 2), ReadU16(data, 4), ReadU16(data, 6), ReadU16(data, 8),
      ReadU16(data, 10), ReadU16(data, 12), ReadU16(data, 14)))
  {
    ReadShifted(data, 0); ReadShifted(data, 2); ReadShifted(data, 4); ReadShifted(data, 6);
    ReadShifted(data, 8); ReadShifted(data, 10); ReadShifted(data, 12);
    hide ReadU16;
  }

  /** Whatever is accepted makes a reader of the offsets see exactly one
      signature, over exactly the expected message, under exactly the expected
      key, all inside this instruction. */
  lemma AcceptedMeansSigned(data: seq<byte>, key: seq<byte>, authData: seq<byte>, hash: seq<byte>,
                            others: u16 -> seq<byte>)
    requires |key| == COMPRESSED_PUBKEY_SIZE && |hash| == 32
    requires VerifyInstructionData(data, key, authData, hash).Ok?
    ensures |data| >= DATA_START && data[0] == 1
    ensures FollowOffsets(data, others) == Claim(Some(data[16..80]), Some(key), Some(authData + hash))
  {
    OffsetsRead(data);
    var n := MESSAGE_DATA_OFFSET + |authData|;
    assert data[MESSAGE_DATA_OFFSET..n + 32] == data[MESSAGE_DATA_OFFSET..n] + data[n..n + 32];
  }

  /** The one layout: free bytes are the second one, the one before the message,
      the signature and whatever follows the message. */
  function Layout(key: seq<byte>, message: seq<byte>, second: byte, signature: seq<byte>, gap: byte,
                  trail: seq<byte>): seq<byte>
    requires |message| < 0x1_0000
  {
    OffsetRecord(second, |message|) + (signature + (key + ([gap] + (message + trail))))
  }

  /** Two-byte words in a row. */
  function Words16(ws: seq<u16>): (s: seq<byte>)
    ensures |s| == 2 * |ws|
  {
    if ws == [] then [] else LeEncode(ws[0], 2) + Words16(ws[1..])
  }

  function OffsetRecord(second: byte, messageSize: u16): (r: seq<byte>)
    ensures |r| == DATA_START
  {
    [1, second] + Words16(StandardOffsets(messageSize))
  }

  /** Signature, key and message each in this instruction, at their fixed places. */
  function StandardOffsets(messageSize: u16): seq<u16> {
    [SIGNATURE_DATA_OFFSET, THIS_INSTRUCTION, PUBKEY_DATA_OFFSET, THIS_INSTRUCTION, MESSAGE_DATA_OFFSET, messageSize,
     THIS_INSTRUCTION]
  }

  lemma U16Back(v: u16)
    ensures LeDecode(LeEncode(v, 2)) == v
  {
    PowConstants();
    LeDecodeEncode(v, 2);
  }

  lemma {:induction false} Words16At(ws: seq<u16>, i: nat)
    requires i < |ws|
    ensures ReadU16(Words16(ws), 2 * i) == ws[i]
  {
    var head, s := LeEncode(ws[0], 2), Words16(ws);
    Join(head, Words16(ws[1..]));
    U16Back(ws[0]);
    hide LeEncode, LeDecode;
    if i == 0 {
      assert s[0..2] == s[..2];
    } else {
      Words16At(ws[1..], i - 1);
      DropSlice(s, 2, 2 * i - 2, 2 * i);
    }
  }

  lemma {:induction false} Words16Of(s: seq<byte>, ws: seq<u16>)
    requires |s| == 2 * |ws|
    requires forall i :: 0 <= i < |ws| ==> ws[i] == ReadU16(s, 2 * i)
    ensures Words16(ws) == s
  {
    if ws == [] {
      assert s == [];
    } else {
      assert ws[0] == ReadU16(s, 2 * 0);
      LeEncodeDecode(s[0..2]);
      hide LeEncode, LeDecode;
      forall i | 0 <= i < |ws[1..]| ensures ws[1..][i] == ReadU16(s[2..], 2 * i) {
        assert ws[1..][i] == ws[i + 1] == ReadU16(s, 2 * (i + 1));
        DropSlice(s, 2, 2 * i, 2 * i + 2);
      }
      Words16Of(s[2..], ws[1..]);
      Cut(s, 0, 2);
      assert s[0..] == s;
    }
  }

  lemma OffsetsBack(messageSize: u16)
    ensures FromBytes(Words16(StandardOffsets(messageSize))) == Ok(SignatureOffsets(
      SIGNATURE_DATA_OFFSET, THIS_INSTRUCTION, PUBKEY_DATA_OFFSET, THIS_INSTRUCTION,
      MESSAGE_DATA_OFFSET, messageSize, THIS_INSTRUCTION))
  {
    var ws := StandardOffsets(messageSize);
    hide Words16, ReadU16;
    Words16At(ws, 0); Words16At(ws, 1); Words16At(ws, 2); Words16At(ws, 3);
    Words16At(ws, 4); Words16At(ws, 5); Words16At(ws, 6);
  }

  lemma OffsetsForth(s: seq<byte>, messageSize: u16)
    requires FromBytes(s) == Ok(SignatureOffsets(
      SIGNATURE_DATA_OFFSET, THIS_INSTRUCTION, PUBKEY_DATA_OFFSET, THIS_INSTRUCTION,
      MESSAGE_DATA_OFFSET, messageSize, THIS_INSTRUCTION))
    ensures s == Words16(StandardOffsets(messageSize))
  {
    hide Words16, ReadU16;
    Words16Of(s, StandardOffsets(messageSize));
  }

  /** Where the parts of a layout lie. */
  lemma LayoutParts(key: seq<byte>, message: seq<byte>, second: byte, signature: seq<byte>, gap: byte, trail: seq<byte>)
    requires |key| == COMPRESSED_PUBKEY_SIZE && |signature| == SIGNATURE_SIZE && |message| < 0x1_0000
    ensures var d := Layout(key, message, second, signature, gap, trail);
      && |d| >= 114 + |message| && d[0] == 1 && d[2..16] == Words16(StandardOffsets(|message|))
      && d[80..113] == key && d[114..114 + |message|] == message
  {
    var d, words := Layout(key, message, second, signature, gap, trail), Words16(StandardOffsets(|message|));
    var fromGap := [gap] + (message + trail);
    var rest := signature + (key + fromGap);
    assert d[0..] == d == OffsetRecord(second, |message|) + rest;
    Associate([1, second], words, rest);
    hide Words16, StandardOffsets, OffsetRecord, Layout;
    PartAt(d, 0, [1, second], words + rest);
    assert d[0] == d[0..2][0];
    PartAt(d, 2, words, rest);
    PartAt(d, 16, signature, key + fromGap);
    PartAt(d, 80, key, fromGap);
    PartAt(d, 113, [gap], message + trail);
    PartAt(d, 114, message, trail);
  }

  /** Instructions in the layout are accepted for their own key and message. */
  lemma LayoutAccepted(key: seq<byte>, authData: seq<byte>, hash: seq<byte>, second: byte, signature: seq<byte>,
                       gap: byte, trail: seq<byte>)
    requires |key| == COMPRESSED_PUBKEY_SIZE && |signature| == SIGNATURE_SIZE && |hash| == 32
    requires |authData| + 32 < 0x1_0000
    ensures VerifyInstructionData(Layout(key, authData + hash, second, signature, gap, trail), key, authData, hash).Ok?
  {
    var m := authData + hash;
    var data := Layout(key, m, second, signature, gap, trail);
    LayoutParts(key, m, second, signature, gap, trail);
    OffsetsBack(|m|);
    hide Layout, FromBytes, Words16, StandardOffsets;
    Join(authData, hash);
    SubSlice(data, 114, 114 + |m|, 0, |authData|);
    SubSlice(data, 114, 114 + |m|, |authData|, |m|);
    assert m[0..|authData|] == m[..|authData|] && m[|authData|..|m|] == m[|authData|..];
  }

  /** Nothing else is accepted. */
  lemma AcceptedIsLayout(data: seq<byte>, key: seq<byte>, authData: seq<byte>, hash: seq<byte>)
    requires |key| == COMPRESSED_PUBKEY_SIZE && |hash| == 32
    requires VerifyInstructionData(data, key, authData, hash).Ok?
    ensures var n := 114 + |authData| + 32;
      && |authData| + 32 < 0x1_0000 && |data| >= n
      && data == Layout(key, authData + hash, data[1], data[16..80], data[113], data[n..])
  {
    hide FromBytes;
    var n := 114 + |authData| + 32;
    AcceptedMessage(data, key, authData, hash);
    OffsetsForth(data[2..16], |authData| + 32);
    LayoutOf(data, key, authData + hash);
  }

  lemma AcceptedKey(data: seq<byte>, key: seq<byte>, authData: seq<byte>, hash: seq<byte>)
    requires |key| == COMPRESSED_PUBKEY_SIZE && |hash| == 32
    requires VerifyInstructionData(data, key, authData, hash).Ok?
    ensures |data| >= 113 && data[80..113] == key
  {
    hide FromBytes;
  }

  lemma AcceptedMessage(data: seq<byte>, key: seq<byte>, authData: seq<byte>, hash: seq<byte>)
    requires |key| == COMPRESSED_PUBKEY_SIZE && |hash| == 32
    requires VerifyInstructionData(data, key, authData, hash).Ok?
    ensures |data| >= 114 + |authData| + 32 && data[114..114 + |authData| + 32] == authData + hash
  {
    hide FromBytes;
    SubCut(data, 114, 114 + |authData|, 114 + |authData| + 32);
  }

  /** Data with the fixed parts in their places is a layout. */
  lemma LayoutOf(data: seq<byte>, key: seq<byte>, message: seq<byte>)
    requires |key| == COMPRESSED_PUBKEY_SIZE && |message| < 0x1_0000 && |data| >= 114 + |message|
    requires data[0] == 1 && data[2..16] == Words16(StandardOffsets(|message|))
    requires data[80..113] == key && data[114..114 + |message|] == message
    ensures data == Layout(key, message, data[1], data[16..80], data[113], data[114 + |message|..])
  {
    hide Words16, StandardOffsets;
    SplitAt(data, 16);
    CutTake(data, 2, 16);
    assert data[..2] == [1, data[1]];
    Cut(data, 16, 80);
    Cut(data, 80, 113);
    Cut(data, 113, 114);
    assert data[113..114] == [data[113]];
    Cut(data, 114, 114 + |message|);
  }
}
