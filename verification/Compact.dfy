/** Compact instructions: account indexes instead of keys, packed into bytes. */
module Compact {
  import opened Slices
  import opened Bytes
  import opened Prelude
  import opened Flat

  const MAX_COMPACT_INSTRUCTIONS: nat := 16

  datatype CompactInstruction = CompactInstruction(programIdIndex: byte, accounts: seq<byte>, data: seq<byte>)

  /** What the account count and data length fields can represent. */
  predicate Sized(ix: CompactInstruction) {
    |ix.accounts| <= 0xFF && |ix.data| <= 0xFFFF
  }

  /** The serialiser asserts the account count but truncates the data length. */
  function ToBytes(ix: CompactInstruction): seq<byte>
    requires |ix.accounts| <= 0xFF
  {
    [ix.programIdIndex, |ix.accounts|] + ix.accounts + LeEncode(|ix.data|, 2) + ix.data
  }

  function FromBytes(bytes: seq<byte>): Result<(CompactInstruction, seq<byte>)> {
    if |bytes| < 4 then Err(InvalidInstructionData)
    else
      var numAccounts: nat := bytes[1];
      if |bytes| < 2 + numAccounts + 2 then Err(InvalidInstructionData)
      else
        var accounts := bytes[2..2 + numAccounts];
        var dataLen := ReadU16(bytes, 2 + numAccounts);
        var dataStart := 2 + numAccounts + 2;
        if |bytes| < dataStart + dataLen then Err(InvalidInstructionData)
        else Ok((CompactInstruction(bytes[0], accounts, bytes[dataStart..dataStart + dataLen]),
                 bytes[dataStart + dataLen..]))
  }

  lemma FromBytesSound(bytes: seq<byte>)
    requires FromBytes(bytes).Ok?
    ensures var (ix, rest) := FromBytes(bytes).value; Sized(ix) && bytes == ToBytes(ix) + rest
  {
    var (ix, rest) := FromBytes(bytes).value;
    var n := bytes[1];
    LeEncodeDecode(bytes[2 + n..4 + n]);
    assert bytes == [bytes[0], bytes[1]] + bytes[2..2 + n] + bytes[2 + n..4 + n] + ix.data + rest;
  }

  lemma FromBytesComplete(ix: CompactInstruction, rest: seq<byte>)
    requires Sized(ix)
    ensures FromBytes(ToBytes(ix) + rest) == Ok((ix, rest))
  {
    var bytes, n := ToBytes(ix) + rest, |ix.accounts|;
    assert bytes[0] == ix.programIdIndex && bytes[1] == n;
    assert bytes[2..2 + n] == ix.accounts;
    assert bytes[2 + n..4 + n] == LeEncode(|ix.data|, 2);
    PowConstants();
    LeDecodeEncode(|ix.data|, 2);
    assert bytes[4 + n..4 + n + |ix.data|] == ix.data;
    assert bytes[4 + n + |ix.data|..] == rest;
  }

  // ---------------------------------------------------------------------
  // Lists

  predicate Writable(ixs: seq<CompactInstruction>) {
    |ixs| <= 0xFF && forall i :: 0 <= i < |ixs| ==> |ixs[i].accounts| <= 0xFF
  }

  predicate AllSized(ixs: seq<CompactInstruction>) {
    forall i :: 0 <= i < |ixs| ==> Sized(ixs[i])
  }

  function Encoded(ixs: seq<CompactInstruction>): seq<seq<byte>>
    requires forall i :: 0 <= i < |ixs| ==> |ixs[i].accounts| <= 0xFF
  {
    seq(|ixs|, i requires 0 <= i < |ixs| => ToBytes(ixs[i]))
  }

  function Serialize(ixs: seq<CompactInstruction>): seq<byte>
    requires Writable(ixs)
  {
    [|ixs|] + Flatten(Encoded(ixs))
  }

  method IntoBytes(ixs: seq<CompactInstruction>) returns (bytes: seq<byte>)
    requires Writable(ixs)
    ensures bytes == Serialize(ixs)
  {
    hide Flatten, LeEncode;
    bytes := [|ixs|];
    assert Encoded(ixs)[..0] == [] && Flatten(Encoded(ixs)[..0]) == [] by { FlattenNone<byte>(); }
    for i := 0 to |ixs|
      invariant bytes == [|ixs|] + Flatten(Encoded(ixs)[..i])
    {
      FlattenSplit(Encoded(ixs), i);
      ghost var before := bytes;
      bytes := bytes + [ixs[i].programIdIndex];
      bytes := bytes + [|ixs[i].accounts|];
      bytes := bytes + ixs[i].accounts;
      bytes := bytes + LeEncode(|ixs[i].data|, 2);
      bytes := bytes + ixs[i].data;
      assert bytes == before + ToBytes(ixs[i]);
      Associate([|ixs|], Flatten(Encoded(ixs)[..i]), ToBytes(ixs[i]));
    }
    assert Encoded(ixs)[..|ixs|] == Encoded(ixs);
  }

  function ParseMany(bytes: seq<byte>, n: nat): Result<(seq<CompactInstruction>, seq<byte>)> {
    if n == 0 then Ok(([], bytes))
    else
      match FromBytes(bytes)
      case Err(e) => Err(e)
      case Ok((ix, rest)) =>
        match ParseMany(rest, n - 1)
        case Err(e) => Err(e)
        case Ok((ixs, rest')) => Ok(([ix] + ixs, rest'))
  }

  lemma EncodedCons(ix: CompactInstruction, ixs: seq<CompactInstruction>)
    requires Sized(ix) && AllSized(ixs)
    ensures AllSized([ix] + ixs)
    ensures Flatten(Encoded([ix] + ixs)) == ToBytes(ix) + Flatten(Encoded(ixs))
  {
    hide ToBytes;
    assert Encoded([ix] + ixs)[1..] == Encoded(ixs);
  }

  lemma {:induction false} ParseManySound(bytes: seq<byte>, n: nat)
    ensures var r := ParseMany(bytes, n);
      && (r.Ok? ==> |r.value.0| == n && AllSized(r.value.0) && bytes == Flatten(Encoded(r.value.0)) + r.value.1)
      && (r.Err? ==> r.error == InvalidInstructionData)
  {
    if n == 0 || FromBytes(bytes).Err? {
    } else {
      FromBytesSound(bytes);
      var (ix, rest) := FromBytes(bytes).value;
      ParseManySound(rest, n - 1);
      hide FromBytes, ToBytes, Flatten, Encoded, AllSized;
      if ParseMany(rest, n - 1).Ok? {
        var (ixs, rest') := ParseMany(rest, n - 1).value;
        EncodedCons(ix, ixs);
        Associate(ToBytes(ix), Flatten(Encoded(ixs)), rest');
      }
    }
  }

  lemma {:induction false} ParseManyComplete(ixs: seq<CompactInstruction>, rest: seq<byte>)
    requires AllSized(ixs)
    ensures ParseMany(Flatten(Encoded(ixs)) + rest, |ixs|) == Ok((ixs, rest))
  {
    if ixs == [] {
      assert [] + rest == rest;
    } else {
      var ix, tail := ixs[0], Flatten(Encoded(ixs[1..])) + rest;
      assert ixs == [ix] + ixs[1..] && Sized(ix) && AllSized(ixs[1..]);
      hide FromBytes, ToBytes, Flatten, Encoded, AllSized, Sized;
      EncodedCons(ix, ixs[1..]);
      Associate(ToBytes(ix), Flatten(Encoded(ixs[1..])), rest);
      FromBytesComplete(ix, tail);
      ParseManyComplete(ixs[1..], rest);
    }
  }

  /** `bytes` starts with the serialisation of `ixs`, a list the parser takes. */
  predicate Encodes(bytes: seq<byte>, ixs: seq<CompactInstruction>) {
    |ixs| <= MAX_COMPACT_INSTRUCTIONS && AllSized(ixs) && Serialize(ixs) <= bytes
  }

  lemma EncodesIsParse(bytes: seq<byte>, ixs: seq<CompactInstruction>)
    ensures Encodes(bytes, ixs) <==>
      |bytes| > 0 && bytes[0] <= MAX_COMPACT_INSTRUCTIONS
      && ParseMany(bytes[1..], bytes[0]).Ok? && ParseMany(bytes[1..], bytes[0]).value.0 == ixs
  {
    if Encodes(bytes, ixs) {
      var rest := bytes[|Serialize(ixs)|..];
      assert bytes == [|ixs|] + (Flatten(Encoded(ixs)) + rest);
      assert bytes[1..] == Flatten(Encoded(ixs)) + rest;
      ParseManyComplete(ixs, rest);
    }
    if |bytes| > 0 && bytes[0] <= MAX_COMPACT_INSTRUCTIONS && ParseMany(bytes[1..], bytes[0]).Ok?
       && ParseMany(bytes[1..], bytes[0]).value.0 == ixs {
      ParseManySound(bytes[1..], bytes[0]);
      assert bytes == [bytes[0]] + bytes[1..];
    }
  }

  /** Succeeds exactly when some list's serialisation is a prefix of the input;
      returns that list and the length of that prefix. */
  method ParseCompactInstructions(bytes: seq<byte>) returns (r: Result<(seq<CompactInstruction>, nat)>)
    ensures r.Ok? ==> Encodes(bytes, r.value.0) && r.value.1 == |Serialize(r.value.0)|
    ensures r.Ok? ==> r.value.1 <= |bytes| && bytes[..r.value.1] == Serialize(r.value.0)
    ensures r.Err? ==> r.error == InvalidInstructionData && forall ixs :: !Encodes(bytes, ixs)
  {
    forall ixs { EncodesIsParse(bytes, ixs); }
    if |bytes| == 0 {
      return Err(InvalidInstructionData);
    }
    var numInstructions := bytes[0];
    if numInstructions > MAX_COMPACT_INSTRUCTIONS {
      return Err(InvalidInstructionData);
    }
    var instructions: seq<CompactInstruction> := [];
    var remaining := bytes[1..];
    ghost var whole := ParseMany(bytes[1..], numInstructions);
    ParseManySound(bytes[1..], numInstructions);
    PrependNone(whole);
    hide ParseMany, FromBytes, Encodes, Prepend;
    for i := 0 to numInstructions
      invariant |remaining| < |bytes|
      invariant whole == Prepend(instructions, ParseMany(remaining, numInstructions - i))
    {
      var next := FromBytes(remaining);
      if next.Err? {
        ParseManyFails(instructions, remaining, numInstructions - i);
        return Err(next.error);
      }
      var (ix, rest) := next.value;
      PrependStep(instructions, remaining, numInstructions - i);
      instructions := instructions + [ix];
      remaining := rest;
    }
    var consumed := |bytes| - |remaining|;
    ParseEnd(bytes, instructions, remaining);
    return Ok((instructions, consumed));
  }

  lemma ParseEnd(bytes: seq<byte>, done: seq<CompactInstruction>, rest: seq<byte>)
    requires |bytes| > 0 && bytes[0] <= MAX_COMPACT_INSTRUCTIONS
    requires ParseMany(bytes[1..], bytes[0]) == Prepend(done, ParseMany(rest, 0))
    ensures Encodes(bytes, done) && bytes == Serialize(done) + rest
  {
    assert done + [] == done;
    EncodesIsParse(bytes, done);
    ParseManySound(bytes[1..], bytes[0]);
    assert bytes == [bytes[0]] + bytes[1..];
    Associate([bytes[0]], Flatten(Encoded(done)), rest);
  }

  lemma PrependNone(r: Result<(seq<CompactInstruction>, seq<byte>)>)
    ensures Prepend([], r) == r
  {
    assert forall ixs: seq<CompactInstruction> :: [] + ixs == ixs;
  }

  ghost function Prepend(done: seq<CompactInstruction>, r: Result<(seq<CompactInstruction>, seq<byte>)>)
    : Result<(seq<CompactInstruction>, seq<byte>)>
  {
    match r
    case Err(e) => Err(e)
    case Ok((ixs, rest)) => Ok((done + ixs, rest))
  }

  lemma ParseManyFails(done: seq<CompactInstruction>, bytes: seq<byte>, n: nat)
    requires n > 0 && FromBytes(bytes).Err?
    ensures Prepend(done, ParseMany(bytes, n)) == Err(FromBytes(bytes).error)
  {
  }

  lemma PrependStep(done: seq<CompactInstruction>, bytes: seq<byte>, n: nat)
    requires n > 0 && FromBytes(bytes).Ok?
    ensures var (ix, rest) := FromBytes(bytes).value;
      |rest| < |bytes| && Prepend(done, ParseMany(bytes, n)) == Prepend(done + [ix], ParseMany(rest, n - 1))
  {
    var (ix, rest) := FromBytes(bytes).value;
    assert forall ixs :: done + ([ix] + ixs) == done + [ix] + ixs;
  }

  /** A serialisation is never a prefix of another list's: input bytes determine
      the instruction list. */
  lemma UniqueDecoding(bytes: seq<byte>, a: seq<CompactInstruction>, b: seq<CompactInstruction>)
    requires Encodes(bytes, a) && Encodes(bytes, b)
    ensures a == b
  {
    EncodesIsParse(bytes, a);
    EncodesIsParse(bytes, b);
  }

  /** Serialising and parsing back, with anything behind, returns the same list
      exactly when no instruction carries more than 65535 data bytes: the
      serialiser truncates a longer length without an error. */
  lemma RoundTripExactly(ixs: seq<CompactInstruction>, suffix: seq<byte>)
    requires Writable(ixs) && |ixs| <= MAX_COMPACT_INSTRUCTIONS
    ensures ParseMany((Serialize(ixs) + suffix)[1..], |ixs|) == Ok((ixs, suffix))
      <==> forall i :: 0 <= i < |ixs| ==> |ixs[i].data| <= 0xFFFF
  {
    var bytes := (Serialize(ixs) + suffix)[1..];
    assert bytes == Flatten(Encoded(ixs)) + suffix;
    ParseManySound(bytes, |ixs|);
    if AllSized(ixs) {
      ParseManyComplete(ixs, suffix);
    }
  }

  // ---------------------------------------------------------------------
  // Resolution against the account list

  /** What an instruction stands for once its indexes are looked up. */
  datatype Resolved = Resolved(programId: Pubkey, accounts: seq<Pubkey>, data: seq<byte>)

  predicate InRange(ix: CompactInstruction, count: nat) {
    ix.programIdIndex < count && forall k :: 0 <= k < |ix.accounts| ==> ix.accounts[k] < count
  }

  function Resolve(ix: CompactInstruction, accounts: seq<AccountInfo>): Resolved
    requires InRange(ix, |accounts|)
  {
    Resolved(accounts[ix.programIdIndex].key,
             seq(|ix.accounts|, k requires 0 <= k < |ix.accounts| => accounts[ix.accounts[k]].key), ix.data)
  }

  function ResolveAll(ixs: seq<CompactInstruction>, accounts: seq<AccountInfo>): seq<Resolved>
    requires forall i :: 0 <= i < |ixs| ==> InRange(ixs[i], |accounts|)
  {
    seq(|ixs|, i requires 0 <= i < |ixs| => Resolve(ixs[i], accounts))
  }

  /** What runs: the named programs, each with the accounts its indexes name and its
      own data, in order. */
  lemma ResolvedFields(ixs: seq<CompactInstruction>, accounts: seq<AccountInfo>, i: nat)
    requires i < |ixs| && forall j :: 0 <= j < |ixs| ==> InRange(ixs[j], |accounts|)
    ensures |ResolveAll(ixs, accounts)| == |ixs|
    ensures ixs[i].programIdIndex < |accounts|
    ensures ResolveAll(ixs, accounts)[i].programId == accounts[ixs[i].programIdIndex].key
    ensures ResolveAll(ixs, accounts)[i].data == ixs[i].data
    ensures |ResolveAll(ixs, accounts)[i].accounts| == |ixs[i].accounts|
    ensures forall k :: 0 <= k < |ixs[i].accounts| ==>
      && ixs[i].accounts[k] < |accounts|
      && ResolveAll(ixs, accounts)[i].accounts[k] == accounts[ixs[i].accounts[k]].key
  {
  }

  /** Lists that resolve alike have equal data, and equal keys behind their indexes,
      at every position. */
  lemma ResolvedAlike(a: seq<CompactInstruction>, listA: seq<AccountInfo>, b: seq<CompactInstruction>,
                      listB: seq<AccountInfo>, i: nat)
    requires forall j :: 0 <= j < |a| ==> InRange(a[j], |listA|)
    requires forall j :: 0 <= j < |b| ==> InRange(b[j], |listB|)
    requires ResolveAll(a, listA) == ResolveAll(b, listB) && i < |a|
    ensures |a| == |b| && a[i].data == b[i].data && |a[i].accounts| == |b[i].accounts|
    ensures a[i].programIdIndex < |listA| && b[i].programIdIndex < |listB|
    ensures listA[a[i].programIdIndex].key == listB[b[i].programIdIndex].key
    ensures forall k :: 0 <= k < |a[i].accounts| ==>
      && a[i].accounts[k] < |listA| && b[i].accounts[k] < |listB|
      && listA[a[i].accounts[k]].key == listB[b[i].accounts[k]].key
  {
    assert |a| == |ResolveAll(a, listA)| == |ResolveAll(b, listB)| == |b|;
    ResolvedFields(a, listA, i);
    ResolvedFields(b, listB, i);
    hide ResolveAll, InRange;
  }

  method Decompress(ix: CompactInstruction, accountInfos: seq<AccountInfo>) returns (r: Result<Resolved>)
    ensures r.Ok? <==> InRange(ix, |accountInfos|)
    ensures r.Ok? ==> r.value == Resolve(ix, accountInfos)
    ensures r.Ok? ==> (
      && r.value.programId == accountInfos[ix.programIdIndex].key && r.value.data == ix.data
      && |r.value.accounts| == |ix.accounts|
      && forall k :: 0 <= k < |ix.accounts| ==> r.value.accounts[k] == accountInfos[ix.accounts[k]].key)
    ensures r.Err? ==> r.error == InvalidInstructionData
  {
    if ix.programIdIndex >= |accountInfos| {
      return Err(InvalidInstructionData);
    }
    var programId := accountInfos[ix.programIdIndex].key;
    var accounts: seq<Pubkey> := [];
    for k := 0 to |ix.accounts|
      invariant |accounts| == k
      invariant forall j :: 0 <= j < k ==>
        ix.accounts[j] < |accountInfos| && accounts[j] == accountInfos[ix.accounts[j]].key
    {
      if ix.accounts[k] >= |accountInfos| {
        return Err(InvalidInstructionData);
      }
      accounts := accounts + [accountInfos[ix.accounts[k]].key];
    }
    return Ok(Resolved(programId, accounts, ix.data));
  }
}
