/** The parser of the execute path, which copies nothing: an instruction is a set
    of places in the input. */
module CompactRefs {
  import opened Slices
  import opened Bytes
  import opened Prelude
  import opened Compact

  /** A slice of the input. */
  datatype Slice = Slice(start: nat, len: nat)

  datatype InstructionRef = InstructionRef(programIdIndex: byte, accounts: Slice, data: Slice)

  predicate Within(s: Slice, bytes: seq<byte>) {
    s.start + s.len <= |bytes|
  }

  predicate RefWithin(r: InstructionRef, bytes: seq<byte>) {
    Within(r.accounts, bytes) && Within(r.data, bytes)
  }

  predicate AllWithin(refs: seq<InstructionRef>, bytes: seq<byte>) {
    forall i :: 0 <= i < |refs| ==> RefWithin(refs[i], bytes)
  }

  function Deref(bytes: seq<byte>, s: Slice): seq<byte>
    requires Within(s, bytes)
  {
    bytes[s.start..s.start + s.len]
  }

  /** The instruction a reference stands for. */
  function Owned(bytes: seq<byte>, r: InstructionRef): CompactInstruction
    requires RefWithin(r, bytes)
  {
    CompactInstruction(r.programIdIndex, Deref(bytes, r.accounts), Deref(bytes, r.data))
  }

  function OwnedAll(bytes: seq<byte>, refs: seq<InstructionRef>): (ixs: seq<CompactInstruction>)
    requires AllWithin(refs, bytes)
    ensures |ixs| == |refs|
  {
    seq(|refs|, i requires 0 <= i < |refs| => Owned(bytes, refs[i]))
  }

  lemma OwnedAppend(bytes: seq<byte>, refs: seq<InstructionRef>, r: InstructionRef)
    requires AllWithin(refs, bytes) && RefWithin(r, bytes)
    ensures AllWithin(refs + [r], bytes) && OwnedAll(bytes, refs + [r]) == OwnedAll(bytes, refs) + [Owned(bytes, r)]
  {
  }

  /** Reads one instruction at `cursor`: the same as copying it out of the rest. */
  method RefFromBytes(bytes: seq<byte>, cursor: nat) returns (r: Result<(InstructionRef, nat)>)
    requires cursor <= |bytes|
    ensures r.Err? <==> FromBytes(bytes[cursor..]).Err?
    ensures r.Err? ==> r.error == FromBytes(bytes[cursor..]).error
    ensures r.Ok? ==> (
      && RefWithin(r.value.0, bytes) && cursor < r.value.1 <= |bytes|
      && FromBytes(bytes[cursor..]) == Ok((Owned(bytes, r.value.0), bytes[r.value.1..])))
  {
    ghost var rest := bytes[cursor..];
    if |bytes| - cursor < 4 { return Err(InvalidInstructionData); }
    var numAccounts: nat := bytes[cursor + 1];
    if |bytes| - cursor < 2 + numAccounts + 2 { return Err(InvalidInstructionData); }
    DropSlice(bytes, cursor, 2 + numAccounts, 4 + numAccounts);
    DropSlice(bytes, cursor, 2, 2 + numAccounts);
    var dataLen: nat := ReadU16(bytes, cursor + 2 + numAccounts);
    var dataStart := cursor + 2 + numAccounts + 2;
    assert rest[1] == numAccounts && ReadU16(rest, 2 + numAccounts) == dataLen;
    if |bytes| < dataStart + dataLen { return Err(InvalidInstructionData); }
    DropSlice(bytes, cursor, 4 + numAccounts, 4 + numAccounts + dataLen);
    assert rest[4 + numAccounts + dataLen..] == bytes[dataStart + dataLen..];
    return Ok((InstructionRef(bytes[cursor], Slice(cursor + 2, numAccounts), Slice(dataStart, dataLen)),
               dataStart + dataLen));
  }

  /** Agrees with the copying parser on every input: it accepts the same inputs,
      consumes as many bytes, and its references stand for the same list. */
  method ParseCompactRefs(bytes: seq<byte>) returns (r: Result<(seq<InstructionRef>, nat)>)
    ensures r.Ok? ==> AllWithin(r.value.0, bytes)
    ensures r.Ok? ==> Encodes(bytes, OwnedAll(bytes, r.value.0)) && r.value.1 == |Serialize(OwnedAll(bytes, r.value.0))|
    ensures r.Err? ==> r.error == InvalidInstructionData && forall ixs :: !Encodes(bytes, ixs)
  {
    forall ixs { EncodesIsParse(bytes, ixs); }
    if |bytes| == 0 { return Err(InvalidInstructionData); }
    var numInstructions := bytes[0];
    if numInstructions > MAX_COMPACT_INSTRUCTIONS { return Err(InvalidInstructionData); }
    var refs: seq<InstructionRef> := [];
    var cursor := 1;
    ghost var whole := ParseMany(bytes[1..], numInstructions);
    ParseManySound(bytes[1..], numInstructions);
    PrependNone(whole);
    assert OwnedAll(bytes, refs) == [];
    hide ParseMany, FromBytes, Encodes, Prepend, Owned, OwnedAll, RefWithin;
    for i := 0 to numInstructions
      invariant 1 <= cursor <= |bytes| && AllWithin(refs, bytes)
      invariant whole == Prepend(OwnedAll(bytes, refs), ParseMany(bytes[cursor..], numInstructions - i))
    {
      var next := RefFromBytes(bytes, cursor);
      if next.Err? {
        ParseManyFails(OwnedAll(bytes, refs), bytes[cursor..], numInstructions - i);
        return Err(next.error);
      }
      PrependStep(OwnedAll(bytes, refs), bytes[cursor..], numInstructions - i);
      OwnedAppend(bytes, refs, next.value.0);
      refs := refs + [next.value.0];
      cursor := next.value.1;
    }
    ParseEnd(bytes, OwnedAll(bytes, refs), bytes[cursor..]);
    return Ok((refs, cursor));
  }
}
