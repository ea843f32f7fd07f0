/** The session rule buffer: a concatenation of type-length-value records,
    its parser, and the validator that runs when a session is created. */
module Actions {
  import opened Slices
  import opened Bytes
  import opened Prelude
  import opened Flat

  const ACTION_HEADER_SIZE: nat := 11
  const MAX_ACTIONS: nat := 16

  datatype ActionType =
    | SolLimit
    | SolRecurringLimit
    | SolMaxPerTx
    | TokenLimit
    | TokenRecurringLimit
    | TokenMaxPerTx
    | ProgramWhitelist
    | ProgramBlacklist

  function Code(t: ActionType): byte {
    match t
    case SolLimit => 1
    case SolRecurringLimit => 2
    case SolMaxPerTx => 3
    case TokenLimit => 4
    case TokenRecurringLimit => 5
    case TokenMaxPerTx => 6
    case ProgramWhitelist => 10
    case ProgramBlacklist => 11
  }

  function FromU8(v: byte): (r: Result<ActionType>)
    ensures r.Ok? ==> Code(r.value) == v
    ensures r.Err? ==> r.error == ActionBufferInvalid
  {
    match v
    case 1 => Ok(SolLimit)
    case 2 => Ok(SolRecurringLimit)
    case 3 => Ok(SolMaxPerTx)
    case 4 => Ok(TokenLimit)
    case 5 => Ok(TokenRecurringLimit)
    case 6 => Ok(TokenMaxPerTx)
    case 10 => Ok(ProgramWhitelist)
    case 11 => Ok(ProgramBlacklist)
    case _ => Err(ActionBufferInvalid)
  }

  /** Token rules start with a mint, program rules with a program id. */
  function KeyLen(t: ActionType): nat {
    if t.SolLimit? || t.SolRecurringLimit? || t.SolMaxPerTx? then 0 else 32
  }

  /** The number of 8-byte counters that follow the key. */
  function WordCount(t: ActionType): nat {
    match t
    case SolLimit | SolMaxPerTx | TokenLimit | TokenMaxPerTx => 1
    case SolRecurringLimit | TokenRecurringLimit => 4
    case ProgramWhitelist | ProgramBlacklist => 0
  }

  function ExpectedDataSize(t: ActionType): (n: nat)
    ensures n == KeyLen(t) + 8 * WordCount(t)
  {
    match t
    case SolLimit => 8
    case SolRecurringLimit => 32
    case SolMaxPerTx => 8
    case TokenLimit => 40
    case TokenRecurringLimit => 64
    case TokenMaxPerTx => 40
    case ProgramWhitelist => 32
    case ProgramBlacklist => 32
  }

  // ---------------------------------------------------------------------
  // Records: the grammar of the buffer

  datatype Record = Record(tag: ActionType, expiresAt: u64, data: seq<byte>)

  function EncodeRecord(r: Record): (s: seq<byte>)
    ensures |s| == ACTION_HEADER_SIZE + |r.data|
  {
    [Code(r.tag)] + LeEncode(|r.data|, 2) + LeEncode(r.expiresAt, 8) + r.data
  }

  function Encoded(rs: seq<Record>): seq<seq<byte>> {
    seq(|rs|, i requires 0 <= i < |rs| => EncodeRecord(rs[i]))
  }

  function EncodeRecords(rs: seq<Record>): seq<byte> {
    Flatten(Encoded(rs))
  }

  /** Every payload length fits the two length bytes. */
  predicate Storable(rs: seq<Record>) {
    forall r :: r in rs ==> |r.data| < 0x1_0000
  }

  function DecodeRecord(buf: seq<byte>): Option<Record> {
    if |buf| < ACTION_HEADER_SIZE then None
    else
      var len := ReadU16(buf, 1);
      if FromU8(buf[0]).Err? || ACTION_HEADER_SIZE + len > |buf| then None
      else Some(Record(FromU8(buf[0]).value, ReadU64(buf, 3), buf[11..11 + len]))
  }

  function DecodeRecords(buf: seq<byte>): Option<seq<Record>>
    decreases |buf|
  {
    if buf == [] then Some([])
    else
      match DecodeRecord(buf)
      case None => None
      case Some(r) =>
        match DecodeRecords(buf[11 + |r.data|..])
        case None => None
        case Some(rest) => Some([r] + rest)
  }

  lemma DecodeRecordSound(buf: seq<byte>)
    requires DecodeRecord(buf).Some?
    ensures var r := DecodeRecord(buf).value;
      |r.data| < 0x1_0000 && 11 + |r.data| <= |buf| && buf == EncodeRecord(r) + buf[11 + |r.data|..]
  {
    var r := DecodeRecord(buf).value;
    LeEncodeDecode(buf[1..3]);
    LeEncodeDecode(buf[3..11]);
    assert buf == [buf[0]] + buf[1..3] + buf[3..11] + buf[11..11 + |r.data|] + buf[11 + |r.data|..];
  }

  lemma DecodeRecordComplete(r: Record, rest: seq<byte>)
    requires |r.data| < 0x1_0000
    ensures DecodeRecord(EncodeRecord(r) + rest) == Some(r)
    ensures (EncodeRecord(r) + rest)[11 + |r.data|..] == rest
  {
    var buf := EncodeRecord(r) + rest;
    assert buf[1..3] == LeEncode(|r.data|, 2);
    assert buf[3..11] == LeEncode(r.expiresAt, 8);
    assert buf[11..11 + |r.data|] == r.data;
    PowConstants();
    LeDecodeEncode(|r.data|, 2);
    LeDecodeEncode(r.expiresAt, 8);
    assert FromU8(Code(r.tag)) == Ok(r.tag);
  }

  lemma DecodeOne(buf: seq<byte>)
    requires DecodeRecord(buf).Some?
    ensures var r := DecodeRecord(buf).value;
      && 11 + |r.data| <= |buf|
      && DecodeRecords(buf) ==
         match DecodeRecords(buf[11 + |r.data|..])
         case None => None
         case Some(rest) => Some([r] + rest)
  {
    DecodeRecordSound(buf);
    hide DecodeRecord;
    assert buf != [];
  }

  lemma EncodeOne(r: Record, rest: seq<Record>)
    ensures EncodeRecords([r] + rest) == EncodeRecord(r) + EncodeRecords(rest)
  {
    assert Encoded([r] + rest)[1..] == Encoded(rest);
    hide EncodeRecord;
    assert Flatten(Encoded([r] + rest)) == Encoded([r] + rest)[0] + Flatten(Encoded([r] + rest)[1..]);
  }

  /** What decodes is exactly the encoding of what was decoded. */
  lemma {:induction false} DecodeRecordsSound(buf: seq<byte>)
    requires DecodeRecords(buf).Some?
    ensures Storable(DecodeRecords(buf).value) && EncodeRecords(DecodeRecords(buf).value) == buf
    decreases |buf|
  {
    if buf == [] {
    } else {
      assert DecodeRecord(buf).Some?;
      hide DecodeRecord, DecodeRecords, EncodeRecords;
      var r := DecodeRecord(buf).value;
      DecodeRecordSound(buf);
      DecodeOne(buf);
      DecodeRecordsSound(buf[11 + |r.data|..]);
      EncodeOne(r, DecodeRecords(buf[11 + |r.data|..]).value);
    }
  }

  lemma {:induction false} DecodeRecordsComplete(rs: seq<Record>)
    requires Storable(rs)
    ensures DecodeRecords(EncodeRecords(rs)) == Some(rs)
  {
    if rs == [] {
    } else {
      hide DecodeRecord, DecodeRecords, EncodeRecords;
      assert rs == [rs[0]] + rs[1..];
      EncodeOne(rs[0], rs[1..]);
      DecodeRecordComplete(rs[0], EncodeRecords(rs[1..]));
      DecodeOne(EncodeRecords(rs));
      DecodeRecordsComplete(rs[1..]);
    }
  }

  // ---------------------------------------------------------------------
  // The parser

  datatype ActionView = ActionView(actionType: ActionType, expiresAt: u64, dataOffset: nat, dataLen: nat)

  function ViewAt(rs: seq<Record>, i: nat): ActionView
    requires i < |rs|
  {
    ActionView(rs[i].tag, rs[i].expiresAt, Offset(Encoded(rs), i) + ACTION_HEADER_SIZE, |rs[i].data|)
  }

  /** The views index the records in order. */
  predicate Views(views: seq<ActionView>, rs: seq<Record>) {
    |views| == |rs| && forall i :: 0 <= i < |rs| ==> views[i] == ViewAt(rs, i)
  }

  /** Records follow each other without gap or overlap, and each payload lies
      where its view says. */
  lemma ViewsTile(rs: seq<Record>, i: nat)
    requires i < |rs|
    ensures var view, parts := ViewAt(rs, i), Encoded(rs);
      && Offset(parts, 0) == 0 && Offset(parts, |rs|) == |EncodeRecords(rs)|
      && Offset(parts, i) + ACTION_HEADER_SIZE == view.dataOffset
      && Offset(parts, i + 1) == view.dataOffset + view.dataLen <= |EncodeRecords(rs)|
      && EncodeRecords(rs)[view.dataOffset..view.dataOffset + view.dataLen] == rs[i].data
  {
    var parts := Encoded(rs);
    FlattenSplit(parts, i);
    FlattenPart(parts, i);
    var off, one := Offset(parts, i), EncodeRecord(rs[i]);
    assert parts[..|rs|] == parts;
    assert one[11..] == rs[i].data;
    SubSlice(EncodeRecords(rs), off, off + |one|, 11, |one|);
  }

  /** The parser has turned the first `cursor` bytes into `done`: the whole
      buffer decodes to `done` followed by what the other bytes decode to. */
  ghost predicate Parsing(buf: seq<byte>, actions: seq<ActionView>, done: seq<Record>, cursor: nat) {
    && cursor == |EncodeRecords(done)| <= |buf|
    && Views(actions, done)
    && DecodeRecords(buf) ==
       match DecodeRecords(buf[cursor..])
       case None => None
       case Some(rest) => Some(done + rest)
  }

  lemma ParseStart(buf: seq<byte>)
    ensures Parsing(buf, [], [], 0)
  {
    assert buf[0..] == buf;
    assert forall rest: seq<Record> :: [] + rest == rest;
  }

  predicate Malformed(buf: seq<byte>, cursor: nat) {
    || cursor + 11 > |buf|
    || FromU8(buf[cursor]).Err?
    || cursor + 11 + ReadU16(buf, cursor + 1) > |buf|
  }

  lemma ParseFails(buf: seq<byte>, actions: seq<ActionView>, done: seq<Record>, cursor: nat)
    requires Parsing(buf, actions, done, cursor) && cursor < |buf| && Malformed(buf, cursor)
    ensures DecodeRecords(buf) == None
  {
    hide Views;
    var rest := buf[cursor..];
    if |rest| >= 11 {
      assert rest[1..3] == buf[cursor + 1..cursor + 3];
    }
    assert DecodeRecord(rest) == None;
  }

  function RecordAt(buf: seq<byte>, cursor: nat): Record
    requires !Malformed(buf, cursor)
  {
    Record(FromU8(buf[cursor]).value, ReadU64(buf, cursor + 3),
           buf[cursor + 11..cursor + 11 + ReadU16(buf, cursor + 1)])
  }

  lemma RecordAtRest(buf: seq<byte>, cursor: nat)
    requires !Malformed(buf, cursor)
    ensures DecodeRecord(buf[cursor..]) == Some(RecordAt(buf, cursor))
  {
    var rest, len := buf[cursor..], ReadU16(buf, cursor + 1);
    assert rest[1..3] == buf[cursor + 1..cursor + 3] && rest[3..11] == buf[cursor + 3..cursor + 11];
    assert rest[11..11 + len] == buf[cursor + 11..cursor + 11 + len];
  }

  lemma ParseStep(buf: seq<byte>, actions: seq<ActionView>, done: seq<Record>, cursor: nat)
    requires Parsing(buf, actions, done, cursor) && !Malformed(buf, cursor)
    ensures var r := RecordAt(buf, cursor);
      Parsing(buf, actions + [ActionView(r.tag, r.expiresAt, cursor + 11, |r.data|)],
              done + [r], cursor + 11 + |r.data|)
  {
    var r, rest := RecordAt(buf, cursor), buf[cursor..];
    RecordAtRest(buf, cursor);
    ExtendViews(actions, done, r);
    DecodeOne(rest);
    DropDrop(buf, cursor, 11 + |r.data|);
    hide DecodeRecords, DecodeRecord, Views, EncodeRecords, RecordAt, Malformed;
    var next := DecodeRecords(rest[11 + |r.data|..]);
    if next.Some? {
      Associate(done, [r], next.value);
    }
  }

  lemma ParseFacts(buf: seq<byte>, actions: seq<ActionView>, done: seq<Record>, cursor: nat)
    requires Parsing(buf, actions, done, cursor)
    ensures cursor <= |buf|
    ensures DecodeRecords(buf).Some? ==> |DecodeRecords(buf).value| >= |done|
    ensures cursor == |buf| ==> DecodeRecords(buf) == Some(done) && Views(actions, done)
  {
    hide Views;
    if cursor == |buf| {
      assert buf[cursor..] == [] && done + [] == done;
    }
  }

  /** Succeeds exactly on the encodings of at most `MAX_ACTIONS` records, and
      then returns one view for each. */
  method ParseActions(buf: seq<byte>) returns (r: Result<seq<ActionView>>)
    ensures r.Ok? <==> DecodeRecords(buf).Some? && |DecodeRecords(buf).value| <= MAX_ACTIONS
    ensures r.Ok? ==> Views(r.value, DecodeRecords(buf).value)
    ensures r.Err? ==> r.error == ActionBufferInvalid
  {
    hide Parsing, Views, DecodeRecords;
    var actions: seq<ActionView> := [];
    ghost var done: seq<Record> := [];
    var cursor := 0;
    ParseStart(buf);
    while cursor < |buf|
      invariant Parsing(buf, actions, done, cursor)
      invariant cursor <= |buf| && |actions| == |done| <= MAX_ACTIONS
      decreases |buf| - cursor
    {
      if Malformed(buf, cursor) {
        ParseFails(buf, actions, done, cursor);
      } else {
        ParseStep(buf, actions, done, cursor);
      }
      if cursor + ACTION_HEADER_SIZE > |buf| {
        return Err(ActionBufferInvalid);
      }
      var actionType := FromU8(buf[cursor]);
      if actionType.Err? {
        return Err(actionType.error);
      }
      var dataLen := ReadU16(buf, cursor + 1);
      var expiresAt := ReadU64(buf, cursor + 3);
      var dataOffset := cursor + ACTION_HEADER_SIZE;
      if dataOffset + dataLen > |buf| {
        return Err(ActionBufferInvalid);
      }
      done := done + [RecordAt(buf, cursor)];
      actions := actions + [ActionView(actionType.value, expiresAt, dataOffset, dataLen)];
      cursor := dataOffset + dataLen;
      ParseFacts(buf, actions, done, cursor);
      if |actions| > MAX_ACTIONS {
        return Err(ActionBufferInvalid);
      }
    }
    ParseFacts(buf, actions, done, cursor);
    return Ok(actions);
  }

  lemma ExtendViews(views: seq<ActionView>, rs: seq<Record>, r: Record)
    requires Views(views, rs)
    ensures Views(views + [ActionView(r.tag, r.expiresAt, |EncodeRecords(rs)| + 11, |r.data|)], rs + [r])
    ensures |EncodeRecords(rs + [r])| == |EncodeRecords(rs)| + 11 + |r.data|
  {
    var parts := Encoded(rs + [r]);
    assert parts[..|rs|] == Encoded(rs) && parts[|rs|] == EncodeRecord(r) && parts[..|rs| + 1] == parts;
    FlattenSplit(parts, |rs|);
    forall i | 0 <= i < |rs| ensures ViewAt(rs + [r], i) == ViewAt(rs, i) {
      assert parts[..i] == Encoded(rs)[..i];
    }
  }
}
