/** Spending rules as values: their record encoding, the admission conditions
    checked when a session is created, and single-counter updates. */
module Rules {
  import opened Slices
  import opened Bytes
  import opened Prelude
  import opened Flat
  import opened Actions

  datatype Asset = Sol | Token(mint: Pubkey)

  datatype Rule =
    | Lifetime(expiresAt: u64, asset: Asset, remaining: u64)
    | Recurring(expiresAt: u64, asset: Asset, limit: u64, spent: u64, window: u64, lastReset: u64)
    | PerTx(expiresAt: u64, asset: Asset, max: u64)
    | Allow(expiresAt: u64, program: Pubkey)
    | Deny(expiresAt: u64, program: Pubkey)

  function Tag(r: Rule): ActionType {
    match r
    case Lifetime(_, a, _) => if a.Sol? then SolLimit else TokenLimit
    case Recurring(_, a, _, _, _, _) => if a.Sol? then SolRecurringLimit else TokenRecurringLimit
    case PerTx(_, a, _) => if a.Sol? then SolMaxPerTx else TokenMaxPerTx
    case Allow(_, _) => ProgramWhitelist
    case Deny(_, _) => ProgramBlacklist
  }

  function AssetKey(a: Asset): seq<byte> {
    match a
    case Sol => []
    case Token(mint) => mint
  }

  /** The mint or program id at the front of the payload; empty for SOL rules. */
  function Key(r: Rule): (k: seq<byte>)
    ensures |k| == KeyLen(Tag(r))
  {
    if r.Allow? || r.Deny? then r.program else AssetKey(r.asset)
  }

  /** The counters that follow the key, in storage order. */
  function Words(r: Rule): (w: seq<u64>)
    ensures |w| == WordCount(Tag(r))
  {
    match r
    case Lifetime(_, _, remaining) => [remaining]
    case Recurring(_, _, limit, spent, window, lastReset) => [limit, spent, window, lastReset]
    case PerTx(_, _, max) => [max]
    case Allow(_, _) => []
    case Deny(_, _) => []
  }

  function Cells(ws: seq<u64>): seq<seq<byte>> {
    seq(|ws|, i requires 0 <= i < |ws| => LeEncode(ws[i], 8))
  }

  function Payload(r: Rule): seq<byte> {
    Key(r) + Flatten(Cells(Words(r)))
  }

  function RecordOf(r: Rule): Record {
    Record(Tag(r), r.expiresAt, Payload(r))
  }

  function RecordsOf(rs: seq<Rule>): seq<Record> {
    seq(|rs|, i requires 0 <= i < |rs| => RecordOf(rs[i]))
  }

  function EncodeRules(rs: seq<Rule>): seq<byte> {
    EncodeRecords(RecordsOf(rs))
  }

  /** The bytes of counter `j`, relative to the start of the payload. */
  function WordOffset(r: Rule, j: nat): nat {
    KeyLen(Tag(r)) + 8 * j
  }

  lemma {:induction false} CellsOffset(ws: seq<u64>, j: nat)
    requires j <= |ws|
    ensures Offset(Cells(ws), j) == 8 * j
  {
    if j == 0 {
    } else {
      CellsOffset(ws, j - 1);
      FlattenSplit(Cells(ws), j - 1);
    }
  }

  lemma PayloadLength(r: Rule)
    ensures |Payload(r)| == ExpectedDataSize(Tag(r)) && Payload(r)[..KeyLen(Tag(r))] == Key(r)
  {
    CellsOffset(Words(r), |Words(r)|);
    assert Cells(Words(r))[..|Words(r)|] == Cells(Words(r));
  }

  /** Every counter is stored little-endian at its word offset. */
  lemma WordAt(r: Rule, j: nat)
    requires j < |Words(r)|
    ensures WordOffset(r, j) + 8 <= |Payload(r)|
    ensures Payload(r)[WordOffset(r, j)..WordOffset(r, j) + 8] == LeEncode(Words(r)[j], 8)
    ensures ReadU64(Payload(r), WordOffset(r, j)) == Words(r)[j]
  {
    var cells, k := Cells(Words(r)), |Key(r)|;
    CellsOffset(Words(r), j);
    FlattenPart(cells, j);
    SubSlice(Payload(r), k, |Payload(r)|, 8 * j, 8 * j + 8);
    U64RoundTrip(Payload(r), WordOffset(r, j), Words(r)[j]);
  }

  // ---------------------------------------------------------------------
  // Rules against records

  function RuleOf(rec: Record): Rule
    requires |rec.data| == ExpectedDataSize(rec.tag)
  {
    var e, d := rec.expiresAt, rec.data;
    match rec.tag
    case SolLimit => Lifetime(e, Sol, ReadU64(d, 0))
    case SolRecurringLimit => Recurring(e, Sol, ReadU64(d, 0), ReadU64(d, 8), ReadU64(d, 16), ReadU64(d, 24))
    case SolMaxPerTx => PerTx(e, Sol, ReadU64(d, 0))
    case TokenLimit => Lifetime(e, Token(d[..32]), ReadU64(d, 32))
    case TokenRecurringLimit =>
      Recurring(e, Token(d[..32]), ReadU64(d, 32), ReadU64(d, 40), ReadU64(d, 48), ReadU64(d, 56))
    case TokenMaxPerTx => PerTx(e, Token(d[..32]), ReadU64(d, 32))
    case ProgramWhitelist => Allow(e, d[..32])
    case ProgramBlacklist => Deny(e, d[..32])
  }

  predicate Sized(rs: seq<Record>) {
    forall i :: 0 <= i < |rs| ==> |rs[i].data| == ExpectedDataSize(rs[i].tag)
  }

  lemma CellsTake(ws: seq<u64>, n: nat)
    requires n < |ws|
    ensures Cells(ws)[..n] == Cells(ws[..n]) && Cells(ws)[n] == LeEncode(ws[n], 8)
  {
  }

  lemma {:induction false} CellsTile(d: seq<byte>, ws: seq<u64>)
    requires |d| == 8 * |ws|
    requires forall j :: 0 <= j < |ws| ==> d[8 * j..8 * j + 8] == LeEncode(ws[j], 8)
    ensures Flatten(Cells(ws)) == d
  {
    if ws == [] {
      assert d == [] && Cells(ws) == [];
    } else {
      var n := |ws| - 1;
      hide LeEncode, Flatten;
      forall j | 0 <= j < n ensures d[..8 * n][8 * j..8 * j + 8] == LeEncode(ws[..n][j], 8) {
        TakeSlice(d, 8 * n, 8 * j, 8 * j + 8);
      }
      CellsTile(d[..8 * n], ws[..n]);
      CellsTake(ws, n);
      LastCell(d, ws, n);
    }
  }

  lemma LastCell(d: seq<byte>, ws: seq<u64>, n: nat)
    requires n == |ws| - 1 && |d| == 8 * n + 8
    requires Flatten(Cells(ws)[..n]) == d[..8 * n] && Cells(ws)[n] == d[8 * n..8 * n + 8]
    ensures Flatten(Cells(ws)) == d
  {
    assert Cells(ws)[..n + 1] == Cells(ws);
    hide Flatten, Cells;
    FlattenSplit(Cells(ws), n);
    CutTake(d, 8 * n, 8 * n + 8);
    assert d[..8 * n + 8] == d;
  }

  lemma FieldsOfRecord(rec: Record)
    requires |rec.data| == ExpectedDataSize(rec.tag)
    ensures var r := RuleOf(rec);
      && r.expiresAt == rec.expiresAt
      && Tag(r) == rec.tag && Key(r) == rec.data[..KeyLen(rec.tag)]
      && forall j :: 0 <= j < |Words(r)| ==> Words(r)[j] == ReadU64(rec.data, WordOffset(r, j))
  {
  }

  lemma FieldsDetermine(a: Rule, b: Rule)
    requires Tag(a) == Tag(b) && Key(a) == Key(b) && Words(a) == Words(b) && a.expiresAt == b.expiresAt
    ensures a == b
  {
    if a.Recurring? {
      assert Words(a)[0] == Words(b)[0] && Words(a)[1] == Words(b)[1]
        && Words(a)[2] == Words(b)[2] && Words(a)[3] == Words(b)[3];
    } else if a.Lifetime? || a.PerTx? {
      assert Words(a)[0] == Words(b)[0];
    }
  }

  lemma RuleOfRecord(r: Rule)
    ensures |RecordOf(r).data| == ExpectedDataSize(Tag(r))
    ensures RuleOf(RecordOf(r)) == r
  {
    PayloadLength(r);
    FieldsOfRecord(RecordOf(r));
    var r' := RuleOf(RecordOf(r));
    hide RuleOf, Words, Payload, Key, ReadU64;
    forall j | 0 <= j < |Words(r)| ensures Words(r')[j] == Words(r)[j] {
      WordAt(r, j);
    }
    FieldsDetermine(r, r');
  }

  lemma RecordOfRule(rec: Record)
    requires |rec.data| == ExpectedDataSize(rec.tag)
    ensures RecordOf(RuleOf(rec)) == rec
  {
    FieldsOfRecord(rec);
    var r, k := RuleOf(rec), KeyLen(rec.tag);
    hide RuleOf, Words, Key, ReadU64, LeEncode, LeDecode, Cells, Flatten;
    forall j | 0 <= j < |Words(r)| ensures rec.data[k..][8 * j..8 * j + 8] == LeEncode(Words(r)[j], 8) {
      WordBytes(rec.data, k, 8 * j);
    }
    CellsTile(rec.data[k..], Words(r));
    SplitAt(rec.data, k);
  }

  lemma WordBytes(d: seq<byte>, k: nat, i: nat)
    requires k + i + 8 <= |d|
    ensures d[k..][i..i + 8] == LeEncode(ReadU64(d, k + i), 8)
  {
    DropSlice(d, k, i, i + 8);
    LeEncodeDecode(d[k + i..k + i + 8]);
  }

  /** The rules a buffer holds, when it is a sequence of records of the right sizes. */
  function RulesOf(buf: seq<byte>): Option<seq<Rule>> {
    match DecodeRecords(buf)
    case None => None
    case Some(recs) =>
      if Sized(recs) then Some(seq(|recs|, i requires 0 <= i < |recs| => RuleOf(recs[i]))) else None
  }

  /** `RulesOf` and `EncodeRules` are inverse to each other. */
  lemma RulesOfEncode(rs: seq<Rule>)
    ensures RulesOf(EncodeRules(rs)) == Some(rs)
  {
    var recs := RecordsOf(rs);
    forall i | 0 <= i < |rs| ensures |recs[i].data| == ExpectedDataSize(recs[i].tag) && RuleOf(recs[i]) == rs[i] {
      RuleOfRecord(rs[i]);
    }
    DecodeRecordsComplete(recs);
    assert seq(|recs|, i requires 0 <= i < |recs| => RuleOf(recs[i])) == rs;
  }

  lemma EncodeRulesOf(buf: seq<byte>)
    requires RulesOf(buf).Some?
    ensures EncodeRules(RulesOf(buf).value) == buf
  {
    var recs, rs := DecodeRecords(buf).value, RulesOf(buf).value;
    DecodeRecordsSound(buf);
    forall i | 0 <= i < |rs| ensures RecordOf(rs[i]) == recs[i] {
      RecordOfRule(recs[i]);
    }
    assert RecordsOf(rs) == recs;
  }
}
