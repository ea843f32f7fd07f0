/** Overwriting one counter of one rule inside the encoded rule list. */
module Patch {
  import opened Bytes
  import opened Flat
  import opened Actions
  import opened Rules

  /** The counters that may change: `remaining`, `spent` and `lastReset`. */
  predicate Mutable(r: Rule, j: nat) {
    (r.Lifetime? && j == 0) || (r.Recurring? && (j == 1 || j == 3))
  }

  function SetWord(r: Rule, j: nat, v: u64): Rule
    requires Mutable(r, j)
  {
    if r.Lifetime? then r.(remaining := v)
    else if j == 1 then r.(spent := v)
    else r.(lastReset := v)
  }

  /** Setting a counter is updating it in the list of counters, and nothing else. */
  lemma SetWordFacts(r: Rule, j: nat, v: u64)
    requires Mutable(r, j)
    ensures var r' := SetWord(r, j, v);
      && Tag(r') == Tag(r) && Key(r') == Key(r) && r'.expiresAt == r.expiresAt
      && j < |Words(r)| && Words(r') == Words(r)[j := v]
  {
  }

  lemma SpliceMiddle(a: seq<byte>, m: seq<byte>, b: seq<byte>, k: nat, t: seq<byte>)
    requires k + |t| <= |m|
    ensures Splice(a + m + b, |a| + k, t) == a + Splice(m, k, t) + b
  {
  }

  lemma PayloadPatch(r: Rule, j: nat, v: u64)
    requires Mutable(r, j)
    ensures WordOffset(r, j) + 8 <= |Payload(r)|
    ensures Payload(SetWord(r, j, v)) == Splice(Payload(r), WordOffset(r, j), LeEncode(v, 8))
  {
    var ws, t := Words(r), LeEncode(v, 8);
    SetWordFacts(r, j, v);
    var cells := Cells(ws);
    WordAt(r, j);
    CellsOffset(ws, j);
    FlattenUpdate(cells, j, t);
    assert Cells(ws[j := v]) == cells[j := t];
    SpliceMiddle(Key(r), Flatten(cells), [], 8 * j, t);
    assert Key(r) + Flatten(cells) + [] == Payload(r);
    assert Key(r) + Splice(Flatten(cells), 8 * j, t) + [] == Payload(SetWord(r, j, v));
  }

  lemma RecordPatch(r: Rule, j: nat, v: u64)
    requires Mutable(r, j)
    ensures 11 + WordOffset(r, j) + 8 <= |EncodeRecord(RecordOf(r))|
    ensures EncodeRecord(RecordOf(SetWord(r, j, v))) ==
      Splice(EncodeRecord(RecordOf(r)), 11 + WordOffset(r, j), LeEncode(v, 8))
  {
    PayloadPatch(r, j, v);
    SetWordFacts(r, j, v);
    var rec := RecordOf(r);
    var head := [Code(rec.tag)] + LeEncode(|rec.data|, 2) + LeEncode(rec.expiresAt, 8);
    hide Payload, LeEncode, WordOffset, Code;
    assert head + rec.data + [] == EncodeRecord(rec);
    SpliceMiddle(head, rec.data, [], WordOffset(r, j), LeEncode(v, 8));
    assert head + Splice(rec.data, WordOffset(r, j), LeEncode(v, 8)) + [] == EncodeRecord(RecordOf(SetWord(r, j, v)));
  }

  lemma {:induction false} OffsetByLengths(a: seq<seq<byte>>, b: seq<seq<byte>>, i: nat)
    requires |a| == |b| && i <= |a|
    requires forall k :: 0 <= k < |a| ==> |a[k]| == |b[k]|
    ensures Offset(a, i) == Offset(b, i)
  {
    if i == 0 {
    } else {
      OffsetByLengths(a, b, i - 1);
      FlattenSplit(a, i - 1);
      FlattenSplit(b, i - 1);
    }
  }

  /** Overwriting a mutable counter where the view says gives the encoding of the
      list with that counter changed, at the same offsets. */
  lemma RulePatch(rs: seq<Rule>, views: seq<ActionView>, n: nat, j: nat, v: u64)
    requires n < |rs| && Views(views, RecordsOf(rs)) && Mutable(rs[n], j)
    ensures views[n].dataOffset + WordOffset(rs[n], j) + 8 <= |EncodeRules(rs)|
    ensures EncodeRules(rs[n := SetWord(rs[n], j, v)]) ==
      Splice(EncodeRules(rs), views[n].dataOffset + WordOffset(rs[n], j), LeEncode(v, 8))
    ensures Views(views, RecordsOf(rs[n := SetWord(rs[n], j, v)]))
  {
    ViewOffset(rs, views, n);
    hide *;
    SetWordFacts(rs[n], j, v);
    RecordPatch(rs[n], j, v);
    ListPatch(rs, views, n, SetWord(rs[n], j, v), 11 + WordOffset(rs[n], j), LeEncode(v, 8));
  }

  /** Replacing one rule by another whose record differs by an overwrite. */
  lemma ListPatch(rs: seq<Rule>, views: seq<ActionView>, n: nat, r': Rule, k: nat, t: seq<byte>)
    requires n < |rs| && Views(views, RecordsOf(rs)) && n < |views|
    requires Tag(r') == Tag(rs[n]) && r'.expiresAt == rs[n].expiresAt
    requires k + |t| <= |EncodeRecord(RecordOf(rs[n]))|
    requires EncodeRecord(RecordOf(r')) == Splice(EncodeRecord(RecordOf(rs[n])), k, t)
    ensures views[n].dataOffset + k + |t| <= |EncodeRules(rs)| + 11
    ensures views[n].dataOffset >= 11
    ensures EncodeRules(rs[n := r']) == Splice(EncodeRules(rs), views[n].dataOffset - 11 + k, t)
    ensures Views(views, RecordsOf(rs[n := r']))
  {
    hide *;
    EncodedIs(rs);
    EncodedIs(rs[n := r']);
    ViewOffset(rs, views, n);
    SameViews(rs, views, n, r');
    EncodedUpdate(rs, n, r');
    PartPatch(Encoded(RecordsOf(rs)), n, k, t, EncodeRecord(RecordOf(r')));
  }

  lemma EncodedIs(rs: seq<Rule>)
    ensures EncodeRules(rs) == Flatten(Encoded(RecordsOf(rs)))
  {
  }

  lemma ViewOffset(rs: seq<Rule>, views: seq<ActionView>, n: nat)
    requires n < |rs| && Views(views, RecordsOf(rs))
    ensures |views| == |rs| && |Encoded(RecordsOf(rs))| == |rs|
    ensures views[n].dataOffset == Offset(Encoded(RecordsOf(rs)), n) + 11
  {
    assert views[n] == ViewAt(RecordsOf(rs), n);
    hide Views, Offset;
  }

  lemma EncodedUpdate(rs: seq<Rule>, n: nat, r': Rule)
    requires n < |rs|
    ensures |Encoded(RecordsOf(rs))| == |rs| && Encoded(RecordsOf(rs))[n] == EncodeRecord(RecordOf(rs[n]))
    ensures Encoded(RecordsOf(rs[n := r'])) == Encoded(RecordsOf(rs))[n := EncodeRecord(RecordOf(r'))]
  {
    hide EncodeRecord, RecordOf;
  }

  lemma PartPatch(parts: seq<seq<byte>>, n: nat, k: nat, t: seq<byte>, part: seq<byte>)
    requires n < |parts| && k + |t| <= |parts[n]| && part == Splice(parts[n], k, t)
    ensures Offset(parts, n) + k + |t| <= |Flatten(parts)|
    ensures Flatten(parts[n := part]) == Splice(Flatten(parts), Offset(parts, n) + k, t)
  {
    hide Flatten;
    FlattenSplit(parts, n);
    SpliceMiddle(Flatten(parts[..n]), parts[n], Flatten(parts[n + 1..]), k, t);
    FlattenSplit(parts[n := part], n);
    assert parts[n := part][..n] == parts[..n] && parts[n := part][n + 1..] == parts[n + 1..];
  }

  lemma SameViews(rs: seq<Rule>, views: seq<ActionView>, n: nat, r': Rule)
    requires n < |rs| && Views(views, RecordsOf(rs))
    requires Tag(r') == Tag(rs[n]) && r'.expiresAt == rs[n].expiresAt
    ensures Views(views, RecordsOf(rs[n := r']))
  {
    var recs, recs' := RecordsOf(rs), RecordsOf(rs[n := r']);
    PayloadLength(rs[n]);
    PayloadLength(r');
    hide Payload, EncodeRecord;
    forall i | 0 <= i < |rs| ensures views[i] == ViewAt(recs', i) {
      assert views[i] == ViewAt(recs, i);
      OffsetByLengths(Encoded(recs), Encoded(recs'), i);
    }
  }
}
