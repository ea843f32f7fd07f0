/** The check a rule buffer must pass when a session is created. */
module Validation {
  import opened Slices
  import opened Bytes
  import opened Prelude
  import opened Actions
  import opened Rules

  /** `view` locates rule `r` in `buf`. */
  predicate Shows(buf: seq<byte>, view: ActionView, r: Rule) {
    && view.actionType == Tag(r) && view.expiresAt == r.expiresAt
    && view.dataLen == |Payload(r)| && view.dataOffset + view.dataLen <= |buf|
    && buf[view.dataOffset..view.dataOffset + view.dataLen] == Payload(r)
  }

  predicate ShowsAll(buf: seq<byte>, views: seq<ActionView>, rs: seq<Rule>) {
    |views| == |rs| && forall i :: 0 <= i < |rs| ==> Shows(buf, views[i], rs[i])
  }

  /** Parsing an encoded rule list gives one view per rule, in order. */
  lemma ParsedRules(buf: seq<byte>, views: seq<ActionView>, rs: seq<Rule>)
    requires buf == EncodeRules(rs)
    ensures DecodeRecords(buf) == Some(RecordsOf(rs))
    ensures Views(views, RecordsOf(rs)) ==> ShowsAll(buf, views, rs)
  {
    var recs := RecordsOf(rs);
    forall i | 0 <= i < |rs| ensures |recs[i].data| == ExpectedDataSize(recs[i].tag) {
      PayloadLength(rs[i]);
    }
    DecodeRecordsComplete(recs);
    if Views(views, recs) {
      forall i | 0 <= i < |rs| ensures Shows(buf, views[i], rs[i]) {
        ViewsTile(recs, i);
        PayloadLength(rs[i]);
        assert views[i] == ViewAt(recs, i) && recs[i] == RecordOf(rs[i]);
      }
    }
  }

  lemma ReadWithin(buf: seq<byte>, offset: nat, part: seq<byte>, k: nat)
    requires offset + |part| <= |buf| && buf[offset..offset + |part|] == part
    requires k + 8 <= |part|
    ensures ReadU64(buf, offset + k) == ReadU64(part, k)
  {
    SubSlice(buf, offset, offset + |part|, k, k + 8);
  }

  lemma ShownPart(buf: seq<byte>, view: ActionView, r: Rule)
    requires Shows(buf, view, r)
    ensures view.dataOffset + |Payload(r)| <= |buf|
    ensures buf[view.dataOffset..view.dataOffset + |Payload(r)|] == Payload(r)
  {
    hide Payload;
  }

  lemma ShownWord(buf: seq<byte>, view: ActionView, r: Rule, j: nat)
    requires Shows(buf, view, r) && j < |Words(r)|
    ensures view.dataOffset + WordOffset(r, j) + 8 <= |buf|
    ensures ReadU64(buf, view.dataOffset + WordOffset(r, j)) == Words(r)[j]
  {
    hide *;
    WordAt(r, j);
    ShownPart(buf, view, r);
    ReadWithin(buf, view.dataOffset, Payload(r), WordOffset(r, j));
  }

  lemma ShownKey(buf: seq<byte>, view: ActionView, r: Rule)
    requires Shows(buf, view, r)
    ensures view.dataOffset + KeyLen(Tag(r)) <= |buf|
    ensures buf[view.dataOffset..view.dataOffset + KeyLen(Tag(r))] == Key(r)
  {
    PayloadLength(r);
    SubSlice(buf, view.dataOffset, view.dataOffset + view.dataLen, 0, KeyLen(Tag(r)));
  }

  /** Two caps of one kind on one asset. */
  predicate Clash(a: Rule, b: Rule) {
    || (a.Lifetime? && b.Lifetime? && a.asset == b.asset)
    || (a.Recurring? && b.Recurring? && a.asset == b.asset)
    || (a.PerTx? && b.PerTx? && a.asset == b.asset)
  }

  predicate Clashing(rs: seq<Rule>) {
    exists i, j :: 0 <= i < j < |rs| && Clash(rs[i], rs[j])
  }

  predicate Mixed(rs: seq<Rule>) {
    (exists i :: 0 <= i < |rs| && rs[i].Allow?) && (exists i :: 0 <= i < |rs| && rs[i].Deny?)
  }

  predicate Fresh(r: Rule) {
    r.Recurring? ==> r.spent == 0 && r.window > 0 && r.lastReset == 0
  }

  predicate Admissible(rs: seq<Rule>) {
    && |rs| <= MAX_ACTIONS
    && !Mixed(rs)
    && !Clashing(rs)
    && forall i :: 0 <= i < |rs| ==> Fresh(rs[i])
  }

  lemma ClashIsSameTagAndKey(a: Rule, b: Rule)
    ensures Clash(a, b) <==> Tag(a) == Tag(b) && Key(a) == Key(b) && !a.Allow? && !a.Deny?
  {
  }

  predicate HasType(views: seq<ActionView>, t: ActionType) {
    exists i :: 0 <= i < |views| && views[i].actionType == t
  }

  /** Whether some action has the given type. */
  method AnyOfType(views: seq<ActionView>, t: ActionType) returns (found: bool)
    ensures found <==> HasType(views, t)
  {
    found := false;
    for i := 0 to |views|
      invariant !found
      invariant forall k :: 0 <= k < i ==> views[k].actionType != t
    {
      if views[i].actionType == t { return true; }
    }
  }

  predicate SameSolCap(a: ActionView, b: ActionView) {
    a.actionType == b.actionType && KeyLen(a.actionType) == 0
  }

  predicate SolCapRepeats(views: seq<ActionView>) {
    exists i, j :: 0 <= i < j < |views| && SameSolCap(views[i], views[j])
  }

  /** Whether one of the three SOL caps is given twice. */
  method RepeatedSolCap(views: seq<ActionView>) returns (repeated: bool)
    ensures repeated <==> SolCapRepeats(views)
  {
    var hasSolLimit, hasSolRecurring, hasSolMaxPerTx := false, false, false;
    for n := 0 to |views|
      invariant hasSolLimit <==> exists i :: 0 <= i < n && views[i].actionType == SolLimit
      invariant hasSolRecurring <==> exists i :: 0 <= i < n && views[i].actionType == SolRecurringLimit
      invariant hasSolMaxPerTx <==> exists i :: 0 <= i < n && views[i].actionType == SolMaxPerTx
      invariant forall i, j :: 0 <= i < j < n ==> !SameSolCap(views[i], views[j])
    {
      match views[n].actionType
      case SolLimit =>
        if hasSolLimit { return true; }
        hasSolLimit := true;
      case SolRecurringLimit =>
        if hasSolRecurring { return true; }
        hasSolRecurring := true;
      case SolMaxPerTx =>
        if hasSolMaxPerTx { return true; }
        hasSolMaxPerTx := true;
      case _ =>
    }
    return false;
  }

  predicate SameMint(buf: seq<byte>, a: ActionView, b: ActionView) {
    && a.dataOffset + 32 <= |buf| && b.dataOffset + 32 <= |buf|
    && buf[a.dataOffset..a.dataOffset + 32] == buf[b.dataOffset..b.dataOffset + 32]
  }

  predicate KeysFit(buf: seq<byte>, views: seq<ActionView>) {
    forall i :: 0 <= i < |views| ==> views[i].dataOffset + KeyLen(views[i].actionType) <= |buf|
  }

  /** The actions of one type, in order, and where they stand. */
  method OfType(views: seq<ActionView>, t: ActionType) returns (picked: seq<ActionView>, ghost at: seq<nat>)
    ensures |at| == |picked|
    ensures forall k :: 0 <= k < |at| ==> at[k] < |views| && views[at[k]] == picked[k] && picked[k].actionType == t
    ensures forall k, l :: 0 <= k < l < |at| ==> at[k] < at[l]
    ensures forall i :: 0 <= i < |views| && views[i].actionType == t ==> i in at
  {
    picked, at := [], [];
    for n := 0 to |views|
      invariant |at| == |picked|
      invariant forall k :: 0 <= k < |at| ==> at[k] < n && views[at[k]] == picked[k] && picked[k].actionType == t
      invariant forall k, l :: 0 <= k < l < |at| ==> at[k] < at[l]
      invariant forall i :: 0 <= i < n && views[i].actionType == t ==> i in at
    {
      if views[n].actionType == t {
        picked := picked + [views[n]];
        at := at + [n];
      }
    }
  }

  predicate MintRepeats(buf: seq<byte>, views: seq<ActionView>, t: ActionType, i: nat, j: nat) {
    && i < j < |views| && views[i].actionType == t && views[j].actionType == t
    && SameMint(buf, views[i], views[j])
  }

  ghost predicate MintsDiffer(buf: seq<byte>, views: seq<ActionView>, t: ActionType) {
    forall i: nat, j: nat :: !MintRepeats(buf, views, t, i, j)
  }

  /** Whether two token actions of type `t` name the same mint. */
  method RepeatedMint(buf: seq<byte>, views: seq<ActionView>, t: ActionType) returns (repeated: bool)
    requires KeysFit(buf, views) && KeyLen(t) == 32
    ensures !repeated <==> MintsDiffer(buf, views, t)
  {
    var tokenActions;
    ghost var at;
    tokenActions, at := OfType(views, t);
    for i := 0 to |tokenActions|
      invariant forall k, l :: 0 <= k < i && k < l < |tokenActions| ==> !SameMint(buf, tokenActions[k], tokenActions[l])
    {
      for j := i + 1 to |tokenActions|
        invariant forall l :: i < l < j ==> !SameMint(buf, tokenActions[i], tokenActions[l])
      {
        if SameMint(buf, tokenActions[i], tokenActions[j]) {
          assert MintRepeats(buf, views, t, at[i], at[j]);
          return true;
        }
      }
    }
    forall i: nat, j: nat ensures !MintRepeats(buf, views, t, i, j) {
      if MintRepeats(buf, views, t, i, j) {
        var k, l := PickedRepeat(buf, views, t, tokenActions, at, i, j);
        assert false;
      }
    }
    return false;
  }

  lemma PickedRepeat(buf: seq<byte>, views: seq<ActionView>, t: ActionType, picked: seq<ActionView>, at: seq<nat>,
                     i: nat, j: nat) returns (k: nat, l: nat)
    requires |at| == |picked|
    requires forall n :: 0 <= n < |at| ==> at[n] < |views| && views[at[n]] == picked[n]
    requires forall m, n :: 0 <= m < n < |at| ==> at[m] < at[n]
    requires forall n :: 0 <= n < |views| && views[n].actionType == t ==> n in at
    requires MintRepeats(buf, views, t, i, j)
    ensures k < l < |picked| && SameMint(buf, picked[k], picked[l])
  {
    k :| 0 <= k < |at| && at[k] == i;
    l :| 0 <= l < |at| && at[l] == j;
  }

  predicate Stale(rs: seq<Rule>) {
    exists i :: 0 <= i < |rs| && !Fresh(rs[i])
  }

  /** The amounts of a recurring rule as its view shows them. */
  lemma ShownCounters(buf: seq<byte>, view: ActionView, r: Rule)
    requires Shows(buf, view, r)
    ensures view.actionType == SolRecurringLimit || view.actionType == TokenRecurringLimit <==> r.Recurring?
    ensures r.Recurring? ==> view.dataOffset + KeyLen(view.actionType) + 32 <= |buf|
    ensures r.Recurring? ==> ReadU64(buf, view.dataOffset + KeyLen(view.actionType) + 8) == r.spent
    ensures r.Recurring? ==> ReadU64(buf, view.dataOffset + KeyLen(view.actionType) + 16) == r.window
    ensures r.Recurring? ==> ReadU64(buf, view.dataOffset + KeyLen(view.actionType) + 24) == r.lastReset
  {
    if r.Recurring? {
      var n := KeyLen(view.actionType);
      assert Words(r) == [r.limit, r.spent, r.window, r.lastReset];
      assert WordOffset(r, 1) == n + 8 && WordOffset(r, 2) == n + 16 && WordOffset(r, 3) == n + 24;
      hide Words, WordOffset, Shows, KeyLen;
      ShownWord(buf, view, r, 1);
      ShownWord(buf, view, r, 2);
      ShownWord(buf, view, r, 3);
    }
  }

  /** Whether one rule is recurring and starts with counters already used, or without a window. */
  method StaleRule(buf: seq<byte>, view: ActionView, ghost r: Rule) returns (stale: bool)
    requires Shows(buf, view, r)
    ensures stale <==> !Fresh(r)
  {
    ShownCounters(buf, view, r);
    assert view.actionType == SolRecurringLimit ==> KeyLen(view.actionType) == 0;
    assert view.actionType == TokenRecurringLimit ==> KeyLen(view.actionType) == 32;
    hide Shows, KeyLen, ReadU64;
    if view.actionType == SolRecurringLimit {
      var spent := ReadU64(buf, view.dataOffset + 8);
      if spent != 0 { return true; }
      var window := ReadU64(buf, view.dataOffset + 16);
      if window == 0 { return true; }
      var lastReset := ReadU64(buf, view.dataOffset + 24);
      if lastReset != 0 { return true; }
    }
    if view.actionType == TokenRecurringLimit {
      var spent := ReadU64(buf, view.dataOffset + 40);
      if spent != 0 { return true; }
      var window := ReadU64(buf, view.dataOffset + 48);
      if window == 0 { return true; }
      var lastReset := ReadU64(buf, view.dataOffset + 56);
      if lastReset != 0 { return true; }
    }
    return false;
  }

  /** Whether a recurring rule starts with counters already used, or without a window. */
  method StaleRecurring(buf: seq<byte>, views: seq<ActionView>, ghost rs: seq<Rule>) returns (stale: bool)
    requires ShowsAll(buf, views, rs)
    ensures stale <==> Stale(rs)
  {
    hide Shows, Fresh;
    for n := 0 to |views|
      invariant forall i :: 0 <= i < n ==> Fresh(rs[i])
    {
      var one := StaleRule(buf, views[n], rs[n]);
      if one { return true; }
    }
    return false;
  }

  lemma ClashPair(buf: seq<byte>, views: seq<ActionView>, rs: seq<Rule>, i: nat, j: nat)
    requires ShowsAll(buf, views, rs) && i < j < |rs|
    ensures Clash(rs[i], rs[j]) <==> (
      || SameSolCap(views[i], views[j])
      || MintRepeats(buf, views, TokenLimit, i, j)
      || MintRepeats(buf, views, TokenRecurringLimit, i, j)
      || MintRepeats(buf, views, TokenMaxPerTx, i, j))
  {
    assert Shows(buf, views[i], rs[i]) && Shows(buf, views[j], rs[j]);
    ShownKey(buf, views[i], rs[i]);
    ShownKey(buf, views[j], rs[j]);
    ClashIsSameTagAndKey(rs[i], rs[j]);
  }

  /** Whether two caps of one kind name the same asset. */
  method RepeatedCap(buf: seq<byte>, views: seq<ActionView>, ghost rs: seq<Rule>) returns (repeated: bool)
    requires ShowsAll(buf, views, rs)
    ensures repeated <==> Clashing(rs)
  {
    ShownTypes(buf, views, rs);
    assert KeyLen(TokenLimit) == 32 && KeyLen(TokenRecurringLimit) == 32 && KeyLen(TokenMaxPerTx) == 32;
    hide *;
    var sol := RepeatedSolCap(views);
    if sol {
      SolClash(buf, views, rs);
      return true;
    }
    var repeatedLimit := RepeatedMint(buf, views, TokenLimit);
    var repeatedRecurring := RepeatedMint(buf, views, TokenRecurringLimit);
    var repeatedMax := RepeatedMint(buf, views, TokenMaxPerTx);
    if repeatedLimit || repeatedRecurring || repeatedMax {
      MintClash(buf, views, rs);
      return true;
    }
    NoClash(buf, views, rs);
    return false;
  }

  lemma SolClash(buf: seq<byte>, views: seq<ActionView>, rs: seq<Rule>)
    requires ShowsAll(buf, views, rs)
    requires SolCapRepeats(views)
    ensures Clashing(rs)
  {
    var i, j :| 0 <= i < j < |views| && SameSolCap(views[i], views[j]);
    ClashPair(buf, views, rs, i, j);
  }

  lemma MintClash(buf: seq<byte>, views: seq<ActionView>, rs: seq<Rule>)
    requires ShowsAll(buf, views, rs)
    requires !MintsDiffer(buf, views, TokenLimit) || !MintsDiffer(buf, views, TokenRecurringLimit)
      || !MintsDiffer(buf, views, TokenMaxPerTx)
    ensures Clashing(rs)
  {
    var t := if !MintsDiffer(buf, views, TokenLimit) then TokenLimit
      else if !MintsDiffer(buf, views, TokenRecurringLimit) then TokenRecurringLimit else TokenMaxPerTx;
    var i: nat, j: nat :| MintRepeats(buf, views, t, i, j);
    ClashPair(buf, views, rs, i, j);
  }

  lemma NoClash(buf: seq<byte>, views: seq<ActionView>, rs: seq<Rule>)
    requires ShowsAll(buf, views, rs)
    requires !SolCapRepeats(views)
    requires MintsDiffer(buf, views, TokenLimit) && MintsDiffer(buf, views, TokenRecurringLimit)
    requires MintsDiffer(buf, views, TokenMaxPerTx)
    ensures !Clashing(rs)
  {
    assert |views| == |rs|;
    hide ShowsAll, Clash, SameSolCap, MintRepeats;
    forall i: nat, j: nat | i < j < |rs| ensures !Clash(rs[i], rs[j]) {
      ClashPair(buf, views, rs, i, j);
    }
  }

  /** Whether every payload has the size its type calls for. */
  method AllSized(views: seq<ActionView>, ghost recs: seq<Record>) returns (sized: bool)
    requires Views(views, recs)
    ensures sized <==> Sized(recs)
  {
    for i := 0 to |views|
      invariant forall k :: 0 <= k < i ==> |recs[k].data| == ExpectedDataSize(recs[k].tag)
    {
      assert views[i] == ViewAt(recs, i);
      if views[i].dataLen != ExpectedDataSize(views[i].actionType) {
        return false;
      }
    }
    return true;
  }

  lemma RulesOfFacts(buf: seq<byte>)
    ensures buf == [] ==> RulesOf(buf) == Some([])
    ensures RulesOf(buf).Some? <==> DecodeRecords(buf).Some? && Sized(DecodeRecords(buf).value)
    ensures RulesOf(buf).Some? ==> |RulesOf(buf).value| == |DecodeRecords(buf).value|
  {
    if buf == [] {
      assert DecodeRecords(buf) == Some([]) && |RulesOf(buf).value| == 0;
    }
  }

  /** A list is admissible when it is short, mixes no program lists, repeats no
      cap and starts with unused counters. */
  lemma AdmissibleIs(rs: seq<Rule>)
    ensures Admissible(rs) <==> |rs| <= MAX_ACTIONS && !Mixed(rs) && !Clashing(rs) && !Stale(rs)
    ensures rs == [] ==> Admissible(rs) && !Mixed(rs)
  {
  }

  lemma ShownTypes(buf: seq<byte>, views: seq<ActionView>, rs: seq<Rule>)
    requires ShowsAll(buf, views, rs)
    ensures KeysFit(buf, views)
    ensures HasType(views, ProgramWhitelist) && HasType(views, ProgramBlacklist) <==> Mixed(rs)
  {
    hide KeyLen, Key;
    forall i | 0 <= i < |views|
      ensures views[i].actionType == Tag(rs[i]) && views[i].dataOffset + KeyLen(views[i].actionType) <= |buf|
      ensures rs[i].Allow? <==> views[i].actionType == ProgramWhitelist
      ensures rs[i].Deny? <==> views[i].actionType == ProgramBlacklist
    {
      assert Shows(buf, views[i], rs[i]);
      ShownKey(buf, views[i], rs[i]);
    }
    hide Shows, Tag;
  }

  /** The checks after parsing, on the rules the views show. */
  method ValidateRules(buf: seq<byte>, views: seq<ActionView>, ghost rs: seq<Rule>) returns (r: Result<()>)
    requires ShowsAll(buf, views, rs) && |rs| <= MAX_ACTIONS
    ensures r.Ok? <==> Admissible(rs)
    ensures r == Err(ActionWhitelistBlacklistConflict) <==> Mixed(rs)
    ensures r.Err? ==> r.error == ActionBufferInvalid || r.error == ActionWhitelistBlacklistConflict
  {
    ShownTypes(buf, views, rs);
    AdmissibleIs(rs);
    hide *;
    var hasWhitelist := AnyOfType(views, ProgramWhitelist);
    var hasBlacklist := AnyOfType(views, ProgramBlacklist);
    if hasWhitelist && hasBlacklist {
      return Err(ActionWhitelistBlacklistConflict);
    }
    var repeated := RepeatedCap(buf, views, rs);
    if repeated { return Err(ActionBufferInvalid); }
    var stale := StaleRecurring(buf, views, rs);
    if stale { return Err(ActionBufferInvalid); }
    return Ok(());
  }

  /** Accepts exactly the encodings of admissible rule lists. A well-formed list
      that holds both whitelist and blacklist rules has its own error. */
  method ValidateActionsBuffer(buf: seq<byte>) returns (r: Result<()>)
    ensures r.Ok? <==> RulesOf(buf).Some? && Admissible(RulesOf(buf).value)
    ensures r == Err(ActionWhitelistBlacklistConflict) <==>
      RulesOf(buf).Some? && |RulesOf(buf).value| <= MAX_ACTIONS && Mixed(RulesOf(buf).value)
    ensures r.Err? ==> r.error == ActionBufferInvalid || r.error == ActionWhitelistBlacklistConflict
  {
    RulesOfFacts(buf);
    AdmissibleIs([]);
    AdmissibleIs(if RulesOf(buf).Some? then RulesOf(buf).value else []);
    hide *;
    if |buf| == 0 {
      return Ok(());
    }
    var parsed := ParseActions(buf);
    if parsed.Err? { return Err(parsed.error); }
    var sized := AllSized(parsed.value, DecodeRecords(buf).value);
    if !sized { return Err(ActionBufferInvalid); }
    ghost var rs := RulesOf(buf).value;
    EncodeRulesOf(buf);
    ParsedRules(buf, parsed.value, rs);
    r := ValidateRules(buf, parsed.value, rs);
  }

  /** The buffer grammar: the accepted buffers are the images of the admissible
      rule lists, and a buffer determines its list. */
  lemma AcceptedBuffers(buf: seq<byte>, rs: seq<Rule>)
    ensures RulesOf(buf) == Some(rs) <==> EncodeRules(rs) == buf
    ensures (RulesOf(buf).Some? && Admissible(RulesOf(buf).value)) <==>
      exists list :: Admissible(list) && EncodeRules(list) == buf
  {
    RulesOfEncode(rs);
    if RulesOf(buf).Some? { EncodeRulesOf(buf); }
    forall list | EncodeRules(list) == buf ensures RulesOf(buf) == Some(list) {
      RulesOfEncode(list);
    }
  }
}
