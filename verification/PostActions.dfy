/** The spending limits after the CPIs: two read-only passes over the stored
    rules, then the counters are rewritten in place. */
module PostActions {
  import opened Slices
  import opened Bytes
  import opened Prelude
  import opened Actions
  import opened Rules
  import opened Validation
  import opened Limits
  import opened Tokens
  import opened Evaluate
  import opened Snapshots
  import opened Patch

  /** What the engine measures: net SOL outflow, the gross outflow it is given,
      and per mint the drop from the snapshot to the balance now. */
  function FlowOf(snaps: seq<TokenSnapshot>, accounts: seq<AccountInfo>, vault: Pubkey, before: u64, after: u64,
                  gross: u64): Flow {
    Flow(SatSub(before, after), gross, (m: Pubkey) => SatSub(SnapshotAmount(snaps, m), Balance(accounts, vault, m)))
  }

  function LimitError(r: Rule): Error
    requires Cap(r)
  {
    match r
    case Lifetime(_, a, _) => if a.Sol? then ActionSolLimitExceeded else ActionTokenLimitExceeded
    case Recurring(_, a, _, _, _, _) =>
      if a.Sol? then ActionSolRecurringLimitExceeded else ActionTokenRecurringLimitExceeded
    case PerTx(_, a, _) => if a.Sol? then ActionSolMaxPerTxExceeded else ActionTokenMaxPerTxExceeded
  }

  /** What one rule says, seen by the SOL pass or by the token pass. */
  function RuleError(r: Rule, f: Flow, slot: u64, solPass: bool): Option<Error> {
    if Cap(r) && r.asset.Sol? == solPass && !Fits(r, f, slot) then Some(LimitError(r)) else None
  }

  function FirstError(rs: seq<Rule>, f: Flow, slot: u64, solPass: bool): Option<Error> {
    if rs == [] then None
    else
      var earlier := FirstError(rs[..|rs| - 1], f, slot, solPass);
      if earlier.Some? then earlier else RuleError(rs[|rs| - 1], f, slot, solPass)
  }

  /** All SOL rules are tested before any token rule. */
  function PostError(rs: seq<Rule>, f: Flow, slot: u64): Option<Error> {
    var sol := FirstError(rs, f, slot, true);
    if sol.Some? then sol else FirstError(rs, f, slot, false)
  }

  lemma {:induction false} NoFirstError(rs: seq<Rule>, f: Flow, slot: u64, solPass: bool)
    ensures FirstError(rs, f, slot, solPass).None? <==>
      forall i :: 0 <= i < |rs| ==> RuleError(rs[i], f, slot, solPass).None?
  {
    if rs == [] {
    } else {
      var a := rs[..|rs| - 1];
      NoFirstError(a, f, slot, solPass);
      assert forall i :: 0 <= i < |a| ==> a[i] == rs[i];
    }
  }

  /** No error is reported exactly when every rule accepts the flow. */
  lemma NoErrorIsAcceptance(rs: seq<Rule>, f: Flow, slot: u64)
    ensures PostError(rs, f, slot).None? <==> Accepts(rs, f, slot)
  {
    NoFirstError(rs, f, slot, true);
    NoFirstError(rs, f, slot, false);
    hide FirstError;
    if !Accepts(rs, f, slot) {
      var i :| 0 <= i < |rs| && !Fits(rs[i], f, slot);
      assert RuleError(rs[i], f, slot, rs[i].asset.Sol?).Some?;
    }
  }

  lemma FirstErrorStep(rs: seq<Rule>, n: nat, f: Flow, slot: u64, solPass: bool)
    requires n < |rs|
    ensures FirstError(rs[..0], f, slot, solPass) == None
    ensures FirstError(rs[..n], f, slot, solPass).None? ==>
      FirstError(rs[..n + 1], f, slot, solPass) == RuleError(rs[n], f, slot, solPass)
  {
    assert rs[..n + 1][..n] == rs[..n] && rs[..n + 1][n] == rs[n];
  }

  lemma {:induction false} FirstErrorStays(rs: seq<Rule>, n: nat, f: Flow, slot: u64, solPass: bool)
    requires n <= |rs| && FirstError(rs[..n], f, slot, solPass).Some?
    ensures FirstError(rs, f, slot, solPass) == FirstError(rs[..n], f, slot, solPass)
  {
    if n == |rs| {
      assert rs[..n] == rs;
    } else {
      assert rs[..|rs| - 1][..n] == rs[..n];
      FirstErrorStays(rs[..|rs| - 1], n, f, slot, solPass);
    }
  }

  // ---------------------------------------------------------------------
  // Reading and writing the stored rules

  /** The account stores `rs` and `views` locate its rules. */
  predicate Holding(session: seq<byte>, views: seq<ActionView>, rs: seq<Rule>) {
    && |session| > SESSION_HEADER_SIZE
    && session[SESSION_HEADER_SIZE..] == EncodeRules(rs)
    && Views(views, RecordsOf(rs))
  }

  lemma DropRead(s: seq<byte>, k: nat, offset: nat)
    requires k + offset + 8 <= |s|
    ensures ReadU64(s, k + offset) == ReadU64(s[k..], offset)
  {
    DropSlice(s, k, offset, offset + 8);
  }

  lemma ShownWordAt(buf: seq<byte>, views: seq<ActionView>, rs: seq<Rule>, n: nat, j: nat)
    requires ShowsAll(buf, views, rs) && n < |rs| && j < |Words(rs[n])|
    ensures n < |views| && views[n].dataOffset + WordOffset(rs[n], j) + 8 <= |buf|
    ensures ReadU64(buf, views[n].dataOffset + WordOffset(rs[n], j)) == Words(rs[n])[j]
  {
    assert Shows(buf, views[n], rs[n]);
    ShownWord(buf, views[n], rs[n], j);
  }

  lemma HeldWord(session: seq<byte>, views: seq<ActionView>, rs: seq<Rule>, n: nat, j: nat)
    requires Holding(session, views, rs) && n < |rs| && j < |Words(rs[n])|
    ensures n < |views|
    ensures var p := SESSION_HEADER_SIZE + views[n].dataOffset + WordOffset(rs[n], j);
      p + 8 <= |session| && ReadU64(session, p) == Words(rs[n])[j]
  {
    assert |session| > SESSION_HEADER_SIZE;
    assert ShowsAll(session[SESSION_HEADER_SIZE..], views, rs) by {
      ParsedRules(session[SESSION_HEADER_SIZE..], views, rs);
    }
    hide *;
    ShownWordAt(session[SESSION_HEADER_SIZE..], views, rs, n, j);
    DropRead(session, SESSION_HEADER_SIZE, views[n].dataOffset + WordOffset(rs[n], j));
  }

  lemma HeldView(session: seq<byte>, views: seq<ActionView>, rs: seq<Rule>, n: nat)
    requires Holding(session, views, rs) && n < |rs|
    ensures n < |views| && views[n].actionType == Tag(rs[n]) && views[n].expiresAt == rs[n].expiresAt
    ensures var p := SESSION_HEADER_SIZE + views[n].dataOffset;
      p + KeyLen(Tag(rs[n])) <= |session| && session[p..p + KeyLen(Tag(rs[n]))] == Key(rs[n])
  {
    var buf := session[SESSION_HEADER_SIZE..];
    ParsedRules(buf, views, rs);
    hide EncodeRules, RecordsOf, Views, Payload, Key, Tag, KeyLen;
    ShownView(buf, views, rs, n);
    DropSlice(session, SESSION_HEADER_SIZE, views[n].dataOffset, views[n].dataOffset + KeyLen(Tag(rs[n])));
  }

  lemma SpliceTail(s: seq<byte>, k: nat, offset: nat, t: seq<byte>)
    requires k + offset + |t| <= |s|
    ensures Splice(s, k + offset, t)[..k] == s[..k]
    ensures Splice(s, k + offset, t)[k..] == Splice(s[k..], offset, t)
  {
  }

  lemma PatchHeld(before: seq<byte>, after: seq<byte>, views: seq<ActionView>, rs: seq<Rule>, n: nat, j: nat,
                  value: u64)
    requires Holding(before, views, rs) && n < |rs| && Mutable(rs[n], j)
    requires n < |views| && SESSION_HEADER_SIZE + views[n].dataOffset + WordOffset(rs[n], j) + 8 <= |before|
    requires after == Splice(before, SESSION_HEADER_SIZE + views[n].dataOffset + WordOffset(rs[n], j),
                             LeEncode(value, 8))
    ensures Holding(after, views, rs[n := SetWord(rs[n], j, value)])
    ensures after[..SESSION_HEADER_SIZE] == before[..SESSION_HEADER_SIZE]
  {
    hide *;
    HoldingParts(before, views, rs);
    RulePatch(rs, views, n, j, value);
    Reheld(before, after, views, rs[n := SetWord(rs[n], j, value)],
           views[n].dataOffset + WordOffset(rs[n], j), LeEncode(value, 8));
  }

  lemma Reheld(before: seq<byte>, after: seq<byte>, views: seq<ActionView>, rs: seq<Rule>, o: nat, t: seq<byte>)
    requires SESSION_HEADER_SIZE + o + |t| <= |before| && |before| > SESSION_HEADER_SIZE
    requires after == Splice(before, SESSION_HEADER_SIZE + o, t)
    requires EncodeRules(rs) == Splice(before[SESSION_HEADER_SIZE..], o, t) && Views(views, RecordsOf(rs))
    ensures Holding(after, views, rs)
    ensures after[..SESSION_HEADER_SIZE] == before[..SESSION_HEADER_SIZE]
  {
    hide *;
    SpliceTail(before, SESSION_HEADER_SIZE, o, t);
    MakeHolding(after, views, rs);
  }

  lemma HoldingParts(session: seq<byte>, views: seq<ActionView>, rs: seq<Rule>)
    requires Holding(session, views, rs)
    ensures |session| > SESSION_HEADER_SIZE && session[SESSION_HEADER_SIZE..] == EncodeRules(rs)
    ensures Views(views, RecordsOf(rs))
  {
  }

  lemma MakeHolding(session: seq<byte>, views: seq<ActionView>, rs: seq<Rule>)
    requires |session| > SESSION_HEADER_SIZE && session[SESSION_HEADER_SIZE..] == EncodeRules(rs)
    requires Views(views, RecordsOf(rs))
    ensures Holding(session, views, rs)
  {
  }

  /** Writes one counter of rule `n`. */
  method WriteWord(session: array<byte>, offset: nat, value: u64, ghost views: seq<ActionView>, ghost rs: seq<Rule>,
                   ghost n: nat, ghost j: nat)
    requires Holding(session[..], views, rs) && n < |rs| && Mutable(rs[n], j) && n < |views|
    requires offset == SESSION_HEADER_SIZE + views[n].dataOffset + WordOffset(rs[n], j)
    modifies session
    ensures Holding(session[..], views, rs[n := SetWord(rs[n], j, value)])
    ensures session[..][..SESSION_HEADER_SIZE] == old(session[..])[..SESSION_HEADER_SIZE]
  {
    HeldWord(session[..], views, rs, n, j);
    assert |session[..]| == session.Length;
    hide Holding, WordOffset, SetWord;
    WriteU64(session, offset, value);
    PatchHeld(old(session[..]), session[..], views, rs, n, j, value);
  }

  // ---------------------------------------------------------------------
  // The checks

  /** Where the counters of a rule start in the account. */
  function CounterStart(view: ActionView, r: Rule): nat {
    SESSION_HEADER_SIZE + view.dataOffset + KeyLen(Tag(r))
  }

  /** The fixed offsets at which the engine reads and writes counters. */
  lemma CounterOffsets(view: ActionView, r: Rule, j: nat)
    ensures SESSION_HEADER_SIZE + view.dataOffset + WordOffset(r, j) == CounterStart(view, r) + 8 * j
    ensures Cap(r) ==> CounterStart(view, r) == SESSION_HEADER_SIZE + view.dataOffset + if r.asset.Token? then 32 else 0
  {
  }

  lemma CapWords(r: Rule)
    ensures r.Lifetime? ==> Cap(r) && |Words(r)| == 1 && Words(r)[0] == r.remaining
    ensures r.PerTx? ==> Cap(r) && |Words(r)| == 1 && Words(r)[0] == r.max
    ensures r.Recurring? ==> (
      && Cap(r) && |Words(r)| == 4
      && Words(r)[0] == r.limit && Words(r)[1] == r.spent && Words(r)[2] == r.window && Words(r)[3] == r.lastReset)
  {
  }

  lemma HeldWordAt(session: seq<byte>, views: seq<ActionView>, rs: seq<Rule>, n: nat, j: nat)
    requires Holding(session, views, rs) && n < |rs| && j < |Words(rs[n])|
    ensures n < |views| && CounterStart(views[n], rs[n]) + 8 * j + 8 <= |session|
    ensures ReadU64(session, CounterStart(views[n], rs[n]) + 8 * j) == Words(rs[n])[j]
  {
    hide *;
    HeldWord(session, views, rs, n, j);
    CounterOffsets(views[n], rs[n], j);
  }

  /** Everything the engine reads of rule `n`, at the offsets it uses. */
  lemma HeldCounters(session: seq<byte>, views: seq<ActionView>, rs: seq<Rule>, n: nat)
    requires Holding(session, views, rs) && n < |rs| && n < |views|
    ensures rs[n].Lifetime? || rs[n].PerTx? ==> CounterStart(views[n], rs[n]) + 8 <= |session|
    ensures rs[n].Lifetime? ==> ReadU64(session, CounterStart(views[n], rs[n])) == rs[n].remaining
    ensures rs[n].PerTx? ==> ReadU64(session, CounterStart(views[n], rs[n])) == rs[n].max
    ensures rs[n].Recurring? ==> CounterStart(views[n], rs[n]) + 32 <= |session|
    ensures rs[n].Recurring? ==> ReadU64(session, CounterStart(views[n], rs[n])) == rs[n].limit
    ensures rs[n].Recurring? ==> ReadU64(session, CounterStart(views[n], rs[n]) + 8) == rs[n].spent
    ensures rs[n].Recurring? ==> ReadU64(session, CounterStart(views[n], rs[n]) + 16) == rs[n].window
    ensures rs[n].Recurring? ==> ReadU64(session, CounterStart(views[n], rs[n]) + 24) == rs[n].lastReset
  {
    hide *;
    CapWords(rs[n]);
    if rs[n].Lifetime? || rs[n].PerTx? {
      HeldWordAt(session, views, rs, n, 0);
    } else if rs[n].Recurring? {
      HeldWordAt(session, views, rs, n, 0);
      HeldWordAt(session, views, rs, n, 1);
      HeldWordAt(session, views, rs, n, 2);
      HeldWordAt(session, views, rs, n, 3);
    }
  }

  lemma SameExpiry(view: ActionView, r: Rule, slot: u64)
    requires view.expiresAt == r.expiresAt
    ensures ViewExpired(view, slot) <==> Expired(r, slot)
  {
  }

  /** The verdict of a recurring rule on a charge, as the passes compute it. */
  predicate Overdrawn(r: Rule, c: u64, slot: u64)
    requires r.Recurring?
  {
    if SatSub(slot, r.lastReset) > r.window then c > r.limit || SatAdd(0, c) > r.limit
    else SatAdd(r.spent, c) > r.limit
  }

  /** What each type of rule says in the pass that looks at it. */
  lemma CapVerdict(r: Rule, f: Flow, slot: u64)
    requires Cap(r)
    ensures RuleError(r, f, slot, !r.asset.Sol?) == None
    ensures r.PerTx? ==> (
      RuleError(r, f, slot, r.asset.Sol?) ==
      if Charge(r, f) > 0 && (Expired(r, slot) || Charge(r, f) > r.max) then Some(LimitError(r)) else None)
    ensures r.Lifetime? ==> (
      RuleError(r, f, slot, r.asset.Sol?) ==
      if Charge(r, f) > 0 && (Expired(r, slot) || Charge(r, f) > r.remaining) then Some(LimitError(r)) else None)
    ensures r.Recurring? ==> (
      RuleError(r, f, slot, r.asset.Sol?) ==
      if Charge(r, f) > 0 && (Expired(r, slot) || Overdrawn(r, Charge(r, f), slot)) then Some(LimitError(r)) else None)
  {
  }

  lemma NoVerdict(r: Rule, f: Flow, slot: u64, solPass: bool)
    requires !Cap(r)
    ensures RuleError(r, f, slot, solPass) == None
  {
  }

  /** The rules behind the type tags, what they meter and which error they raise. */
  lemma TagMeaning(r: Rule, f: Flow)
    ensures Tag(r) == SolMaxPerTx <==> r.PerTx? && r.asset.Sol?
    ensures Tag(r) == SolLimit <==> r.Lifetime? && r.asset.Sol?
    ensures Tag(r) == SolRecurringLimit <==> r.Recurring? && r.asset.Sol?
    ensures Tag(r) == TokenMaxPerTx <==> r.PerTx? && r.asset.Token?
    ensures Tag(r) == TokenLimit <==> r.Lifetime? && r.asset.Token?
    ensures Tag(r) == TokenRecurringLimit <==> r.Recurring? && r.asset.Token?
    ensures Cap(r) <==> r.PerTx? || r.Lifetime? || r.Recurring?
    ensures Cap(r) ==> (
      Charge(r, f) == if r.asset.Token? then f.tokens(r.asset.mint) else if r.PerTx? then f.gross else f.sol)
  {
  }

  lemma ErrorMeaning(r: Rule)
    requires Cap(r)
    ensures r.PerTx? ==>
      LimitError(r) == if r.asset.Sol? then ActionSolMaxPerTxExceeded else ActionTokenMaxPerTxExceeded
    ensures r.Lifetime? ==> LimitError(r) == if r.asset.Sol? then ActionSolLimitExceeded else ActionTokenLimitExceeded
    ensures r.Recurring? ==>
      LimitError(r) == if r.asset.Sol? then ActionSolRecurringLimitExceeded else ActionTokenRecurringLimitExceeded
  {
  }

  lemma OverdrawnIs(r: Rule, c: u64, slot: u64)
    requires r.Recurring?
    ensures SatSub(slot, r.lastReset) > r.window ==> (Overdrawn(r, c, slot) <==> c > r.limit || SatAdd(0, c) > r.limit)
    ensures SatSub(slot, r.lastReset) <= r.window ==> (Overdrawn(r, c, slot) <==> SatAdd(r.spent, c) > r.limit)
  {
  }

  /** All that the checks need to know of rule `n`. */
  lemma HeldRule(session: seq<byte>, views: seq<ActionView>, rs: seq<Rule>, n: nat, f: Flow, slot: u64)
    requires Holding(session, views, rs) && n < |rs| && n < |views|
    ensures views[n].actionType == Tag(rs[n])
    ensures ViewExpired(views[n], slot) <==> Expired(rs[n], slot)
    ensures Cap(rs[n]) ==> (
      CounterStart(views[n], rs[n]) == SESSION_HEADER_SIZE + views[n].dataOffset + if rs[n].asset.Token? then 32 else 0)
  {
    hide *;
    HeldView(session, views, rs, n);
    SameExpiry(views[n], rs[n], slot);
    CounterOffsets(views[n], rs[n], 0);
  }

  method CheckSolRule(session: seq<byte>, views: seq<ActionView>, n: nat, solSpent: u64, grossOut: u64, slot: u64,
                      ghost rs: seq<Rule>, ghost f: Flow) returns (e: Option<Error>)
    requires Holding(session, views, rs) && n < |rs| && n < |views|
    requires f.sol == solSpent && f.gross == grossOut
    ensures e == RuleError(rs[n], f, slot, true)
  {
    hide *;
    var action := views[n];
    HeldRule(session, views, rs, n, f, slot);
    HeldCounters(session, views, rs, n);
    TagMeaning(rs[n], f);
    if Cap(rs[n]) { CapVerdict(rs[n], f, slot); ErrorMeaning(rs[n]); } else { NoVerdict(rs[n], f, slot, true); }
    var actionExpired := ViewExpired(action, slot);
    var p := SESSION_HEADER_SIZE + action.dataOffset;
    match action.actionType
    case SolMaxPerTx =>
      if grossOut > 0 {
        if actionExpired { return Some(ActionSolMaxPerTxExceeded); }
        var max := ReadU64(session, p);
        if grossOut > max { return Some(ActionSolMaxPerTxExceeded); }
      }
      return None;
    case SolLimit =>
      if solSpent > 0 {
        if actionExpired { return Some(ActionSolLimitExceeded); }
        var remaining := ReadU64(session, p);
        if solSpent > remaining { return Some(ActionSolLimitExceeded); }
      }
      return None;
    case SolRecurringLimit =>
      if solSpent > 0 {
        if actionExpired { return Some(ActionSolRecurringLimitExceeded); }
        var limit := ReadU64(session, p);
        var spent := ReadU64(session, p + 8);
        var window := ReadU64(session, p + 16);
        var lastReset := ReadU64(session, p + 24);
        OverdrawnIs(rs[n], solSpent, slot);
        var effectiveSpent := spent;
        if SatSub(slot, lastReset) > window {
          if solSpent > limit { return Some(ActionSolRecurringLimitExceeded); }
          effectiveSpent := 0;
        }
        if SatAdd(effectiveSpent, solSpent) > limit { return Some(ActionSolRecurringLimitExceeded); }
      }
      return None;
    case _ =>
      return None;
  }

  /** The measured outflow of the mint named by token rule `n`. */
  method TokenSpent(session: seq<byte>, views: seq<ActionView>, n: nat, accounts: seq<AccountInfo>, vaultKey: Pubkey,
                    snaps: seq<TokenSnapshot>, ghost rs: seq<Rule>) returns (spent: u64)
    requires Holding(session, views, rs) && n < |rs| && n < |views| && TokenCap(rs[n])
    ensures var m := rs[n].asset.mint; spent == SatSub(SnapshotAmount(snaps, m), Balance(accounts, vaultKey, m))
  {
    HeldView(session, views, rs, n);
    var p := SESSION_HEADER_SIZE + views[n].dataOffset;
    var mint := session[p..p + 32];
    assert mint == rs[n].asset.mint;
    var before := SnapshotAmount(snaps, mint);
    var found := FindTokenBalance(accounts, vaultKey, mint);
    var after: u64 := if found.Some? then found.value else 0;
    return SatSub(before, after);
  }

  lemma TokenTagMeaning(r: Rule)
    ensures TokenTag(Tag(r)) <==> TokenCap(r)
    ensures TokenCap(r) <==> Cap(r) && r.asset.Token?
  {
  }

  method CheckTokenRule(session: seq<byte>, views: seq<ActionView>, n: nat, accounts: seq<AccountInfo>,
                        vaultKey: Pubkey,
                        snaps: seq<TokenSnapshot>, slot: u64, ghost rs: seq<Rule>, ghost f: Flow)
    returns (e: Option<Error>)
    requires Holding(session, views, rs) && n < |rs| && n < |views|
    requires forall m :: f.tokens(m) == SatSub(SnapshotAmount(snaps, m), Balance(accounts, vaultKey, m))
    ensures e == RuleError(rs[n], f, slot, false)
  {
    var action := views[n];
    hide *;
    HeldRule(session, views, rs, n, f, slot);
    TagMeaning(rs[n], f);
    TokenTagMeaning(rs[n]);
    if Cap(rs[n]) { CapVerdict(rs[n], f, slot); ErrorMeaning(rs[n]); } else { NoVerdict(rs[n], f, slot, false); }
    if !TokenTag(action.actionType) { return None; }
    HeldCounters(session, views, rs, n);
    var tokenSpent := TokenSpent(session, views, n, accounts, vaultKey, snaps, rs);
    if tokenSpent == 0 { return None; }
    var actionExpired := ViewExpired(action, slot);
    var q := SESSION_HEADER_SIZE + action.dataOffset + 32;
    if action.actionType == TokenMaxPerTx {
      if actionExpired { return Some(ActionTokenMaxPerTxExceeded); }
      var max := ReadU64(session, q);
      if tokenSpent > max { return Some(ActionTokenMaxPerTxExceeded); }
    } else if action.actionType == TokenLimit {
      if actionExpired { return Some(ActionTokenLimitExceeded); }
      var remaining := ReadU64(session, q);
      if tokenSpent > remaining { return Some(ActionTokenLimitExceeded); }
    } else {
      if actionExpired { return Some(ActionTokenRecurringLimitExceeded); }
      var limit := ReadU64(session, q);
      var spent := ReadU64(session, q + 8);
      var window := ReadU64(session, q + 16);
      var lastReset := ReadU64(session, q + 24);
      OverdrawnIs(rs[n], tokenSpent, slot);
      var effectiveSpent := spent;
      if SatSub(slot, lastReset) > window {
        if tokenSpent > limit { return Some(ActionTokenRecurringLimitExceeded); }
        effectiveSpent := 0;
      }
      if SatAdd(effectiveSpent, tokenSpent) > limit { return Some(ActionTokenRecurringLimitExceeded); }
    }
    return None;
  }

  // ---------------------------------------------------------------------
  // The counter updates

  lemma SettleLifetimeIs(r: Rule, f: Flow, slot: u64)
    requires r.Lifetime? && Fits(r, f, slot)
    ensures Mutable(r, 0)
    ensures Settle(r, f, slot) ==
      if Net(f, r.asset) == 0 then r else SetWord(r, 0, SatSub(r.remaining, Net(f, r.asset)))
    ensures Net(f, r.asset) <= r.remaining
  {
  }

  /** The new counters of a charged recurring rule. */
  predicate Recounted(r: Rule, amount: u64, slot: u64, newSpent: u64, newLastReset: u64)
    requires r.Recurring? && r.window > 0
  {
    if SatSub(slot, r.lastReset) > r.window then newSpent == amount && newLastReset == Aligned(slot, r.window)
    else newSpent == SatAdd(r.spent, amount) && newLastReset == r.lastReset
  }

  lemma RecountedIs(r: Rule, amount: u64, slot: u64, newSpent: u64, newLastReset: u64)
    requires r.Recurring? && r.window > 0
    requires SatSub(slot, r.lastReset) > r.window ==> newSpent == amount && newLastReset == Aligned(slot, r.window)
    requires SatSub(slot, r.lastReset) <= r.window ==>
      newSpent == SatAdd(r.spent, amount) && newLastReset == r.lastReset
    ensures Recounted(r, amount, slot, newSpent, newLastReset)
  {
  }

  lemma AlignedIs(slot: u64, window: u64)
    requires window > 0
    ensures Aligned(slot, window) == slot / window * window && slot / window * window <= slot
  {
    AlignedBounds(slot, window);
  }

  lemma SettleRecurringIs(r: Rule, f: Flow, slot: u64, newSpent: u64, newLastReset: u64)
    requires r.Recurring? && r.window > 0 && Fits(r, f, slot)
    requires Net(f, r.asset) > 0 ==> Recounted(r, Net(f, r.asset), slot, newSpent, newLastReset)
    ensures Settle(r, f, slot) ==
      if Net(f, r.asset) == 0 then r else SetWord(SetWord(r, 1, newSpent), 3, newLastReset)
  {
  }

  lemma MutableCounters(r: Rule, newSpent: u64)
    requires r.Recurring?
    ensures Mutable(r, 1)
    ensures var r1 := SetWord(r, 1, newSpent);
      Mutable(r1, 3) && r1.Recurring? && r1.asset == r.asset && Cap(r) && Cap(r1)
  {
  }

  method WriteSpentAndReset(session: array<byte>, q: nat, newSpent: u64, newLastReset: u64,
                            ghost views: seq<ActionView>, ghost rs: seq<Rule>, ghost n: nat)
    requires Holding(session[..], views, rs) && n < |rs| && n < |views| && rs[n].Recurring?
    requires q == SESSION_HEADER_SIZE + views[n].dataOffset + if rs[n].asset.Token? then 32 else 0
    modifies session
    ensures Holding(session[..], views, rs[n := SetWord(SetWord(rs[n], 1, newSpent), 3, newLastReset)])
    ensures session[..][..SESSION_HEADER_SIZE] == old(session[..])[..SESSION_HEADER_SIZE]
  {
    hide *;
    MutableCounters(rs[n], newSpent);
    ghost var r1 := SetWord(rs[n], 1, newSpent);
    ghost var rs1 := rs[n := r1];
    CounterOffsets(views[n], rs[n], 1);
    CounterOffsets(views[n], r1, 3);
    assert rs1[n := SetWord(r1, 3, newLastReset)] == rs[n := SetWord(r1, 3, newLastReset)];
    WriteWord(session, q + 8, newSpent, views, rs, n, 1);
    WriteWord(session, q + 24, newLastReset, views, rs1, n, 3);
  }

  method SettleRecurring(session: array<byte>, q: nat, amount: u64, slot: u64,
                         ghost views: seq<ActionView>, ghost rs: seq<Rule>, ghost n: nat, ghost f: Flow)
    requires Holding(session[..], views, rs) && n < |rs| && n < |views|
    requires rs[n].Recurring? && rs[n].window > 0 && Fits(rs[n], f, slot) && Net(f, rs[n].asset) == amount
    requires q == SESSION_HEADER_SIZE + views[n].dataOffset + if rs[n].asset.Token? then 32 else 0
    modifies session
    ensures Holding(session[..], views, rs[n := Settle(rs[n], f, slot)])
    ensures session[..][..SESSION_HEADER_SIZE] == old(session[..])[..SESSION_HEADER_SIZE]
  {
    hide *;
    MutableCounters(rs[n], 0);
    CounterOffsets(views[n], rs[n], 0);
    HeldCounters(session[..], views, rs, n);
    ghost var r := rs[n];
    assert rs[n := r] == rs;
    assert |session[..]| == session.Length;
    if amount == 0 {
      SettleRecurringIs(r, f, slot, 0, 0);
      return;
    }
    var spent := ReadU64(session[..], q + 8);
    var window := ReadU64(session[..], q + 16);
    var lastReset := ReadU64(session[..], q + 24);
    var newSpent, newLastReset: u64 := SatAdd(spent, amount), lastReset;
    if SatSub(slot, lastReset) > window {
      AlignedIs(slot, window);
      newSpent, newLastReset := amount, slot / window * window;
    }
    RecountedIs(r, amount, slot, newSpent, newLastReset);
    SettleRecurringIs(r, f, slot, newSpent, newLastReset);
    WriteSpentAndReset(session, q, newSpent, newLastReset, views, rs, n);
  }

  method SettleLifetime(session: array<byte>, q: nat, amount: u64, ghost slot: u64,
                        ghost views: seq<ActionView>, ghost rs: seq<Rule>, ghost n: nat, ghost f: Flow)
    requires Holding(session[..], views, rs) && n < |rs| && n < |views|
    requires rs[n].Lifetime? && Fits(rs[n], f, slot) && Net(f, rs[n].asset) == amount
    requires q == SESSION_HEADER_SIZE + views[n].dataOffset + if rs[n].asset.Token? then 32 else 0
    modifies session
    ensures Holding(session[..], views, rs[n := Settle(rs[n], f, slot)])
    ensures session[..][..SESSION_HEADER_SIZE] == old(session[..])[..SESSION_HEADER_SIZE]
  {
    hide *;
    CapWords(rs[n]);
    CounterOffsets(views[n], rs[n], 0);
    HeldCounters(session[..], views, rs, n);
    SettleLifetimeIs(rs[n], f, slot);
    assert rs[n := rs[n]] == rs;
    assert |session[..]| == session.Length;
    if amount > 0 {
      var remaining := ReadU64(session[..], q);
      WriteWord(session, q, SatSub(remaining, amount), views, rs, n, 0);
    }
  }

  lemma SettleOthers(r: Rule, f: Flow, slot: u64)
    requires Fits(r, f, slot) && (r.Recurring? ==> r.window > 0)
    requires (!r.Lifetime? && !r.Recurring?) || Expired(r, slot)
    ensures Settle(r, f, slot) == r
  {
  }

  lemma NetIs(r: Rule, f: Flow)
    ensures Cap(r) ==> Net(f, r.asset) == if r.asset.Sol? then f.sol else f.tokens(r.asset.mint)
  {
  }

  /** Rewrites the counters of rule `n`, which accepts the flow. */
  method SettleAction(session: array<byte>, views: seq<ActionView>, n: nat, accounts: seq<AccountInfo>,
                      vaultKey: Pubkey,
                      snaps: seq<TokenSnapshot>, solSpent: u64, slot: u64, ghost rs: seq<Rule>, ghost f: Flow)
    requires Holding(session[..], views, rs) && n < |rs| && n < |views|
    requires Fits(rs[n], f, slot) && (rs[n].Recurring? ==> rs[n].window > 0)
    requires f.sol == solSpent
    requires forall m :: f.tokens(m) == SatSub(SnapshotAmount(snaps, m), Balance(accounts, vaultKey, m))
    modifies session
    ensures Holding(session[..], views, rs[n := Settle(rs[n], f, slot)])
    ensures session[..][..SESSION_HEADER_SIZE] == old(session[..])[..SESSION_HEADER_SIZE]
  {
    hide *;
    var action := views[n];
    HeldRule(session[..], views, rs, n, f, slot);
    TagMeaning(rs[n], f);
    TokenTagMeaning(rs[n]);
    NetIs(rs[n], f);
    assert rs[n := rs[n]] == rs;
    if ViewExpired(action, slot) {
      SettleOthers(rs[n], f, slot);
      return;
    }
    var p := SESSION_HEADER_SIZE + action.dataOffset;
    if action.actionType == SolLimit {
      SettleLifetime(session, p, solSpent, slot, views, rs, n, f);
    } else if action.actionType == SolRecurringLimit {
      SettleRecurring(session, p, solSpent, slot, views, rs, n, f);
    } else if action.actionType == TokenLimit {
      var tokenSpent := TokenSpent(session[..], views, n, accounts, vaultKey, snaps, rs);
      SettleLifetime(session, p + 32, tokenSpent, slot, views, rs, n, f);
    } else if action.actionType == TokenRecurringLimit {
      var tokenSpent := TokenSpent(session[..], views, n, accounts, vaultKey, snaps, rs);
      SettleRecurring(session, p + 32, tokenSpent, slot, views, rs, n, f);
    } else {
      SettleOthers(rs[n], f, slot);
    }
  }

  /** The rules with the first `n` already settled. */
  ghost function SettledUpTo(rs: seq<Rule>, f: Flow, slot: u64, n: nat): (rs': seq<Rule>)
    requires Accepts(rs, f, slot) && Windowed(rs) && n <= |rs|
    ensures |rs'| == |rs|
    ensures forall i :: 0 <= i < |rs| ==> rs'[i] == if i < n then Settle(rs[i], f, slot) else rs[i]
  {
    seq(|rs|, i requires 0 <= i < |rs| => if i < n then Settle(rs[i], f, slot) else rs[i])
  }

  method SolPass(session: seq<byte>, views: seq<ActionView>, solSpent: u64, grossOut: u64, slot: u64,
                 ghost rs: seq<Rule>, ghost f: Flow) returns (e: Option<Error>)
    requires Holding(session, views, rs) && |views| == |rs|
    requires f.sol == solSpent && f.gross == grossOut
    ensures e == FirstError(rs, f, slot, true)
  {
    hide Holding;
    for n := 0 to |views|
      invariant FirstError(rs[..n], f, slot, true) == None
    {
      FirstErrorStep(rs, n, f, slot, true);
      e := CheckSolRule(session, views, n, solSpent, grossOut, slot, rs, f);
      if e.Some? {
        FirstErrorStays(rs, n + 1, f, slot, true);
        return e;
      }
    }
    assert rs[..|views|] == rs;
    return None;
  }

  method TokenPass(session: seq<byte>, views: seq<ActionView>, accounts: seq<AccountInfo>, vaultKey: Pubkey,
                   snaps: seq<TokenSnapshot>, slot: u64, ghost rs: seq<Rule>, ghost f: Flow) returns (e: Option<Error>)
    requires Holding(session, views, rs) && |views| == |rs|
    requires forall m :: f.tokens(m) == SatSub(SnapshotAmount(snaps, m), Balance(accounts, vaultKey, m))
    ensures e == FirstError(rs, f, slot, false)
  {
    hide Holding;
    for n := 0 to |views|
      invariant FirstError(rs[..n], f, slot, false) == None
    {
      FirstErrorStep(rs, n, f, slot, false);
      e := CheckTokenRule(session, views, n, accounts, vaultKey, snaps, slot, rs, f);
      if e.Some? {
        FirstErrorStays(rs, n + 1, f, slot, false);
        return e;
      }
    }
    assert rs[..|views|] == rs;
    return None;
  }

  /** Parsing the stored rules gives views that locate them. */
  method ParseHeld(session: seq<byte>, ghost rs: seq<Rule>) returns (r: Result<seq<ActionView>>)
    requires Stores(session, rs) && |session| > SESSION_HEADER_SIZE
    ensures r.Ok? && Holding(session, r.value, rs) && |r.value| == |rs|
  {
    var buf := session[SESSION_HEADER_SIZE..];
    ParsedRules(buf, [], rs);
    assert |RecordsOf(rs)| == |rs|;
    hide EncodeRules, RecordsOf;
    r := ParseActions(buf);
  }

  lemma SettledEnds(rs: seq<Rule>, f: Flow, slot: u64)
    requires Accepts(rs, f, slot) && Windowed(rs)
    ensures SettledUpTo(rs, f, slot, 0) == rs
    ensures SettledUpTo(rs, f, slot, |rs|) == SettleAll(rs, f, slot)
  {
  }

  lemma SettledStep(rs: seq<Rule>, f: Flow, slot: u64, n: nat)
    requires Accepts(rs, f, slot) && Windowed(rs) && n < |rs|
    ensures Fits(rs[n], f, slot) && (rs[n].Recurring? ==> rs[n].window > 0)
    ensures SettledUpTo(rs, f, slot, n)[n] == rs[n]
    ensures SettledUpTo(rs, f, slot, n + 1) == SettledUpTo(rs, f, slot, n)[n := Settle(rs[n], f, slot)]
  {
  }

  /** The writing pass: every accepted rule is settled, nothing else changes. */
  method SettleActions(session: array<byte>, views: seq<ActionView>, accounts: seq<AccountInfo>, vaultKey: Pubkey,
                       snaps: seq<TokenSnapshot>, solSpent: u64, slot: u64, ghost rs: seq<Rule>, ghost f: Flow)
    requires Holding(session[..], views, rs) && |views| == |rs|
    requires Accepts(rs, f, slot) && Windowed(rs) && f.sol == solSpent
    requires forall m :: f.tokens(m) == SatSub(SnapshotAmount(snaps, m), Balance(accounts, vaultKey, m))
    modifies session
    ensures Holding(session[..], views, SettleAll(rs, f, slot))
    ensures session[..][..SESSION_HEADER_SIZE] == old(session[..])[..SESSION_HEADER_SIZE]
  {
    SettledEnds(rs, f, slot);
    assert |session[..]| == session.Length > SESSION_HEADER_SIZE;
    hide Holding, Accepts, Fits, Settle;
    for n := 0 to |views|
      invariant Holding(session[..], views, SettledUpTo(rs, f, slot, n))
      invariant session[..][..SESSION_HEADER_SIZE] == old(session[..])[..SESSION_HEADER_SIZE]
    {
      SettledStep(rs, f, slot, n);
      SettleAction(session, views, n, accounts, vaultKey, snaps, solSpent, slot, SettledUpTo(rs, f, slot, n), f);
    }
  }

  lemma HoldingStores(session: seq<byte>, views: seq<ActionView>, rs: seq<Rule>)
    requires Holding(session, views, rs) && Windowed(rs) && |rs| <= MAX_ACTIONS
    ensures Stores(session, rs)
  {
  }

  lemma NothingStored(session: seq<byte>, rs: seq<Rule>, f: Flow, slot: u64)
    requires Stores(session, rs) && |session| <= SESSION_HEADER_SIZE
    ensures Accepts(rs, f, slot) && SettleAll(rs, f, slot) == rs
  {
  }

  /** Refines the abstract step: accepts exactly the flows the stored rules
      accept, then stores the settled rules; otherwise reports the first SOL
      violation, or else the first token violation, and changes no byte. The
      session header is never written. */
  method EvaluatePostActions(session: array<byte>, accounts: seq<AccountInfo>, vaultKey: Pubkey,
                             vaultLamportsBefore: u64, vaultLamportsAfter: u64, vaultLamportsGrossOut: u64,
                             tokenSnapshotsBefore: seq<TokenSnapshot>, currentSlot: u64, ghost rs: seq<Rule>)
    returns (r: Result<()>)
    requires Stores(session[..], rs)
    modifies session
    ensures var f := FlowOf(tokenSnapshotsBefore, accounts, vaultKey, vaultLamportsBefore, vaultLamportsAfter,
                            vaultLamportsGrossOut);
      && (r.Ok? <==> Accepts(rs, f, currentSlot))
      && (r.Ok? ==> Stores(session[..], SettleAll(rs, f, currentSlot)))
      && (r.Err? ==> Some(r.error) == PostError(rs, f, currentSlot) && session[..] == old(session[..]))
    ensures session.Length > SESSION_HEADER_SIZE ==>
      session[..][..SESSION_HEADER_SIZE] == old(session[..])[..SESSION_HEADER_SIZE]
  {
    ghost var f := FlowOf(tokenSnapshotsBefore, accounts, vaultKey, vaultLamportsBefore, vaultLamportsAfter,
                          vaultLamportsGrossOut);
    NoErrorIsAcceptance(rs, f, currentSlot);
    assert Windowed(rs) && |rs| <= MAX_ACTIONS;
    hide Stores, Holding, Windowed, Accepts, FirstError, Balance, SnapshotAmount;
    if session.Length <= SESSION_HEADER_SIZE {
      NothingStored(session[..], rs, f, currentSlot);
      return Ok(());
    }
    var solSpent := SatSub(vaultLamportsBefore, vaultLamportsAfter);
    var parsed := ParseHeld(session[..], rs);
    var solError := SolPass(session[..], parsed.value, solSpent, vaultLamportsGrossOut, currentSlot, rs, f);
    if solError.Some? { return Err(solError.value); }
    var tokenError :=
      TokenPass(session[..], parsed.value, accounts, vaultKey, tokenSnapshotsBefore, currentSlot, rs, f);
    if tokenError.Some? { return Err(tokenError.value); }
    var reparsed := ParseHeld(session[..], rs);
    SettleActions(session, reparsed.value, accounts, vaultKey, tokenSnapshotsBefore, solSpent, currentSlot, rs, f);
    HoldingStores(session[..], reparsed.value, SettleAll(rs, f, currentSlot));
    return Ok(());
  }

  /** Settling changes only counters, so parsing the settled account again gives
      the same rules at the same offsets. */
  lemma OffsetsKept(rs: seq<Rule>, es: seq<Event>, views: seq<ActionView>)
    requires Windowed(rs) && Views(views, RecordsOf(rs))
    ensures Views(views, RecordsOf(After(rs, es))) && |EncodeRules(After(rs, es))| == |EncodeRules(rs)|
  {
    var recs, recs' := RecordsOf(rs), RecordsOf(After(rs, es));
    forall i | 0 <= i < |rs|
      ensures recs'[i].tag == recs[i].tag && recs'[i].expiresAt == recs[i].expiresAt
      ensures |recs'[i].data| == |recs[i].data|
    {
      RuleShapeKept(rs, es, i);
      PayloadLength(rs[i]);
      PayloadLength(After(rs, es)[i]);
    }
    hide After, RecordOf, EncodeRecord;
    OffsetByLengths(Encoded(recs), Encoded(recs'), |rs|);
    assert Encoded(recs)[..|rs|] == Encoded(recs) && Encoded(recs')[..|rs|] == Encoded(recs');
    forall i | 0 <= i < |rs| ensures views[i] == ViewAt(recs', i) {
      assert views[i] == ViewAt(recs, i);
      OffsetByLengths(Encoded(recs), Encoded(recs'), i);
    }
  }
}
