/** A session over its whole life: from the bytes written at creation through any
    sequence of executes, on the bytes of the session account. */
module SessionRuns {
  import opened Slices
  import opened Bytes
  import opened Prelude
  import opened Actions
  import opened Rules
  import opened Validation
  import opened Limits
  import opened Tokens
  import opened TokenTotals
  import opened Compact
  import opened Evaluate
  import opened PostActions
  import opened SessionExecute
  import opened Sessions
  import opened WindowBound

  /** One call of execute: the accounts and the input, what its CPIs do, and when. */
  datatype Call = Call(accounts: seq<AccountInfo>, data: seq<byte>, cpi: nat -> seq<AccountInfo>, stackHeight: nat,
                       slot: u64)

  /** The program and the vault of the wallet. */
  datatype Place = Place(programId: Pubkey, vault: Pubkey)

  function StoredRules(session: seq<byte>): seq<Rule> {
    if |session| > SESSION_HEADER_SIZE && RulesOf(session[SESSION_HEADER_SIZE..]).Some?
    then RulesOf(session[SESSION_HEADER_SIZE..]).value else []
  }

  predicate Valid(session: seq<byte>) {
    |session| >= SESSION_HEADER_SIZE && Stores(session, StoredRules(session))
  }

  lemma StoresOnly(session: seq<byte>, rs: seq<Rule>)
    requires Stores(session, rs)
    ensures StoredRules(session) == rs
  {
    RulesOfEncode(rs);
    hide RulesOf, EncodeRules, Windowed;
  }

  ghost predicate RunsList(p: Place, session: seq<byte>, call: Call, ixs: seq<CompactInstruction>) {
    && Runtime(call.cpi, call.accounts)
    && Admitted(p.programId, call.accounts, call.data, session, p.vault, call.cpi, call.stackHeight, call.slot,
                StoredRules(session), ixs)
  }

  ghost predicate Admits(p: Place, session: seq<byte>, call: Call) {
    exists ixs :: RunsList(p, session, call, ixs)
  }

  /** The instructions an admitted call runs. */
  ghost function ListOf(p: Place, session: seq<byte>, call: Call): (ixs: seq<CompactInstruction>)
    requires Admits(p, session, call)
    ensures RunsList(p, session, call, ixs)
  {
    var ixs :| RunsList(p, session, call, ixs);
    ixs
  }

  /** What an admitted call meant for the rules. */
  ghost function EventOf(p: Place, session: seq<byte>, call: Call): (e: Event)
    requires Admits(p, session, call)
    ensures e.slot == call.slot && Accepts(StoredRules(session), e.flow, e.slot)
  {
    Event(call.slot, ExecutedFlow(call.accounts, call.cpi, p.vault, |ListOf(p, session, call)|))
  }

  /** The bytes of the session account after one call. */
  ghost function AfterCall(p: Place, session: seq<byte>, call: Call): seq<byte>
    requires Valid(session)
  {
    if Admits(p, session, call) then
      var e := EventOf(p, session, call);
      session[..SESSION_HEADER_SIZE] + EncodeRules(SettleAll(StoredRules(session), e.flow, e.slot))
    else session
  }

  lemma OnlyList(p: Place, session: seq<byte>, call: Call, ixs: seq<CompactInstruction>)
    requires RunsList(p, session, call, ixs)
    ensures Admits(p, session, call)
    ensures EventOf(p, session, call) == Event(call.slot, ExecutedFlow(call.accounts, call.cpi, p.vault, |ixs|))
  {
    assert Encodes(call.data, ixs);
    hide Runtime, Encodes, ExecutedFlow;
    OnlyParsed(p.programId, call.accounts, call.data, session, p.vault, call.cpi, call.stackHeight, call.slot,
               StoredRules(session), ixs);
  }

  ghost function ViewsOf(rs: seq<Rule>): (views: seq<ActionView>)
    ensures Views(views, RecordsOf(rs))
  {
    seq(|rs|, i requires 0 <= i < |rs| => ViewAt(RecordsOf(rs), i))
  }

  lemma SettledLength(rs: seq<Rule>, e: Event)
    requires Windowed(rs) && Accepts(rs, e.flow, e.slot)
    ensures |EncodeRules(SettleAll(rs, e.flow, e.slot))| == |EncodeRules(rs)|
  {
    assert After(rs, []) == rs;
    assert [e][..0] == [];
    assert After(rs, [e]) == SettleAll(rs, e.flow, e.slot);
    hide After, SettleAll, EncodeRules;
    OffsetsKept(rs, [e], ViewsOf(rs));
  }

  lemma NoRulesStored(session: seq<byte>)
    requires Valid(session) && |session| == SESSION_HEADER_SIZE
    ensures StoredRules(session) == [] && EncodeRules(StoredRules(session)) == []
  {
    RulesOfFacts([]);
    EncodeRulesOf([]);
  }

  lemma ValidFacts(session: seq<byte>)
    requires Valid(session)
    ensures |session| >= SESSION_HEADER_SIZE && Windowed(StoredRules(session)) && |StoredRules(session)| <= MAX_ACTIONS
    ensures session == session[..SESSION_HEADER_SIZE] + EncodeRules(StoredRules(session))
  {
    if |session| > SESSION_HEADER_SIZE {
      hide RulesOf, EncodeRules, Windowed;
      SplitAt(session, SESSION_HEADER_SIZE);
    } else {
      NoRulesStored(session);
    }
  }

  /** A header with encoded rules behind it stores these rules. */
  lemma StoresEncoded(header: seq<byte>, rs: seq<Rule>)
    requires |header| == SESSION_HEADER_SIZE && Windowed(rs) && |rs| <= MAX_ACTIONS
      && (EncodeRules(rs) == [] ==> rs == [])
    ensures Valid(header + EncodeRules(rs)) && StoredRules(header + EncodeRules(rs)) == rs
  {
    var s := header + EncodeRules(rs);
    Join(header, EncodeRules(rs));
    assert Stores(s, rs);
    hide EncodeRules, RulesOf, Windowed, Stores;
    StoresOnly(s, rs);
  }

  lemma NotEmpty(rs: seq<Rule>)
    ensures EncodeRules(rs) == [] ==> rs == []
  {
    RulesOfEncode(rs);
    RulesOfFacts([]);
  }

  /** One call: an admitted one settles the stored rules with its event, any
      other changes nothing; header and length stay. */
  lemma CallKeeps(p: Place, session: seq<byte>, call: Call)
    requires Valid(session)
    ensures Valid(AfterCall(p, session, call)) && |AfterCall(p, session, call)| == |session|
    ensures AfterCall(p, session, call)[..SESSION_HEADER_SIZE] == session[..SESSION_HEADER_SIZE]
    ensures !Admits(p, session, call) ==> AfterCall(p, session, call) == session
    ensures Admits(p, session, call) ==>
      StoredRules(AfterCall(p, session, call)) == Step(StoredRules(session), EventOf(p, session, call))
  {
    ValidFacts(session);
    if Admits(p, session, call) {
      var rs, e := StoredRules(session), EventOf(p, session, call);
      var settled := SettleAll(rs, e.flow, e.slot);
      assert AfterCall(p, session, call) == session[..SESSION_HEADER_SIZE] + EncodeRules(settled);
      assert Step(rs, e) == settled;
      hide AfterCall, Admits, EventOf, StoredRules, Valid, EncodeRules, Accepts, SettleAll, Windowed, Step;
      SettledLength(rs, e);
      NotEmpty(settled);
      StoresEncoded(session[..SESSION_HEADER_SIZE], settled);
    }
  }

  /** The handler on the bytes: it succeeds exactly when the call is admitted, and
      leaves the account as the step function says. */
  method Execute(p: Place, session: array<byte>, call: Call, ghost rs: seq<Rule>)
    returns (r: Result<()>, invoked: seq<Resolved>)
    requires Valid(session[..]) && rs == StoredRules(session[..]) && session[0] != AUTHORITY
    requires Runtime(call.cpi, call.accounts)
    modifies session
    ensures r.Ok? <==> Admits(p, old(session[..]), call)
    ensures session[..] == AfterCall(p, old(session[..]), call)
  {
    ghost var start := session[..];
    ghost var ixs;
    ValidFacts(start);
    r, invoked, ixs := ExecuteSession(p.programId, call.accounts, call.data, session, p.vault, call.cpi,
                                      call.stackHeight, call.slot, rs);
    if r.Ok? {
      assert RunsList(p, start, call, ixs);
      OnlyList(p, start, call, ixs);
      AfterStores(p, start, call, session[..]);
    } else {
      assert forall list :: !RunsList(p, start, call, list);
    }
  }

  lemma AfterStores(p: Place, before: seq<byte>, call: Call, after: seq<byte>)
    requires Valid(before) && Admits(p, before, call) && |after| == |before|
    requires var e := EventOf(p, before, call);
      Windowed(StoredRules(before)) && Stores(after, SettleAll(StoredRules(before), e.flow, e.slot))
    requires after[..SESSION_HEADER_SIZE] == before[..SESSION_HEADER_SIZE]
    ensures after == AfterCall(p, before, call)
  {
    var e := EventOf(p, before, call);
    var settled := SettleAll(StoredRules(before), e.flow, e.slot);
    StoresOnly(after, settled);
    assert Valid(after);
    assert AfterCall(p, before, call) == before[..SESSION_HEADER_SIZE] + EncodeRules(settled);
    hide *;
    ValidFacts(after);
  }

  // ---------------------------------------------------------------------
  // Runs of calls

  /** The session account after a sequence of calls, refused ones included. */
  ghost function AfterCalls(p: Place, session: seq<byte>, calls: seq<Call>): (s: seq<byte>)
    requires Valid(session)
    ensures Valid(s) && |s| == |session| && s[..SESSION_HEADER_SIZE] == session[..SESSION_HEADER_SIZE]
  {
    if calls == [] then session
    else
      var before := AfterCalls(p, session, calls[..|calls| - 1]);
      CallKeeps(p, before, calls[|calls| - 1]);
      AfterCall(p, before, calls[|calls| - 1])
  }

  /** One event for each admitted call. */
  ghost function Events(p: Place, session: seq<byte>, calls: seq<Call>): seq<Event>
    requires Valid(session)
  {
    if calls == [] then []
    else
      var n := |calls| - 1;
      var before := AfterCalls(p, session, calls[..n]);
      Events(p, session, calls[..n]) + if Admits(p, before, calls[n]) then [EventOf(p, before, calls[n])] else []
  }

  /** What a call that ran `n` CPIs took of an asset, as the engine measures it on
      the accounts: for tokens the total of the listed entries, capped at 2^64-1. */
  ghost function Taken(p: Place, call: Call, n: nat, a: Asset): u64
    requires Runtime(call.cpi, call.accounts) && |call.accounts| >= 4
  {
    VaultBalanceStep(call.accounts, call.cpi, n);
    var last := Final(call.accounts, call.cpi, n);
    match a
    case Sol => SatSub(call.accounts[3].lamports, last[3].lamports)
    case Token(mint) => SatSub(Balance(call.accounts, p.vault, mint), Balance(last, p.vault, mint))
  }

  /** What an admitted call took of an asset. */
  ghost function Loss(p: Place, session: seq<byte>, call: Call, a: Asset): u64
    requires Admits(p, session, call)
  {
    Taken(p, call, |ListOf(p, session, call)|, a)
  }

  lemma TakenIsNet(p: Place, call: Call, n: nat, a: Asset)
    requires Runtime(call.cpi, call.accounts) && |call.accounts| >= 4
    ensures Taken(p, call, n, a) == Net(ExecutedFlow(call.accounts, call.cpi, p.vault, n), a)
    ensures var f := ExecutedFlow(call.accounts, call.cpi, p.vault, n); f.sol <= f.gross
  {
    VaultBalanceStep(call.accounts, call.cpi, n);
    DropsDominate(call.accounts[3].lamports, VaultBalances(call.accounts, call.cpi, n), 0, n);
    hide Drops, VaultBalances, Runtime, Balance, Final;
  }

  lemma LossIsNet(p: Place, session: seq<byte>, call: Call, a: Asset)
    requires Admits(p, session, call)
    ensures Loss(p, session, call, a) == Net(EventOf(p, session, call).flow, a)
    ensures EventOf(p, session, call).flow.sol <= EventOf(p, session, call).flow.gross
  {
    var ixs := ListOf(p, session, call);
    assert Loss(p, session, call, a) == Taken(p, call, |ixs|, a);
    assert Runtime(call.cpi, call.accounts) && |call.accounts| >= 4;
    hide *;
    OnlyList(p, session, call, ixs);
    TakenIsNet(p, call, |ixs|, a);
  }

  /** What the admitted calls in the slots `lo < slot <= hi` took of an asset. */
  ghost function Losses(p: Place, session: seq<byte>, calls: seq<Call>, a: Asset, lo: int, hi: int): nat
    requires Valid(session)
  {
    if calls == [] then 0
    else
      var n := |calls| - 1;
      var before := AfterCalls(p, session, calls[..n]);
      Losses(p, session, calls[..n], a, lo, hi)
      + if Admits(p, before, calls[n]) && lo < calls[n].slot <= hi then Loss(p, before, calls[n], a) else 0
  }

  lemma AppendEvent(rs: seq<Rule>, es: seq<Event>, e: Event, a: Asset, lo: int, hi: int)
    requires Windowed(rs) && Accepts(After(rs, es), e.flow, e.slot)
    ensures After(rs, es + [e]) == Step(After(rs, es), e)
    ensures Outflow(rs, es + [e], a, lo, hi) == Outflow(rs, es, a, lo, hi)
      + if lo < e.slot <= hi then Net(e.flow, a) else 0
    ensures GrossCovers(es) && e.flow.sol <= e.flow.gross ==> GrossCovers(es + [e])
  {
    assert (es + [e])[..|es|] == es;
    hide Accepts, Step, Net, Windowed;
  }

  /** The last call of a run. */
  lemma LastCall(p: Place, session: seq<byte>, calls: seq<Call>, a: Asset, lo: int, hi: int)
    requires Valid(session) && calls != []
    ensures var n := |calls| - 1;
      var before := AfterCalls(p, session, calls[..n]);
      && AfterCalls(p, session, calls) == AfterCall(p, before, calls[n])
      && (Admits(p, before, calls[n]) ==>
          Events(p, session, calls) == Events(p, session, calls[..n]) + [EventOf(p, before, calls[n])])
      && (!Admits(p, before, calls[n]) ==> Events(p, session, calls) == Events(p, session, calls[..n]))
      && Losses(p, session, calls, a, lo, hi) == Losses(p, session, calls[..n], a, lo, hi)
         + if Admits(p, before, calls[n]) && lo < calls[n].slot <= hi then Loss(p, before, calls[n], a) else 0
  {
    hide Valid, Admits, EventOf, Loss, AfterCall;
  }

  lemma NoCalls(p: Place, session: seq<byte>, a: Asset, lo: int, hi: int)
    requires Valid(session) && Windowed(StoredRules(session))
    ensures AfterCalls(p, session, []) == session && Events(p, session, []) == []
      && Losses(p, session, [], a, lo, hi) == 0
    ensures After(StoredRules(session), []) == StoredRules(session) && Outflow(StoredRules(session), [], a, lo, hi) == 0
    ensures GrossCovers([])
  {
  }

  /** The stored rules are the abstract rules after the events of the run, and
      what was taken is their outflow. */
  lemma {:induction false} RunStores(p: Place, session: seq<byte>, calls: seq<Call>, a: Asset, lo: int, hi: int)
    requires Valid(session)
    ensures Windowed(StoredRules(session))
    ensures StoredRules(AfterCalls(p, session, calls)) == After(StoredRules(session), Events(p, session, calls))
    ensures Losses(p, session, calls, a, lo, hi) == Outflow(StoredRules(session), Events(p, session, calls), a, lo, hi)
    ensures GrossCovers(Events(p, session, calls))
  {
    hide *;
    ValidFacts(session);
    if calls == [] {
      NoCalls(p, session, a, lo, hi);
    } else {
      var n := |calls| - 1;
      var before := AfterCalls(p, session, calls[..n]);
      RunStores(p, session, calls[..n], a, lo, hi);
      LastCall(p, session, calls, a, lo, hi);
      CallKeeps(p, before, calls[n]);
      if Admits(p, before, calls[n]) {
        LossIsNet(p, before, calls[n], a);
        AppendEvent(StoredRules(session), Events(p, session, calls[..n]), EventOf(p, before, calls[n]), a, lo, hi);
      }
    }
  }

  predicate InOrder(calls: seq<Call>) {
    forall i, j :: 0 <= i < j < |calls| ==> calls[i].slot <= calls[j].slot
  }

  predicate UpTo(es: seq<Event>, slot: u64) {
    forall i :: 0 <= i < |es| ==> es[i].slot <= slot
  }

  lemma AppendInOrder(es: seq<Event>, e: Event, slot: u64)
    requires Chronological(es) && UpTo(es, slot) && slot <= e.slot
    ensures Chronological(es + [e]) && UpTo(es + [e], e.slot)
  {
  }

  lemma LaterUpTo(es: seq<Event>, slot: u64, later: u64)
    requires UpTo(es, slot) && slot <= later
    ensures UpTo(es, later)
  {
  }

  lemma {:induction false} EventsInOrder(p: Place, session: seq<byte>, calls: seq<Call>)
    requires Valid(session) && InOrder(calls)
    ensures Chronological(Events(p, session, calls))
    ensures UpTo(Events(p, session, calls), if calls == [] then 0 else calls[|calls| - 1].slot)
  {
    if calls == [] {
    } else {
      var n := |calls| - 1;
      var slot := if n == 0 then 0 else calls[n - 1].slot;
      var es := Events(p, session, calls[..n]);
      assert slot <= calls[n].slot && InOrder(calls[..n]);
      hide *;
      EventsInOrder(p, session, calls[..n]);
      LastCall(p, session, calls, Sol, 0, 0);
      var before := AfterCalls(p, session, calls[..n]);
      LaterUpTo(es, slot, calls[n].slot);
      if Admits(p, before, calls[n]) { AppendInOrder(es, EventOf(p, before, calls[n]), slot); }
    }
  }

  // ---------------------------------------------------------------------
  // From creation on

  lemma LifetimeBounds(p: Place, start: seq<byte>, calls: seq<Call>, i: nat)
    requires Valid(start) && i < |StoredRules(start)| && StoredRules(start)[i].Lifetime?
    ensures Losses(p, start, calls, StoredRules(start)[i].asset, -1, U64_MAX) <= StoredRules(start)[i].remaining
  {
    hide *;
    RunStores(p, start, calls, StoredRules(start)[i].asset, -1, U64_MAX);
    LifetimeWhole(StoredRules(start), Events(p, start, calls), i);
  }

  lemma LifetimeWhole(rs: seq<Rule>, es: seq<Event>, i: nat)
    requires Windowed(rs) && i < |rs| && rs[i].Lifetime?
    ensures Outflow(rs, es, rs[i].asset, -1, U64_MAX) <= rs[i].remaining
  {
    LifetimeConserved(rs, es, i);
  }

  lemma WindowBounds(p: Place, start: seq<byte>, calls: seq<Call>, i: nat, lo: int)
    requires Valid(start) && i < |StoredRules(start)| && StoredRules(start)[i].Recurring? && InOrder(calls)
    requires StoredRules(start)[i].spent == 0 && StoredRules(start)[i].lastReset == 0
      && StoredRules(start)[i].window > 0
    requires StoredRules(start)[i].limit < U64_MAX && lo % StoredRules(start)[i].window == 0
    ensures Losses(p, start, calls, StoredRules(start)[i].asset, lo, lo + StoredRules(start)[i].window)
      <= StoredRules(start)[i].limit
  {
    hide *;
    RunStores(p, start, calls, StoredRules(start)[i].asset, lo, lo + StoredRules(start)[i].window);
    EventsInOrder(p, start, calls);
    WindowWhole(StoredRules(start), Events(p, start, calls), i, lo);
  }

  lemma WindowWhole(rs: seq<Rule>, es: seq<Event>, i: nat, lo: int)
    requires Windowed(rs) && i < |rs| && rs[i].Recurring? && Chronological(es)
    requires rs[i].spent == 0 && rs[i].lastReset == 0 && rs[i].limit < U64_MAX && rs[i].window > 0
      && lo % rs[i].window == 0
    ensures Outflow(rs, es, rs[i].asset, lo, lo + rs[i].window) <= rs[i].limit
  {
    hide Outflow, After, Chronological, Windowed;
    WindowRun(rs, es, i, lo);
    RuleShapeKept(rs, es, i);
  }

  lemma ExpiryBounds(p: Place, start: seq<byte>, calls: seq<Call>, i: nat)
    requires Valid(start) && i < |StoredRules(start)| && Cap(StoredRules(start)[i])
      && StoredRules(start)[i].expiresAt != 0
    ensures Losses(p, start, calls, StoredRules(start)[i].asset, StoredRules(start)[i].expiresAt, U64_MAX) == 0
  {
    var r := StoredRules(start)[i];
    assert r.Lifetime? || r.Recurring? || r.PerTx?;
    hide *;
    RunStores(p, start, calls, r.asset, r.expiresAt, U64_MAX);
    NoOutflowAfterExpiry(StoredRules(start), Events(p, start, calls), i);
  }

  /** The bytes of a session at its creation. */
  function Created(bump: byte, wallet: Pubkey, args: SessionArgs): seq<byte> {
    Header(bump, wallet, args) + args.actions
  }

  lemma CreatedFacts(bump: byte, wallet: Pubkey, args: SessionArgs)
    requires AdmissibleActions(args.actions)
    ensures RulesOf(args.actions).Some? && Windowed(RulesOf(args.actions).value)
    ensures Valid(Created(bump, wallet, args))
      && StoredRules(Created(bump, wallet, args)) == RulesOf(args.actions).value
    ensures Created(bump, wallet, args)[..SESSION_HEADER_SIZE] == Header(bump, wallet, args)
  {
    var rs := RulesOf(args.actions).value;
    CreatedSessionStores(bump, wallet, args);
    StoresOnly(Created(bump, wallet, args), rs);
    AdmissibleIsWindowed(rs);
    hide RulesOf, EncodeRules, Admissible, Windowed, Header, StoredRules;
  }

  /** From creation on and over every run of calls, the account keeps its header
      and length and stores the rules it was created with after one event for
      each admitted call. */
  lemma SessionFollowsRules(p: Place, bump: byte, wallet: Pubkey, args: SessionArgs, calls: seq<Call>)
    requires AdmissibleActions(args.actions)
    ensures RulesOf(args.actions).Some? && Windowed(RulesOf(args.actions).value) && Valid(Created(bump, wallet, args))
    ensures AfterCalls(p, Created(bump, wallet, args), calls)[..SESSION_HEADER_SIZE] == Header(bump, wallet, args)
    ensures |AfterCalls(p, Created(bump, wallet, args), calls)| == |Created(bump, wallet, args)|
    ensures StoredRules(AfterCalls(p, Created(bump, wallet, args), calls))
      == After(RulesOf(args.actions).value, Events(p, Created(bump, wallet, args), calls))
  {
    hide *;
    CreatedFacts(bump, wallet, args);
    RunStores(p, Created(bump, wallet, args), calls, Sol, 0, 0);
  }

  /** Over the whole life of a session, refused calls included: a lifetime cap
      bounds all that is ever measured to be taken of its asset, a recurring limit
      below the saturation point bounds what is measured in each aligned window,
      and after the expiry of a cap nothing more of its asset is measured to go. */
  lemma SessionBounded(p: Place, bump: byte, wallet: Pubkey, args: SessionArgs, calls: seq<Call>, i: nat, r: Rule,
                       k: int)
    requires AdmissibleActions(args.actions) && i < |RulesOf(args.actions).value| && r == RulesOf(args.actions).value[i]
    ensures Valid(Created(bump, wallet, args))
    ensures r.Lifetime? ==> Losses(p, Created(bump, wallet, args), calls, r.asset, -1, U64_MAX) <= r.remaining
    ensures r.Recurring? && r.limit < U64_MAX && InOrder(calls) ==>
      Losses(p, Created(bump, wallet, args), calls, r.asset, k * r.window, k * r.window + r.window) <= r.limit
    ensures Cap(r) && r.expiresAt != 0 ==>
      Losses(p, Created(bump, wallet, args), calls, r.asset, r.expiresAt, U64_MAX) == 0
  {
    hide *;
    ValidIs(args.actions);
    FreshAt(RulesOf(args.actions).value, i);
    CapIs(r);
    CreatedFacts(bump, wallet, args);
    var start := Created(bump, wallet, args);
    if r.Lifetime? { LifetimeBounds(p, start, calls, i); }
    if r.Recurring? && r.limit < U64_MAX && InOrder(calls) {
      MultipleOf(k, r.window);
      WindowBounds(p, start, calls, i, k * r.window);
    }
    if Cap(r) && r.expiresAt != 0 { ExpiryBounds(p, start, calls, i); }
  }

  lemma MultipleOf(k: int, w: int)
    requires w > 0
    ensures k * w % w == 0
  {
    DivModUnique(k * w, w, k, 0);
  }

  lemma CapIs(r: Rule)
    ensures Cap(r) ==> r.Lifetime? || r.Recurring? || r.PerTx?
  {
  }

  lemma FreshAt(rs: seq<Rule>, i: nat)
    requires Admissible(rs) && i < |rs|
    ensures rs[i].Recurring? ==> rs[i].spent == 0 && rs[i].window > 0 && rs[i].lastReset == 0
  {
    assert Fresh(rs[i]);
  }

  // ---------------------------------------------------------------------
  // Exact losses

  /** What a call that ran `n` CPIs really took of the vault or the listed entries. */
  ghost function ReallyTaken(p: Place, call: Call, n: nat, a: Asset): nat
    requires Runtime(call.cpi, call.accounts) && |call.accounts| >= 4
  {
    VaultBalanceStep(call.accounts, call.cpi, n);
    var last := Final(call.accounts, call.cpi, n);
    match a
    case Sol => SatSub(call.accounts[3].lamports, last[3].lamports)
    case Token(mint) => Lost(call.accounts, last, p.vault, mint)
  }

  ghost function RealLoss(p: Place, session: seq<byte>, call: Call, a: Asset): nat
    requires Admits(p, session, call)
  {
    ReallyTaken(p, call, |ListOf(p, session, call)|, a)
  }

  ghost function RealLosses(p: Place, session: seq<byte>, calls: seq<Call>, a: Asset, lo: int, hi: int): nat
    requires Valid(session)
  {
    if calls == [] then 0
    else
      var n := |calls| - 1;
      var before := AfterCalls(p, session, calls[..n]);
      RealLosses(p, session, calls[..n], a, lo, hi)
      + if Admits(p, before, calls[n]) && lo < calls[n].slot <= hi then RealLoss(p, before, calls[n], a) else 0
  }

  /** The call starts with a total that the engine can represent. */
  predicate Measurable(p: Place, call: Call, a: Asset) {
    a.Token? ==> Total(call.accounts, p.vault, a.mint) <= U64_MAX
  }

  ghost predicate MeasurableAt(p: Place, session: seq<byte>, calls: seq<Call>, a: Asset, i: nat)
    requires Valid(session) && i < |calls|
  {
    Admits(p, AfterCalls(p, session, calls[..i]), calls[i]) ==> Measurable(p, calls[i], a)
  }

  /** All admitted calls of the run do. */
  ghost predicate AllMeasurable(p: Place, session: seq<byte>, calls: seq<Call>, a: Asset)
    requires Valid(session)
  {
    forall i: nat :: i < |calls| ==> MeasurableAt(p, session, calls, a, i)
  }

  lemma RealLossIs(p: Place, session: seq<byte>, call: Call, a: Asset)
    requires Admits(p, session, call) && Measurable(p, call, a)
    ensures RealLoss(p, session, call, a) == Loss(p, session, call, a)
  {
    var n := |ListOf(p, session, call)|;
    assert Runtime(call.cpi, call.accounts) && |call.accounts| >= 4;
    hide Runtime, Admits, RunsList, ListOf, Balance, Total, Lost;
    VaultBalanceStep(call.accounts, call.cpi, n);
    if a.Token? {
      ChargedExactly(call.accounts, Final(call.accounts, call.cpi, n), p.vault, a.mint);
    }
  }

  lemma PrefixMeasurable(p: Place, session: seq<byte>, calls: seq<Call>, a: Asset, n: nat)
    requires Valid(session) && n < |calls| && AllMeasurable(p, session, calls, a)
    ensures AllMeasurable(p, session, calls[..n], a) && MeasurableAt(p, session, calls, a, n)
  {
    hide Valid, Admits, AfterCalls, Measurable;
    forall i: nat | i < n ensures MeasurableAt(p, session, calls[..n], a, i) {
      TakeTake(calls, i, n);
      assert MeasurableAt(p, session, calls, a, i);
    }
  }

  /** The last call of a run. */
  lemma LastRealLoss(p: Place, session: seq<byte>, calls: seq<Call>, a: Asset, lo: int, hi: int)
    requires Valid(session) && calls != []
    ensures var n := |calls| - 1;
      var before := AfterCalls(p, session, calls[..n]);
      RealLosses(p, session, calls, a, lo, hi) == RealLosses(p, session, calls[..n], a, lo, hi)
        + if Admits(p, before, calls[n]) && lo < calls[n].slot <= hi then RealLoss(p, before, calls[n], a) else 0
  {
    hide Valid, Admits, AfterCalls, RealLoss;
  }

  lemma {:induction false} RealLossesAre(p: Place, session: seq<byte>, calls: seq<Call>, a: Asset, lo: int, hi: int)
    requires Valid(session) && AllMeasurable(p, session, calls, a)
    ensures RealLosses(p, session, calls, a, lo, hi) == Losses(p, session, calls, a, lo, hi)
  {
    if calls == [] {
    } else {
      var n := |calls| - 1;
      var before := AfterCalls(p, session, calls[..n]);
      PrefixMeasurable(p, session, calls, a, n);
      assert Admits(p, before, calls[n]) ==> Measurable(p, calls[n], a);
      hide *;
      RealLossesAre(p, session, calls[..n], a, lo, hi);
      LastCall(p, session, calls, a, lo, hi);
      LastRealLoss(p, session, calls, a, lo, hi);
      if Admits(p, before, calls[n]) { RealLossIs(p, before, calls[n], a); }
    }
  }

  /** The bounds of `SessionBounded` hold of the exact losses of a run in which every
      admitted call starts with a total of listed entries below the cap. */
  lemma SessionBoundedExactly(p: Place, bump: byte, wallet: Pubkey, args: SessionArgs, calls: seq<Call>, i: nat,
                              r: Rule, k: int)
    requires AdmissibleActions(args.actions) && i < |RulesOf(args.actions).value| && r == RulesOf(args.actions).value[i]
    requires Cap(r)
    ensures Valid(Created(bump, wallet, args))
    ensures AllMeasurable(p, Created(bump, wallet, args), calls, r.asset) && r.Lifetime? ==>
      RealLosses(p, Created(bump, wallet, args), calls, r.asset, -1, U64_MAX) <= r.remaining
    ensures (&& AllMeasurable(p, Created(bump, wallet, args), calls, r.asset)
             && r.Recurring? && r.limit < U64_MAX && InOrder(calls)) ==>
      RealLosses(p, Created(bump, wallet, args), calls, r.asset, k * r.window, k * r.window + r.window) <= r.limit
    ensures AllMeasurable(p, Created(bump, wallet, args), calls, r.asset) && r.expiresAt != 0 ==>
      RealLosses(p, Created(bump, wallet, args), calls, r.asset, r.expiresAt, U64_MAX) == 0
  {
    hide *;
    CapIs(r);
    SessionBounded(p, bump, wallet, args, calls, i, r, k);
    var start := Created(bump, wallet, args);
    if AllMeasurable(p, start, calls, r.asset) {
      RealLossesAre(p, start, calls, r.asset, -1, U64_MAX);
      RealLossesAre(p, start, calls, r.asset, r.expiresAt, U64_MAX);
      if r.Recurring? { RealLossesAre(p, start, calls, r.asset, k * r.window, k * r.window + r.window); }
    }
  }
}
