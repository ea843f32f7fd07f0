/** What the spending rules mean: when one execute is accepted, how it updates
    the counters, and what that adds up to over every run of executes. */
module Limits {
  import opened Bytes
  import opened Prelude
  import opened Rules

  /** What one execute is measured to have taken: the net SOL loss of the vault, the
      sum of the SOL losses of its single CPIs, and for each mint the net loss of
      the capped total of the listed token accounts. */
  datatype Flow = Flow(sol: u64, gross: u64, tokens: Pubkey -> u64)

  function Net(f: Flow, a: Asset): u64 {
    match a
    case Sol => f.sol
    case Token(mint) => f.tokens(mint)
  }

  predicate Cap(r: Rule) {
    r.Lifetime? || r.Recurring? || r.PerTx?
  }

  /** The amount a cap meters: net outflow, except that the per-transaction SOL
      cap meters gross outflow. */
  function Charge(r: Rule, f: Flow): u64
    requires Cap(r)
  {
    if r.PerTx? && r.asset.Sol? then f.gross else Net(f, r.asset)
  }

  predicate Expired(r: Rule, slot: u64) {
    r.expiresAt != 0 && slot > r.expiresAt
  }

  predicate WindowPassed(r: Rule, slot: u64)
    requires r.Recurring?
  {
    SatSub(slot, r.lastReset) > r.window
  }

  /** What already counts against a recurring limit at `slot`. */
  function Carried(r: Rule, slot: u64): u64
    requires r.Recurring?
  {
    if WindowPassed(r, slot) then 0 else r.spent
  }

  predicate WithinCap(r: Rule, c: u64, slot: u64)
    requires Cap(r)
  {
    match r
    case Lifetime(_, _, remaining) => c <= remaining
    case PerTx(_, _, max) => c <= max
    case Recurring(_, _, limit, _, _, _) => SatAdd(Carried(r, slot), c) <= limit
  }

  /** A zero charge always passes; an expired cap passes nothing else. */
  predicate Fits(r: Rule, f: Flow, slot: u64) {
    Cap(r) && Charge(r, f) > 0 ==> !Expired(r, slot) && WithinCap(r, Charge(r, f), slot)
  }

  predicate Accepts(rs: seq<Rule>, f: Flow, slot: u64) {
    forall i :: 0 <= i < |rs| ==> Fits(rs[i], f, slot)
  }

  function Settle(r: Rule, f: Flow, slot: u64): Rule
    requires Fits(r, f, slot) && (r.Recurring? ==> r.window > 0)
  {
    if !Cap(r) || Charge(r, f) == 0 then r
    else
      var c := Charge(r, f);
      match r
      case PerTx(_, _, _) => r
      case Lifetime(_, _, remaining) => r.(remaining := remaining - c)
      case Recurring(_, _, _, spent, window, _) =>
        if WindowPassed(r, slot) then
          AlignedBounds(slot, window);
          r.(spent := c, lastReset := Aligned(slot, window))
        else
          r.(spent := SatAdd(spent, c))
  }

  /** The last multiple of `window` that is not after `slot`. */
  function Aligned(slot: nat, window: nat): nat
    requires window > 0
  {
    slot / window * window
  }

  lemma AlignedBounds(slot: nat, window: nat)
    requires window > 0
    ensures Aligned(slot, window) <= slot < Aligned(slot, window) + window
    ensures Aligned(slot, window) % window == 0
  {
    DivModUnique(Aligned(slot, window), window, slot / window, 0);
  }

  predicate Windowed(rs: seq<Rule>) {
    forall i :: 0 <= i < |rs| ==> rs[i].Recurring? ==> rs[i].window > 0
  }

  function SettleAll(rs: seq<Rule>, f: Flow, slot: u64): (rs': seq<Rule>)
    requires Accepts(rs, f, slot) && Windowed(rs)
    ensures |rs'| == |rs| && Windowed(rs')
    ensures forall i :: 0 <= i < |rs| ==> rs'[i] == Settle(rs[i], f, slot)
  {
    seq(|rs|, i requires 0 <= i < |rs| => Settle(rs[i], f, slot))
  }

  // ---------------------------------------------------------------------
  // Runs

  datatype Event = Event(slot: u64, flow: Flow)

  /** A rejected execute is rolled back and leaves the counters alone. */
  function Step(rs: seq<Rule>, e: Event): (rs': seq<Rule>)
    requires Windowed(rs)
    ensures |rs'| == |rs| && Windowed(rs')
  {
    if Accepts(rs, e.flow, e.slot) then SettleAll(rs, e.flow, e.slot) else rs
  }

  function After(rs: seq<Rule>, es: seq<Event>): (rs': seq<Rule>)
    requires Windowed(rs)
    ensures |rs'| == |rs| && Windowed(rs')
  {
    if es == [] then rs else Step(After(rs, es[..|es| - 1]), es[|es| - 1])
  }

  /** The net outflow of `a` in the executes that were accepted in slots `lo < slot <= hi`. */
  function Outflow(rs: seq<Rule>, es: seq<Event>, a: Asset, lo: int, hi: int): nat
    requires Windowed(rs)
  {
    if es == [] then 0
    else
      var n := |es| - 1;
      var e := es[n];
      Outflow(rs, es[..n], a, lo, hi)
      + if Accepts(After(rs, es[..n]), e.flow, e.slot) && lo < e.slot <= hi then Net(e.flow, a) else 0
  }

  function TotalOutflow(rs: seq<Rule>, es: seq<Event>, a: Asset): nat
    requires Windowed(rs)
  {
    Outflow(rs, es, a, -1, U64_MAX)
  }

  predicate Chronological(es: seq<Event>) {
    forall i, j :: 0 <= i < j < |es| ==> es[i].slot <= es[j].slot
  }

  /** The net loss of an execute is at most the sum of its single losses. */
  predicate GrossCovers(es: seq<Event>) {
    forall i :: 0 <= i < |es| ==> es[i].flow.sol <= es[i].flow.gross
  }

  lemma StepAt(rs: seq<Rule>, e: Event, i: nat)
    requires Windowed(rs) && i < |rs|
    ensures Step(rs, e)[i] == if Accepts(rs, e.flow, e.slot) then Settle(rs[i], e.flow, e.slot) else rs[i]
    ensures Accepts(rs, e.flow, e.slot) ==> Fits(rs[i], e.flow, e.slot)
  {
  }

  /** Lifetime caps are conserved by every run, whatever other rules are present
      and in whatever order the slots come: what is gone from `remaining` is
      exactly the measured net outflow. */
  lemma {:induction false} LifetimeConserved(rs: seq<Rule>, es: seq<Event>, i: nat)
    requires Windowed(rs) && i < |rs| && rs[i].Lifetime?
    ensures TotalOutflow(rs, es, rs[i].asset) <= rs[i].remaining
    ensures After(rs, es)[i] == rs[i].(remaining := rs[i].remaining - TotalOutflow(rs, es, rs[i].asset))
  {
    if es == [] {
    } else {
      var n := |es| - 1;
      LifetimeConserved(rs, es[..n], i);
      StepAt(After(rs, es[..n]), es[n], i);
    }
  }

  lemma {:induction false} RuleShapeKept(rs: seq<Rule>, es: seq<Event>, i: nat)
    requires Windowed(rs) && i < |rs|
    ensures var r, r' := rs[i], After(rs, es)[i];
      && r'.expiresAt == r.expiresAt && Tag(r') == Tag(r) && Key(r') == Key(r)
      && (!r.Lifetime? && !r.Recurring? ==> r' == r)
      && (r.Recurring? ==> r'.Recurring? && r' == r.(spent := r'.spent, lastReset := r'.lastReset))
      && (r.Lifetime? ==> r'.Lifetime? && r' == r.(remaining := r'.remaining))
  {
    if es == [] {
    } else {
      RuleShapeKept(rs, es[..|es| - 1], i);
      StepAt(After(rs, es[..|es| - 1]), es[|es| - 1], i);
    }
  }

  /** Once a cap has expired, no net outflow of its asset is measured any more. The
      SOL per-transaction cap meters gross outflow, which covers the net loss. */
  lemma {:induction false} NoOutflowAfterExpiry(rs: seq<Rule>, es: seq<Event>, i: nat)
    requires Windowed(rs) && i < |rs| && Cap(rs[i])
    requires rs[i].PerTx? && rs[i].asset.Sol? ==> GrossCovers(es)
    requires rs[i].expiresAt != 0
    ensures Outflow(rs, es, rs[i].asset, rs[i].expiresAt, U64_MAX) == 0
  {
    if es == [] {
    } else {
      var n := |es| - 1;
      NoOutflowAfterExpiry(rs, es[..n], i);
      RuleShapeKept(rs, es[..n], i);
      StepAt(After(rs, es[..n]), es[n], i);
    }
  }
}
