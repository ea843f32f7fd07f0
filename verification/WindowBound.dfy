/** The recurring limit over whole runs: no aligned window ever sees more than
    the limit, so no stretch of `window` slots sees more than twice the limit. */
module WindowBound {
  import opened Bytes
  import opened Prelude
  import opened Rules
  import opened Limits

  /** The last slot of a run, or slot 0 before any event. */
  function LastSlot(es: seq<Event>): u64 {
    if es == [] then 0 else es[|es| - 1].slot
  }

  /** Distinct multiples of `w` are at least `w` apart. */
  lemma MultipleGap(a: int, b: int, w: int)
    requires w > 0 && a % w == 0 && b % w == 0 && a < b
    ensures a + w <= b
  {
    var p, q := a / w, b / w;
    assert a == w * p && b == w * q;
    if q <= p { MulOrder(q, p, w); }
    MulOrder(p + 1, q, w);
    assert w * (p + 1) == w * p + w;
  }

  lemma MulOrder(x: int, y: int, w: nat)
    requires x <= y
    ensures w * x <= w * y
  {
    assert w * (y - x) >= 0;
  }

  /** The invariant of a recurring rule with respect to the window that starts
      after slot `lo`: `sum` was taken in that window so far, and `t` is the
      slot reached. While the window can still grow, its sum is part of `spent`. */
  predicate WindowInvariant(r: Rule, lo: int, sum: nat, t: u64)
    requires r.Recurring? && r.window > 0
  {
    && r.lastReset % r.window == 0 && r.lastReset <= t
    && r.spent <= r.limit && sum <= r.limit
    && (r.lastReset == lo ==> sum <= r.spent)
    && (r.lastReset < lo ==> sum == 0)
    && (r.lastReset == lo + r.window && t <= r.lastReset ==> sum <= r.spent)
  }

  lemma WindowStep(r: Rule, lo: int, sum: nat, t: u64, f: Flow, slot: u64)
    requires r.Recurring? && r.window > 0 && lo % r.window == 0 && r.limit < U64_MAX
    requires WindowInvariant(r, lo, sum, t) && t <= slot && Fits(r, f, slot)
    ensures WindowInvariant(Settle(r, f, slot), lo,
      sum + if lo < slot <= lo + r.window then Net(f, r.asset) else 0, slot)
  {
    var w, last := r.window, r.lastReset;
    if Charge(r, f) > 0 {
      AlignedBounds(slot, w);
      var aligned := Aligned(slot, w);
      if last < lo { MultipleGap(last, lo, w); }
      if lo < last { MultipleGap(lo, last, w); }
      if lo + w < last { ShiftedMultiple(lo, w); MultipleGap(lo + w, last, w); }
      if WindowPassed(r, slot) {
        if aligned < lo { MultipleGap(aligned, lo, w); }
        if lo < aligned { MultipleGap(lo, aligned, w); }
      }
    }
  }

  lemma ShiftedMultiple(a: int, w: int)
    requires w > 0 && a % w == 0
    ensures (a + w) % w == 0
  {
    var q := a / w;
    assert a == w * q;
    assert a + w == w * (q + 1);
    DivModUnique(a + w, w, q + 1, 0);
  }

  lemma {:induction false} WindowRun(rs: seq<Rule>, es: seq<Event>, i: nat, lo: int)
    requires Windowed(rs) && i < |rs| && rs[i].Recurring? && Chronological(es)
    requires rs[i].spent == 0 && rs[i].lastReset == 0 && rs[i].limit < U64_MAX && lo % rs[i].window == 0
    ensures After(rs, es)[i].Recurring? && After(rs, es)[i].window == rs[i].window
    ensures WindowInvariant(After(rs, es)[i], lo, Outflow(rs, es, rs[i].asset, lo, lo + rs[i].window), LastSlot(es))
  {
    RuleShapeKept(rs, es, i);
    if es == [] {
    } else {
      var n := |es| - 1;
      WindowRun(rs, es[..n], i, lo);
      RuleShapeKept(rs, es[..n], i);
      var before := After(rs, es[..n]);
      StepAt(before, es[n], i);
      assert LastSlot(es[..n]) <= es[n].slot;
      if Accepts(before, es[n].flow, es[n].slot) {
        WindowStep(before[i], lo, Outflow(rs, es[..n], rs[i].asset, lo, lo + rs[i].window),
                   LastSlot(es[..n]), es[n].flow, es[n].slot);
      }
    }
  }

  /** The net outflow in the slots `k * window < slot <= (k + 1) * window`. */
  function WindowOutflow(rs: seq<Rule>, es: seq<Event>, a: Asset, window: nat, k: int): nat
    requires Windowed(rs)
  {
    Outflow(rs, es, a, k * window, k * window + window)
  }

  /** In every chronological run of a fresh session, whatever its other rules,
      no aligned window has more measured outflow than the limit. */
  lemma WindowBound(rs: seq<Rule>, es: seq<Event>, i: nat, k: int)
    requires Windowed(rs) && i < |rs| && rs[i].Recurring? && Chronological(es)
    requires rs[i].spent == 0 && rs[i].lastReset == 0 && rs[i].limit < U64_MAX
    ensures WindowOutflow(rs, es, rs[i].asset, rs[i].window, k) <= rs[i].limit
  {
    DivModUnique(k * rs[i].window, rs[i].window, k, 0);
    WindowRun(rs, es, i, k * rs[i].window);
    RuleShapeKept(rs, es, i);
  }

  lemma {:induction false} OutflowCovered(rs: seq<Rule>, es: seq<Event>, a: Asset, lo: int, hi: int, lo': int,
                                          mid: int, hi': int)
    requires Windowed(rs) && lo' <= lo && hi <= hi'
    ensures Outflow(rs, es, a, lo, hi) <= Outflow(rs, es, a, lo', mid) + Outflow(rs, es, a, mid, hi')
  {
    if es == [] {
    } else {
      OutflowCovered(rs, es[..|es| - 1], a, lo, hi, lo', mid, hi');
    }
  }

  /** The net outflow in the `window` slots that follow `lo`. */
  function InStretch(rs: seq<Rule>, es: seq<Event>, a: Asset, lo: int, window: nat): nat
    requires Windowed(rs)
  {
    Outflow(rs, es, a, lo, lo + window)
  }

  /** The aligned window that a slot lies in. */
  lemma WindowOf(lo: int, w: nat) returns (k: int)
    requires w > 0
    ensures k * w <= lo < k * w + w
  {
    k := lo / w;
  }

  /** Any `window` consecutive slots see at most twice the limit. */
  lemma SlidingBound(rs: seq<Rule>, es: seq<Event>, i: nat, lo: int)
    requires Windowed(rs) && i < |rs| && rs[i].Recurring? && Chronological(es)
    requires rs[i].spent == 0 && rs[i].lastReset == 0 && rs[i].limit < U64_MAX
    ensures InStretch(rs, es, rs[i].asset, lo, rs[i].window) <= 2 * rs[i].limit
  {
    var w := rs[i].window;
    assert w > 0;
    hide Outflow, Chronological, Windowed;
    var k := WindowOf(lo, w);
    NextWindow(k, w);
    WindowBound(rs, es, i, k);
    WindowBound(rs, es, i, k + 1);
    OutflowCovered(rs, es, rs[i].asset, lo, lo + w, k * w, k * w + w, k * w + w + w);
  }

  lemma NextWindow(k: int, w: int)
    ensures (k + 1) * w == k * w + w
  {
  }

  function Spend(slot: u64, amount: u64): Event {
    Event(slot, Flow(amount, amount, (m: Pubkey) => amount))
  }

  lemma TwoSpends(r: Rule, s1: u64, a1: u64, s2: u64, a2: u64)
    requires r.Recurring? && r.window > 0 && r.expiresAt == 0 && r.lastReset == 0 && r.spent == 0
    requires 0 < s1 <= s2 && s1 <= r.window && 0 < a1 <= r.limit && a2 > 0
    requires s2 <= r.window ==> SatAdd(a1, a2) <= r.limit
    requires s2 > r.window ==> a2 <= r.limit
    ensures var es := [Spend(s1, a1), Spend(s2, a2)];
      forall lo, hi :: lo < s1 && s2 <= hi ==> Outflow([r], es, r.asset, lo, hi) == a1 + a2
  {
    var e1, e2 := Spend(s1, a1), Spend(s2, a2);
    var es := [e1, e2];
    assert es[..1] == [e1] && [e1][..0] == [];
    assert After([r], [e1]) == Step([r], e1);
    StepAt([r], e1, 0);
    forall lo, hi | lo < s1 && s2 <= hi ensures Outflow([r], es, r.asset, lo, hi) == a1 + a2 {
      assert Outflow([r], [e1], r.asset, lo, hi) == a1;
    }
  }

  /** Twice the limit is reached: spending the limit in the last slot of one
      window and again in the first slot of the next is accepted. */
  lemma SlidingBoundTight(limit: u64, window: u64, asset: Asset)
    requires 0 < limit && 1 < window < U64_MAX
    ensures var rs := [Recurring(0, asset, limit, 0, window, 0)];
      exists es, lo :: Chronological(es) && InStretch(rs, es, asset, lo, window) == 2 * limit
  {
    var r := Recurring(0, asset, limit, 0, window, 0);
    TwoSpends(r, window, limit, window + 1, limit);
    var es := [Spend(window, limit), Spend(window + 1, limit)];
    assert Chronological(es) && InStretch([r], es, asset, 1, window) == 2 * limit;
  }

  /** The aligned bound holds of every run exactly when the limit is below the
      saturation point: at 2^64 - 1 the saturating sum never exceeds the limit. */
  lemma WindowBoundExactly(limit: u64, window: u64, asset: Asset)
    requires window > 0
    ensures var rs := [Recurring(0, asset, limit, 0, window, 0)];
      (forall es, k | Chronological(es) :: WindowOutflow(rs, es, asset, window, k) <= limit)
      <==> limit < U64_MAX
  {
    var r := Recurring(0, asset, limit, 0, window, 0);
    if limit < U64_MAX {
      forall es, k | Chronological(es) ensures WindowOutflow([r], es, asset, window, k) <= limit {
        WindowBound([r], es, 0, k);
      }
    } else {
      TwoSpends(r, 1, limit, 1, limit);
      var es := [Spend(1, limit), Spend(1, limit)];
      assert Chronological(es) && WindowOutflow([r], es, asset, window, 0) == 2 * limit;
    }
  }
}
