/** What the measured token loss says about the tokens that left: the measure is
    the total over the listed entries, capped at 2^64-1. */
module TokenTotals {
  import opened Bytes
  import opened Prelude
  import opened Rules
  import opened Limits
  import opened Tokens

  /** What an execute is charged for a mint. */
  function Charged(before: seq<AccountInfo>, after: seq<AccountInfo>, vault: Pubkey, mint: Pubkey): u64 {
    SatSub(Balance(before, vault, mint), Balance(after, vault, mint))
  }

  /** What really went from the listed entries. */
  function Lost(before: seq<AccountInfo>, after: seq<AccountInfo>, vault: Pubkey, mint: Pubkey): nat {
    var b, a := Total(before, vault, mint), Total(after, vault, mint);
    if b > a then b - a else 0
  }

  /** The same accounts of the same programs, with data of the same sizes. */
  predicate SameAccounts(a: seq<AccountInfo>, b: seq<AccountInfo>) {
    && |a| == |b|
    && forall i :: 0 <= i < |a| ==> a[i].key == b[i].key && a[i].owner == b[i].owner && |a[i].data| == |b[i].data|
  }

  /** Below the cap the charge is the loss. */
  lemma ChargedExactly(before: seq<AccountInfo>, after: seq<AccountInfo>, vault: Pubkey, mint: Pubkey)
    requires Total(before, vault, mint) <= U64_MAX
    ensures Charged(before, after, vault, mint) == Lost(before, after, vault, mint)
  {
    hide Total;
  }

  /** The account with its amount at zero. */
  function Emptied(acc: AccountInfo): AccountInfo {
    if |acc.data| < 72 then acc else acc.(data := Splice(acc.data, 64, LeEncode(0, 8)))
  }

  lemma EmptiedAmount(acc: AccountInfo, vault: Pubkey, mint: Pubkey)
    ensures Amount(Emptied(acc), vault, mint) == 0
  {
    if |acc.data| >= 72 {
      var d := Emptied(acc).data;
      assert d[64..72] == LeEncode(0, 8);
      U64RoundTrip(d, 64, 0);
    }
  }

  function AllEmptied(accounts: seq<AccountInfo>): seq<AccountInfo> {
    seq(|accounts|, i requires 0 <= i < |accounts| => Emptied(accounts[i]))
  }

  lemma {:induction false} EmptiedTotal(accounts: seq<AccountInfo>, vault: Pubkey, mint: Pubkey)
    ensures Total(AllEmptied(accounts), vault, mint) == 0
  {
    if accounts == [] {
    } else {
      var n := |accounts| - 1;
      EmptiedTotal(accounts[..n], vault, mint);
      assert AllEmptied(accounts)[..n] == AllEmptied(accounts[..n]);
      EmptiedAmount(accounts[n], vault, mint);
      hide Emptied, Amount;
    }
  }

  /** The exact condition: every loss is charged in full, whatever happens to the
      listed accounts, if and only if the total at the start is below the cap. */
  lemma LossChargedExactly(before: seq<AccountInfo>, vault: Pubkey, mint: Pubkey)
    ensures (forall after :: SameAccounts(before, after) ==>
               Lost(before, after, vault, mint) <= Charged(before, after, vault, mint))
      <==> Total(before, vault, mint) <= U64_MAX
  {
    if Total(before, vault, mint) <= U64_MAX {
      forall after | SameAccounts(before, after)
        ensures Lost(before, after, vault, mint) <= Charged(before, after, vault, mint)
      {
        ChargedExactly(before, after, vault, mint);
      }
    } else {
      var after := AllEmptied(before);
      assert SameAccounts(before, after);
      EmptiedTotal(before, vault, mint);
      hide Total;
      assert Lost(before, after, vault, mint) > Charged(before, after, vault, mint);
    }
  }

  // ---------------------------------------------------------------------
  // A loss without a charge

  function Copies(acc: AccountInfo, n: nat): (s: seq<AccountInfo>)
    ensures |s| == n
  {
    seq(n, i requires 0 <= i < n => acc)
  }

  /** An entry counts as often as it is listed. */
  lemma {:induction false} TotalCopies(acc: AccountInfo, n: nat, vault: Pubkey, mint: Pubkey)
    ensures Total(Copies(acc, n), vault, mint) == n * Amount(acc, vault, mint)
  {
    if n == 0 {
    } else {
      TotalCopies(acc, n - 1, vault, mint);
      assert Copies(acc, n)[..n - 1] == Copies(acc, n - 1);
      hide Amount;
      Distribute(n - 1, 1, Amount(acc, vault, mint));
    }
  }

  /** A token account of the vault. */
  function TokenAccountOf(key: Pubkey, mint: Pubkey, vault: Pubkey, amount: u64): AccountInfo {
    AccountInfo(key, SPL_TOKEN_PROGRAM_ID, 0, mint + vault + LeEncode(amount, 8) + seq(93, _ => 0), false, true)
  }

  lemma TokenAccountAmount(key: Pubkey, mint: Pubkey, vault: Pubkey, amount: u64)
    ensures Amount(TokenAccountOf(key, mint, vault, amount), vault, mint) == amount
    ensures |TokenAccountOf(key, mint, vault, amount).data| == 165
  {
    var acc := TokenAccountOf(key, mint, vault, amount);
    var zeros: seq<byte> := seq(93, _ => 0);
    hide LeEncode, LeDecode, SPL_TOKEN_2022_PROGRAM_ID;
    assert acc.data == mint + vault + LeEncode(amount, 8) + zeros;
    assert acc.data[0..32] == mint && acc.data[32..64] == vault && acc.data[64..72] == LeEncode(amount, 8);
    U64RoundTrip(acc.data, 64, amount);
  }

  const ENTRIES: nat := 245
  const AMOUNT_BEFORE: u64 := 100_000_000_000_000_000
  const AMOUNT_AFTER: u64 := 80_000_000_000_000_000

  /** One account of the vault listed 245 times. */
  function Repeated(key: Pubkey, mint: Pubkey, vault: Pubkey, amount: u64): seq<AccountInfo> {
    Copies(TokenAccountOf(key, mint, vault, amount), ENTRIES)
  }

  lemma RepeatedTotal(key: Pubkey, mint: Pubkey, vault: Pubkey, amount: u64)
    ensures Total(Repeated(key, mint, vault, amount), vault, mint) == ENTRIES * amount
  {
    TokenAccountAmount(key, mint, vault, amount);
    hide TokenAccountOf, Total, Amount;
    TotalCopies(TokenAccountOf(key, mint, vault, amount), ENTRIES, vault, mint);
  }

  lemma RepeatedSame(key: Pubkey, mint: Pubkey, vault: Pubkey, amount: u64, amount': u64)
    ensures SameAccounts(Repeated(key, mint, vault, amount), Repeated(key, mint, vault, amount'))
  {
    hide SPL_TOKEN_PROGRAM_ID;
  }

  /** A loss without a charge: one account, listed 245 times, holds 10^17 units
      before and 8 * 10^16 after. Nothing is charged, and so every cap on the mint,
      expired or not, accepts the flow. */
  lemma UnchargedLoss(key: Pubkey, mint: Pubkey, vault: Pubkey, r: Rule, slot: u64, sol: u64, gross: u64)
    requires Cap(r) && r.asset == Token(mint)
    ensures var before := Repeated(key, mint, vault, AMOUNT_BEFORE);
      var after := Repeated(key, mint, vault, AMOUNT_AFTER);
      && SameAccounts(before, after)
      && Lost(before, after, vault, mint) == ENTRIES * (AMOUNT_BEFORE - AMOUNT_AFTER)
      && Charged(before, after, vault, mint) == 0
      && Fits(r, Flow(sol, gross, m => Charged(before, after, vault, m)), slot)
  {
    RepeatedSame(key, mint, vault, AMOUNT_BEFORE, AMOUNT_AFTER);
    RepeatedTotal(key, mint, vault, AMOUNT_BEFORE);
    RepeatedTotal(key, mint, vault, AMOUNT_AFTER);
    hide Repeated, Total, SameAccounts;
  }

  // ---------------------------------------------------------------------
  // Accounts listed more than once

  /** The sum over a list of keys, each entry counted. */
  function Listed(keys: seq<Pubkey>, amounts: Pubkey -> nat): nat {
    if keys == [] then 0 else Listed(keys[..|keys| - 1], amounts) + amounts(keys[|keys| - 1])
  }

  /** The keys without repetitions. */
  function Once(keys: seq<Pubkey>): seq<Pubkey> {
    if keys == [] then []
    else
      var n := |keys| - 1;
      Once(keys[..n]) + if keys[n] in keys[..n] then [] else [keys[n]]
  }

  /** The sum over the accounts behind the entries. */
  function Held(keys: seq<Pubkey>, amounts: Pubkey -> nat): nat {
    Listed(Once(keys), amounts)
  }

  /** The keys of the entries that hold the mint for the vault. */
  function Holders(accounts: seq<AccountInfo>, vault: Pubkey, mint: Pubkey): seq<Pubkey> {
    if accounts == [] then []
    else
      var n := |accounts| - 1;
      Holders(accounts[..n], vault, mint) + if Holds(accounts[n], vault, mint) then [accounts[n].key] else []
  }

  lemma ListedAppend(keys: seq<Pubkey>, k: Pubkey, amounts: Pubkey -> nat)
    ensures Listed(keys + [k], amounts) == Listed(keys, amounts) + amounts(k)
  {
    assert (keys + [k])[..|keys|] == keys;
  }

  /** The measured total is the sum over the listed entries. */
  lemma {:induction false} TotalIsListed(accounts: seq<AccountInfo>, vault: Pubkey, mint: Pubkey,
                                         amounts: Pubkey -> nat)
    requires forall i :: 0 <= i < |accounts| && Holds(accounts[i], vault, mint) ==>
      Amount(accounts[i], vault, mint) == amounts(accounts[i].key)
    ensures Total(accounts, vault, mint) == Listed(Holders(accounts, vault, mint), amounts)
  {
    if accounts == [] {
    } else {
      var n := |accounts| - 1;
      TotalIsListed(accounts[..n], vault, mint, amounts);
      var before := Holders(accounts[..n], vault, mint);
      assert before + [] == before;
      hide Holds;
      if Holds(accounts[n], vault, mint) { ListedAppend(before, accounts[n].key, amounts); }
    }
  }

  lemma {:induction false} OnceEach(keys: seq<Pubkey>, k: Pubkey)
    ensures multiset(Once(keys))[k] == if k in keys then 1 else 0
  {
    if keys == [] {
    } else {
      var n := |keys| - 1;
      OnceEach(keys[..n], k);
      assert keys == keys[..n] + [keys[n]];
    }
  }

  /** Each entry of `ks` counted `times` its key. */
  function Weighted(ks: seq<Pubkey>, times: multiset<Pubkey>, amounts: Pubkey -> nat): nat {
    if ks == [] then 0
    else
      var n := |ks| - 1;
      Weighted(ks[..n], times, amounts) + times[ks[n]] * amounts(ks[n])
  }

  lemma {:induction false} WeightedMore(ks: seq<Pubkey>, times: multiset<Pubkey>, k: Pubkey, amounts: Pubkey -> nat)
    ensures Weighted(ks, times + multiset{k}, amounts) == Weighted(ks, times, amounts) + multiset(ks)[k] * amounts(k)
  {
    if ks == [] {
    } else {
      var n := |ks| - 1;
      WeightedMore(ks[..n], times, k, amounts);
      assert ks == ks[..n] + [ks[n]];
      if ks[n] == k {
        Distribute(times[k], 1, amounts(k));
        Distribute(multiset(ks[..n])[k], 1, amounts(k));
      }
    }
  }

  lemma Distribute(a: nat, b: nat, c: nat)
    ensures (a + b) * c == a * c + b * c
  {
  }

  lemma Factor(a: nat, b: nat, c: nat)
    ensures a * (b + c) == a * b + a * c
  {
  }

  lemma WeightedAppend(ks: seq<Pubkey>, k: Pubkey, times: multiset<Pubkey>, amounts: Pubkey -> nat)
    ensures Weighted(ks + [k], times, amounts) == Weighted(ks, times, amounts) + times[k] * amounts(k)
  {
    assert (ks + [k])[..|ks|] == ks;
  }

  /** A sum over entries counts each account as often as it is listed. */
  lemma {:induction false} ListedIsWeighted(keys: seq<Pubkey>, amounts: Pubkey -> nat)
    ensures Listed(keys, amounts) == Weighted(Once(keys), multiset(keys), amounts)
  {
    if keys == [] {
    } else {
      var n := |keys| - 1;
      var k, before := keys[n], keys[..n];
      assert keys == before + [k];
      assert Once(before) + [] == Once(before);
      assert Once(keys) == if k in before then Once(before) else Once(before) + [k];
      hide Weighted, Listed, Once;
      ListedIsWeighted(before, amounts);
      ListedAppend(before, k, amounts);
      WeightedStep(before, k, amounts);
    }
  }

  lemma WeightedMoreOnce(ks: seq<Pubkey>, times: multiset<Pubkey>, k: Pubkey, amounts: Pubkey -> nat)
    ensures multiset(ks)[k] == 1 ==>
      Weighted(ks, times + multiset{k}, amounts) == Weighted(ks, times, amounts) + amounts(k)
    ensures multiset(ks)[k] == 0 ==> Weighted(ks, times + multiset{k}, amounts) == Weighted(ks, times, amounts)
  {
    WeightedMore(ks, times, k, amounts);
    hide Weighted;
  }

  lemma WeightedStep(before: seq<Pubkey>, k: Pubkey, amounts: Pubkey -> nat)
    ensures Weighted(if k in before then Once(before) else Once(before) + [k], multiset(before + [k]), amounts)
      == Weighted(Once(before), multiset(before), amounts) + amounts(k)
  {
    var times := multiset(before) + multiset{k};
    assert multiset(before + [k]) == times;
    assert k !in before ==> times[k] == 1;
    OnceEach(before, k);
    hide *;
    WeightedMoreOnce(Once(before), multiset(before), k, amounts);
    if k !in before {
      WeightedAppend(Once(before), k, times, amounts);
      assert times[k] * amounts(k) == amounts(k);
    }
  }

  /** All accounts are listed equally often. */
  predicate Even(keys: seq<Pubkey>, times: nat) {
    forall k :: k in keys ==> multiset(keys)[k] == times
  }

  lemma {:induction false} WeightedEvenly(ks: seq<Pubkey>, all: multiset<Pubkey>, times: nat, amounts: Pubkey -> nat)
    requires forall k :: k in ks ==> all[k] == times
    ensures Weighted(ks, all, amounts) == times * Listed(ks, amounts)
  {
    if ks == [] {
    } else {
      var n := |ks| - 1;
      assert ks[n] in ks && forall k :: k in ks[..n] ==> k in ks;
      WeightedEvenly(ks[..n], all, times, amounts);
      Factor(times, Listed(ks[..n], amounts), amounts(ks[n]));
    }
  }

  function Only(k: Pubkey, amount: nat): Pubkey -> nat {
    x => if x == k then amount else 0
  }

  lemma {:induction false} ListedOnly(keys: seq<Pubkey>, k: Pubkey, amount: nat)
    ensures Listed(keys, Only(k, amount)) == multiset(keys)[k] * amount
  {
    if keys == [] {
    } else {
      var n := |keys| - 1;
      ListedOnly(keys[..n], k, amount);
      assert keys == keys[..n] + [keys[n]];
      if keys[n] == k { Distribute(multiset(keys[..n])[k], 1, amount); }
    }
  }

  lemma OnceIn(keys: seq<Pubkey>, k: Pubkey)
    ensures k in Once(keys) <==> k in keys
  {
    OnceEach(keys, k);
    assert k in Once(keys) <==> multiset(Once(keys))[k] > 0;
  }

  /** Below the cap, the sum over the entries never hides a loss of the accounts
      behind them, whatever they hold before and after, if and only if all of
      them are listed equally often. */
  lemma EntriesCoverAccounts(keys: seq<Pubkey>)
    ensures (forall before: Pubkey -> nat, after: Pubkey -> nat ::
               Held(keys, before) > Held(keys, after) ==>
                 Listed(keys, before) - Listed(keys, after) >= Held(keys, before) - Held(keys, after))
      <==> exists times: nat :: Even(keys, times)
  {
    if times: nat :| Even(keys, times) {
      forall before: Pubkey -> nat, after: Pubkey -> nat | Held(keys, before) > Held(keys, after)
        ensures Listed(keys, before) - Listed(keys, after) >= Held(keys, before) - Held(keys, after)
      {
        EvenlyListed(keys, times, before);
        EvenlyListed(keys, times, after);
        SomeHolder(keys, before);
        Scaled(times, Held(keys, before), Held(keys, after));
      }
    } else {
      Uneven(keys);
    }
  }

  lemma EvenlyListed(keys: seq<Pubkey>, times: nat, amounts: Pubkey -> nat)
    requires Even(keys, times)
    ensures Listed(keys, amounts) == times * Held(keys, amounts)
    ensures keys != [] ==> times > 0
  {
    ListedIsWeighted(keys, amounts);
    forall k | k in Once(keys) ensures multiset(keys)[k] == times { OnceIn(keys, k); }
    WeightedEvenly(Once(keys), multiset(keys), times, amounts);
    if keys != [] { assert keys[0] in keys; }
  }

  lemma SomeHolder(keys: seq<Pubkey>, amounts: Pubkey -> nat)
    ensures Held(keys, amounts) > 0 ==> keys != []
  {
  }

  lemma Scaled(times: nat, a: nat, b: nat)
    requires times > 0 && a > b
    ensures times * a - times * b >= a - b
  {
    Factor(times, b, a - b);
    Distribute(times - 1, 1, a - b);
  }

  /** With two accounts listed unequally often there is a hidden loss. */
  lemma Uneven(keys: seq<Pubkey>)
    requires !exists times: nat :: Even(keys, times)
    ensures exists before: Pubkey -> nat, after: Pubkey -> nat ::
      Held(keys, before) > Held(keys, after) && Listed(keys, before) == Listed(keys, after)
  {
    var j, k := UnevenPair(keys);
    hide *;
    var m, n := multiset(keys)[j], multiset(keys)[k];
    OnlyFacts(keys, j, n);
    OnlyFacts(keys, k, m);
    Commute(m, n);
    assert Held(keys, Only(j, n)) > Held(keys, Only(k, m)) && Listed(keys, Only(j, n)) == Listed(keys, Only(k, m));
  }

  lemma OnlyFacts(keys: seq<Pubkey>, k: Pubkey, amount: nat)
    requires k in keys
    ensures Listed(keys, Only(k, amount)) == multiset(keys)[k] * amount
    ensures Held(keys, Only(k, amount)) == amount
  {
    ListedOnly(keys, k, amount);
    ListedOnly(Once(keys), k, amount);
    OnceEach(keys, k);
    hide Listed, Once, Only;
  }

  lemma Commute(a: nat, b: nat)
    ensures a * b == b * a
  {
  }

  lemma NoneEven(keys: seq<Pubkey>)
    ensures keys == [] ==> Even(keys, 0)
  {
  }

  lemma UnevenPair(keys: seq<Pubkey>) returns (j: Pubkey, k: Pubkey)
    requires !exists times: nat :: Even(keys, times)
    ensures j in keys && k in keys && multiset(keys)[j] < multiset(keys)[k]
  {
    NoneEven(keys);
    var t := multiset(keys)[keys[0]];
    assert !Even(keys, t);
    var other :| other in keys && multiset(keys)[other] != t;
    if multiset(keys)[other] < t { j, k := other, keys[0]; } else { j, k := keys[0], other; }
  }
}
