/** Current balances: the opening amounts plus the confirmed movements after them, in signed 64-bit minor units. */
module Balances {
  import opened Prelude

  datatype Side = Asset | Liability

  datatype Kind = Debit | Credit

  datatype Movement = Movement(kind: Kind, currency: string, minor: int, at: Instant)

  type Totals = map<string, int>

  datatype Error = OutOfRange

  const MAX_INT64 := 0x7fff_ffff_ffff_ffff
  const MIN_INT64 := -0x8000_0000_0000_0000

  predicate InRange(n: int) { MIN_INT64 <= n <= MAX_INT64 }

  predicate AllInRange(t: Totals) { forall c :: c in t ==> InRange(t[c]) }

  // ---- the exact sums -----------------------------------------------------------------------------

  predicate Counts(m: Movement, asOf: Instant) { m.at > asOf && m.minor >= 0 }

  /** A debit lowers an asset and raises a liability. */
  function Effect(side: Side, m: Movement): int {
    if (side == Asset && m.kind == Debit) || (side == Liability && m.kind == Credit) then -m.minor else m.minor
  }

  function Opening(baseline: Totals, c: string): int { if c in baseline then baseline[c] else 0 }

  /** The opening amount of a currency plus the signed sum of its later movements, over all integers. */
  function Balance(side: Side, baseline: Totals, asOf: Instant, ms: seq<Movement>, c: string): int {
    if ms == [] then Opening(baseline, c)
    else
      var last := ms[|ms| - 1];
      Balance(side, baseline, asOf, ms[..|ms| - 1], c)
      + if last.currency == c && Counts(last, asOf) then Effect(side, last) else 0
  }

  function Currencies(baseline: Totals, asOf: Instant, ms: seq<Movement>): set<string> {
    if ms == [] then baseline.Keys
    else
      var last := ms[|ms| - 1];
      Currencies(baseline, asOf, ms[..|ms| - 1]) + if Counts(last, asOf) then {last.currency} else {}
  }

  /** Some prefix of the movements takes its last currency out of range. */
  predicate Overflows(side: Side, baseline: Totals, asOf: Instant, ms: seq<Movement>) {
    exists k :: 0 <= k < |ms| && Counts(ms[k], asOf) && !InRange(Balance(side, baseline, asOf, ms[..k + 1], ms[k].currency))
  }

  /** The running totals of the first movements. */
  ghost predicate Running(side: Side, baseline: Totals, asOf: Instant, ms: seq<Movement>, totals: Totals) {
    && totals.Keys == Currencies(baseline, asOf, ms)
    && forall c :: Opening(totals, c) == Balance(side, baseline, asOf, ms, c)
  }

  lemma BalanceStep(side: Side, baseline: Totals, asOf: Instant, ms: seq<Movement>, k: nat, totals: Totals)
    requires k < |ms| && Running(side, baseline, asOf, ms[..k], totals)
    ensures var m := ms[k];
            if !Counts(m, asOf) then Running(side, baseline, asOf, ms[..k + 1], totals)
            else
              var next := Opening(totals, m.currency) + Effect(side, m);
              next == Balance(side, baseline, asOf, ms[..k + 1], m.currency) &&
              Running(side, baseline, asOf, ms[..k + 1], totals[m.currency := next])
  {
    var m := ms[k];
    assert ms[..k + 1][..k] == ms[..k];
    if Counts(m, asOf) {
      var next := totals[m.currency := Opening(totals, m.currency) + Effect(side, m)];
      forall c
        ensures Opening(next, c) == Balance(side, baseline, asOf, ms[..k + 1], c)
      {
        assert Opening(totals, c) == Balance(side, baseline, asOf, ms[..k], c);
      }
    }
  }

  /** Exact per currency whenever it returns; it fails exactly when some prefix leaves the 64-bit range. */
  method BalanceView(side: Side, baseline: Totals, asOf: Instant, ms: seq<Movement>) returns (r: Result<Totals, Error>)
    requires AllInRange(baseline) && forall i :: 0 <= i < |ms| ==> InRange(ms[i].minor)
    ensures r.Failure? <==> Overflows(side, baseline, asOf, ms)
    ensures r.Success? ==> r.value.Keys == Currencies(baseline, asOf, ms) && AllInRange(r.value)
    ensures r.Success? ==> forall c :: c in r.value ==> r.value[c] == Balance(side, baseline, asOf, ms, c)
  {
    var totals := baseline;
    for i := 0 to |ms|
      invariant Running(side, baseline, asOf, ms[..i], totals) && AllInRange(totals)
      invariant forall k :: 0 <= k < i && Counts(ms[k], asOf) ==>
                  InRange(Balance(side, baseline, asOf, ms[..k + 1], ms[k].currency))
    {
      var m := ms[i];
      BalanceStep(side, baseline, asOf, ms, i, totals);
      hide Balance, Currencies, Running;
      if !(m.at > asOf) || m.minor < 0 { continue; }
      var delta := m.minor;
      if (side == Asset && m.kind == Debit) || (side == Liability && m.kind == Credit) {
        delta := -delta;
      }
      var current := if m.currency in totals then totals[m.currency] else 0;
      if (delta > 0 && current > MAX_INT64 - delta) || (delta < 0 && current < MIN_INT64 - delta) {
        assert !InRange(Balance(side, baseline, asOf, ms[..i + 1], m.currency));
        return Failure(OutOfRange);
      }
      totals := totals[m.currency := current + delta];
    }
    assert ms[..|ms|] == ms;
    r := Success(totals);
  }

  // ---- what the totals are ------------------------------------------------------------------------------

  /** All money of one kind and currency that moved strictly after the opening balance. */
  function Moved(kind: Kind, ms: seq<Movement>, asOf: Instant, c: string): int {
    if ms == [] then 0
    else
      (if ms[0].kind == kind && ms[0].currency == c && asOf < ms[0].at && 0 <= ms[0].minor then ms[0].minor else 0)
      + Moved(kind, ms[1..], asOf, c)
  }

  lemma {:induction false} MovedBeforeLast(kind: Kind, ms: seq<Movement>, m: Movement, asOf: Instant, c: string)
    ensures Moved(kind, ms + [m], asOf, c) == Moved(kind, ms, asOf, c) + Moved(kind, [m], asOf, c)
  {
    if ms == [] {
      assert ms + [m] == [m];
    } else {
      MovedBeforeLast(kind, ms[1..], m, asOf, c);
      assert (ms + [m])[1..] == ms[1..] + [m];
    }
  }

  /** An asset is its opening amount plus what came in minus what went out; a liability grows the other way. */
  lemma {:induction false} BalanceIs(baseline: Totals, asOf: Instant, ms: seq<Movement>, c: string)
    ensures var first := if c in baseline then baseline[c] else 0;
            && Balance(Asset, baseline, asOf, ms, c) == first + Moved(Credit, ms, asOf, c) - Moved(Debit, ms, asOf, c)
            && Balance(Liability, baseline, asOf, ms, c) == first + Moved(Debit, ms, asOf, c) - Moved(Credit, ms, asOf, c)
  {
    if ms != [] {
      var n := |ms| - 1;
      BalanceIs(baseline, asOf, ms[..n], c);
      MovedBeforeLast(Credit, ms[..n], ms[n], asOf, c);
      MovedBeforeLast(Debit, ms[..n], ms[n], asOf, c);
      assert ms == ms[..n] + [ms[n]];
      assert [ms[n]][1..] == [];
    }
  }

  /** A currency is shown iff it has an opening amount or a movement after it. */
  lemma {:induction false} CurrenciesAre(baseline: Totals, asOf: Instant, ms: seq<Movement>, c: string)
    ensures c in Currencies(baseline, asOf, ms) <==>
            c in baseline || exists k :: 0 <= k < |ms| && ms[k].currency == c && asOf < ms[k].at && 0 <= ms[k].minor
  {
    if ms != [] {
      var n := |ms| - 1;
      CurrenciesAre(baseline, asOf, ms[..n], c);
      assert forall k :: 0 <= k < n ==> ms[..n][k] == ms[k];
      if k :| 0 <= k < n && ms[k].currency == c && asOf < ms[k].at && 0 <= ms[k].minor {
        assert ms[..n][k].currency == c;
      }
    }
  }

  /** The view fails iff a movement takes the running total of its currency out of a signed 64-bit integer. */
  lemma OverflowsExactlyWhen(side: Side, baseline: Totals, asOf: Instant, ms: seq<Movement>)
    ensures Overflows(side, baseline, asOf, ms) <==>
            exists k :: 0 <= k < |ms| && asOf < ms[k].at && 0 <= ms[k].minor &&
              var c, upTo := ms[k].currency, ms[..k + 1];
              var change := Moved(Credit, upTo, asOf, c) - Moved(Debit, upTo, asOf, c);
              var total := (if c in baseline then baseline[c] else 0) + if side == Asset then change else -change;
              !(-9223372036854775808 <= total <= 9223372036854775807)
  {
    forall k | 0 <= k < |ms|
      ensures var c, upTo := ms[k].currency, ms[..k + 1];
              var change := Moved(Credit, upTo, asOf, c) - Moved(Debit, upTo, asOf, c);
              Balance(side, baseline, asOf, upTo, c) ==
              (if c in baseline then baseline[c] else 0) + if side == Asset then change else -change
    {
      BalanceIs(baseline, asOf, ms[..k + 1], ms[k].currency);
    }
    hide Balance, Moved;
  }

  // ---- the sums do not depend on the order, and a payoff keeps net worth ------------------------------

  /** A movement changes its currency's balance by its effect wherever it stands among the others. */
  lemma {:induction false} BalanceWithMovement(
    side: Side, baseline: Totals, asOf: Instant, before: seq<Movement>, m: Movement, after: seq<Movement>, c: string)
    ensures Balance(side, baseline, asOf, before + [m] + after, c)
            == Balance(side, baseline, asOf, before + after, c)
               + if m.currency == c && Counts(m, asOf) then Effect(side, m) else 0
  {
    if after == [] {
      assert before + [m] + after == before + [m];
      assert before + after == before;
      assert (before + [m])[..|before|] == before;
    } else {
      var n := |after| - 1;
      BalanceWithMovement(side, baseline, asOf, before, m, after[..n], c);
      assert (before + [m] + after)[..|before| + 1 + n] == before + [m] + after[..n];
      assert (before + after)[..|before| + n] == before + after[..n];
    }
  }

  /**
   * A payoff of a liability from an asset, after both opening balances, moves both by the same amount:
   * assets minus liabilities stay as they were, in every currency.
   */
  lemma PayoffKeepsNetWorth(
    assets: Totals, assetsAsOf: Instant, a: seq<Movement>, a': seq<Movement>, debts: Totals, debtsAsOf: Instant,
    d: seq<Movement>, d': seq<Movement>, amount: nat, currency: string, paidAt: Instant, receivedAt: Instant, c: string)
    requires paidAt > assetsAsOf && receivedAt > debtsAsOf
    ensures var debit, credit := Movement(Debit, currency, amount, paidAt), Movement(Credit, currency, amount, receivedAt);
            Balance(Asset, assets, assetsAsOf, a + [debit] + a', c) - Balance(Liability, debts, debtsAsOf, d + [credit] + d', c)
            == Balance(Asset, assets, assetsAsOf, a + a', c) - Balance(Liability, debts, debtsAsOf, d + d', c)
  {
    BalanceWithMovement(Asset, assets, assetsAsOf, a, Movement(Debit, currency, amount, paidAt), a', c);
    BalanceWithMovement(Liability, debts, debtsAsOf, d, Movement(Credit, currency, amount, receivedAt), d', c);
  }
}
