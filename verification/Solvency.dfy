/** For a solvent module the conservation law has an exact condition on the start state. */
module Solvency {
  import opened Bytes
  import opened DecCoins
  import opened StakingTypes
  import opened FeeDistribution
  import opened FeeInvariant
  import opened ZeroHeight
  import opened Conservation
  import opened Rebuild
  import opened Restart

  /** The whole coins of commission that are owed to refused accounts, in units of 10^-18. */
  ghost function RefusedCommission(s: State, order: seq<Addr>, refused: set<Addr>, d: Denom): nat
    decreases |order|
  {
    if order == [] then 0
    else
      var v := order[|order| - 1];
      RefusedCommission(s, order[..|order| - 1], refused, d) +
      if v in refused then Of(Whole(CommissionOf(s, v)), d) * ONE else 0
  }

  /** A solvent module can always cover a commission, so only a refused account stays unpaid. */
  lemma SolventPays(s: State, order: seq<Addr>, v: Addr, refused: set<Addr>, d: Denom)
    requires Solvent(s, order) && v in order && CommissionBacked(s, v)
    ensures Unpaid(s, v, refused, d) == if v in refused then Of(Whole(CommissionOf(s, v)), d) * ONE else 0
  {
    var w := Whole(CommissionOf(s, v));
    forall e ensures Of(w, e) <= Of(s.balance, e) {
      assert Of(w, e) * ONE <= Of(CommissionOf(s, v), e) <= Of(OutstandingOf(s, v), e);
      SumBounds(s, order, v, e);
      assert Gap(s, order, e) >= 0;
    }
    CoversMeans(s.balance, w);
    ZeroAmounts(w);
  }

  lemma UnpaidElsewhere(s: State, before: State, order: seq<Addr>, v: Addr, refused: set<Addr>, d: Denom)
    requires SameFor(s, before, v) && CommissionBacked(s, v) && Solvent(before, order) && v in order
    ensures Unpaid(before, v, refused, d) == if v in refused then Of(Whole(CommissionOf(s, v)), d) * ONE else 0
  {
    SolventPays(before, order, v, refused, d);
  }

  lemma SolventBefore(s: State, stakes: map<Key, Stake>, order: seq<Addr>, dels: seq<Delegation>, height: nat,
      refused: set<Addr>, i: nat)
    requires Ready(s, stakes, order, dels, height) && Solvent(s, order) && i < |order|
    ensures var before := WithdrawCommissions(s, order[..i], refused).state;
      Solvent(before, order) && SameFor(s, before, order[i]) && CommissionBacked(s, order[i])
  {
    CommissionPass(s, stakes, order, dels, height, refused, i);
    assert order[i] !in order[..i] && order[i] in order;
    forall e ensures Gap(WithdrawCommissions(s, order[..i], refused).state, order, e) >= 0 {
      CommissionGap(s, stakes, order, dels, height, refused, i, e);
      assert Gap(s, order, e) >= 0;
    }
  }

  lemma {:induction false} UnpaidIsRefused(s: State, stakes: map<Key, Stake>, order: seq<Addr>, dels: seq<Delegation>,
      height: nat, refused: set<Addr>, i: nat, d: Denom)
    requires Ready(s, stakes, order, dels, height) && Solvent(s, order) && i <= |order|
    ensures UnpaidTotal(s, order[..i], refused, d) == RefusedCommission(s, order[..i], refused, d)
    decreases i
  {
    if i > 0 {
      UnpaidIsRefused(s, stakes, order, dels, height, refused, i - 1, d);
      assert order[..i][..i - 1] == order[..i - 1] && order[..i][i - 1] == order[i - 1];
      SolventBefore(s, stakes, order, dels, height, refused, i - 1);
      UnpaidElsewhere(s, WithdrawCommissions(s, order[..i - 1], refused).state, order, order[i - 1], refused, d);
    } else {
      assert order[..0] == [];
    }
  }

  lemma {:induction false} RefusedPositive(s: State, order: seq<Addr>, refused: set<Addr>, v: Addr, d: Denom)
    requires v in order && v in refused
    ensures RefusedCommission(s, order, refused, d) >= Of(Whole(CommissionOf(s, v)), d) * ONE
    decreases |order|
  {
    var n := |order| - 1;
    if order[n] != v {
      RefusedPositive(s, order[..n], refused, v, d);
    }
  }

  lemma {:induction false} RefusedZero(s: State, order: seq<Addr>, refused: set<Addr>, d: Denom)
    requires forall v :: v in order && v in refused ==> IsZero(Whole(CommissionOf(s, v)))
    ensures RefusedCommission(s, order, refused, d) == 0
    decreases |order|
  {
    if order != [] {
      var v := order[|order| - 1];
      RefusedZero(s, order[..|order| - 1], refused, d);
      if v in refused { ZeroAmounts(Whole(CommissionOf(s, v))); }
    }
  }

  /** No validator with a refused withdraw address has a whole coin of commission to withdraw. */
  ghost predicate NoCommissionRefused(s: State, order: seq<Addr>, refused: set<Addr>)
  {
    forall v :: v in order && v in refused ==> IsZero(Whole(CommissionOf(s, v)))
  }

  /**
   Balance against pool and outstanding rewards is conserved across the whole preparation if and
   only if no whole coin of commission belongs to a refused account.
   */
  lemma ConservationIsExact(s: State, stakes: map<Key, Stake>, order: seq<Addr>, dels: seq<Delegation>, height: nat,
      refused: set<Addr>)
    requires Ready(s, stakes, order, dels, height) && AllKnown(stakes, dels) && Solvent(s, order)
    ensures var t := PrepareDistribution(s, stakes, order, dels, height, refused).state;
      && (forall d :: Gap(t, order, d) == Gap(s, order, d) + RefusedCommission(s, order, refused, d))
      && ((forall d :: Gap(t, order, d) == Gap(s, order, d)) <==> NoCommissionRefused(s, order, refused))
  {
    var t := PrepareDistribution(s, stakes, order, dels, height, refused).state;
    forall d ensures Gap(t, order, d) == Gap(s, order, d) + RefusedCommission(s, order, refused, d) {
      PreparationBooks(s, stakes, order, dels, height, refused, d);
      assert order[..|order|] == order;
      UnpaidIsRefused(s, stakes, order, dels, height, refused, |order|, d);
    }
    if NoCommissionRefused(s, order, refused) {
      forall d ensures Gap(t, order, d) == Gap(s, order, d) { RefusedZero(s, order, refused, d); }
    } else {
      var v :| v in order && v in refused && !IsZero(Whole(CommissionOf(s, v)));
      var w := Whole(CommissionOf(s, v));
      ZeroAmounts(w);
      var d :| Of(w, d) != 0;
      RefusedPositive(s, order, refused, v, d);
      assert Gap(t, order, d) != Gap(s, order, d);
    }
  }

  // ---- The failing side is inhabited ----

  /** A validator without delegations whose whole commission, one coin, is still to be withdrawn. */
  function OwedCommission(v: Addr, d: Denom): State
  {
    State(map[d := 1], ZERO, map[v := map[d := ONE]], map[v := map[d := ONE]], map[v := Current(ZERO, 1)],
          map[(v, 0) := Record(ZERO, 1)], map[], map[])
  }

  /**
   A well-formed, solvent start whose books do not balance afterwards: the one validator's withdraw
   address is refused. Such an address is possible, because it is compared with the blocked accounts
   only when a delegator sets it: one imported with a genesis file, or blocked by a later version of
   the application, is refused at the withdrawal.
   */
  lemma RefusedCommissionLeaks(v: Addr, d: Denom, height: nat)
    ensures var s, stakes := OwedCommission(v, d), map[ValidatorKey(v) := Stake(1, ONE)];
      && Ready(s, stakes, [v], [], height) && AllKnown(stakes, []) && Solvent(s, [v])
      && !NoCommissionRefused(s, [v], {v})
      && Gap(s, [v], d) == 0
      && Gap(PrepareDistribution(s, stakes, [v], [], height, {v}).state, [v], d) == ONE
  {
    var s, stakes := OwedCommission(v, d), map[ValidatorKey(v) := Stake(1, ONE)];
    OneValidator(v);
    OwedIsOk(v, d, height);
    forall e ensures Gap(s, [v], e) == 0 { OwedGap(v, d, e); }
    assert Whole(CommissionOf(s, v))[d] == 1;
    ConservationIsExact(s, stakes, [v], [], height, {v});
    assert RefusedCommission(s, [v], {v}, d) == RefusedCommission(s, [], {v}, d) + ONE;
  }

  lemma OwedGap(v: Addr, d: Denom, e: Denom)
    ensures Gap(OwedCommission(v, d), [v], e) == 0
  {
    var s := OwedCommission(v, d);
    assert SumOutstanding(s, [v], e) == SumOutstanding(s, [], e) + Of(OutstandingOf(s, v), e);
  }

  lemma OneValidator(v: Addr)
    ensures ListsValidators([v], map[ValidatorKey(v) := Stake(1, ONE)])
  {
    forall w: Addr | ValidatorKey(w) == ValidatorKey(v) ensures w == v {
      KeyRoundTrip(v);
      KeyRoundTrip(w);
    }
  }

  lemma OwedIsOk(v: Addr, d: Denom, height: nat)
    ensures ValidatorOk(OwedCommission(v, d), Stake(1, ONE), [], v, height)
  {
  }
}
