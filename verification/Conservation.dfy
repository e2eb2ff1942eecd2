/**
 The module balance against what the module owes. Every operation conserves the difference,
 except a commission that is written off and then refused by the bank.
 */
module Conservation {
  import opened Bytes
  import opened DecCoins
  import opened StakingTypes
  import opened FeeDistribution
  import opened FeeInvariant
  import opened ZeroHeight

  /** All outstanding rewards in one denomination. */
  ghost function SumOutstanding(s: State, order: seq<Addr>, d: Denom): nat
    decreases |order|
  {
    if order == [] then 0
    else SumOutstanding(s, order[..|order| - 1], d) + Of(OutstandingOf(s, order[|order| - 1]), d)
  }

  /** What the module holds beyond the community pool and the outstanding rewards, in units of 10^-18. */
  ghost function Gap(s: State, order: seq<Addr>, d: Denom): int
  {
    Of(s.balance, d) * ONE - Of(s.pool, d) - SumOutstanding(s, order, d)
  }

  ghost predicate Solvent(s: State, order: seq<Addr>)
  {
    forall d :: Gap(s, order, d) >= 0
  }

  lemma {:induction false} SumElsewhere(s: State, t: State, order: seq<Addr>, d: Denom)
    requires forall i :: 0 <= i < |order| ==> Of(OutstandingOf(s, order[i]), d) == Of(OutstandingOf(t, order[i]), d)
    ensures SumOutstanding(s, order, d) == SumOutstanding(t, order, d)
    decreases |order|
  {
    if order != [] {
      SumElsewhere(s, t, order[..|order| - 1], d);
    }
  }

  lemma {:induction false} SumChange(s: State, t: State, order: seq<Addr>, v: Addr, d: Denom)
    requires Unique(order) && v in order
    requires forall w :: w in order && w != v ==> OutstandingOf(s, w) == OutstandingOf(t, w)
    ensures SumOutstanding(t, order, d) - SumOutstanding(s, order, d) ==
      Of(OutstandingOf(t, v), d) - Of(OutstandingOf(s, v), d)
    decreases |order|
  {
    var n := |order| - 1;
    var front := order[..n];
    if order[n] == v {
      SumElsewhere(s, t, front, d);
    } else {
      SumChange(s, t, front, v, d);
    }
  }

  lemma {:induction false} SumBounds(s: State, order: seq<Addr>, v: Addr, d: Denom)
    requires v in order
    ensures Of(OutstandingOf(s, v), d) <= SumOutstanding(s, order, d)
    decreases |order|
  {
    var n := |order| - 1;
    if order[n] != v {
      SumBounds(s, order[..n], v, d);
    }
  }

  // ---- Single operations ----

  lemma IncrementConserves(s: State, order: seq<Addr>, v: Addr, tokens: nat, d: Denom)
    requires Unique(order) && v in order && IncrementPeriod(s, v, tokens).status.Done?
    ensures Gap(IncrementPeriod(s, v, tokens).state, order, d) == Gap(s, order, d)
  {
    var t, u := IncrementPeriod(s, v, tokens).state, s;
    IncrementRest(s, v, tokens);
    IncrementFunds(s, v, tokens);
    if tokens == 0 {
      DonateConserves(s, order, v, d);
      u := DonateCurrent(s, v);
    }
    FundsUntouched(u, t, order, d);
  }

  lemma DonateConserves(s: State, order: seq<Addr>, v: Addr, d: Denom)
    requires Unique(order) && v in order && Covers(OutstandingOf(s, v), CurrentOf(s, v).rewards)
    ensures Gap(DonateCurrent(s, v), order, d) == Gap(s, order, d)
  {
    SumChange(s, DonateCurrent(s, v), order, v, d);
  }

  lemma PayConserves(s: State, order: seq<Addr>, v: Addr, rewards: Coins, d: Denom)
    requires Unique(order) && v in order
    requires Covers(OutstandingOf(s, v), rewards) && Covers(s.balance, Whole(rewards))
    ensures Gap(PayRewards(s, v, rewards), order, d) == Gap(s, order, d)
  {
    SumChange(s, PayRewards(s, v, rewards), order, v, d);
    assert Of(Dust(rewards), d) == Of(rewards, d) - Of(Whole(rewards), d) * ONE;
  }

  lemma FundsUntouched(s: State, t: State, order: seq<Addr>, d: Denom)
    requires t.balance == s.balance && t.pool == s.pool && t.outstanding == s.outstanding
    ensures Gap(t, order, d) == Gap(s, order, d)
  {
    SumElsewhere(s, t, order, d);
  }

  /** A reward withdrawal conserves every denomination, dust included, whatever its outcome. */
  lemma WithdrawConserves(s: State, stakes: map<Key, Stake>, order: seq<Addr>, dels: seq<Delegation>, k: nat,
      height: nat, refused: set<Addr>, d: Denom)
    requires WellFormed(s, stakes, dels, height) && k < |dels| && ListsValidators(order, stakes)
    ensures Gap(WithdrawRewards(s, stakes, dels[k], height, refused).state, order, d) == Gap(s, order, d)
  {
    var del, v := dels[k], dels[k].validator;
    var r := WithdrawRewards(s, stakes, del, height, refused);
    if ValidatorKey(v) in stakes && (v, del.delegator) in s.infos {
      var stake := stakes[ValidatorKey(v)];
      assert ValidatorOk(s, stake, dels, v, height);
      var ended, rewards := Withdrawal(s, stakes, dels, k, height, refused);
      IncrementConserves(s, order, v, stake.tokens, d);
      if r.status.Done? {
        PayConserves(ended, order, v, rewards, d);
        FundsUntouched(PayRewards(ended, v, rewards), r.state, order, d);
      }
    }
  }

  /** What a refused commission leaves unowed in the module. */
  ghost function Unpaid(s: State, v: Addr, refused: set<Addr>, d: Denom): nat
  {
    if PayoutFails(s, v, Whole(CommissionOf(s, v)), refused) then Of(Whole(CommissionOf(s, v)), d) * ONE else 0
  }

  lemma CommissionConserves(s: State, order: seq<Addr>, v: Addr, refused: set<Addr>, d: Denom)
    requires Unique(order) && v in order && !WithdrawCommission(s, v, refused).status.Panicked?
    ensures Gap(WithdrawCommission(s, v, refused).state, order, d) == Gap(s, order, d) + Unpaid(s, v, refused, d)
  {
    if IsZero(CommissionOf(s, v)) {
      assert IsZero(Whole(CommissionOf(s, v)));
    } else {
      WriteOffFrees(s, order, v, d);
      if !PayoutFails(WriteOff(s, v), v, Whole(CommissionOf(s, v)), refused) {
        PaymentUses(WriteOff(s, v), order, Whole(CommissionOf(s, v)), d);
      }
    }
  }

  lemma WriteOffFrees(s: State, order: seq<Addr>, v: Addr, d: Denom)
    requires Unique(order) && v in order && Covers(OutstandingOf(s, v), ToDec(Whole(CommissionOf(s, v))))
    ensures Gap(WriteOff(s, v), order, d) == Gap(s, order, d) + Of(Whole(CommissionOf(s, v)), d) * ONE
  {
    SumChange(s, WriteOff(s, v), order, v, d);
  }

  lemma PaymentUses(s: State, order: seq<Addr>, paid: Coins, d: Denom)
    requires Covers(s.balance, paid)
    ensures Gap(s.(balance := Sub(s.balance, paid)), order, d) == Gap(s, order, d) - Of(paid, d) * ONE
  {
    SumElsewhere(s, s.(balance := Sub(s.balance, paid)), order, d);
  }

  lemma ReinitConserves(s: State, order: seq<Addr>, v: Addr, d: Denom)
    requires Unique(order) && v in order
    ensures Gap(ReinitValidator(s, v), order, d) == Gap(s, order, d)
  {
    SumChange(s, ReinitValidator(s, v), order, v, d);
  }

  // ---- Passes ----

  /** The start of pass one: what a validator is owed as commission and for the open period is outstanding. */
  ghost predicate CommissionBacked(s: State, v: Addr)
  {
    forall d :: Of(CommissionOf(s, v), d) + Of(CurrentOf(s, v).rewards, d) <= Of(OutstandingOf(s, v), d)
  }

  /** WithdrawValidatorCommission under its precondition: never a panic, and the invariant holds afterwards. */
  lemma CommissionKeepsWellFormed(s: State, stakes: map<Key, Stake>, dels: seq<Delegation>, v: Addr, height: nat,
      refused: set<Addr>)
    requires WellFormed(s, stakes, dels, height) && CommissionBacked(s, v)
    ensures !WithdrawCommission(s, v, refused).status.Panicked?
    ensures WellFormed(WithdrawCommission(s, v, refused).state, stakes, dels, height)
    ensures forall w: Addr :: w != v ==> SameFor(s, WithdrawCommission(s, v, refused).state, w)
  {
    var t := WithdrawCommission(s, v, refused).state;
    CommissionCovered(s, v);
    CommissionShape(s, v, refused);
    if ValidatorKey(v) in stakes {
      assert ValidatorOk(s, stakes[ValidatorKey(v)], dels, v, height);
      FundsKeepOk(s, t, stakes[ValidatorKey(v)], dels, v, height);
    }
    forall w: Addr | w != v ensures SameFor(s, t, w) { SameFundsElsewhere(s, t, v, w); }
    WellFormedElsewhere(s, t, stakes, dels, v, height);
  }

  lemma CommissionShape(s: State, v: Addr, refused: set<Addr>)
    requires CommissionBacked(s, v)
    ensures var r := WithdrawCommission(s, v, refused);
      && !r.status.Panicked?
      && r.state == s.(balance := r.state.balance, outstanding := r.state.outstanding, commission := r.state.commission)
      && Covers(OutstandingOf(r.state, v), CurrentOf(s, v).rewards)
      && (r.state.outstanding == s.outstanding || r.state.outstanding == s.outstanding[v := OutstandingOf(r.state, v)])
      && (r.state.commission == s.commission || r.state.commission == s.commission[v := CommissionOf(r.state, v)])
  {
    CommissionCovered(s, v);
    CoversMeans(OutstandingOf(s, v), CurrentOf(s, v).rewards);
    WriteOffShape(s, v);
    var r := WithdrawCommission(s, v, refused);
    if !IsZero(CommissionOf(s, v)) {
      assert r.state.outstanding == WriteOff(s, v).outstanding && r.state.commission == WriteOff(s, v).commission;
    }
  }

  lemma WriteOffShape(s: State, v: Addr)
    requires Covers(OutstandingOf(s, v), ToDec(Whole(CommissionOf(s, v))))
    ensures var t := WriteOff(s, v);
      && t == s.(outstanding := t.outstanding, commission := t.commission)
      && OutstandingOf(t, v) == Sub(OutstandingOf(s, v), ToDec(Whole(CommissionOf(s, v))))
      && t.outstanding == s.outstanding[v := OutstandingOf(t, v)]
      && t.commission == s.commission[v := CommissionOf(t, v)]
  {
  }

  lemma CommissionCovered(s: State, v: Addr)
    requires CommissionBacked(s, v)
    ensures var paid := ToDec(Whole(CommissionOf(s, v)));
      Covers(OutstandingOf(s, v), paid) && Covers(Sub(OutstandingOf(s, v), paid), CurrentOf(s, v).rewards)
  {
    var c, o, r := CommissionOf(s, v), OutstandingOf(s, v), CurrentOf(s, v).rewards;
    var paid := ToDec(Whole(c));
    forall d ensures Of(paid, d) + Of(r, d) <= Of(o, d) {
      assert Of(Whole(c), d) * ONE <= Of(c, d);
    }
    CoversMeans(o, paid);
    CoversMeans(Sub(o, paid), r);
  }

  /** What the refused commissions of a prefix of the validators leave unowed. */
  ghost function UnpaidTotal(s: State, order: seq<Addr>, refused: set<Addr>, d: Denom): nat
    decreases |order|
  {
    if order == [] then 0
    else
      var front, last := order[..|order| - 1], order[|order| - 1];
      UnpaidTotal(s, front, refused, d) + Unpaid(WithdrawCommissions(s, front, refused).state, last, refused, d)
  }

  /** Pass one over the first i validators: it completes, keeps the invariant and leaves the later validators alone. */
  lemma {:induction false} CommissionPass(s: State, stakes: map<Key, Stake>, order: seq<Addr>, dels: seq<Delegation>,
      height: nat, refused: set<Addr>, i: nat)
    requires WellFormed(s, stakes, dels, height) && ListsValidators(order, stakes) && i <= |order|
    requires forall v: Addr :: v in order ==> CommissionBacked(s, v)
    ensures var r := WithdrawCommissions(s, order[..i], refused);
      && r.status.Done?
      && WellFormed(r.state, stakes, dels, height)
      && (forall w: Addr :: w !in order[..i] ==> SameFor(s, r.state, w))
    decreases i
  {
    if i > 0 {
      CommissionPass(s, stakes, order, dels, height, refused, i - 1);
      var before, v := WithdrawCommissions(s, order[..i - 1], refused).state, order[i - 1];
      var r := WithdrawCommissions(s, order[..i], refused);
      assert order[..i][..i - 1] == order[..i - 1] && order[..i][i - 1] == v;
      assert v !in order[..i - 1];
      BackedElsewhere(s, before, v);
      CommissionKeepsWellFormed(before, stakes, dels, v, height, refused);
      forall w: Addr | w !in order[..i] ensures SameFor(s, r.state, w) {
        assert w !in order[..i - 1] && w != v;
        SameForTransitive(s, before, r.state, w);
      }
    } else {
      assert order[..0] == [];
    }
  }

  lemma BackedElsewhere(s: State, t: State, v: Addr)
    requires CommissionBacked(s, v) && SameFor(s, t, v)
    ensures CommissionBacked(t, v)
  {
  }

  /** Pass one changes the gap by the refused commissions alone. */
  lemma {:induction false} CommissionGap(s: State, stakes: map<Key, Stake>, order: seq<Addr>, dels: seq<Delegation>,
      height: nat, refused: set<Addr>, i: nat, d: Denom)
    requires WellFormed(s, stakes, dels, height) && ListsValidators(order, stakes) && i <= |order|
    requires forall v: Addr :: v in order ==> CommissionBacked(s, v)
    ensures Gap(WithdrawCommissions(s, order[..i], refused).state, order, d) ==
      Gap(s, order, d) + UnpaidTotal(s, order[..i], refused, d)
    decreases i
  {
    if i > 0 {
      CommissionGap(s, stakes, order, dels, height, refused, i - 1, d);
      CommissionPass(s, stakes, order, dels, height, refused, i - 1);
      CommissionPass(s, stakes, order, dels, height, refused, i);
      assert order[..i][..i - 1] == order[..i - 1] && order[..i][i - 1] == order[i - 1];
      CommissionConserves(WithdrawCommissions(s, order[..i - 1], refused).state, order, order[i - 1], refused, d);
    } else {
      assert order[..0] == [];
    }
  }

  /** Pass two over the first i delegations of the snapshot. */
  lemma {:induction false} RewardsPass(s: State, stakes: map<Key, Stake>, dels: seq<Delegation>, height: nat,
      refused: set<Addr>, i: nat)
    requires WellFormed(s, stakes, dels, height) && i <= |dels|
    ensures var r := WithdrawAllRewards(s, stakes, dels[..i], height, refused);
      r.status.Done? && WellFormed(r.state, stakes, dels, height)
    decreases i
  {
    if i > 0 {
      RewardsPass(s, stakes, dels, height, refused, i - 1);
      assert dels[..i][..i - 1] == dels[..i - 1];
      WithdrawKeepsWellFormed(WithdrawAllRewards(s, stakes, dels[..i - 1], height, refused).state, stakes, dels, i - 1,
        height, refused);
    } else {
      assert dels[..0] == [];
    }
  }

  /** One more withdrawal of pass two. */
  lemma RewardsNext(s: State, stakes: map<Key, Stake>, dels: seq<Delegation>, height: nat, refused: set<Addr>, i: nat)
      returns (before: State)
    requires WellFormed(s, stakes, dels, height) && i < |dels|
    ensures WithdrawAllRewards(s, stakes, dels[..i], height, refused) == Step(before, Done)
    ensures WellFormed(before, stakes, dels, height)
    ensures WithdrawAllRewards(s, stakes, dels[..i + 1], height, refused).state ==
      WithdrawRewards(before, stakes, dels[i], height, refused).state
  {
    RewardsPass(s, stakes, dels, height, refused, i);
    before := WithdrawAllRewards(s, stakes, dels[..i], height, refused).state;
    assert dels[..i + 1][..i] == dels[..i];
  }

  /** Pass two conserves the gap. */
  lemma {:induction false} RewardsGap(s: State, stakes: map<Key, Stake>, order: seq<Addr>, dels: seq<Delegation>,
      height: nat, refused: set<Addr>, i: nat, d: Denom)
    requires WellFormed(s, stakes, dels, height) && ListsValidators(order, stakes) && i <= |dels|
    ensures Gap(WithdrawAllRewards(s, stakes, dels[..i], height, refused).state, order, d) == Gap(s, order, d)
    decreases i
  {
    if i > 0 {
      RewardsGap(s, stakes, order, dels, height, refused, i - 1, d);
      var before := RewardsNext(s, stakes, dels, height, refused, i - 1);
      WithdrawConserves(before, stakes, order, dels, i - 1, height, refused, d);
    } else {
      assert dels[..0] == [];
    }
  }
}
