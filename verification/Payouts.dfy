/**
 Who is paid, and how much. The coins that leave the module are counted on its balance and compared
 with what the delegators have earned, so that a reward kept back, cut or paid twice is noticed.
 */
module Payouts {
  import opened Bytes
  import opened DecCoins
  import opened StakingTypes
  import opened FeeDistribution
  import opened FeeInvariant
  import opened ZeroHeight
  import opened Conservation
  import opened Rebuild
  import opened Restart
  import opened CleanRestart
  import opened Dues
  import opened Overdraft
  import opened Amounts
  import opened Lifetime

  /** The cumulative ratio that closing v's open period would reach. */
  ghost function ClosingRatio(s: State, stakes: map<Key, Stake>, v: Addr, d: Denom): nat
  {
    var last := if CurrentOf(s, v).period > 0 then Ratio(s, v, CurrentOf(s, v).period - 1, d) else 0;
    if ValidatorKey(v) in stakes && stakes[ValidatorKey(v)].tokens > 0
    then last + Of(CurrentOf(s, v).rewards, d) / stakes[ValidatorKey(v)].tokens
    else last
  }

  /** What a delegation is due once the open period is closed, in units of 10^-36. */
  ghost function DueAtClose(s: State, stakes: map<Key, Stake>, del: Delegation, d: Denom): int
  {
    Due(s, del, d, ClosingRatio(s, stakes, del.validator, d))
  }

  /** A delegation that a withdrawal pays: it has an info from an earlier block, and its account is not refused. */
  ghost predicate Payable(s: State, stakes: map<Key, Stake>, del: Delegation, height: nat, refused: set<Addr>)
  {
    var key := (del.validator, del.delegator);
    ValidatorKey(del.validator) in stakes && key in s.infos && s.infos[key].height != height &&
      del.delegator !in refused
  }

  /**
   `paid` whole coins are what the delegation is due, less than one coin short, and less than 10^-18 short
   for each stretch between its slash events. Any other delegation is paid nothing.
   */
  ghost predicate Pays(s: State, stakes: map<Key, Stake>, del: Delegation, height: nat, refused: set<Addr>, d: Denom,
      paid: nat)
  {
    if Payable(s, stakes, del, height, refused) then
      var from := s.infos[(del.validator, del.delegator)].previous;
      Within(paid, DueAtClose(s, stakes, del, d), Stretches(from, SlashesOf(s, del.validator)))
    else paid == 0
  }

  ghost predicate Within(paid: nat, due: int, stretches: nat)
  {
    paid * ONE * ONE <= due < (paid + 1) * ONE * ONE + stretches * ONE
  }

  // ---- One withdrawal ----

  lemma DivisionIsUnique(x: nat, y: nat, q: nat)
    requires y > 0 && q * y <= x < (q + 1) * y
    ensures q == x / y
  {
    Quotient(x, y);
    if q < x / y { ScaleUp(q + 1, x / y, y); }
    if x / y < q { ScaleUp(x / y + 1, q, y); }
  }

  /** Closing the period reaches the closing ratio, which then stays. */
  lemma ClosingReached(s: State, ended: State, stakes: map<Key, Stake>, v: Addr, d: Denom)
    requires ValidatorKey(v) in stakes && IncrementPeriod(s, v, stakes[ValidatorKey(v)].tokens) == Step(ended, Done)
    ensures CurrentOf(ended, v).period > 0 &&
      Top(ended, v, d) == ClosingRatio(s, stakes, v, d) == ClosingRatio(ended, stakes, v, d)
  {
    var stake := stakes[ValidatorKey(v)];
    PeriodDistributes(s, ended, v, stake.tokens, d);
    if stake.tokens > 0 {
      var g := Growth(s, ended, stake, v, d);
      DivisionIsUnique(Of(CurrentOf(s, v).rewards, d), stake.tokens, g);
      ZeroShare(stake.tokens);
    }
  }

  lemma ZeroShare(tokens: nat)
    requires tokens > 0
    ensures 0 / tokens == 0
  {
  }

  /** A solvent module can pay whatever is outstanding. */
  lemma Affordable(s: State, order: seq<Addr>, v: Addr, rewards: Coins)
    requires Solvent(s, order) && v in order && Covers(OutstandingOf(s, v), rewards)
    ensures Covers(s.balance, Whole(rewards))
  {
    CoversMeans(OutstandingOf(s, v), rewards);
    forall e ensures Of(Whole(rewards), e) <= Of(s.balance, e) {
      assert Of(Whole(rewards), e) * ONE <= Of(rewards, e) <= Of(OutstandingOf(s, v), e);
      SumBounds(s, order, v, e);
      assert Gap(s, order, e) >= 0;
    }
    CoversMeans(s.balance, Whole(rewards));
  }

  lemma IncrementSolvent(s: State, order: seq<Addr>, v: Addr, tokens: nat)
    requires Solvent(s, order) && Unique(order) && v in order && IncrementPeriod(s, v, tokens).status.Done?
    ensures Solvent(IncrementPeriod(s, v, tokens).state, order)
  {
    forall d ensures Gap(IncrementPeriod(s, v, tokens).state, order, d) >= 0 {
      IncrementConserves(s, order, v, tokens, d);
      assert Gap(s, order, d) >= 0;
    }
  }

  lemma PaidBalance(ended: State, rewards: Coins, del: Delegation, stake: Stake, now: nat, r: Step, d: Denom)
    requires Paid(ended, rewards, del, stake, now, r)
    ensures Of(r.state.balance, d) == Of(ended.balance, d) - Of(Whole(rewards), d)
  {
    assert r.state.balance == PayRewards(ended, del.validator, rewards).balance;
  }

  /** The reward of a delegation against what it is due, before its whole coins are taken. */
  lemma RewardWithin(s: State, ended: State, stakes: map<Key, Stake>, dels: seq<Delegation>, k: nat, now: nat,
      rewards: Coins, d: Denom)
    requires k < |dels| && ValidatorKey(dels[k].validator) in stakes
    requires SolidValidator(s, stakes[ValidatorKey(dels[k].validator)], dels, dels[k].validator, now)
    requires SharesSum(dels, dels[k].validator) <= stakes[ValidatorKey(dels[k].validator)].shares
    requires IncrementPeriod(s, dels[k].validator, stakes[ValidatorKey(dels[k].validator)].tokens) == Step(ended, Done)
    requires var key := (dels[k].validator, dels[k].delegator);
      key in s.infos && s.infos[key].height != now && ended.infos == s.infos
    requires var v := dels[k].validator;
      var raw := DelegationRewards(ended, dels[k], stakes[ValidatorKey(v)], CurrentOf(s, v).period, now);
      raw.Defined? && rewards == Intersect(raw.rewards, OutstandingOf(ended, v))
    ensures var v, info := dels[k].validator, s.infos[(dels[k].validator, dels[k].delegator)];
      var due := DueAtClose(s, stakes, dels[k], d);
      Of(rewards, d) * ONE <= due < Of(rewards, d) * ONE + Stretches(info.previous, SlashesOf(s, v)) * ONE
  {
    var v, stake := dels[k].validator, stakes[ValidatorKey(dels[k].validator)];
    IncrementSolid(s, stake, dels, v, now);
    IncrementRest(s, v, stake.tokens);
    RewardsAreOutstanding(ended, stake, dels, k, now, d);
    PaidAtMostDue(ended, stake, dels, k, now, d);
    PaidAtLeastDue(ended, stake, dels, k, now, d);
    ClosingReached(s, ended, stakes, v, d);
    IncrementSameRatios(s, stake, dels, v, now);
    DueStays(s, ended, stake, stake, dels, k, now, d, Top(ended, v, d));
  }

  lemma WholeWithin(rewards: Coins, d: Denom, due: int, stretches: nat)
    requires Of(rewards, d) * ONE <= due < Of(rewards, d) * ONE + stretches * ONE
    ensures Within(Of(Whole(rewards), d), due, stretches)
  {
    assert Of(Whole(rewards), d) * ONE <= Of(rewards, d) < (Of(Whole(rewards), d) + 1) * ONE;
  }

  /** A withdrawal takes from the balance what its delegation is due, or nothing. */
  lemma WithdrawalPays(w: World, order: seq<Addr>, dels: seq<Delegation>, k: nat, refused: set<Addr>, d: Denom)
      returns (paid: nat)
    requires Solid(w, order, dels) && Solvent(w.state, order) && k < |dels|
    ensures Pays(w.state, w.stakes, dels[k], w.height, refused, d, paid)
    ensures Of(WithdrawRewards(w.state, w.stakes, dels[k], w.height, refused).state.balance, d) ==
      Of(w.state.balance, d) - paid
  {
    var del, v := dels[k], dels[k].validator;
    paid := 0;
    if ValidatorKey(v) in w.stakes && (v, del.delegator) in w.state.infos {
      var stake := w.stakes[ValidatorKey(v)];
      assert SolidAt(w, dels, v) && SharesSum(dels, v) <= stake.shares && v in order;
      var ended, rewards := Withdrawal(w.state, w.stakes, dels, k, w.height, refused);
      IncrementRest(w.state, v, stake.tokens);
      if del.delegator in refused {
        NothingRefused(ended, rewards, del, stake, w.height, refused,
          WithdrawRewards(w.state, w.stakes, del, w.height, refused), d);
      } else {
        IncrementSolvent(w.state, order, v, stake.tokens);
        Affordable(ended, order, v, rewards);
        PaidBalance(ended, rewards, del, stake, w.height,
          WithdrawRewards(w.state, w.stakes, del, w.height, refused), d);
        paid := Of(Whole(rewards), d);
        if w.state.infos[(v, del.delegator)].height == w.height {
          NothingYet(rewards, OutstandingOf(ended, v), d);
        } else {
          RewardWithin(w.state, ended, w.stakes, dels, k, w.height, rewards, d);
          var info := w.state.infos[(v, del.delegator)];
          WholeWithin(rewards, d, DueAtClose(w.state, w.stakes, del, d),
            Stretches(info.previous, SlashesOf(w.state, v)));
        }
      }
    }
  }

  /** So does one in a history. */
  lemma EventPays(w: World, order: seq<Addr>, dels: seq<Delegation>, k: nat, refused: set<Addr>, d: Denom)
      returns (paid: nat)
    requires Solid(w, order, dels) && Solvent(w.state, order) && k < |dels|
    ensures Pays(w.state, w.stakes, dels[k], w.height, refused, d, paid)
    ensures Of(Happen(w, dels, Withdraw(k, refused)).state.balance, d) == Of(w.state.balance, d) - paid
  {
    paid := WithdrawalPays(w, order, dels, k, refused, d);
    HappensAs(w, dels, k, refused);
  }

  lemma HappensAs(w: World, dels: seq<Delegation>, k: nat, refused: set<Addr>)
    requires k < |dels|
    ensures Happen(w, dels, Withdraw(k, refused)).state ==
      WithdrawRewards(w.state, w.stakes, dels[k], w.height, refused).state
  {
  }

  lemma NothingRefused(ended: State, rewards: Coins, del: Delegation, stake: Stake, now: nat, refused: set<Addr>,
      r: Step, d: Denom)
    requires del.delegator in refused
    requires if PayoutFails(ended, del.delegator, Whole(rewards), refused) then r == Step(ended, Failed)
      else Paid(ended, rewards, del, stake, now, r)
    ensures Of(r.state.balance, d) == Of(ended.balance, d)
  {
    if !PayoutFails(ended, del.delegator, Whole(rewards), refused) {
      PaidBalance(ended, rewards, del, stake, now, r, d);
      ZeroAmounts(Whole(rewards));
    }
  }

  lemma NothingYet(rewards: Coins, outstanding: Coins, d: Denom)
    requires rewards == Intersect(ZERO, outstanding)
    ensures Of(Whole(rewards), d) == 0
  {
    assert Of(rewards, d) == 0;
  }

  // ---- What a withdrawal leaves to the other delegations ----

  /** The delegation's info, its slash events and what it is due are the same. */
  ghost predicate SameDue(s: State, t: State, stakes: map<Key, Stake>, del: Delegation, d: Denom)
  {
    var key := (del.validator, del.delegator);
    && (key in s.infos <==> key in t.infos) && (key in s.infos ==> s.infos[key] == t.infos[key])
    && SlashesOf(s, del.validator) == SlashesOf(t, del.validator)
    && DueAtClose(s, stakes, del, d) == DueAtClose(t, stakes, del, d)
  }

  lemma SamePays(s: State, t: State, stakes: map<Key, Stake>, del: Delegation, height: nat, refused: set<Addr>,
      d: Denom, paid: nat)
    requires SameDue(s, t, stakes, del, d) && Pays(t, stakes, del, height, refused, d, paid)
    ensures Pays(s, stakes, del, height, refused, d, paid)
  {
  }

  lemma SameDueElsewhere(s: State, t: State, stakes: map<Key, Stake>, del: Delegation, d: Denom)
    requires SameFor(s, t, del.validator)
    ensures SameDue(s, t, stakes, del, d)
  {
    forall p: nat
      ensures RecordOf(s, del.validator, p) == RecordOf(t, del.validator, p)
    {
      SameRecord(s, t, del.validator, p);
    }
    DueSame(s, t, del, d, ClosingRatio(s, stakes, del.validator, d));
  }

  lemma IncrementSameDue(s: State, ended: State, stakes: map<Key, Stake>, dels: seq<Delegation>, j: nat, now: nat,
      d: Denom)
    requires j < |dels| && ValidatorKey(dels[j].validator) in stakes
    requires ValidatorOk(s, stakes[ValidatorKey(dels[j].validator)], dels, dels[j].validator, now)
    requires IncrementPeriod(s, dels[j].validator, stakes[ValidatorKey(dels[j].validator)].tokens) == Step(ended, Done)
    ensures SameDue(s, ended, stakes, dels[j], d)
  {
    var v, stake := dels[j].validator, stakes[ValidatorKey(dels[j].validator)];
    IncrementKeepsOk(s, stake, dels, v, now);
    IncrementRest(s, v, stake.tokens);
    IncrementSameRatios(s, stake, dels, v, now);
    ClosingReached(s, ended, stakes, v, d);
    DueStays(s, ended, stake, stake, dels, j, now, d, Top(ended, v, d));
  }

  lemma RestartSameDue(e: State, t: State, stakes: map<Key, Stake>, dels: seq<Delegation>, k: nat, j: nat, now: nat,
      d: Denom)
    requires Distinct(dels) && k < |dels| && j < |dels| && j != k && dels[j].validator == dels[k].validator
    requires ValidatorKey(dels[k].validator) in stakes
    requires var stake := stakes[ValidatorKey(dels[k].validator)];
      && Restarted(e, t, dels[k], stake, now)
      && ValidatorOk(e, stake, dels, dels[k].validator, now) && ValidatorOk(t, stake, dels, dels[k].validator, now)
    ensures SameDue(e, t, stakes, dels[j], d)
  {
    var v, stake := dels[k].validator, stakes[ValidatorKey(dels[k].validator)];
    assert dels[j].delegator != dels[k].delegator;
    SameTop(e, t, dels, dels[k], stake, now, d);
    assert ClosingRatio(e, stakes, v, d) == ClosingRatio(t, stakes, v, d);
    OtherDue(e, t, dels, k, stake, now, d, ClosingRatio(e, stakes, v, d), j);
  }

  lemma SameDueTransitive(s: State, t: State, u: State, stakes: map<Key, Stake>, del: Delegation, d: Denom)
    requires SameDue(s, t, stakes, del, d) && SameDue(t, u, stakes, del, d)
    ensures SameDue(s, u, stakes, del, d)
  {
  }

  /** A withdrawal, paid or refused, changes no other delegation's due. */
  lemma WithdrawalSameDue(w: World, order: seq<Addr>, dels: seq<Delegation>, k: nat, refused: set<Addr>, j: nat,
      d: Denom)
    requires Solid(w, order, dels) && k < |dels| && j < |dels| && j != k
    ensures SameDue(w.state, WithdrawRewards(w.state, w.stakes, dels[k], w.height, refused).state, w.stakes, dels[j], d)
  {
    var del, v, t := dels[k], dels[k].validator, WithdrawRewards(w.state, w.stakes, dels[k], w.height, refused).state;
    if ValidatorKey(v) in w.stakes && (v, del.delegator) in w.state.infos {
      if dels[j].validator != v {
        SolidIsReady(w, order, dels);
        WithdrawElsewhere(w.state, w.stakes, dels, k, w.height, refused);
        assert SameFor(w.state, t, dels[j].validator);
        SameDueElsewhere(w.state, t, w.stakes, dels[j], d);
      } else {
        WithdrawalSameDueHere(w, order, dels, k, refused, j, d);
      }
    }
  }

  lemma WithdrawalSameDueHere(w: World, order: seq<Addr>, dels: seq<Delegation>, k: nat, refused: set<Addr>, j: nat,
      d: Denom)
    requires Solid(w, order, dels) && k < |dels| && j < |dels| && j != k && dels[j].validator == dels[k].validator
    requires ValidatorKey(dels[k].validator) in w.stakes && (dels[k].validator, dels[k].delegator) in w.state.infos
    ensures SameDue(w.state, WithdrawRewards(w.state, w.stakes, dels[k], w.height, refused).state, w.stakes, dels[j], d)
  {
    var del, v, stake := dels[k], dels[k].validator, w.stakes[ValidatorKey(dels[k].validator)];
    var r := WithdrawRewards(w.state, w.stakes, del, w.height, refused);
    assert SolidAt(w, dels, v);
    var ended, rewards := Withdrawal(w.state, w.stakes, dels, k, w.height, refused);
    IncrementSameDue(w.state, ended, w.stakes, dels, j, w.height, d);
    if !PayoutFails(ended, del.delegator, Whole(rewards), refused) {
      IncrementKeepsOk(w.state, stake, dels, v, w.height);
      IncrementRest(w.state, v, stake.tokens);
      LastRecordLive(ended, stake, dels, v, w.height);
      PaidIsRestarted(ended, rewards, del, stake, w.height, r);
      RestartSameDue(ended, r.state, w.stakes, dels, k, j, w.height, d);
      SameDueTransitive(w.state, ended, r.state, w.stakes, dels[j], d);
    }
  }

  // ---- The pass over all delegations ----

  ghost function Total(paid: seq<nat>): nat
    decreases |paid|
  {
    if paid == [] then 0 else Total(paid[..|paid| - 1]) + paid[|paid| - 1]
  }

  lemma TotalSnoc(paid: seq<nat>, more: nat)
    ensures Total(paid + [more]) == Total(paid) + more
  {
    assert (paid + [more])[..|paid|] == paid;
  }

  /** `paid` lists what each of the first delegations is paid. */
  ghost predicate PaysAll(s: State, stakes: map<Key, Stake>, dels: seq<Delegation>, height: nat, refused: set<Addr>,
      d: Denom, paid: seq<nat>)
  {
    |paid| <= |dels| &&
    forall j {:trigger paid[j]} :: 0 <= j < |paid| ==> Pays(s, stakes, dels[j], height, refused, d, paid[j])
  }

  ghost predicate SameDuesFrom(s: State, t: State, stakes: map<Key, Stake>, dels: seq<Delegation>, i: nat, d: Denom)
  {
    forall j {:trigger SameDue(s, t, stakes, dels[j], d)} :: i <= j < |dels| ==> SameDue(s, t, stakes, dels[j], d)
  }

  lemma SolvencyStays(w: World, order: seq<Addr>, dels: seq<Delegation>, k: nat, refused: set<Addr>)
    requires Solid(w, order, dels) && Solvent(w.state, order) && k < |dels|
    ensures Solvent(WithdrawRewards(w.state, w.stakes, dels[k], w.height, refused).state, order)
  {
    SolidIsReady(w, order, dels);
    forall d ensures Gap(WithdrawRewards(w.state, w.stakes, dels[k], w.height, refused).state, order, d) >= 0 {
      WithdrawConserves(w.state, w.stakes, order, dels, k, w.height, refused, d);
      assert Gap(w.state, order, d) >= 0;
    }
  }

  lemma {:induction false} RewardsPay(w: World, order: seq<Addr>, dels: seq<Delegation>, refused: set<Addr>, i: nat,
      d: Denom)
      returns (paid: seq<nat>, t: State)
    requires Solid(w, order, dels) && Solvent(w.state, order) && i <= |dels|
    ensures WithdrawAllRewards(w.state, w.stakes, dels[..i], w.height, refused) == Step(t, Done)
    ensures Solid(w.(state := t), order, dels) && Solvent(t, order)
    ensures |paid| == i && PaysAll(w.state, w.stakes, dels, w.height, refused, d, paid)
    ensures Of(t.balance, d) == Of(w.state.balance, d) - Total(paid)
    ensures SameDuesFrom(w.state, t, w.stakes, dels, i, d)
    decreases i
  {
    if i == 0 {
      assert dels[..0] == [];
      paid, t := [], w.state;
    } else {
      var before, rest := RewardsPay(w, order, dels, refused, i - 1, d);
      paid, t := RewardsPayNext(w, rest, order, dels, refused, i - 1, d, before);
      RewardsStepDone(w, rest, order, dels, refused, i - 1);
    }
  }

  lemma RewardsStepDone(w: World, s: State, order: seq<Addr>, dels: seq<Delegation>, refused: set<Addr>, i: nat)
    requires Solid(w.(state := s), order, dels) && i < |dels|
    requires WithdrawAllRewards(w.state, w.stakes, dels[..i], w.height, refused) == Step(s, Done)
    ensures WithdrawAllRewards(w.state, w.stakes, dels[..i + 1], w.height, refused) ==
            Step(WithdrawRewards(s, w.stakes, dels[i], w.height, refused).state, Done)
  {
    assert dels[..i + 1][..i] == dels[..i];
    SolidIsReady(w.(state := s), order, dels);
    WithdrawKeepsWellFormed(s, w.stakes, dels, i, w.height, refused);
  }

  lemma RewardsPayNext(w: World, s: State, order: seq<Addr>, dels: seq<Delegation>, refused: set<Addr>, i: nat,
      d: Denom, before: seq<nat>)
      returns (paid: seq<nat>, t: State)
    requires Solid(w.(state := s), order, dels) && Solvent(s, order) && i < |dels|
    requires |before| == i && PaysAll(w.state, w.stakes, dels, w.height, refused, d, before)
    requires Of(s.balance, d) == Of(w.state.balance, d) - Total(before) &&
      SameDuesFrom(w.state, s, w.stakes, dels, i, d)
    ensures t == WithdrawRewards(s, w.stakes, dels[i], w.height, refused).state
    ensures Solid(w.(state := t), order, dels) && Solvent(t, order)
    ensures |paid| == i + 1 && PaysAll(w.state, w.stakes, dels, w.height, refused, d, paid)
    ensures Of(t.balance, d) == Of(w.state.balance, d) - Total(paid)
    ensures SameDuesFrom(w.state, t, w.stakes, dels, i + 1, d)
  {
    var x := w.(state := s);
    t := WithdrawRewards(s, w.stakes, dels[i], w.height, refused).state;
    var last := WithdrawalPays(x, order, dels, i, refused, d);
    assert SameDue(w.state, s, w.stakes, dels[i], d);
    SamePays(w.state, s, w.stakes, dels[i], w.height, refused, d, last);
    paid := before + [last];
    TotalSnoc(before, last);
    WithdrawalSolid(x, order, dels, i, refused);
    SolvencyStays(x, order, dels, i, refused);
    DuesAfter(w.state, x, order, dels, i, refused, d);
  }

  lemma DuesAfter(start: State, x: World, order: seq<Addr>, dels: seq<Delegation>, i: nat, refused: set<Addr>, d: Denom)
    requires Solid(x, order, dels) && i < |dels| && SameDuesFrom(start, x.state, x.stakes, dels, i, d)
    ensures SameDuesFrom(start, WithdrawRewards(x.state, x.stakes, dels[i], x.height, refused).state, x.stakes, dels,
      i + 1, d)
  {
    var t := WithdrawRewards(x.state, x.stakes, dels[i], x.height, refused).state;
    forall j {:trigger SameDue(start, t, x.stakes, dels[j], d)} | i + 1 <= j < |dels|
      ensures SameDue(start, t, x.stakes, dels[j], d)
    {
      assert SameDue(start, x.state, x.stakes, dels[j], d);
      WithdrawalSameDue(x, order, dels, i, refused, j, d);
      SameDueTransitive(start, x.state, t, x.stakes, dels[j], d);
    }
  }

  // ---- The pass over all validators ----

  /** The whole coins of commission that the bank does not refuse. */
  ghost function CommissionPaid(s: State, order: seq<Addr>, refused: set<Addr>, d: Denom): nat
    decreases |order|
  {
    if order == [] then 0
    else
      var v := order[|order| - 1];
      CommissionPaid(s, order[..|order| - 1], refused, d) + if v in refused then 0 else Of(CommissionOf(s, v), d) / ONE
  }

  lemma CommissionBalance(s: State, order: seq<Addr>, v: Addr, refused: set<Addr>, d: Denom)
    requires Solvent(s, order) && v in order && CommissionBacked(s, v)
    ensures Of(WithdrawCommission(s, v, refused).state.balance, d) ==
            Of(s.balance, d) - if v in refused then 0 else Of(CommissionOf(s, v), d) / ONE
  {
    CommissionAffordable(s, order, v);
    DivisionIsUnique(Of(CommissionOf(s, v), d), ONE, Of(Whole(CommissionOf(s, v)), d));
    ZeroAmounts(CommissionOf(s, v));
    ZeroAmounts(Whole(CommissionOf(s, v)));
    if !IsZero(CommissionOf(s, v)) {
      CommissionCovered(s, v);
      assert WriteOff(s, v).balance == s.balance;
    }
  }

  lemma CommissionAffordable(s: State, order: seq<Addr>, v: Addr)
    requires Solvent(s, order) && v in order && CommissionBacked(s, v)
    ensures Covers(s.balance, Whole(CommissionOf(s, v)))
  {
    forall e ensures Of(CommissionOf(s, v), e) <= Of(OutstandingOf(s, v), e) {}
    CoversMeans(OutstandingOf(s, v), CommissionOf(s, v));
    Affordable(s, order, v, CommissionOf(s, v));
  }

  /** Nothing that rewards depend on differs. */
  ghost predicate SameTracking(s: State, t: State)
  {
    t.history == s.history && t.infos == s.infos && t.slashes == s.slashes && t.current == s.current
  }

  lemma {:induction false} CommissionsPay(w: World, order: seq<Addr>, dels: seq<Delegation>, refused: set<Addr>, i: nat,
      d: Denom)
      returns (t: State)
    requires Solid(w, order, dels) && Solvent(w.state, order) && i <= |order|
    ensures WithdrawCommissions(w.state, order[..i], refused) == Step(t, Done)
    ensures Solid(w.(state := t), order, dels) && Solvent(t, order) && SameTracking(w.state, t)
    ensures forall v :: v in order && v !in order[..i] ==> CommissionOf(t, v) == CommissionOf(w.state, v)
    ensures Of(t.balance, d) == Of(w.state.balance, d) - CommissionPaid(w.state, order[..i], refused, d)
    decreases i
  {
    if i == 0 {
      assert order[..0] == [];
      t := w.state;
    } else {
      var s := CommissionsPay(w, order, dels, refused, i - 1, d);
      var v := order[i - 1];
      assert order[..i][..i - 1] == order[..i - 1] && order[..i][i - 1] == v && v in order && v !in order[..i - 1];
      t := CommissionPays(w, s, order, dels, refused, v, d);
    }
  }

  lemma CommissionPays(w: World, s: State, order: seq<Addr>, dels: seq<Delegation>, refused: set<Addr>, v: Addr,
      d: Denom)
      returns (t: State)
    requires Solid(w.(state := s), order, dels) && Solvent(s, order) && v in order && SameTracking(w.state, s)
    ensures Ignoring(WithdrawCommission(s, v, refused)) == Step(t, Done)
    ensures Solid(w.(state := t), order, dels) && Solvent(t, order) && SameTracking(w.state, t)
    ensures forall u :: u in order && u != v ==> CommissionOf(t, u) == CommissionOf(s, u)
    ensures Of(t.balance, d) == Of(s.balance, d) - if v in refused then 0 else Of(CommissionOf(s, v), d) / ONE
  {
    var x := w.(state := s);
    t := WithdrawCommission(s, v, refused).state;
    SolidIsReady(x, order, dels);
    CommissionKeepsWellFormed(s, w.stakes, dels, v, w.height, refused);
    CommissionSolid(x, order, dels, v, refused);
    CommissionAccrues(s, v, refused);
    CommissionBalance(s, order, v, refused, d);
    forall e ensures Gap(t, order, e) >= 0 {
      CommissionConserves(s, order, v, refused, e);
      assert Gap(s, order, e) >= 0;
    }
    forall u | u in order && u != v ensures CommissionOf(t, u) == CommissionOf(s, u) { assert SameFor(s, t, u); }
  }

  lemma SameTrackingDue(s: State, t: State, stakes: map<Key, Stake>, del: Delegation, d: Denom)
    requires SameTracking(s, t)
    ensures SameDue(s, t, stakes, del, d)
  {
    DueSame(s, t, del, d, ClosingRatio(s, stakes, del.validator, d));
  }

  // ---- The whole preparation ----

  lemma {:induction false} ReinitKeepsBalance(s: State, order: seq<Addr>)
    ensures ReinitValidators(s, order).balance == s.balance
    decreases |order|
  {
    if order != [] { ReinitKeepsBalance(s, order[..|order| - 1]); }
  }

  lemma RebuildKeepsBalance(b: State, stakes: map<Key, Stake>, order: seq<Addr>, dels: seq<Delegation>, height: nat)
    requires ListsValidators(order, stakes) && WellFormed(b, stakes, dels, height) && Closed(b, order, dels) &&
      AllKnown(stakes, dels)
    ensures RebuildDelegations(ReinitValidators(ClearHistory(b), order), stakes, dels, 0).state.balance == b.balance
  {
    KnownAreServed(b, stakes, dels, height);
    var c := RebuildPasses(b, stakes, order, dels);
    ReinitKeepsBalance(ClearHistory(b), order);
  }

  /**
   What the preparation pays out: from the module's balance go the whole coins of every commission that
   is not refused, and to every delegation whose account is not refused what it is due at the closing
   of its validator's period, in whole coins.
   */
  lemma PreparationPays(w: World, order: seq<Addr>, dels: seq<Delegation>, refused: set<Addr>, d: Denom)
      returns (paid: seq<nat>)
    requires Solid(w, order, dels) && Solvent(w.state, order) && AllKnown(w.stakes, dels)
    ensures |paid| == |dels| && PaysAll(w.state, w.stakes, dels, w.height, refused, d, paid)
    ensures var t := PrepareDistribution(w.state, w.stakes, order, dels, w.height, refused).state;
      Of(t.balance, d) == Of(w.state.balance, d) - CommissionPaid(w.state, order, refused, d) - Total(paid)
  {
    assert order[..|order|] == order && dels[..|dels|] == dels;
    var a := CommissionsPay(w, order, dels, refused, |order|, d);
    var b;
    paid, b := RewardsPay(w.(state := a), order, dels, refused, |dels|, d);
    forall j {:trigger paid[j]} | 0 <= j < |paid|
      ensures Pays(w.state, w.stakes, dels[j], w.height, refused, d, paid[j])
    {
      SameTrackingDue(w.state, a, w.stakes, dels[j], d);
      SamePays(w.state, a, w.stakes, dels[j], w.height, refused, d, paid[j]);
    }
    SolidIsReady(w.(state := b), order, dels);
    RebuildKeepsBalance(b, w.stakes, order, dels, w.height);
  }

  /** So it is after every history from one export to the next in which no more was promised than came in. */
  lemma PaysAfterAnyHistory(start: World, order: seq<Addr>, dels: seq<Delegation>, events: seq<Event>,
      refused: set<Addr>, d: Denom)
      returns (paid: seq<nat>)
    requires ListsValidators(order, start.stakes) && Distinct(dels) && SharesBounded(start.stakes, dels)
    requires Fresh(start.state, start.stakes, order, dels) && Solvent(start.state, order)
    requires forall e :: TotalIncome(start.stakes, events, e) >= 0
    ensures var w := After(start, dels, events);
      var t := PrepareDistribution(w.state, w.stakes, order, dels, w.height, refused).state;
      && |paid| == |dels| && PaysAll(w.state, w.stakes, dels, w.height, refused, d, paid)
      && Of(t.balance, d) == Of(w.state.balance, d) - CommissionPaid(w.state, order, refused, d) - Total(paid)
  {
    var w := After(start, dels, events);
    FreshIsSolid(start, order, dels);
    AfterSolid(start, order, dels, events);
    StakesStay(start, dels, events);
    FreshAreKnown(start.state, start.stakes, w.stakes, order, dels);
    BooksFromExportToExport(start, order, dels, events, refused);
    paid := PreparationPays(w, order, dels, refused, d);
  }

  // ---- The first rewards after an export ----

  /**
   A chain restarted from an export pays its delegators: when rewards are shared with a validator, and a
   delegation withdraws in a later block, it is paid the part of them that its shares are of all shares,
   rounded down to whole coins.
   */
  lemma FirstRewardsArePaid(w: World, order: seq<Addr>, dels: seq<Delegation>, k: nat, fees: Coins, shared: Coins,
      refused: set<Addr>, d: Denom)
      returns (paid: nat, g: nat, tracked: nat)
    requires ListsValidators(order, w.stakes) && Distinct(dels) && SharesBounded(w.stakes, dels) && k < |dels|
    requires Fresh(w.state, w.stakes, order, dels) && Solvent(w.state, order) && w.height > 0
    requires dels[k].delegator !in refused && w.stakes[ValidatorKey(dels[k].validator)].tokens > 0
    requires forall e :: Of(shared, e) <= Of(fees, e) * ONE
    ensures var v := dels[k].validator;
      var stake := w.stakes[ValidatorKey(v)];
      var x := SharedOut(w, dels, v, fees, shared);
      && Of(WithdrawRewards(x.state, x.stakes, dels[k], x.height, refused).state.balance, d) ==
        Of(x.state.balance, d) - paid
      && Worth(tracked, dels[k].shares, stake)
      && g * stake.tokens <= Of(shared, d) < (g + 1) * stake.tokens
      && paid * ONE * stake.shares <= Of(shared, d) * dels[k].shares
      && Of(shared, d) * dels[k].shares * ONE < ((paid + 1) * ONE * ONE + ONE + g + tracked + 1) * stake.shares
  {
    var v := dels[k].validator;
    assert Served(w.stakes, dels, k) && v in order;
    var stake := w.stakes[ValidatorKey(v)];
    var x := SharedOut(w, dels, v, fees, shared);
    SharedSolid(w, order, dels, v, fees, shared);
    paid := WithdrawalPays(x, order, dels, k, refused, d);
    SharedShape(w, dels, v, fees, shared);
    g, tracked := SharedDue(w, x, order, dels, k, shared, d);
    var due := g * tracked;
    ShareOf(g, tracked, Of(shared, d), dels[k].shares, stake);
    PaidShare(paid, due, g, tracked, Of(shared, d), dels[k].shares, stake.shares);
  }

  lemma PaidShare(paid: nat, due: nat, g: nat, tracked: nat, rewards: nat, shares: nat, total: nat)
    requires Within(paid, due, 1) && EarnsShare(due, g, tracked, rewards, shares, total)
    ensures paid * ONE * total <= rewards * shares
    ensures rewards * shares * ONE < ((paid + 1) * ONE * ONE + ONE + g + tracked + 1) * total
  {
    ScaleUp(paid * ONE * ONE, due, total);
    assert paid * ONE * ONE * total == ONE * (paid * ONE * total) && rewards * shares * ONE == ONE * (rewards * shares);
    CancelFactor(ONE, paid * ONE * total, rewards * shares);
    ScaleUp(due + g + tracked + 1, (paid + 1) * ONE * ONE + ONE + g + tracked + 1, total);
  }

  /** The world after fees came in and were shared with v. */
  function SharedOut(w: World, dels: seq<Delegation>, v: Addr, fees: Coins, shared: Coins): World
  {
    Happen(Happen(w, dels, Fees(fees, ZERO)), dels, Allocate(v, ZERO, shared))
  }

  lemma SharedSolid(w: World, order: seq<Addr>, dels: seq<Delegation>, v: Addr, fees: Coins, shared: Coins)
    requires ListsValidators(order, w.stakes) && Distinct(dels) && SharesBounded(w.stakes, dels)
    requires Fresh(w.state, w.stakes, order, dels) && Solvent(w.state, order) && v in order
    requires forall e :: Of(shared, e) <= Of(fees, e) * ONE
    ensures var x := SharedOut(w, dels, v, fees, shared); Solid(x, order, dels) && Solvent(x.state, order)
  {
    var y, x := Happen(w, dels, Fees(fees, ZERO)), SharedOut(w, dels, v, fees, shared);
    FreshIsSolid(w, order, dels);
    HappenSolid(w, order, dels, Fees(fees, ZERO));
    HappenSolid(y, order, dels, Allocate(v, ZERO, shared));
    forall e ensures Gap(x.state, order, e) >= 0 {
      GapOfEvent(w, order, dels, Fees(fees, ZERO), e);
      GapOfEvent(y, order, dels, Allocate(v, ZERO, shared), e);
      assert Gap(w.state, order, e) >= 0;
    }
  }

  lemma SharedShape(w: World, dels: seq<Delegation>, v: Addr, fees: Coins, shared: Coins)
    requires ValidatorKey(v) in w.stakes
    ensures SharedWith(w, SharedOut(w, dels, v, fees, shared), v, shared)
  {
  }

  ghost predicate SharedWith(w: World, x: World, v: Addr, shared: Coins)
  {
    && x.stakes == w.stakes && x.height == w.height
    && x.state.infos == w.state.infos && x.state.history == w.state.history && x.state.slashes == w.state.slashes
    && CurrentOf(x.state, v) == CurrentOf(w.state, v).(rewards := Add(CurrentOf(w.state, v).rewards, shared))
  }

  /** What a delegation with fresh records is due of the rewards. */
  lemma SharedDue(w: World, x: World, order: seq<Addr>, dels: seq<Delegation>, k: nat, shared: Coins, d: Denom)
      returns (g: nat, tracked: nat)
    requires Fresh(w.state, w.stakes, order, dels) && k < |dels| && ValidatorKey(dels[k].validator) in w.stakes
    requires dels[k].validator in order && w.stakes[ValidatorKey(dels[k].validator)].tokens > 0
    requires SharedWith(w, x, dels[k].validator, shared)
    ensures var v, key := dels[k].validator, (dels[k].validator, dels[k].delegator);
      && key in x.state.infos && x.state.infos[key].height == 0
      && Stretches(x.state.infos[key].previous, SlashesOf(x.state, v)) == 1
    ensures var stake := w.stakes[ValidatorKey(dels[k].validator)];
      && DueAtClose(x.state, x.stakes, dels[k], d) == g * tracked
      && g * stake.tokens <= Of(shared, d) < (g + 1) * stake.tokens
      && Worth(tracked, dels[k].shares, stake)
  {
    FreshTracks(w.state, w.stakes, order, dels, k);
    FreshRatios(w.state, w.stakes, order, dels, dels[k].validator);
    tracked := w.state.infos[(dels[k].validator, dels[k].delegator)].stake;
    g := DueOfShared(w, x, dels[k], shared, d);
  }

  lemma DueOfShared(w: World, x: World, del: Delegation, shared: Coins, d: Denom) returns (g: nat)
    requires ValidatorKey(del.validator) in w.stakes && w.stakes[ValidatorKey(del.validator)].tokens > 0
    requires (del.validator, del.delegator) in w.state.infos && SlashesOf(w.state, del.validator) == []
    requires CurrentOf(w.state, del.validator).rewards == ZERO
    requires forall p: nat :: RecordOf(w.state, del.validator, p).ratio == ZERO
    requires SharedWith(w, x, del.validator, shared)
    ensures g * w.stakes[ValidatorKey(del.validator)].tokens <=
      Of(shared, d) < (g + 1) * w.stakes[ValidatorKey(del.validator)].tokens
    ensures DueAtClose(x.state, x.stakes, del, d) == g * w.state.infos[(del.validator, del.delegator)].stake
    ensures Stretches(w.state.infos[(del.validator, del.delegator)].previous, SlashesOf(x.state, del.validator)) == 1
  {
    g := Of(shared, d) / w.stakes[ValidatorKey(del.validator)].tokens;
    Quotient(Of(shared, d), w.stakes[ValidatorKey(del.validator)].tokens);
    SharedRatios(w.state, x.state, del.validator);
    AddZero(shared);
    FreshDue(x.state, x.stakes, del, shared, d, g);
  }

  lemma SharedRatios(s: State, t: State, v: Addr)
    requires t.history == s.history && t.slashes == s.slashes && SlashesOf(s, v) == []
    requires forall p: nat :: RecordOf(s, v, p).ratio == ZERO
    ensures forall p: nat :: RecordOf(t, v, p).ratio == ZERO
    ensures SlashesOf(t, v) == []
  {
    forall p: nat ensures RecordOf(t, v, p).ratio == ZERO { assert RecordOf(t, v, p) == RecordOf(s, v, p); }
  }

  lemma FreshDue(s: State, stakes: map<Key, Stake>, del: Delegation, shared: Coins, d: Denom, g: nat)
    requires ValidatorKey(del.validator) in stakes && stakes[ValidatorKey(del.validator)].tokens > 0
    requires (del.validator, del.delegator) in s.infos && SlashesOf(s, del.validator) == []
    requires forall p: nat :: RecordOf(s, del.validator, p).ratio == ZERO
    requires CurrentOf(s, del.validator).rewards == shared &&
      g == Of(shared, d) / stakes[ValidatorKey(del.validator)].tokens
    ensures DueAtClose(s, stakes, del, d) == g * s.infos[(del.validator, del.delegator)].stake
    ensures Stretches(s.infos[(del.validator, del.delegator)].previous, SlashesOf(s, del.validator)) == 1
  {
    var info := s.infos[(del.validator, del.delegator)];
    assert ClosingRatio(s, stakes, del.validator, d) == g;
    assert Ratio(s, del.validator, info.previous, d) == 0;
  }
}
