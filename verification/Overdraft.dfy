/**
 No overdraft: what a validator owes its delegators, its commission and the open period never exceeds
 what it has outstanding. Kept by every operation, slash events included.
 */
module Overdraft {
  import opened Bytes
  import opened DecCoins
  import opened StakingTypes
  import opened FeeDistribution
  import opened FeeInvariant
  import opened ZeroHeight
  import opened Conservation
  import opened Dues

  ghost function Top(s: State, v: Addr, d: Denom): int
    requires CurrentOf(s, v).period > 0
  {
    Ratio(s, v, CurrentOf(s, v).period - 1, d)
  }

  ghost predicate NotOverdrawn(s: State, dels: seq<Delegation>, v: Addr, d: Denom)
    requires CurrentOf(s, v).period > 0
  {
    Owed(s, dels, v, d, Top(s, v, d)) + (Of(CommissionOf(s, v), d) + Of(CurrentOf(s, v).rewards, d)) * ONE <=
      Of(OutstandingOf(s, v), d) * ONE
  }

  ghost predicate SolidValidator(s: State, stake: Stake, dels: seq<Delegation>, v: Addr, now: nat)
  {
    && ValidatorOk(s, stake, dels, v, now)
    && AllTracked(s, stake, dels, v, now)
    && (forall d {:trigger NotOverdrawn(s, dels, v, d)} :: NotOverdrawn(s, dels, v, d))
  }

  lemma SolidLater(s: State, stake: Stake, dels: seq<Delegation>, v: Addr, now: nat, later: nat)
    requires SolidValidator(s, stake, dels, v, now) && now <= later
    ensures SolidValidator(s, stake, dels, v, later)
  {
    TrackedLater(s, stake, dels, v, now, later);
    OkFromTracked(s, stake, dels, v, now, later);
  }

  // ---- The records that dues depend on ----

  lemma InfoRecordLive(s: State, stake: Stake, dels: seq<Delegation>, k: nat, now: nat)
    requires k < |dels| && ValidatorOk(s, stake, dels, dels[k].validator, now)
    requires (dels[k].validator, dels[k].delegator) in s.infos
    ensures var v, p := dels[k].validator, s.infos[(dels[k].validator, dels[k].delegator)].previous;
      p < CurrentOf(s, v).period && (v, p) in s.history
  {
    var v, p := dels[k].validator, s.infos[(dels[k].validator, dels[k].delegator)].previous;
    assert RecordOf(s, v, p).refs == Refs(s, dels, v, p);
    InfoRefsHas(s.infos, dels, k, p);
  }

  lemma LastRecordLive(s: State, stake: Stake, dels: seq<Delegation>, v: Addr, now: nat)
    requires ValidatorOk(s, stake, dels, v, now)
    ensures CurrentOf(s, v).period > 0 && (v, CurrentOf(s, v).period - 1) in s.history
  {
    LastPeriodIsCounted(s, stake, dels, v, now);
  }

  /** The records of two states that are live in both have the same ratios. */
  ghost predicate SameRatios(s: State, t: State, v: Addr)
  {
    forall p: nat {:trigger (v, p) in s.history, (v, p) in t.history} ::
      (v, p) in s.history && (v, p) in t.history ==> s.history[(v, p)].ratio == t.history[(v, p)].ratio
  }

  /** A delegation whose info stays is due the same, because the records it depends on stay live. */
  lemma DueStays(s: State, t: State, before: Stake, after: Stake, dels: seq<Delegation>, k: nat, now: nat, d: Denom,
      top: int)
    requires k < |dels|
    requires ValidatorOk(s, before, dels, dels[k].validator, now) && ValidatorOk(t, after, dels, dels[k].validator, now)
    requires SlashesOf(s, dels[k].validator) == SlashesOf(t, dels[k].validator) && SameRatios(s, t, dels[k].validator)
    requires var key := (dels[k].validator, dels[k].delegator);
      (key in s.infos <==> key in t.infos) && (key in s.infos ==> s.infos[key] == t.infos[key])
    ensures Due(s, dels[k], d, top) == Due(t, dels[k], d, top)
  {
    var v := dels[k].validator;
    if (v, dels[k].delegator) in s.infos {
      InfoRecordLive(s, before, dels, k, now);
      InfoRecordLive(t, after, dels, k, now);
      SlashRecordsLive(s, dels, v);
      SlashRecordsLive(t, dels, v);
    }
    DueSame(s, t, dels[k], d, top);
  }

  // ---- Closing a period ----

  lemma IncrementSameRatios(s: State, stake: Stake, dels: seq<Delegation>, v: Addr, now: nat)
    requires ValidatorOk(s, stake, dels, v, now)
    ensures SameRatios(s, IncrementPeriod(s, v, stake.tokens).state, v)
  {
    var t := IncrementPeriod(s, v, stake.tokens).state;
    IncrementDone(s, stake, dels, v, now);
    forall p: nat {:trigger (v, p) in s.history, (v, p) in t.history} | (v, p) in s.history && (v, p) in t.history
      ensures s.history[(v, p)].ratio == t.history[(v, p)].ratio
    {
      IncrementAt(s, v, stake.tokens, (v, p));
    }
  }

  /** Closing a period changes no due and no stake. */
  lemma IncrementKeepsDues(s: State, stake: Stake, dels: seq<Delegation>, v: Addr, now: nat, d: Denom, top: int)
    requires ValidatorOk(s, stake, dels, v, now)
    ensures var t := IncrementPeriod(s, v, stake.tokens).state;
      Owed(t, dels, v, d, top) == Owed(s, dels, v, d, top) && StakeSum(t, dels, v) == StakeSum(s, dels, v)
  {
    var t := IncrementPeriod(s, v, stake.tokens).state;
    IncrementKeepsOk(s, stake, dels, v, now);
    IncrementRest(s, v, stake.tokens);
    IncrementSameRatios(s, stake, dels, v, now);
    forall i | 0 <= i < |dels| && dels[i].validator == v ensures Due(s, dels[i], d, top) == Due(t, dels[i], d, top) {
      DueStays(s, t, stake, stake, dels, i, now, d, top);
    }
    OwedElsewhere(s, t, dels, v, d, top);
    StakeSumSame(s, t, dels, v);
  }

  /** The rewards of a period cover what all the stakes of the validator earn by it. */
  lemma PeriodCovered(rewards: Coins, tokens: nat, sum: nat, d: Denom)
    requires sum <= tokens * ONE
    ensures Of(PeriodRatio(rewards, tokens), d) * sum <= Of(rewards, d) * ONE
  {
    var q := Of(PeriodRatio(rewards, tokens), d);
    if tokens > 0 {
      assert q * tokens <= Of(rewards, d);
      ScaleUp(sum, tokens * ONE, q);
      ScaleUp(q * tokens, Of(rewards, d), ONE);
      assert q * tokens * ONE == tokens * ONE * q;
    }
  }

  /** Closing a period moves its rewards to the delegators without overdrawing. */
  lemma IncrementNotOverdrawn(s: State, stake: Stake, dels: seq<Delegation>, v: Addr, now: nat, d: Denom)
    requires SolidValidator(s, stake, dels, v, now) && SharesSum(dels, v) <= stake.shares
    ensures var t := IncrementPeriod(s, v, stake.tokens).state;
      CurrentOf(t, v).period > 0 && NotOverdrawn(t, dels, v, d)
  {
    var t := IncrementPeriod(s, v, stake.tokens).state;
    var earned := IncrementOwes(s, t, stake, dels, v, now, d);
    IncrementDone(s, stake, dels, v, now);
    IncrementRest(s, v, stake.tokens);
    IncrementBooks(s, t, v, stake, dels, now, d, earned);
    assert NotOverdrawn(s, dels, v, d);
  }

  /** What the delegators earn by the period. */
  lemma IncrementOwes(s: State, t: State, stake: Stake, dels: seq<Delegation>, v: Addr, now: nat, d: Denom)
      returns (earned: int)
    requires ValidatorOk(s, stake, dels, v, now) && AllTracked(s, stake, dels, v, now) &&
      SharesSum(dels, v) <= stake.shares
    requires t == IncrementPeriod(s, v, stake.tokens).state
    ensures CurrentOf(t, v).period > 0 &&
      Owed(t, dels, v, d, Top(t, v, d)) == Owed(s, dels, v, d, Top(s, v, d)) + earned
    ensures earned <= Of(CurrentOf(s, v).rewards, d) * ONE && (stake.tokens == 0 ==> earned == 0)
  {
    var q := Of(PeriodRatio(CurrentOf(s, v).rewards, stake.tokens), d);
    earned := q * StakeSum(s, dels, v);
    TopGrows(s, stake, dels, v, now, d);
    IncrementKeepsDues(s, stake, dels, v, now, d, Top(t, v, d));
    OwedGrows(s, dels, v, d, Top(s, v, d), q);
    StakeSumBound(s, stake, dels, v, now);
    PeriodCovered(CurrentOf(s, v).rewards, stake.tokens, StakeSum(s, dels, v), d);
  }

  lemma TopGrows(s: State, stake: Stake, dels: seq<Delegation>, v: Addr, now: nat, d: Denom)
    requires ValidatorOk(s, stake, dels, v, now)
    ensures var t := IncrementPeriod(s, v, stake.tokens).state;
      CurrentOf(t, v).period > 0 &&
      Top(t, v, d) == Top(s, v, d) + Of(PeriodRatio(CurrentOf(s, v).rewards, stake.tokens), d)
  {
    IncrementDone(s, stake, dels, v, now);
    IncrementRest(s, v, stake.tokens);
    IncrementAt(s, v, stake.tokens, (v, 0));
  }

  /** The book-keeping of a closed period: its rewards become owed, or leave for the pool. */
  lemma IncrementBooks(s: State, t: State, v: Addr, stake: Stake, dels: seq<Delegation>, now: nat, d: Denom,
      earned: int)
    requires ValidatorOk(s, stake, dels, v, now) && t == IncrementPeriod(s, v, stake.tokens).state
    requires earned <= Of(CurrentOf(s, v).rewards, d) * ONE && (stake.tokens == 0 ==> earned == 0)
    ensures earned + Of(OutstandingOf(s, v), d) * ONE <=
      Of(OutstandingOf(t, v), d) * ONE + Of(CurrentOf(s, v).rewards, d) * ONE
  {
    IncrementDone(s, stake, dels, v, now);
    IncrementFunds(s, v, stake.tokens);
  }

  lemma IncrementSolid(s: State, stake: Stake, dels: seq<Delegation>, v: Addr, now: nat)
    requires SolidValidator(s, stake, dels, v, now) && SharesSum(dels, v) <= stake.shares
    ensures SolidValidator(IncrementPeriod(s, v, stake.tokens).state, stake, dels, v, now)
  {
    var t := IncrementPeriod(s, v, stake.tokens).state;
    IncrementKeepsOk(s, stake, dels, v, now);
    IncrementRest(s, v, stake.tokens);
    forall d {:trigger NotOverdrawn(t, dels, v, d)}
      ensures NotOverdrawn(t, dels, v, d)
    {
      IncrementNotOverdrawn(s, stake, dels, v, now, d);
    }
    TrackedElsewhere(s, t, stake, dels, v, now);
  }

  // ---- Withdrawing ----

  /** A delegation is paid no more than it is due, whatever slash events lie between. */
  lemma PaidAtMostDue(s: State, stake: Stake, dels: seq<Delegation>, k: nat, now: nat, d: Denom)
    requires k < |dels| && SolidValidator(s, stake, dels, dels[k].validator, now)
    requires (dels[k].validator, dels[k].delegator) in s.infos
    ensures var a := DelegationRewards(s, dels[k], stake, CurrentOf(s, dels[k].validator).period - 1, now);
      a.Defined? ==> Of(a.rewards, d) * ONE <= Due(s, dels[k], d, Top(s, dels[k].validator, d))
  {
    var del, v := dels[k], dels[k].validator;
    var info, last := s.infos[(v, del.delegator)], CurrentOf(s, v).period - 1;
    assert Tracked(s, del, stake, now);
    if info.height == now {
      DueNonNegative(s, stake, dels, k, now, d);
    } else {
      AccrueAtMostEarned(s, v, info.previous, info.stake, SlashesOf(s, v), info.height, now, last,
        StakeRounded(del.shares, stake), d);
    }
  }

  /** Nor less, but for less than the smallest unit in each stretch, unless it started in this very block. */
  lemma PaidAtLeastDue(s: State, stake: Stake, dels: seq<Delegation>, k: nat, now: nat, d: Denom)
    requires k < |dels| && SolidValidator(s, stake, dels, dels[k].validator, now)
    requires var key := (dels[k].validator, dels[k].delegator); key in s.infos && s.infos[key].height != now
    ensures var v, info := dels[k].validator, s.infos[(dels[k].validator, dels[k].delegator)];
      var a := DelegationRewards(s, dels[k], stake, CurrentOf(s, v).period - 1, now);
      && a.Defined?
      && Due(s, dels[k], d, Top(s, v, d)) <
         Of(a.rewards, d) * ONE + Stretches(info.previous, SlashesOf(s, v)) * ONE
  {
    var del, v := dels[k], dels[k].validator;
    var info := s.infos[(v, del.delegator)];
    RewardsDefined(s, stake, dels, k, now);
    assert Tracked(s, del, stake, now);
    TruncatedAtMostRounded(del.shares, stake);
    AccrueAtLeastEarned(s, v, info.previous, info.stake, SlashesOf(s, v), info.height, now, CurrentOf(s, v).period - 1,
      StakeRounded(del.shares, stake), d);
  }

  lemma DueNonNegative(s: State, stake: Stake, dels: seq<Delegation>, k: nat, now: nat, d: Denom)
    requires k < |dels| && ValidatorOk(s, stake, dels, dels[k].validator, now)
    ensures Due(s, dels[k], d, Top(s, dels[k].validator, d)) >= 0
  {
    var v := dels[k].validator;
    if (v, dels[k].delegator) in s.infos {
      var info := s.infos[(v, dels[k].delegator)];
      InfoRecordLive(s, stake, dels, k, now);
      LastRecordLive(s, stake, dels, v, now);
      SlashRecordsLive(s, dels, v);
      EarnedNonNegative(s, v, info.previous, info.stake, SlashesOf(s, v), d, CurrentOf(s, v).period - 1);
    }
  }

  /** What paying and restarting a delegation does to its validator's records. */
  lemma PaidRecords(ended: State, rewards: Coins, del: Delegation, stake: Stake, now: nat, r: Step)
    requires Paid(ended, rewards, del, stake, now, r)
    ensures var v, t := del.validator, r.state;
      && CurrentOf(t, v) == CurrentOf(ended, v) && CommissionOf(t, v) == CommissionOf(ended, v) &&
        t.slashes == ended.slashes
      && OutstandingOf(t, v) == Sub(OutstandingOf(ended, v), rewards)
      && stake.shares > 0 && CurrentOf(ended, v).period > 0
      && t.infos == (ended.infos - {(v, del.delegator)})
                    [(v, del.delegator) := Info(CurrentOf(ended, v).period - 1, StakeTruncated(del.shares, stake), now)]
  {
    var rest := PaidStages(ended, rewards, del, stake, now, r);
    StartRecords(rest, del, stake, now, r);
    StartKeeps(rest, r.state, del.validator);
  }

  lemma StartKeeps(s: State, t: State, v: Addr)
    requires t == s.(history := t.history, infos := t.infos)
    ensures CurrentOf(t, v) == CurrentOf(s, v) && CommissionOf(t, v) == CommissionOf(s, v) &&
      OutstandingOf(t, v) == OutstandingOf(s, v)
  {
  }

  /** The state between ending and starting the delegation. */
  lemma PaidStages(ended: State, rewards: Coins, del: Delegation, stake: Stake, now: nat, r: Step) returns (rest: State)
    requires Paid(ended, rewards, del, stake, now, r)
    ensures r == StartDelegation(rest, del, stake, now) && r.status.Done?
    ensures rest.current == ended.current && rest.commission == ended.commission && rest.slashes == ended.slashes
    ensures Covers(OutstandingOf(ended, del.validator), rewards)
    ensures OutstandingOf(rest, del.validator) == Sub(OutstandingOf(ended, del.validator), rewards)
    ensures rest.infos == ended.infos - {(del.validator, del.delegator)}
  {
    rest := EndDelegation(PayRewards(ended, del.validator, rewards), del);
  }

  lemma StartRecords(s: State, del: Delegation, stake: Stake, now: nat, r: Step)
    requires r == StartDelegation(s, del, stake, now) && r.status.Done?
    ensures stake.shares > 0 && CurrentOf(s, del.validator).period > 0
    ensures r.state == s.(history := r.state.history,
      infos := s.infos[(del.validator, del.delegator) :=
        Info(CurrentOf(s, del.validator).period - 1, StakeTruncated(del.shares, stake), now)])
  {
  }

  /** No ratio changes when the delegation started before the last period. */
  lemma PaidRatios(ended: State, rewards: Coins, del: Delegation, stake: Stake, now: nat, r: Step, p: nat)
    requires Paid(ended, rewards, del, stake, now, r)
    requires var v := del.validator;
      ended.infos[(v, del.delegator)].previous != CurrentOf(ended, v).period - 1 &&
        (v, CurrentOf(ended, v).period - 1) in ended.history
    ensures var v, t := del.validator, r.state;
      (v, p) in t.history && (v, p) in ended.history ==> t.history[(v, p)].ratio == ended.history[(v, p)].ratio
  {
    var v := del.validator;
    var paid := PayRewards(ended, v, rewards);
    ReleaseAt(paid, v, paid.infos[(v, del.delegator)].previous, (v, p));
    ReleaseAt(paid, v, paid.infos[(v, del.delegator)].previous, (v, CurrentOf(ended, v).period - 1));
  }

  /** t is `e` with one delegation of v started again at the last period, and no ratio changed. */
  ghost predicate Restarted(e: State, t: State, del: Delegation, stake: Stake, now: nat)
  {
    var v := del.validator;
    && CurrentOf(e, v).period > 0 && stake.shares > 0
    && CurrentOf(t, v) == CurrentOf(e, v) && CommissionOf(t, v) == CommissionOf(e, v) && t.slashes == e.slashes
    && t.infos == (e.infos - {(v, del.delegator)})
                  [(v, del.delegator) := Info(CurrentOf(e, v).period - 1, StakeTruncated(del.shares, stake), now)]
    && SameRatios(e, t, v)
  }

  lemma PaidIsRestarted(ended: State, rewards: Coins, del: Delegation, stake: Stake, now: nat, r: Step)
    requires Paid(ended, rewards, del, stake, now, r)
    requires var v := del.validator;
      ended.infos[(v, del.delegator)].previous != CurrentOf(ended, v).period - 1 &&
        (v, CurrentOf(ended, v).period - 1) in ended.history
    ensures Restarted(ended, r.state, del, stake, now)
    ensures OutstandingOf(r.state, del.validator) == Sub(OutstandingOf(ended, del.validator), rewards)
  {
    PaidRecords(ended, rewards, del, stake, now, r);
    forall p: nat {:trigger (del.validator, p) in ended.history, (del.validator, p) in r.state.history}
      | (del.validator, p) in ended.history && (del.validator, p) in r.state.history
      ensures ended.history[(del.validator, p)].ratio == r.state.history[(del.validator, p)].ratio
    {
      PaidRatios(ended, rewards, del, stake, now, r, p);
    }
  }

  /** The delegation's own due is settled, and no other changes. */
  lemma DuesSettled(e: State, t: State, dels: seq<Delegation>, k: nat, stake: Stake, now: nat, d: Denom)
    requires Distinct(dels) && k < |dels| && Restarted(e, t, dels[k], stake, now)
    requires ValidatorOk(e, stake, dels, dels[k].validator, now) && ValidatorOk(t, stake, dels, dels[k].validator, now)
    ensures var v := dels[k].validator;
      && Top(t, v, d) == Top(e, v, d)
      && Owed(t, dels, v, d, Top(t, v, d)) == Owed(e, dels, v, d, Top(e, v, d)) - Due(e, dels[k], d, Top(e, v, d))
  {
    var v := dels[k].validator;
    SameTop(e, t, dels, dels[k], stake, now, d);
    var top := Top(e, v, d);
    forall i | 0 <= i < |dels| && i != k && dels[i].validator == v
      ensures Due(e, dels[i], d, top) == Due(t, dels[i], d, top)
    {
      OtherDue(e, t, dels, k, stake, now, d, top, i);
    }
    OwedChange(e, t, dels, k, d, top);
    SettledDue(e, t, dels, dels[k], stake, now, d);
  }

  lemma OtherDue(e: State, t: State, dels: seq<Delegation>, k: nat, stake: Stake, now: nat, d: Denom, top: int, i: nat)
    requires Distinct(dels) && k < |dels| && Restarted(e, t, dels[k], stake, now)
    requires ValidatorOk(e, stake, dels, dels[k].validator, now) && ValidatorOk(t, stake, dels, dels[k].validator, now)
    requires i < |dels| && i != k && dels[i].validator == dels[k].validator
    ensures Due(e, dels[i], d, top) == Due(t, dels[i], d, top)
  {
    assert dels[i].delegator != dels[k].delegator;
    DueStays(e, t, stake, stake, dels, i, now, d, top);
  }

  lemma SameTop(e: State, t: State, dels: seq<Delegation>, del: Delegation, stake: Stake, now: nat, d: Denom)
    requires Restarted(e, t, del, stake, now)
    requires ValidatorOk(e, stake, dels, del.validator, now) && ValidatorOk(t, stake, dels, del.validator, now)
    ensures Top(t, del.validator, d) == Top(e, del.validator, d)
  {
    LastRecordLive(e, stake, dels, del.validator, now);
    LastRecordLive(t, stake, dels, del.validator, now);
  }

  lemma SettledDue(e: State, t: State, dels: seq<Delegation>, del: Delegation, stake: Stake, now: nat, d: Denom)
    requires Restarted(e, t, del, stake, now) && ValidatorOk(t, stake, dels, del.validator, now)
    ensures Due(t, del, d, Top(t, del.validator, d)) == 0
    ensures StakeOf(t, del) == StakeTruncated(del.shares, stake)
  {
    var v := del.validator;
    var info := t.infos[(v, del.delegator)];
    EarlierEvents(t, v, info.previous, info.stake, SlashesOf(t, v), d, Top(t, v, d));
  }

  lemma RestartedNotOverdrawn(e: State, t: State, rewards: Coins, dels: seq<Delegation>, k: nat, stake: Stake, now: nat,
      d: Denom)
    requires Distinct(dels) && k < |dels| && Restarted(e, t, dels[k], stake, now)
    requires SolidValidator(e, stake, dels, dels[k].validator, now) &&
      ValidatorOk(t, stake, dels, dels[k].validator, now)
    requires Covers(OutstandingOf(e, dels[k].validator), rewards)
    requires OutstandingOf(t, dels[k].validator) == Sub(OutstandingOf(e, dels[k].validator), rewards)
    requires Of(rewards, d) * ONE <= Due(e, dels[k], d, Top(e, dels[k].validator, d))
    ensures NotOverdrawn(t, dels, dels[k].validator, d)
  {
    var v := dels[k].validator;
    assert NotOverdrawn(e, dels, v, d);
    DuesSettled(e, t, dels, k, stake, now, d);
    assert Of(OutstandingOf(t, v), d) == Of(OutstandingOf(e, v), d) - Of(rewards, d);
  }

  lemma RestartedTracked(e: State, t: State, dels: seq<Delegation>, k: nat, stake: Stake, now: nat)
    requires Distinct(dels) && k < |dels| && Restarted(e, t, dels[k], stake, now) &&
      (dels[k].validator, dels[k].delegator) in e.infos
    requires SolidValidator(e, stake, dels, dels[k].validator, now) &&
      ValidatorOk(t, stake, dels, dels[k].validator, now)
    ensures AllTracked(t, stake, dels, dels[k].validator, now)
  {
    assert Tracked(e, dels[k], stake, now);
    SettledDue(e, t, dels, dels[k], stake, now, "");
    forall i {:trigger Tracked(t, dels[i], stake, now)} | 0 <= i < |dels| && dels[i].validator == dels[k].validator
      ensures Tracked(t, dels[i], stake, now)
    {
      assert Tracked(e, dels[i], stake, now);
    }
  }

  /** A withdrawal, paid or refused, leaves its validator solid. */
  lemma WithdrawSolid(s: State, stakes: map<Key, Stake>, dels: seq<Delegation>, k: nat, now: nat, refused: set<Addr>)
    requires Distinct(dels) && k < |dels| && ValidatorKey(dels[k].validator) in stakes
    requires SolidValidator(s, stakes[ValidatorKey(dels[k].validator)], dels, dels[k].validator, now)
    requires SharesSum(dels, dels[k].validator) <= stakes[ValidatorKey(dels[k].validator)].shares
    ensures SolidValidator(WithdrawRewards(s, stakes, dels[k], now, refused).state,
      stakes[ValidatorKey(dels[k].validator)], dels, dels[k].validator, now)
  {
    var del, v, stake := dels[k], dels[k].validator, stakes[ValidatorKey(dels[k].validator)];
    if (v, del.delegator) in s.infos {
      var ended, rewards := Withdrawal(s, stakes, dels, k, now, refused);
      IncrementSolid(s, stake, dels, v, now);
      var r := WithdrawRewards(s, stakes, del, now, refused);
      if !PayoutFails(ended, del.delegator, Whole(rewards), refused) {
        IncrementRest(s, v, stake.tokens);
        PaidSolid(ended, rewards, dels, k, stake, now, r);
      }
    }
  }

  lemma CutAtMostDue(s: State, rewards: Coins, stake: Stake, dels: seq<Delegation>, k: nat, now: nat, d: Denom)
    requires k < |dels| && SolidValidator(s, stake, dels, dels[k].validator, now) &&
      (dels[k].validator, dels[k].delegator) in s.infos
    requires var raw := DelegationRewards(s, dels[k], stake, CurrentOf(s, dels[k].validator).period - 1, now);
      raw.Defined? && rewards == Intersect(raw.rewards, OutstandingOf(s, dels[k].validator))
    ensures Of(rewards, d) * ONE <= Due(s, dels[k], d, Top(s, dels[k].validator, d))
  {
    PaidAtMostDue(s, stake, dels, k, now, d);
  }

  lemma PaidSolid(ended: State, rewards: Coins, dels: seq<Delegation>, k: nat, stake: Stake, now: nat, r: Step)
    requires Distinct(dels) && k < |dels| && Paid(ended, rewards, dels[k], stake, now, r)
    requires SolidValidator(ended, stake, dels, dels[k].validator, now) &&
      ValidatorOk(r.state, stake, dels, dels[k].validator, now)
    requires (dels[k].validator, dels[k].delegator) in ended.infos
    requires ended.infos[(dels[k].validator, dels[k].delegator)].previous !=
      CurrentOf(ended, dels[k].validator).period - 1
    requires var raw := DelegationRewards(ended, dels[k], stake, CurrentOf(ended, dels[k].validator).period - 1, now);
      raw.Defined? && rewards == Intersect(raw.rewards, OutstandingOf(ended, dels[k].validator))
    ensures SolidValidator(r.state, stake, dels, dels[k].validator, now)
  {
    var v := dels[k].validator;
    LastRecordLive(ended, stake, dels, v, now);
    PaidIsRestarted(ended, rewards, dels[k], stake, now, r);
    RestartedTracked(ended, r.state, dels, k, stake, now);
    forall d {:trigger NotOverdrawn(r.state, dels, v, d)} ensures NotOverdrawn(r.state, dels, v, d) {
      CutAtMostDue(ended, rewards, stake, dels, k, now, d);
      RestartedNotOverdrawn(ended, r.state, rewards, dels, k, stake, now, d);
    }
  }

  // ---- Slashing ----

  /** updateValidatorSlashFraction: close the period and record the slash event at it. */
  function RecordSlash(s: State, v: Addr, tokens: nat, fraction: Fraction, height: nat): Step
  {
    var n := CurrentOf(s, v).period;
    var ended := IncrementPeriod(s, v, tokens);
    if ended.status.Panicked? then ended
    else if RecordOf(ended.state, v, n).refs > 2 then Step(ended.state, Panicked)
    else
      var s1 := Retain(ended.state, v, n);
      Step(s1.(slashes := s1.slashes[v := SlashesOf(s1, v) + [Slash(height, n, fraction)]]), Done)
  }

  /** A slash burns at most the tokens there are. */
  function Burnt(stake: Stake, amount: nat): (burnt: nat)
    ensures burnt <= stake.tokens
  {
    if amount <= stake.tokens then amount else stake.tokens
  }

  function LessStake(stake: Stake, amount: nat): Stake
  {
    stake.(tokens := stake.tokens - Burnt(stake, amount))
  }

  /** Distribution is told the fraction before the tokens go; it is not told of a slash that burns nothing. */
  function Slashed(s: State, v: Addr, stake: Stake, amount: nat, height: nat): Step
  {
    if Burnt(stake, amount) == 0 then Step(s, Done)
    else RecordSlash(s, v, stake.tokens, BurnFraction(Burnt(stake, amount), stake.tokens), height)
  }

  /** t is `e` with one slash event recorded at the last period, later than all that refers to v. */
  ghost predicate Marked(e: State, t: State, v: Addr, event: Slash)
  {
    && CurrentOf(e, v).period == event.period + 1 && (v, event.period) in e.history
    && t == e.(history := e.history[(v, event.period) :=
                 e.history[(v, event.period)].(refs := e.history[(v, event.period)].refs + 1)],
               slashes := e.slashes[v := SlashesOf(e, v) + [event]])
    && (forall d: Addr :: (v, d) in e.infos ==> e.infos[(v, d)].previous < event.period)
    && (forall x :: x in SlashesOf(e, v) ==> x.period < event.period)
  }

  /** Recording a slash event completes. */
  lemma SlashMarks(s: State, stake: Stake, dels: seq<Delegation>, v: Addr, now: nat, fraction: Fraction)
    requires ValidatorOk(s, stake, dels, v, now)
    ensures var r := RecordSlash(s, v, stake.tokens, fraction, now);
      r.status.Done? && Marked(IncrementPeriod(s, v, stake.tokens).state, r.state, v,
        Slash(now, CurrentOf(s, v).period, fraction))
  {
    IncrementDone(s, stake, dels, v, now);
    IncrementRest(s, v, stake.tokens);
    IncrementAt(s, v, stake.tokens, (v, 0));
  }

  lemma {:induction false} SlashRefsSnoc(events: seq<Slash>, e: Slash, p: nat)
    ensures SlashRefs(events + [e], p) == SlashRefs(events, p) + if e.period == p then 1 else 0
    decreases |events|
  {
    if events == [] {
      assert [e][1..] == [];
      assert events + [e] == [e];
    } else {
      assert (events + [e])[1..] == events[1..] + [e];
      SlashRefsSnoc(events[1..], e, p);
    }
  }

  lemma MarkedCounted(e: State, t: State, dels: seq<Delegation>, v: Addr, event: Slash)
    requires Marked(e, t, v, event) && Counted(e, dels, v)
    ensures Counted(t, dels, v)
  {
    forall p: nat
      ensures RecordOf(t, v, p).refs == Refs(t, dels, v, p) && ((v, p) in t.history ==> t.history[(v, p)].refs > 0)
    {
      assert RecordOf(e, v, p).refs == Refs(e, dels, v, p);
      SlashRefsSnoc(SlashesOf(e, v), event, p);
    }
  }

  lemma MarkedRatios(e: State, t: State, v: Addr, event: Slash)
    requires Marked(e, t, v, event)
    ensures forall p: nat, d :: Ratio(t, v, p, d) == Ratio(e, v, p, d)
    ensures Growing(e, v) ==> Growing(t, v)
    ensures Ended(e, v) ==> Ended(t, v)
  {
  }

  /** The dues stay, and the stakes left shrink. */
  lemma MarkedDue(e: State, t: State, del: Delegation, event: Slash, d: Denom)
    requires Marked(e, t, del.validator, event)
    ensures Due(t, del, d, Ratio(e, del.validator, event.period, d)) ==
      Due(e, del, d, Ratio(e, del.validator, event.period, d))
    ensures (del.validator, del.delegator) in e.infos ==> StakeOf(t, del) == AfterSlash(StakeOf(e, del), event)
  {
    var v, top := del.validator, Ratio(e, del.validator, event.period, d);
    if (v, del.delegator) in e.infos {
      var info := e.infos[(v, del.delegator)];
      MarkedRatios(e, t, v, event);
      SlashSnoc(t, v, info.previous, info.stake, SlashesOf(e, v), event, d, top);
      EarnedSame(e, t, v, info.previous, info.stake, SlashesOf(e, v), d, top);
    }
  }

  lemma MarkedTracked(e: State, t: State, del: Delegation, event: Slash, stake: Stake, burnt: nat, now: nat)
    requires Marked(e, t, del.validator, event) && event.height == now && Tracked(e, del, stake, now)
    requires 0 < stake.tokens && burnt <= stake.tokens && event.fraction == BurnFraction(burnt, stake.tokens)
    ensures Tracked(t, del, stake.(tokens := stake.tokens - burnt), now)
  {
    if (del.validator, del.delegator) in e.infos {
      MarkedDue(e, t, del, event, "");
      SlashedWithin(StakeOf(e, del), del.shares, stake, burnt, event);
      MarkedTimed(e, t, del, event, now);
    }
  }

  lemma MarkedTimed(e: State, t: State, del: Delegation, event: Slash, now: nat)
    requires Marked(e, t, del.validator, event) && event.height == now && (del.validator, del.delegator) in e.infos
    requires var info := e.infos[(del.validator, del.delegator)];
      info.height <= now && Timed(SlashesOf(e, del.validator), info.previous, info.height, now)
    ensures var info := t.infos[(del.validator, del.delegator)];
      Timed(SlashesOf(t, del.validator), info.previous, info.height, now)
  {
    forall x | x in SlashesOf(t, del.validator) ensures x == event || x in SlashesOf(e, del.validator) {}
  }

  lemma MarkedNotOverdrawn(e: State, t: State, dels: seq<Delegation>, v: Addr, event: Slash, d: Denom)
    requires Marked(e, t, v, event) && NotOverdrawn(e, dels, v, d)
    ensures NotOverdrawn(t, dels, v, d)
  {
    MarkedRatios(e, t, v, event);
    var top := Ratio(e, v, event.period, d);
    forall i | 0 <= i < |dels| && dels[i].validator == v ensures Due(e, dels[i], d, top) == Due(t, dels[i], d, top) {
      MarkedDue(e, t, dels[i], event, d);
    }
    OwedElsewhere(e, t, dels, v, d, top);
  }

  /** A slash leaves the validator solid, with the tokens it has left. */
  lemma SlashSolid(s: State, stake: Stake, dels: seq<Delegation>, v: Addr, amount: nat, now: nat)
    requires SolidValidator(s, stake, dels, v, now) && SharesSum(dels, v) <= stake.shares
    ensures var r := Slashed(s, v, stake, amount, now);
      r.status.Done? && SolidValidator(r.state, LessStake(stake, amount), dels, v, now)
  {
    var burnt := Burnt(stake, amount);
    if burnt > 0 {
      var ended, event := SlashShape(s, stake, dels, v, amount, now);
      IncrementSolid(s, stake, dels, v, now);
      MarkedSolid(ended, Slashed(s, v, stake, amount, now).state, stake, dels, v, event, burnt, now);
    }
  }

  /** What a slash that burns something does to the distribution records. */
  lemma SlashShape(s: State, stake: Stake, dels: seq<Delegation>, v: Addr, amount: nat, now: nat)
      returns (ended: State, event: Slash)
    requires ValidatorOk(s, stake, dels, v, now) && Burnt(stake, amount) > 0
    ensures IncrementPeriod(s, v, stake.tokens) == Step(ended, Done)
    ensures Slashed(s, v, stake, amount, now).status.Done? &&
      Marked(ended, Slashed(s, v, stake, amount, now).state, v, event)
    ensures event.height == now && event.fraction == BurnFraction(Burnt(stake, amount), stake.tokens)
  {
    var f := BurnFraction(Burnt(stake, amount), stake.tokens);
    event := Slash(now, CurrentOf(s, v).period, f);
    SlashMarks(s, stake, dels, v, now, f);
    IncrementDone(s, stake, dels, v, now);
    ended := IncrementPeriod(s, v, stake.tokens).state;
  }

  /** Nothing of another validator changes. */
  lemma SlashElsewhere(s: State, stake: Stake, dels: seq<Delegation>, v: Addr, amount: nat, now: nat, u: Addr)
    requires ValidatorOk(s, stake, dels, v, now) && u != v
    ensures SameFor(s, Slashed(s, v, stake, amount, now).state, u)
  {
    if Burnt(stake, amount) > 0 {
      var ended, event := SlashShape(s, stake, dels, v, amount, now);
      IncrementElsewhere(s, v, stake.tokens, u);
      MarkedElsewhere(ended, Slashed(s, v, stake, amount, now).state, v, event, u);
      SameForTransitive(s, ended, Slashed(s, v, stake, amount, now).state, u);
    }
  }

  lemma MarkedElsewhere(e: State, t: State, v: Addr, event: Slash, u: Addr)
    requires u != v && Marked(e, t, v, event)
    ensures SameFor(e, t, u)
  {
  }

  /** A slash moves no coin. */
  lemma SlashConserves(s: State, stake: Stake, order: seq<Addr>, dels: seq<Delegation>, v: Addr, amount: nat, now: nat,
      d: Denom)
    requires ValidatorOk(s, stake, dels, v, now) && Unique(order) && v in order
    ensures Gap(Slashed(s, v, stake, amount, now).state, order, d) == Gap(s, order, d)
  {
    if Burnt(stake, amount) > 0 {
      var ended, event := SlashShape(s, stake, dels, v, amount, now);
      IncrementConserves(s, order, v, stake.tokens, d);
      FundsUntouched(ended, Slashed(s, v, stake, amount, now).state, order, d);
    }
  }

  lemma MarkedSolid(e: State, t: State, stake: Stake, dels: seq<Delegation>, v: Addr, event: Slash, burnt: nat,
      now: nat)
    requires SolidValidator(e, stake, dels, v, now) && Marked(e, t, v, event) && event.height == now
    requires 0 < stake.tokens && burnt <= stake.tokens && event.fraction == BurnFraction(burnt, stake.tokens)
    ensures SolidValidator(t, stake.(tokens := stake.tokens - burnt), dels, v, now)
  {
    var less := stake.(tokens := stake.tokens - burnt);
    MarkedCounted(e, t, dels, v, event);
    MarkedRatios(e, t, v, event);
    forall i {:trigger Tracked(t, dels[i], less, now)} | 0 <= i < |dels| && dels[i].validator == v
      ensures Tracked(t, dels[i], less, now)
    {
      assert Tracked(e, dels[i], stake, now);
      MarkedTracked(e, t, dels[i], event, stake, burnt, now);
    }
    forall i {:trigger DelegationSound(t, less, dels[i], now)} | 0 <= i < |dels| && dels[i].validator == v
      ensures DelegationSound(t, less, dels[i], now)
    {
      assert Tracked(t, dels[i], less, now);
      SoundFromTracked(t, less, dels[i], now);
    }
    forall d {:trigger NotOverdrawn(t, dels, v, d)} ensures NotOverdrawn(t, dels, v, d) {
      assert NotOverdrawn(e, dels, v, d);
      MarkedNotOverdrawn(e, t, dels, v, event, d);
    }
  }

  // ---- Other validators ----

  lemma SolidElsewhere(s: State, t: State, stake: Stake, dels: seq<Delegation>, v: Addr, now: nat)
    requires SolidValidator(s, stake, dels, v, now) && SameFor(s, t, v)
    ensures SolidValidator(t, stake, dels, v, now)
  {
    OkElsewhere(s, t, stake, dels, v, now);
    TrackedElsewhere(s, t, stake, dels, v, now);
    forall d {:trigger NotOverdrawn(t, dels, v, d)} ensures NotOverdrawn(t, dels, v, d) {
      assert NotOverdrawn(s, dels, v, d);
      SameRecord(s, t, v, CurrentOf(s, v).period - 1);
      OwedStays(s, t, stake, dels, v, now, d, Top(s, v, d));
    }
  }

  lemma OwedStays(s: State, t: State, stake: Stake, dels: seq<Delegation>, v: Addr, now: nat, d: Denom, top: int)
    requires ValidatorOk(s, stake, dels, v, now) && ValidatorOk(t, stake, dels, v, now) &&
      SlashesOf(s, v) == SlashesOf(t, v)
    requires SameInfos(s.infos, t.infos, v) && SameHistory(s.history, t.history, v)
    ensures Owed(s, dels, v, d, top) == Owed(t, dels, v, d, top)
  {
    forall i | 0 <= i < |dels| && dels[i].validator == v ensures Due(s, dels[i], d, top) == Due(t, dels[i], d, top) {
      DueStays(s, t, stake, stake, dels, i, now, d, top);
    }
    OwedElsewhere(s, t, dels, v, d, top);
  }

  // ---- Commissions and allocations ----

  lemma {:induction false} OwedNonNegative(s: State, stake: Stake, dels: seq<Delegation>, n: nat, v: Addr, now: nat,
      d: Denom)
    requires n <= |dels| && ValidatorOk(s, stake, dels, v, now)
    ensures Owed(s, dels[..n], v, d, Top(s, v, d)) >= 0
    decreases n
  {
    if n > 0 {
      OwedNonNegative(s, stake, dels, n - 1, v, now, d);
      assert dels[..n][..n - 1] == dels[..n - 1] && dels[..n][n - 1] == dels[n - 1];
      if dels[n - 1].validator == v { DueNonNegative(s, stake, dels, n - 1, now, d); }
    } else {
      assert dels[..0] == [];
    }
  }

  /** Each delegation's due is part of what is owed. */
  lemma {:induction false} OwedHas(s: State, stake: Stake, dels: seq<Delegation>, n: nat, k: nat, now: nat, d: Denom)
    requires k < n <= |dels| && ValidatorOk(s, stake, dels, dels[k].validator, now)
    ensures Due(s, dels[k], d, Top(s, dels[k].validator, d)) <=
      Owed(s, dels[..n], dels[k].validator, d, Top(s, dels[k].validator, d))
    decreases n
  {
    var v := dels[k].validator;
    assert dels[..n][..n - 1] == dels[..n - 1] && dels[..n][n - 1] == dels[n - 1];
    if k == n - 1 {
      OwedNonNegative(s, stake, dels, n - 1, v, now, d);
    } else {
      OwedHas(s, stake, dels, n - 1, k, now, d);
      if dels[n - 1].validator == v { DueNonNegative(s, stake, dels, n - 1, now, d); }
    }
  }

  lemma SolidBacked(s: State, stake: Stake, dels: seq<Delegation>, v: Addr, now: nat)
    requires SolidValidator(s, stake, dels, v, now)
    ensures CommissionBacked(s, v)
  {
    forall d ensures Of(CommissionOf(s, v), d) + Of(CurrentOf(s, v).rewards, d) <= Of(OutstandingOf(s, v), d) {
      assert NotOverdrawn(s, dels, v, d);
      assert dels[..|dels|] == dels;
      OwedNonNegative(s, stake, dels, |dels|, v, now, d);
    }
  }

  /**
   No withdrawal is ever cut: the reward that a delegation has earned is outstanding in full, so
   taking the smaller of the two changes no amount.
   */
  lemma RewardsAreOutstanding(s: State, stake: Stake, dels: seq<Delegation>, k: nat, now: nat, d: Denom)
    requires k < |dels| && SolidValidator(s, stake, dels, dels[k].validator, now)
    requires (dels[k].validator, dels[k].delegator) in s.infos
    ensures var a := DelegationRewards(s, dels[k], stake, CurrentOf(s, dels[k].validator).period - 1, now);
      a.Defined? && Of(Intersect(a.rewards, OutstandingOf(s, dels[k].validator)), d) == Of(a.rewards, d)
  {
    var v := dels[k].validator;
    RewardsDefined(s, stake, dels, k, now);
    PaidAtMostDue(s, stake, dels, k, now, d);
    assert dels[..|dels|] == dels;
    OwedHas(s, stake, dels, |dels|, k, now, d);
    assert NotOverdrawn(s, dels, v, d);
  }

  ghost function Accrued(s: State, v: Addr, d: Denom): int
  {
    Of(CommissionOf(s, v), d) + Of(CurrentOf(s, v).rewards, d)
  }

  /** Moving the same amount out of, or into, what v has outstanding and what it owes. */
  lemma FundsSolid(s: State, t: State, stake: Stake, dels: seq<Delegation>, v: Addr, now: nat)
    requires SolidValidator(s, stake, dels, v, now)
    requires t.history == s.history && t.infos == s.infos && t.slashes == s.slashes &&
      CurrentOf(t, v).period == CurrentOf(s, v).period
    requires forall d :: Of(OutstandingOf(t, v), d) - Of(OutstandingOf(s, v), d) == Accrued(t, v, d) - Accrued(s, v, d)
    ensures SolidValidator(t, stake, dels, v, now)
  {
    forall d {:trigger NotOverdrawn(t, dels, v, d)} ensures NotOverdrawn(t, dels, v, d) {
      assert NotOverdrawn(s, dels, v, d);
      OwedUntouched(s, t, dels, v, d);
    }
    TrackedElsewhere(s, t, stake, dels, v, now);
    FundsOk(s, t, stake, dels, v, now);
  }

  lemma OwedUntouched(s: State, t: State, dels: seq<Delegation>, v: Addr, d: Denom)
    requires t.history == s.history && t.infos == s.infos && t.slashes == s.slashes
    requires CurrentOf(t, v).period == CurrentOf(s, v).period > 0
    ensures Top(t, v, d) == Top(s, v, d) && Owed(t, dels, v, d, Top(t, v, d)) == Owed(s, dels, v, d, Top(s, v, d))
  {
    forall i | 0 <= i < |dels| && dels[i].validator == v
      ensures Due(s, dels[i], d, Top(s, v, d)) == Due(t, dels[i], d, Top(s, v, d))
    {
      DueSame(s, t, dels[i], d, Top(s, v, d));
    }
    OwedElsewhere(s, t, dels, v, d, Top(s, v, d));
  }

  lemma FundsOk(s: State, t: State, stake: Stake, dels: seq<Delegation>, v: Addr, now: nat)
    requires ValidatorOk(s, stake, dels, v, now)
    requires t.history == s.history && t.infos == s.infos && t.slashes == s.slashes &&
      CurrentOf(t, v).period == CurrentOf(s, v).period
    requires forall d {:trigger NotOverdrawn(t, dels, v, d)} :: NotOverdrawn(t, dels, v, d)
    ensures ValidatorOk(t, stake, dels, v, now)
  {
    forall p: nat ensures RecordOf(t, v, p).refs == Refs(t, dels, v, p) {
      assert RecordOf(s, v, p).refs == Refs(s, dels, v, p);
      assert RecordOf(t, v, p) == RecordOf(s, v, p);
    }
    forall i {:trigger DelegationSound(t, stake, dels[i], now)} | 0 <= i < |dels| && dels[i].validator == v
      ensures DelegationSound(t, stake, dels[i], now)
    {
      assert DelegationSound(s, stake, dels[i], now);
    }
    FundsCover(s, t, stake, dels, v, now);
  }

  lemma FundsCover(s: State, t: State, stake: Stake, dels: seq<Delegation>, v: Addr, now: nat)
    requires ValidatorOk(s, stake, dels, v, now)
    requires t.history == s.history && t.infos == s.infos && t.slashes == s.slashes &&
      CurrentOf(t, v).period == CurrentOf(s, v).period
    requires forall d {:trigger NotOverdrawn(t, dels, v, d)} :: NotOverdrawn(t, dels, v, d)
    ensures Covers(OutstandingOf(t, v), CurrentOf(t, v).rewards)
  {
    assert dels[..|dels|] == dels;
    forall d ensures Of(CurrentOf(t, v).rewards, d) <= Of(OutstandingOf(t, v), d) {
      assert NotOverdrawn(t, dels, v, d);
      OwedUntouched(s, t, dels, v, d);
      OwedNonNegative(s, stake, dels, |dels|, v, now, d);
    }
    CoversMeans(OutstandingOf(t, v), CurrentOf(t, v).rewards);
  }
}
