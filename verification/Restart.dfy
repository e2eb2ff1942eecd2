/**
 Main results about the fee-distribution part of the zero-height preparation: when it completes,
 the state it leaves, and how its books end.
 */
module Restart {
  import opened Bytes
  import opened DecCoins
  import opened StakingTypes
  import opened FeeDistribution
  import opened FeeInvariant
  import opened ZeroHeight
  import opened Conservation
  import opened Rebuild

  ghost function Members(order: seq<Addr>): set<Addr>
  {
    set v | v in order
  }

  /** No records of validators or delegations that staking does not have. */
  ghost predicate Closed(s: State, order: seq<Addr>, dels: seq<Delegation>)
  {
    && s.outstanding.Keys <= Members(order)
    && s.commission.Keys <= Members(order)
    && s.current.Keys <= Members(order)
    && s.infos.Keys <= InfoKeys(dels)
  }

  /** A well-formed start of the preparation. */
  ghost predicate Ready(s: State, stakes: map<Key, Stake>, order: seq<Addr>, dels: seq<Delegation>, height: nat)
  {
    && ListsValidators(order, stakes)
    && WellFormed(s, stakes, dels, height)
    && (forall v :: v in order ==> CommissionBacked(s, v))
    && Closed(s, order, dels)
  }

  /** The records of a chain that starts again at height zero. */
  ghost predicate Fresh(s: State, stakes: map<Key, Stake>, order: seq<Addr>, dels: seq<Delegation>)
  {
    && Rebuilt(s, stakes, order, dels, |dels|, 0)
    && Closed(s, order, dels)
    && s.infos.Keys == InfoKeys(dels)
  }

  // ---- Closedness through the passes ----

  lemma IncrementClosed(s: State, order: seq<Addr>, dels: seq<Delegation>, v: Addr, tokens: nat)
    requires Closed(s, order, dels) && v in order && IncrementPeriod(s, v, tokens).status.Done?
    ensures Closed(IncrementPeriod(s, v, tokens).state, order, dels)
  {
    IncrementRest(s, v, tokens);
    IncrementFunds(s, v, tokens);
  }

  lemma PaidClosed(ended: State, rewards: Coins, del: Delegation, stake: Stake, height: nat, r: Step, order: seq<Addr>,
      dels: seq<Delegation>)
    requires Closed(ended, order, dels) && del.validator in order && del in dels &&
      Paid(ended, rewards, del, stake, height, r)
    ensures Closed(r.state, order, dels)
  {
    assert (del.validator, del.delegator) in InfoKeys(dels);
  }

  lemma WithdrawClosed(s: State, stakes: map<Key, Stake>, order: seq<Addr>, dels: seq<Delegation>, k: nat, height: nat,
      refused: set<Addr>)
    requires ListsValidators(order, stakes) && WellFormed(s, stakes, dels, height) && k < |dels| &&
      Closed(s, order, dels)
    ensures Closed(WithdrawRewards(s, stakes, dels[k], height, refused).state, order, dels)
  {
    var del, v := dels[k], dels[k].validator;
    if ValidatorKey(v) in stakes && (v, del.delegator) in s.infos {
      var stake := stakes[ValidatorKey(v)];
      assert ValidatorOk(s, stake, dels, v, height) && v in order;
      var ended, rewards := Withdrawal(s, stakes, dels, k, height, refused);
      IncrementClosed(s, order, dels, v, stake.tokens);
      if WithdrawRewards(s, stakes, del, height, refused).status.Done? {
        PaidClosed(ended, rewards, del, stake, height, WithdrawRewards(s, stakes, del, height, refused), order, dels);
      }
    }
  }

  lemma CommissionClosed(s: State, order: seq<Addr>, dels: seq<Delegation>, v: Addr, refused: set<Addr>)
    requires v in order && Closed(s, order, dels)
    ensures Closed(WithdrawCommission(s, v, refused).state, order, dels)
  {
  }

  lemma {:induction false} CommissionsClosed(s: State, order: seq<Addr>, dels: seq<Delegation>, refused: set<Addr>,
      i: nat)
    requires i <= |order| && Closed(s, order, dels)
    ensures Closed(WithdrawCommissions(s, order[..i], refused).state, order, dels)
    decreases i
  {
    if i > 0 {
      CommissionsClosed(s, order, dels, refused, i - 1);
      assert order[..i][..i - 1] == order[..i - 1];
      CommissionClosed(WithdrawCommissions(s, order[..i - 1], refused).state, order, dels, order[i - 1], refused);
    } else {
      assert order[..0] == [];
    }
  }

  lemma {:induction false} RewardsClosed(s: State, stakes: map<Key, Stake>, order: seq<Addr>, dels: seq<Delegation>,
      height: nat, refused: set<Addr>, i: nat)
    requires ListsValidators(order, stakes) && WellFormed(s, stakes, dels, height) && i <= |dels| &&
      Closed(s, order, dels)
    ensures Closed(WithdrawAllRewards(s, stakes, dels[..i], height, refused).state, order, dels)
    decreases i
  {
    if i > 0 {
      RewardsClosed(s, stakes, order, dels, height, refused, i - 1);
      RewardsClosedNext(s, stakes, order, dels, height, refused, i - 1);
    } else {
      assert dels[..0] == [];
    }
  }

  lemma RewardsClosedNext(s: State, stakes: map<Key, Stake>, order: seq<Addr>, dels: seq<Delegation>,
      height: nat, refused: set<Addr>, i: nat)
    requires ListsValidators(order, stakes) && WellFormed(s, stakes, dels, height) && i < |dels|
    requires Closed(WithdrawAllRewards(s, stakes, dels[..i], height, refused).state, order, dels)
    ensures Closed(WithdrawAllRewards(s, stakes, dels[..i + 1], height, refused).state, order, dels)
  {
    var before := RewardsNext(s, stakes, dels, height, refused, i);
    WithdrawClosed(before, stakes, order, dels, i, height, refused);
  }

  lemma {:induction false} ReinitClosed(s: State, order: seq<Addr>, dels: seq<Delegation>, i: nat)
    requires i <= |order| && Closed(s, order, dels)
    ensures Closed(ReinitValidators(s, order[..i]), order, dels)
    decreases i
  {
    if i > 0 {
      ReinitClosed(s, order, dels, i - 1);
      assert order[..i][..i - 1] == order[..i - 1];
    } else {
      assert order[..0] == [];
    }
  }

  // ---- The whole pipeline ----

  /** The withdrawal passes complete from every well-formed start. */
  lemma WithdrawalPasses(s: State, stakes: map<Key, Stake>, order: seq<Addr>, dels: seq<Delegation>, height: nat,
      refused: set<Addr>)
    returns (a: State, b: State)
    requires Ready(s, stakes, order, dels, height)
    ensures WithdrawCommissions(s, order, refused) == Step(a, Done)
    ensures WithdrawAllRewards(a, stakes, dels, height, refused) == Step(b, Done)
    ensures WellFormed(a, stakes, dels, height) && WellFormed(b, stakes, dels, height)
    ensures Closed(b, order, dels)
    ensures forall d :: Gap(b, order, d) == Gap(s, order, d) + UnpaidTotal(s, order, refused, d)
  {
    assert order[..|order|] == order && dels[..|dels|] == dels;
    CommissionPass(s, stakes, order, dels, height, refused, |order|);
    CommissionsClosed(s, order, dels, refused, |order|);
    a := WithdrawCommissions(s, order, refused).state;
    RewardsPass(a, stakes, dels, height, refused, |dels|);
    RewardsClosed(a, stakes, order, dels, height, refused, |dels|);
    b := WithdrawAllRewards(a, stakes, dels, height, refused).state;
    forall d ensures Gap(b, order, d) == Gap(s, order, d) + UnpaidTotal(s, order, refused, d) {
      CommissionGap(s, stakes, order, dels, height, refused, |order|, d);
      RewardsGap(a, stakes, order, dels, height, refused, |dels|, d);
    }
  }

  lemma ReinitIsRebuilt(cleared: State, stakes: map<Key, Stake>, order: seq<Addr>, dels: seq<Delegation>)
    requires Unique(order) && Closed(cleared, order, dels) && cleared.history == map[] && cleared.slashes == map[]
    ensures var c := ReinitValidators(cleared, order);
      && Rebuilt(c, stakes, order, dels, 0, 0) && Closed(c, order, dels)
      && forall d :: Gap(c, order, d) == Gap(cleared, order, d)
  {
    assert order[..|order|] == order && dels[..0] == [];
    ReinitPass(cleared, order, |order|);
    ReinitClosed(cleared, order, dels, |order|);
    forall d
      ensures Gap(ReinitValidators(cleared, order), order, d) == Gap(cleared, order, d)
    {
      ReinitGap(cleared, order, |order|, d);
    }
  }

  /** The rebuild passes, from any state: fresh records if every delegation's validator exists, else a panic. */
  lemma RebuildPasses(b: State, stakes: map<Key, Stake>, order: seq<Addr>, dels: seq<Delegation>)
    returns (c: State)
    requires ListsValidators(order, stakes) && Distinct(dels) && Closed(b, order, dels)
    requires forall j :: 0 <= j < |dels| && ValidatorKey(dels[j].validator) in stakes ==> Served(stakes, dels, j)
    ensures c == ReinitValidators(ClearHistory(b), order)
    ensures forall d :: Gap(c, order, d) == Gap(b, order, d)
    ensures var r := RebuildDelegations(c, stakes, dels, 0);
      && (AllKnown(stakes, dels) ==> r.status.Done? && Fresh(r.state, stakes, order, dels) && SameFunds(c, r.state))
      && (!AllKnown(stakes, dels) ==> r.status.Panicked?)
  {
    var cleared := ClearHistory(b);
    ReinitIsRebuilt(cleared, stakes, order, dels);
    c := ReinitValidators(cleared, order);
    forall d ensures Gap(c, order, d) == Gap(b, order, d) { FundsUntouched(b, cleared, order, d); }
    assert dels[..|dels|] == dels;
    RebuildPass(c, stakes, order, dels, |dels|, 0);
    if AllKnown(stakes, dels) {
      CompletedIsFresh(c, RebuildDelegations(c, stakes, dels, 0).state, stakes, order, dels);
    }
  }

  lemma CompletedIsFresh(c: State, t: State, stakes: map<Key, Stake>, order: seq<Addr>, dels: seq<Delegation>)
    requires Closed(c, order, dels) && PassCompleted(c, t, stakes, order, dels, |dels|, 0)
    ensures Fresh(t, stakes, order, dels)
  {
    assert dels[..|dels|] == dels;
  }

  lemma KnownAreServed(s: State, stakes: map<Key, Stake>, dels: seq<Delegation>, height: nat)
    requires WellFormed(s, stakes, dels, height)
    ensures forall j :: 0 <= j < |dels| && ValidatorKey(dels[j].validator) in stakes ==> Served(stakes, dels, j)
  {
    forall j | 0 <= j < |dels| && ValidatorKey(dels[j].validator) in stakes ensures Served(stakes, dels, j) {
      assert ValidatorOk(s, stakes[ValidatorKey(dels[j].validator)], dels, dels[j].validator, height);
      assert DelegationSound(s, stakes[ValidatorKey(dels[j].validator)], dels[j], height);
    }
  }

  lemma {:induction false} FreshOwesNothing(s: State, stakes: map<Key, Stake>, order: seq<Addr>, dels: seq<Delegation>,
      part: seq<Addr>, d: Denom)
    requires Fresh(s, stakes, order, dels) && forall v :: v in part ==> v in order
    ensures SumOutstanding(s, part, d) == 0
    decreases |part|
  {
    if part != [] {
      FreshOwesNothing(s, stakes, order, dels, part[..|part| - 1], d);
      assert part[|part| - 1] in order;
    }
  }

  /**
   From every well-formed start the preparation completes exactly when each delegation's validator
   exists, and then the records are fresh; the pool holds everything that was owed.
   */
  lemma PreparationCompletes(s: State, stakes: map<Key, Stake>, order: seq<Addr>, dels: seq<Delegation>, height: nat,
      refused: set<Addr>)
    requires Ready(s, stakes, order, dels, height)
    ensures var r := PrepareDistribution(s, stakes, order, dels, height, refused);
      && (AllKnown(stakes, dels) <==> r.status.Done?)
      && (!AllKnown(stakes, dels) <==> r.status.Panicked?)
      && (r.status.Done? ==> Fresh(r.state, stakes, order, dels))
  {
    var a, b := WithdrawalPasses(s, stakes, order, dels, height, refused);
    KnownAreServed(b, stakes, dels, height);
    var c := RebuildPasses(b, stakes, order, dels);
  }

  /** The books after the preparation: nothing outstanding, and the gap grown by the refused commissions alone. */
  lemma PreparationBooks(s: State, stakes: map<Key, Stake>, order: seq<Addr>, dels: seq<Delegation>, height: nat,
      refused: set<Addr>, d: Denom)
    requires Ready(s, stakes, order, dels, height) && AllKnown(stakes, dels)
    ensures var t := PrepareDistribution(s, stakes, order, dels, height, refused).state;
      && SumOutstanding(t, order, d) == 0
      && Gap(t, order, d) == Gap(s, order, d) + UnpaidTotal(s, order, refused, d)
      && Of(t.pool, d) == Of(t.balance, d) * ONE - Gap(s, order, d) - UnpaidTotal(s, order, refused, d)
  {
    var a, b := WithdrawalPasses(s, stakes, order, dels, height, refused);
    KnownAreServed(b, stakes, dels, height);
    var c := RebuildPasses(b, stakes, order, dels);
    var t := RebuildDelegations(c, stakes, dels, 0).state;
    FundsUntouched(c, t, order, d);
    FreshOwesNothing(t, stakes, order, dels, order, d);
  }
}
