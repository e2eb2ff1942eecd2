/** Preparing a second time changes nothing. */
module Idempotence {
  import opened Bytes
  import opened DecCoins
  import opened StakingTypes
  import opened FeeDistribution
  import opened FeeInvariant
  import opened ZeroHeight
  import opened Conservation
  import opened Rebuild
  import opened Restart
  import opened CleanRestart

  /** v has nothing to withdraw, nothing to donate and no ratio to earn by. */
  ghost predicate QuietValidator(s: State, v: Addr)
  {
    && v in s.outstanding && s.outstanding[v] == ZERO
    && v in s.commission && s.commission[v] == ZERO
    && CurrentOf(s, v).rewards == ZERO
    && forall p: nat :: (v, p) in s.history ==> s.history[(v, p)].ratio == ZERO
  }

  ghost predicate Quiet(s: State, order: seq<Addr>)
  {
    forall v :: v in order ==> QuietValidator(s, v)
  }

  /** The holdings that a second preparation must leave alone. */
  ghost predicate SameHoldings(s: State, t: State)
  {
    t.balance == s.balance && t.pool == s.pool
  }

  lemma {:induction false} QuietCommissions(s: State, order: seq<Addr>, refused: set<Addr>, i: nat)
    requires Quiet(s, order) && i <= |order|
    ensures WithdrawCommissions(s, order[..i], refused) == Step(s, Done)
    decreases i
  {
    if i > 0 {
      QuietCommissions(s, order, refused, i - 1);
      assert order[..i][..i - 1] == order[..i - 1] && order[i - 1] in order;
      assert QuietValidator(s, order[i - 1]);
    } else {
      assert order[..0] == [];
    }
  }

  lemma QuietElsewhere(s: State, t: State, v: Addr)
    requires QuietValidator(s, v) && SameFor(s, t, v) && v in t.outstanding && v in t.commission
    ensures QuietValidator(t, v)
  {
  }

  lemma IncrementQuiet(s: State, v: Addr, tokens: nat)
    requires QuietValidator(s, v) && IncrementPeriod(s, v, tokens).status.Done?
    ensures var t := IncrementPeriod(s, v, tokens).state;
      QuietValidator(t, v) && SameHoldings(s, t) && t.outstanding == s.outstanding && t.commission == s.commission
  {
    var t, n := IncrementPeriod(s, v, tokens).state, CurrentOf(s, v).period;
    IncrementRest(s, v, tokens);
    IncrementFunds(s, v, tokens);
    AddZero(s.pool);
    SubZero(ZERO);
    AddZero(ZERO);
    assert s.outstanding[v := ZERO] == s.outstanding;
    assert PeriodRatio(ZERO, tokens) == ZERO;
    forall p: nat | (v, p) in t.history ensures t.history[(v, p)].ratio == ZERO {
      IncrementAt(s, v, tokens, (v, p));
    }
  }

  /** Paying nothing. */
  lemma PayZero(s: State, v: Addr)
    requires v in s.outstanding && s.outstanding[v] == ZERO
    ensures Covers(OutstandingOf(s, v), ZERO) && Covers(s.balance, Whole(ZERO)) && PayRewards(s, v, ZERO) == s
  {
    SubZero(s.balance);
    SubZero(ZERO);
    AddZero(s.pool);
    assert Whole(ZERO) == ZERO && Dust(ZERO) == ZERO;
    assert s.outstanding[v := ZERO] == s.outstanding;
  }

  lemma PaidQuiet(ended: State, del: Delegation, stake: Stake, height: nat, r: Step)
    requires QuietValidator(ended, del.validator) && Paid(ended, ZERO, del, stake, height, r)
    ensures QuietValidator(r.state, del.validator) && SameHoldings(ended, r.state)
    ensures r.state.outstanding == ended.outstanding && r.state.commission == ended.commission
  {
    var v := del.validator;
    PayZero(ended, v);
    var start := ended.infos[(v, del.delegator)].previous;
    forall p: nat | (v, p) in r.state.history ensures r.state.history[(v, p)].ratio == ZERO {
      ReleaseAt(ended, v, start, (v, p));
    }
  }

  /** A withdrawal from a quiet state pays nothing and leaves it quiet. */
  lemma WithdrawQuiet(s: State, stakes: map<Key, Stake>, order: seq<Addr>, dels: seq<Delegation>, k: nat, height: nat,
      refused: set<Addr>)
    requires ListsValidators(order, stakes) && WellFormed(s, stakes, dels, height) && Quiet(s, order) && k < |dels|
    ensures var r := WithdrawRewards(s, stakes, dels[k], height, refused);
      Quiet(r.state, order) && SameHoldings(s, r.state)
  {
    var del, v := dels[k], dels[k].validator;
    var r := WithdrawRewards(s, stakes, del, height, refused);
    if ValidatorKey(v) in stakes && (v, del.delegator) in s.infos {
      var stake := stakes[ValidatorKey(v)];
      assert ValidatorOk(s, stake, dels, v, height) && v in order && QuietValidator(s, v);
      var ended, rewards := Withdrawal(s, stakes, dels, k, height, refused);
      IncrementQuiet(s, v, stake.tokens);
      QuietRewards(ended, del, stake, CurrentOf(s, v).period, height);
      assert rewards == ZERO;
      assert IsZero(Whole(ZERO));
      PaidQuiet(ended, del, stake, height, r);
      forall w | w in order ensures QuietValidator(r.state, w) {
        if w != v {
          IncrementElsewhere(s, v, stake.tokens, w);
          PaidElsewhere(s, ended, rewards, del, stake, height, r, w);
          assert QuietValidator(s, w);
          QuietElsewhere(s, r.state, w);
        }
      }
    }
  }

  lemma QuietRewards(s: State, del: Delegation, stake: Stake, ending: nat, height: nat)
    requires QuietValidator(s, del.validator) && (del.validator, del.delegator) in s.infos
    ensures var a := DelegationRewards(s, del, stake, ending, height); a.Defined? ==> a.rewards == ZERO
  {
    var info := s.infos[(del.validator, del.delegator)];
    if stake.shares > 0 {
      AccrueZero(s, del.validator, info.previous, info.stake, SlashesOf(s, del.validator), info.height, height, ending,
        StakeRounded(del.shares, stake));
    }
  }

  lemma {:induction false} RewardsQuiet(s: State, stakes: map<Key, Stake>, order: seq<Addr>, dels: seq<Delegation>,
      height: nat, refused: set<Addr>, i: nat)
    requires ListsValidators(order, stakes) && WellFormed(s, stakes, dels, height) && Quiet(s, order) && i <= |dels|
    ensures var r := WithdrawAllRewards(s, stakes, dels[..i], height, refused);
      Quiet(r.state, order) && SameHoldings(s, r.state)
    decreases i
  {
    if i > 0 {
      RewardsQuiet(s, stakes, order, dels, height, refused, i - 1);
      var before := RewardsNext(s, stakes, dels, height, refused, i - 1);
      WithdrawQuiet(before, stakes, order, dels, i - 1, height, refused);
    } else {
      assert dels[..0] == [];
    }
  }

  lemma {:induction false} ReinitQuiet(s: State, order: seq<Addr>, i: nat)
    requires forall v :: v in order ==> OutstandingOf(s, v) == ZERO
    requires i <= |order|
    ensures SameHoldings(s, ReinitValidators(s, order[..i]))
    ensures forall v :: v in order ==> OutstandingOf(ReinitValidators(s, order[..i]), v) == ZERO
    decreases i
  {
    if i > 0 {
      ReinitQuiet(s, order, i - 1);
      assert order[..i][..i - 1] == order[..i - 1] && order[i - 1] in order;
      AddZero(s.pool);
    } else {
      assert order[..0] == [];
    }
  }

  /** Fresh records are determined by the validators and delegations; only the holdings can differ. */
  lemma FreshIsUnique(s: State, t: State, stakes: map<Key, Stake>, order: seq<Addr>, dels: seq<Delegation>)
    requires Fresh(s, stakes, order, dels) && Fresh(t, stakes, order, dels) && SameHoldings(s, t)
    ensures s == t
  {
    FundsAreUnique(s, t, stakes, order, dels);
    HistoryIsUnique(s, t, stakes, order, dels);
    InfosAreUnique(s, t, stakes, order, dels);
  }

  lemma FundsAreUnique(s: State, t: State, stakes: map<Key, Stake>, order: seq<Addr>, dels: seq<Delegation>)
    requires Fresh(s, stakes, order, dels) && Fresh(t, stakes, order, dels)
    ensures s.outstanding == t.outstanding && s.commission == t.commission && s.current == t.current
  {
    assert dels[..|dels|] == dels;
    forall v | v in order
      ensures RebuiltValidator(s, v, CountFor(dels, v)) && RebuiltValidator(t, v, CountFor(dels, v))
    {
    }
    assert s.outstanding == t.outstanding;
    assert s.commission == t.commission;
    assert s.current == t.current;
  }

  lemma InfosAreUnique(s: State, t: State, stakes: map<Key, Stake>, order: seq<Addr>, dels: seq<Delegation>)
    requires Fresh(s, stakes, order, dels) && Fresh(t, stakes, order, dels)
    ensures s.infos == t.infos
  {
    forall key | key in s.infos ensures s.infos[key] == t.infos[key] {
      var i := InfoPlace(s, stakes, order, dels, key.0, key.1);
      assert Served(stakes, dels, i);
    }
  }

  lemma HistoryIsUnique(s: State, t: State, stakes: map<Key, Stake>, order: seq<Addr>, dels: seq<Delegation>)
    requires Fresh(s, stakes, order, dels) && Fresh(t, stakes, order, dels)
    ensures s.history == t.history
  {
    assert dels[..|dels|] == dels;
    forall key: (Addr, nat)
      ensures (key in s.history <==> key in t.history) && (key in s.history ==> s.history[key] == t.history[key])
    {
      var (v, p) := key;
      if v in order {
        assert RebuiltValidator(s, v, CountFor(dels, v)) && RebuiltValidator(t, v, CountFor(dels, v));
        assert (v, p) in s.history <==> LivePeriod(CountFor(dels, v), p);
        assert (v, p) in t.history <==> LivePeriod(CountFor(dels, v), p);
      }
    }
  }

  lemma FreshIsQuiet(s: State, stakes: map<Key, Stake>, order: seq<Addr>, dels: seq<Delegation>)
    requires Fresh(s, stakes, order, dels)
    ensures Quiet(s, order)
  {
    assert dels[..|dels|] == dels;
    forall v | v in order ensures QuietValidator(s, v) {
      assert RebuiltValidator(s, v, CountFor(dels, v));
    }
  }

  /**
   Idempotence: preparing fresh records again, at whatever height and with whatever accounts refused,
   completes and gives the same state; nothing is withdrawn and nothing is donated.
   */
  lemma PreparationIsIdempotent(s: State, stakes: map<Key, Stake>, order: seq<Addr>, dels: seq<Delegation>, height: nat,
      refused: set<Addr>)
    requires ListsValidators(order, stakes) && Distinct(dels) && Fresh(s, stakes, order, dels)
    ensures PrepareDistribution(s, stakes, order, dels, height, refused) == Step(s, Done)
  {
    FreshIsWellFormed(s, stakes, order, dels, height);
    var a, b := WithdrawalPasses(s, stakes, order, dels, height, refused);
    QuietPasses(s, a, b, stakes, order, dels, height, refused);
    KnownAreServed(b, stakes, dels, height);
    var c := RebuildPasses(b, stakes, order, dels);
    FreshIsKnown(s, stakes, order, dels);
    FreshIsUnique(s, RebuildDelegations(c, stakes, dels, 0).state, stakes, order, dels);
  }

  /** The withdrawals and donations of the second preparation move nothing. */
  lemma QuietPasses(s: State, a: State, b: State, stakes: map<Key, Stake>, order: seq<Addr>, dels: seq<Delegation>,
      height: nat, refused: set<Addr>)
    requires Ready(s, stakes, order, dels, height) && Fresh(s, stakes, order, dels)
    requires WithdrawCommissions(s, order, refused) == Step(a, Done)
    requires WithdrawAllRewards(a, stakes, dels, height, refused) == Step(b, Done)
    ensures SameHoldings(s, ReinitValidators(ClearHistory(b), order))
  {
    FreshIsQuiet(s, stakes, order, dels);
    assert order[..|order|] == order && dels[..|dels|] == dels;
    QuietCommissions(s, order, refused, |order|);
    RewardsQuiet(s, stakes, order, dels, height, refused, |dels|);
    forall v | v in order ensures OutstandingOf(ClearHistory(b), v) == ZERO { assert QuietValidator(b, v); }
    ReinitQuiet(ClearHistory(b), order, |order|);
  }

  lemma FreshIsKnown(s: State, stakes: map<Key, Stake>, order: seq<Addr>, dels: seq<Delegation>)
    requires Fresh(s, stakes, order, dels)
    ensures AllKnown(stakes, dels)
  {
    forall del | del in dels ensures ValidatorKey(del.validator) in stakes {
      var i :| 0 <= i < |dels| && dels[i] == del;
      assert Served(stakes, dels, i);
    }
  }
}
