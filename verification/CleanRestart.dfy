/** Fresh records are well formed at every height, refer to nothing stale, and owe no reward. */
module CleanRestart {
  import opened Bytes
  import opened DecCoins
  import opened StakingTypes
  import opened FeeDistribution
  import opened FeeInvariant
  import opened ZeroHeight
  import opened Conservation
  import opened Rebuild
  import opened Restart

  lemma {:induction false} CountGrows(dels: seq<Delegation>, i: nat, j: nat, v: Addr)
    requires i <= j <= |dels|
    ensures CountFor(dels[..i], v) <= CountFor(dels[..j], v)
    decreases j - i
  {
    if i < j {
      CountNext(dels, j - 1, v);
      CountGrows(dels, i, j - 1, v);
    }
  }

  /** Each period from 1 to the number of v's delegations is tracked by exactly one of them. */
  lemma {:induction false} RebuiltInfoRefs(s: State, stakes: map<Key, Stake>, dels: seq<Delegation>, i: nat, v: Addr,
      p: nat)
    requires i <= |dels| && RebuiltInfos(s, stakes, dels, |dels|, 0)
    ensures InfoRefs(s.infos, dels[..i], v, p) == if 1 <= p <= CountFor(dels[..i], v) then 1 else 0
    decreases i
  {
    if i > 0 {
      RebuiltInfoRefs(s, stakes, dels, i - 1, v, p);
      CountNext(dels, i - 1, v);
      assert dels[..i][..i - 1] == dels[..i - 1] && dels[..i][i - 1] == dels[i - 1];
      assert Served(stakes, dels, i - 1);
    } else {
      assert dels[..0] == [];
    }
  }

  lemma FreshCounted(s: State, stakes: map<Key, Stake>, order: seq<Addr>, dels: seq<Delegation>, v: Addr)
    requires Fresh(s, stakes, order, dels) && v in order
    ensures Counted(s, dels, v)
  {
    assert dels[..|dels|] == dels;
    var k := CountFor(dels, v);
    assert RebuiltValidator(s, v, k);
    forall p: nat ensures RecordOf(s, v, p).refs == Refs(s, dels, v, p) {
      RebuiltInfoRefs(s, stakes, dels, |dels|, v, p);
      assert (v, p) in s.history <==> LivePeriod(k, p);
    }
  }

  /** Where the info of a delegation points. */
  lemma InfoPlace(s: State, stakes: map<Key, Stake>, order: seq<Addr>, dels: seq<Delegation>, v: Addr, d: Addr)
      returns (i: nat)
    requires Fresh(s, stakes, order, dels) && (v, d) in s.infos
    ensures i < |dels| && dels[i].validator == v && dels[i].delegator == d && Served(stakes, dels, i)
    ensures s.infos[(v, d)] == RebuiltInfo(stakes, dels, i, 0)
    ensures 1 <= s.infos[(v, d)].previous <= CountFor(dels, v)
  {
    assert (v, d) in InfoKeys(dels);
    var del :| del in dels && (del.validator, del.delegator) == (v, d);
    i :| 0 <= i < |dels| && dels[i] == del;
    assert Served(stakes, dels, i);
    RankBounds(dels, i);
  }

  lemma RankBounds(dels: seq<Delegation>, i: nat)
    requires i < |dels|
    ensures 1 <= CountFor(dels[..i + 1], dels[i].validator) <= CountFor(dels, dels[i].validator)
  {
    CountNext(dels, i, dels[i].validator);
    CountGrows(dels, i + 1, |dels|, dels[i].validator);
    assert dels[..|dels|] == dels;
  }

  lemma FreshEnded(s: State, stakes: map<Key, Stake>, order: seq<Addr>, dels: seq<Delegation>, v: Addr)
    requires Fresh(s, stakes, order, dels) && v in order
    ensures Ended(s, v) && Growing(s, v)
  {
    assert dels[..|dels|] == dels;
    var k := CountFor(dels, v);
    assert RebuiltValidator(s, v, k);
    forall p: nat | (v, p) in s.history ensures p <= k && s.history[(v, p)].ratio == ZERO { assert LivePeriod(k, p); }
    forall d: Addr | (v, d) in s.infos ensures s.infos[(v, d)].previous < k + 1 {
      var i := InfoPlace(s, stakes, order, dels, v, d);
    }
  }

  /** Fresh records satisfy the invariant whatever the height of the chain that continues from them. */
  lemma FreshIsWellFormed(s: State, stakes: map<Key, Stake>, order: seq<Addr>, dels: seq<Delegation>, height: nat)
    requires ListsValidators(order, stakes) && Distinct(dels) && Fresh(s, stakes, order, dels)
    ensures Ready(s, stakes, order, dels, height)
  {
    assert dels[..|dels|] == dels;
    forall v: Addr | ValidatorKey(v) in stakes ensures ValidatorOk(s, stakes[ValidatorKey(v)], dels, v, height) {
      assert v in order && RebuiltValidator(s, v, CountFor(dels, v));
      FreshCounted(s, stakes, order, dels, v);
      FreshEnded(s, stakes, order, dels, v);
      forall i | 0 <= i < |dels| && dels[i].validator == v
        ensures DelegationSound(s, stakes[ValidatorKey(v)], dels[i], height)
      {
        assert Served(stakes, dels, i);
        var info := s.infos[(v, dels[i].delegator)];
        TruncatedAtMostRounded(dels[i].shares, stakes[ValidatorKey(v)]);
        FreshStakeSound(info.previous, info.stake, SlashesOf(s, v), 0, height,
          StakeRounded(dels[i].shares, stakes[ValidatorKey(v)]));
      }
    }
    forall v | v in order ensures CommissionBacked(s, v) { assert RebuiltValidator(s, v, CountFor(dels, v)); }
  }

  /**
   Clean restart: the one starting info of each delegation has height zero, points to a live record
   of its own validator, and the reward from it up to the last period is zero at every height.
   */
  lemma FreshOwesNoRewards(s: State, stakes: map<Key, Stake>, order: seq<Addr>, dels: seq<Delegation>, i: nat,
      height: nat)
    requires ListsValidators(order, stakes) && Distinct(dels) && Fresh(s, stakes, order, dels) && i < |dels|
    ensures var v, key := dels[i].validator, (dels[i].validator, dels[i].delegator);
      && v in order && key in s.infos
      && s.infos[key].height == 0
      && (v, s.infos[key].previous) in s.history
      && DelegationRewards(s, dels[i], stakes[ValidatorKey(v)], CurrentOf(s, v).period - 1, height) == Defined(ZERO)
  {
    var v, key := dels[i].validator, (dels[i].validator, dels[i].delegator);
    assert Served(stakes, dels, i) && v in order;
    assert dels[..|dels|] == dels;
    var k := CountFor(dels, v);
    assert RebuiltValidator(s, v, k);
    var j := InfoPlace(s, stakes, order, dels, v, dels[i].delegator);
    assert LivePeriod(k, s.infos[key].previous);
    FreshEarnsNothing(s, stakes, order, dels, i, height);
  }

  lemma FreshEarnsNothing(s: State, stakes: map<Key, Stake>, order: seq<Addr>, dels: seq<Delegation>, i: nat,
      height: nat)
    requires ListsValidators(order, stakes) && Distinct(dels) && Fresh(s, stakes, order, dels) && i < |dels|
    requires dels[i].validator in order && (dels[i].validator, dels[i].delegator) in s.infos
    requires s.infos[(dels[i].validator, dels[i].delegator)].height == 0
    ensures var v := dels[i].validator;
      CurrentOf(s, v).period > 0 &&
      DelegationRewards(s, dels[i], stakes[ValidatorKey(v)], CurrentOf(s, v).period - 1, height) == Defined(ZERO)
  {
    var v, stake := dels[i].validator, stakes[ValidatorKey(dels[i].validator)];
    var info := s.infos[(v, dels[i].delegator)];
    FreshIsWellFormed(s, stakes, order, dels, height);
    assert ValidatorOk(s, stake, dels, v, height);
    RewardsDefined(s, stake, dels, i, height);
    FreshRatios(s, stakes, order, dels, v);
    AccrueZero(s, v, info.previous, info.stake, SlashesOf(s, v), 0, height, CurrentOf(s, v).period - 1,
      StakeRounded(dels[i].shares, stake));
  }

  lemma FreshRatios(s: State, stakes: map<Key, Stake>, order: seq<Addr>, dels: seq<Delegation>, v: Addr)
    requires Fresh(s, stakes, order, dels) && v in order
    ensures forall p: nat :: RecordOf(s, v, p).ratio == ZERO
    ensures SlashesOf(s, v) == [] && CurrentOf(s, v).rewards == ZERO && CurrentOf(s, v).period > 0
  {
    assert dels[..|dels|] == dels;
    assert RebuiltValidator(s, v, CountFor(dels, v));
    forall p: nat
      ensures RecordOf(s, v, p).ratio == ZERO
    {
      assert (v, p) in s.history <==> LivePeriod(CountFor(dels, v), p);
    }
  }

  // ---- The number of references ----

  ghost function RefsBelow(s: State, v: Addr, n: nat): nat
  {
    if n == 0 then 0 else RefsBelow(s, v, n - 1) + RecordOf(s, v, n - 1).refs
  }

  /** All references of the listed validators' records. */
  ghost function TotalRefs(s: State, order: seq<Addr>): nat
    decreases |order|
  {
    if order == [] then 0
    else TotalRefs(s, order[..|order| - 1]) + RefsBelow(s, order[|order| - 1], CurrentOf(s, order[|order| - 1]).period)
  }

  ghost function TotalCount(dels: seq<Delegation>, order: seq<Addr>): nat
    decreases |order|
  {
    if order == [] then 0 else TotalCount(dels, order[..|order| - 1]) + CountFor(dels, order[|order| - 1])
  }

  lemma {:induction false} RebuiltRefsBelow(s: State, v: Addr, k: nat, n: nat)
    requires RebuiltValidator(s, v, k) && n <= k
    ensures RefsBelow(s, v, n) == if n <= 1 then 0 else n - 1
    decreases n
  {
    if n > 0 {
      RebuiltRefsBelow(s, v, k, n - 1);
      assert (v, n - 1) in s.history <==> LivePeriod(k, n - 1);
    }
  }

  lemma {:induction false} FreshRefsOf(s: State, stakes: map<Key, Stake>, order: seq<Addr>, dels: seq<Delegation>,
      part: seq<Addr>)
    requires Fresh(s, stakes, order, dels) && forall v :: v in part ==> v in order
    ensures TotalRefs(s, part) == |part| + TotalCount(dels, part)
    decreases |part|
  {
    if part != [] {
      var v := part[|part| - 1];
      FreshRefsOf(s, stakes, order, dels, part[..|part| - 1]);
      assert v in order && dels[..|dels|] == dels;
      RebuiltRefs(s, v, CountFor(dels, v));
    }
  }

  lemma RebuiltRefs(s: State, v: Addr, k: nat)
    requires RebuiltValidator(s, v, k)
    ensures RefsBelow(s, v, CurrentOf(s, v).period) == 1 + k
  {
    RebuiltRefsBelow(s, v, k, k);
    assert LivePeriod(k, k);
  }

  lemma {:induction false} CountOfNone(order: seq<Addr>)
    ensures TotalCount([], order) == 0
    decreases |order|
  {
    if order != [] { CountOfNone(order[..|order| - 1]); }
  }

  lemma {:induction false} CountOneMore(dels: seq<Delegation>, del: Delegation, order: seq<Addr>)
    requires Unique(order)
    ensures TotalCount(dels + [del], order) == TotalCount(dels, order) + if del.validator in order then 1 else 0
    decreases |order|
  {
    if order != [] {
      var n := |order| - 1;
      CountOneMore(dels, del, order[..n]);
      assert (dels + [del])[..|dels|] == dels;
      assert del.validator in order <==> del.validator in order[..n] || del.validator == order[n];
    }
  }

  lemma {:induction false} EveryDelegationCounted(dels: seq<Delegation>, order: seq<Addr>)
    requires Unique(order) && forall del :: del in dels ==> del.validator in order
    ensures TotalCount(dels, order) == |dels|
    decreases |dels|
  {
    if dels == [] {
      CountOfNone(order);
    } else {
      var n := |dels| - 1;
      EveryDelegationCounted(dels[..n], order);
      CountOneMore(dels[..n], dels[n], order);
      assert dels == dels[..n] + [dels[n]];
    }
  }

  /** Reference-count exactness: one reference for every validator and one for every delegation. */
  lemma FreshReferenceTotal(s: State, stakes: map<Key, Stake>, order: seq<Addr>, dels: seq<Delegation>)
    requires ListsValidators(order, stakes) && Fresh(s, stakes, order, dels)
    ensures TotalRefs(s, order) == |order| + |dels|
  {
    FreshRefsOf(s, stakes, order, dels, order);
    forall del | del in dels ensures del.validator in order {
      var i :| 0 <= i < |dels| && dels[i] == del;
      assert Served(stakes, dels, i);
    }
    EveryDelegationCounted(dels, order);
  }
}
