/** The zero-height export of the application, pass by pass over its stores. */
module Export {
  import opened Wrappers
  import opened Bytes
  import opened StakingTypes
  import opened FeeDistribution
  import DecCoins
  import opened ZeroHeight
  import opened Rebuild
  import opened Restart
  import opened DistrKeeper
  import opened StakingReset
  import Idempotence

  /** Every allow-list entry is an address. */
  predicate AllDecode(allowed: seq<string>, codec: Codec)
  {
    forall i :: 0 <= i < |allowed| ==> codec.decode(allowed[i]).Some?
  }

  class App {
    const distr: Keeper
    var validators: map<Key, Validator>
    var delegations: seq<Delegation>          // in store order
    var redelegations: map<Key, Redelegation>
    var redelegationIndex: set<Key>
    var unbondings: map<Key, Unbonding>
    var unbondingIndex: set<Key>
    var signingInfos: map<Key, SigningInfo>
    var lastBlockHeight: nat

    /** Every staking record is stored under its own key, and its index entries exist. */
    ghost predicate Keyed()
      reads this
    {
      && KeyedByOperator(validators)
      && (forall k {:trigger RedelegationKeyed(redelegations, redelegationIndex, k)} ::
            k in redelegations ==> RedelegationKeyed(redelegations, redelegationIndex, k))
      && (forall k {:trigger UnbondingKeyed(unbondings, unbondingIndex, k)} ::
            k in unbondings ==> UnbondingKeyed(unbondings, unbondingIndex, k))
    }

    ghost function StakingRecords(): Records
      reads this
    {
      Records(validators, redelegations, unbondings, signingInfos)
    }

    constructor (keeper: Keeper, validators: map<Key, Validator>, delegations: seq<Delegation>,
                 redelegations: map<Key, Redelegation>, redelegationIndex: set<Key>,
                 unbondings: map<Key, Unbonding>, unbondingIndex: set<Key>,
                 signingInfos: map<Key, SigningInfo>, lastBlockHeight: nat)
      ensures distr == keeper && this.validators == validators && this.delegations == delegations
      ensures this.redelegations == redelegations && this.redelegationIndex == redelegationIndex
      ensures this.unbondings == unbondings && this.unbondingIndex == unbondingIndex
      ensures this.signingInfos == signingInfos && this.lastBlockHeight == lastBlockHeight
    {
      distr := keeper;
      this.validators, this.delegations := validators, delegations;
      this.redelegations, this.redelegationIndex := redelegations, redelegationIndex;
      this.unbondings, this.unbondingIndex := unbondings, unbondingIndex;
      this.signingInfos, this.lastBlockHeight := signingInfos, lastBlockHeight;
    }

    // ---- Fee distribution ----

    method WithdrawCommissionsPass(refused: set<Addr>) returns (status: Status)
      requires KeyedByOperator(validators)
      modifies distr
      ensures status == WithdrawCommissions(old(distr.Now()), Order(validators), refused).status
      ensures status.Done? ==> distr.Now() == WithdrawCommissions(old(distr.Now()), Order(validators), refused).state
    {
      ghost var start, order, i := distr.Now(), Order(validators), 0;
      var pos := First(false, validators.Keys);
      CursorOpens(false, validators.Keys);
      while pos.Some?
        invariant CursorAt(pos, Visit(false, validators.Keys), i)
        invariant i <= |order| && WithdrawCommissions(start, order[..i], refused) == Step(distr.Now(), Done)
        decreases |Visit(false, validators.Keys)| - i
      {
        OperatorUnderCursor(validators, pos, i);
        CommissionStep(start, order, refused, i);
        var outcome := distr.WithdrawValidatorCommission(validators[pos.value].operator, refused);
        if outcome.Panicked? {
          CommissionsStayPanicked(start, order, refused, i + 1);
          return Panicked;
        }
        pos := Next(false, validators.Keys, pos.value);
        i := i + 1;
      }
      OperatorsEnd(validators, i);
      return Done;
    }

    method WithdrawRewardsPass(height: nat, refused: set<Addr>) returns (status: Status)
      modifies distr
      ensures status == WithdrawAllRewards(old(distr.Now()), Stakes(validators), delegations, height, refused).status
      ensures status.Done? ==>
        distr.Now() == WithdrawAllRewards(old(distr.Now()), Stakes(validators), delegations, height, refused).state
    {
      var dels := delegations;
      for i := 0 to |dels|
        invariant WithdrawAllRewards(old(distr.Now()), Stakes(validators), dels[..i], height, refused) ==
          Step(distr.Now(), Done)
      {
        RewardsStep(old(distr.Now()), Stakes(validators), dels, height, refused, i);
        var outcome := distr.WithdrawDelegationRewards(Stakes(validators), dels[i], height, refused);
        if outcome.Panicked? {
          RewardsStayPanicked(old(distr.Now()), Stakes(validators), dels, height, refused, i + 1);
          return Panicked;
        }
      }
      assert dels[..|dels|] == dels;
      return Done;
    }

    /** Donate what v has outstanding, then run the hook that initialises it. */
    method Reinitialize(v: Addr)
      modifies distr
      ensures distr.Now() == ReinitValidator(old(distr.Now()), v)
    {
      var rewards := OutstandingOf(distr.Now(), v);
      var feePool := distr.pool;
      feePool := DecCoins.Add(feePool, rewards);
      distr.pool := feePool;
      distr.InitializeValidator(v);
    }

    method ReinitValidatorsPass()
      requires KeyedByOperator(validators)
      modifies distr
      ensures distr.Now() == ReinitValidators(old(distr.Now()), Order(validators))
    {
      ghost var start, order, i := distr.Now(), Order(validators), 0;
      var pos := First(false, validators.Keys);
      CursorOpens(false, validators.Keys);
      while pos.Some?
        invariant CursorAt(pos, Visit(false, validators.Keys), i)
        invariant i <= |order| && distr.Now() == ReinitValidators(start, order[..i])
        decreases |Visit(false, validators.Keys)| - i
      {
        OperatorUnderCursor(validators, pos, i);
        assert order[..i + 1][..i] == order[..i];
        Reinitialize(validators[pos.value].operator);
        pos := Next(false, validators.Keys, pos.value);
        i := i + 1;
      }
      OperatorsEnd(validators, i);
    }

    method RebuildDelegationsPass(dels: seq<Delegation>, height: nat) returns (status: Status)
      modifies distr
      ensures status == RebuildDelegations(old(distr.Now()), Stakes(validators), dels, height).status
      ensures status.Done? ==>
        distr.Now() == RebuildDelegations(old(distr.Now()), Stakes(validators), dels, height).state
    {
      var stakes := Stakes(validators);
      for i := 0 to |dels|
        invariant RebuildDelegations(old(distr.Now()), stakes, dels[..i], height) == Step(distr.Now(), Done)
      {
        var del := dels[i];
        assert dels[..i + 1][..i] == dels[..i];
        RebuildStaysPanicked(old(distr.Now()), stakes, dels, height, i + 1);
        if ValidatorKey(del.validator) !in stakes {
          return Panicked;
        }
        var stake := stakes[ValidatorKey(del.validator)];
        status := distr.IncrementValidatorPeriod(del.validator, stake.tokens);
        if !status.Done? {
          return Panicked;
        }
        status := distr.InitializeDelegation(del, stake, height);
        if !status.Done? {
          return Panicked;
        }
      }
      assert dels[..|dels|] == dels;
      return Done;
    }

    // ---- Staking ----

    method ResetHeights(entries: seq<Entry>) returns (r: seq<Entry>)
      ensures r == ResetEntries(entries)
    {
      r := entries;
      for i := 0 to |entries|
        invariant |r| == |entries|
        invariant forall j :: 0 <= j < i ==> r[j] == entries[j].(creationHeight := 0)
        invariant forall j :: i <= j < |r| ==> r[j] == entries[j]
      {
        r := r[i := r[i].(creationHeight := 0)];
      }
    }

    method SetRedelegation(r: Redelegation)
      modifies this`redelegations, this`redelegationIndex
      ensures redelegations == old(redelegations)[RedelegationKey(r) := r]
      ensures redelegationIndex == old(redelegationIndex) + {BySourceKey(r), ByDestinationKey(r)}
    {
      redelegations := redelegations[RedelegationKey(r) := r];
      redelegationIndex := redelegationIndex + {BySourceKey(r)};
      redelegationIndex := redelegationIndex + {ByDestinationKey(r)};
    }

    method ResetOneRedelegation(k: Key)
      requires k in redelegations && RedelegationKeyed(redelegations, redelegationIndex, k)
      modifies this`redelegations, this`redelegationIndex
      ensures redelegations == old(redelegations)[k := ResetRedelegation(old(redelegations)[k])]
      ensures redelegationIndex == old(redelegationIndex)
    {
      var red := redelegations[k];
      var entries := ResetHeights(red.entries);
      SetRedelegation(red.(entries := entries));
    }

    method ResetRedelegationsPass()
      requires forall k {:trigger RedelegationKeyed(redelegations, redelegationIndex, k)} ::
            k in redelegations ==> RedelegationKeyed(redelegations, redelegationIndex, k)
      modifies this`redelegations, this`redelegationIndex
      ensures RedelegationsZeroed(old(redelegations), redelegations)
      ensures redelegations == MapValues(old(redelegations), ResetRedelegation)
      ensures redelegationIndex == old(redelegationIndex)
    {
      ghost var start, i := redelegations, 0;
      var pos := First(false, redelegations.Keys);
      CursorOpens(false, redelegations.Keys);
      while pos.Some?
        invariant CursorAt(pos, Visit(false, start.Keys), i)
        invariant Rewritten(redelegations, start, Visit(false, start.Keys), i, ResetRedelegation)
        invariant redelegationIndex == old(redelegationIndex)
        decreases |Visit(false, start.Keys)| - i
      {
        ghost var before := redelegations;
        CursorStands(before, start, false, pos, i, ResetRedelegation);
        assert RedelegationKeyed(start, redelegationIndex, pos.value);
        ResetOneRedelegation(pos.value);
        CursorAdvances(before, redelegations, start, false, pos, i, ResetRedelegation);
        pos := Next(false, redelegations.Keys, pos.value);
        i := i + 1;
      }
      RewrittenAll(redelegations, start, false, ResetRedelegation);
      RedelegationsResetExactly(start);
    }

    method SetUnbonding(u: Unbonding)
      modifies this`unbondings, this`unbondingIndex
      ensures unbondings == old(unbondings)[UnbondingKey(u) := u]
      ensures unbondingIndex == old(unbondingIndex) + {ByValidatorKey(u)}
    {
      unbondings := unbondings[UnbondingKey(u) := u];
      unbondingIndex := unbondingIndex + {ByValidatorKey(u)};
    }

    method ResetOneUnbonding(k: Key)
      requires k in unbondings && UnbondingKeyed(unbondings, unbondingIndex, k)
      modifies this`unbondings, this`unbondingIndex
      ensures unbondings == old(unbondings)[k := ResetUnbonding(old(unbondings)[k])]
      ensures unbondingIndex == old(unbondingIndex)
    {
      var ubd := unbondings[k];
      var entries := ResetHeights(ubd.entries);
      SetUnbonding(ubd.(entries := entries));
    }

    method ResetUnbondingsPass()
      requires forall k {:trigger UnbondingKeyed(unbondings, unbondingIndex, k)} ::
            k in unbondings ==> UnbondingKeyed(unbondings, unbondingIndex, k)
      modifies this`unbondings, this`unbondingIndex
      ensures UnbondingsZeroed(old(unbondings), unbondings)
      ensures unbondings == MapValues(old(unbondings), ResetUnbonding)
      ensures unbondingIndex == old(unbondingIndex)
    {
      ghost var start, i := unbondings, 0;
      var pos := First(false, unbondings.Keys);
      CursorOpens(false, unbondings.Keys);
      while pos.Some?
        invariant CursorAt(pos, Visit(false, start.Keys), i)
        invariant Rewritten(unbondings, start, Visit(false, start.Keys), i, ResetUnbonding)
        invariant unbondingIndex == old(unbondingIndex)
        decreases |Visit(false, start.Keys)| - i
      {
        ghost var before := unbondings;
        CursorStands(before, start, false, pos, i, ResetUnbonding);
        assert UnbondingKeyed(start, unbondingIndex, pos.value);
        ResetOneUnbonding(pos.value);
        CursorAdvances(before, unbondings, start, false, pos, i, ResetUnbonding);
        pos := Next(false, unbondings.Keys, pos.value);
        i := i + 1;
      }
      RewrittenAll(unbondings, start, false, ResetUnbonding);
      UnbondingsResetExactly(start);
    }

    /** One turn of the loop: the validator is looked up by the address in the iterator's key and written back. */
    method ResetOneValidator(key: Key, allowed: seq<string>, listed: set<string>, codec: Codec) returns (status: Status)
      requires key in validators && key == ValidatorKey(validators[key].operator)
      requires forall a :: a in listed <==> a in allowed
      modifies this`validators
      ensures status == Done
      ensures validators == old(validators)[key := Resetter(allowed, codec)(old(validators)[key])]
    {
      KeyRoundTrip(validators[key].operator);
      var addr := AddressFromKey(key);
      if ValidatorKey(addr) !in validators {
        return Panicked;
      }
      var validator := validators[ValidatorKey(addr)];
      var name := codec.encode(addr);
      validator := validator.(unbondingHeight := 0);
      if |allowed| > 0 && name !in listed {
        validator := validator.(jailed := true);
      }
      validators := validators[ValidatorKey(validator.operator) := validator];
      return Done;
    }

    /**
     Walks the validators in reverse key order, writing each back under the open iterator. `visited`
     is the sequence of keys the iterator stood on.
     */
    method JailPass(allowed: seq<string>, codec: Codec) returns (status: Status, ghost visited: seq<Key>)
      requires KeyedByOperator(validators)
      modifies this`validators
      ensures status == Done
      ensures JailedExactly(old(validators), validators, allowed, codec)
      ensures validators == ResetValidators(old(validators), allowed, codec)
      ensures visited == Visit(true, old(validators.Keys))
    {
      ghost var start, i := validators, 0;
      ghost var reset := Resetter(allowed, codec);
      visited := [];
      status := Done;
      var listed := set a | a in allowed;
      var pos := First(true, validators.Keys);
      CursorOpens(true, validators.Keys);
      while pos.Some?
        invariant CursorAt(pos, Visit(true, start.Keys), i)
        invariant visited == Visit(true, start.Keys)[..i]
        invariant Rewritten(validators, start, Visit(true, start.Keys), i, reset)
        invariant status == Done
        decreases |Visit(true, start.Keys)| - i
      {
        ghost var before := validators;
        CursorStands(before, start, true, pos, i, reset);
        assert KeyedAt(start, pos.value);
        visited := visited + [pos.value];
        status := ResetOneValidator(pos.value, allowed, listed, codec);
        CursorAdvances(before, validators, start, true, pos, i, reset);
        pos := Next(true, validators.Keys, pos.value);
        i := i + 1;
      }
      RewrittenAll(validators, start, true, reset);
      ValidatorsResetExactly(start, allowed, codec);
    }

    // ---- Slashing ----

    method ResetSigningInfosPass()
      modifies this`signingInfos
      ensures SigningInfosZeroed(old(signingInfos), signingInfos)
      ensures signingInfos == MapValues(old(signingInfos), ResetSigningInfo)
    {
      ghost var start, i := signingInfos, 0;
      var pos := First(false, signingInfos.Keys);
      CursorOpens(false, signingInfos.Keys);
      while pos.Some?
        invariant CursorAt(pos, Visit(false, start.Keys), i)
        invariant Rewritten(signingInfos, start, Visit(false, start.Keys), i, ResetSigningInfo)
        decreases |Visit(false, start.Keys)| - i
      {
        ghost var before := signingInfos;
        CursorStands(before, start, false, pos, i, ResetSigningInfo);
        var info := signingInfos[pos.value];
        info := info.(startHeight := 0);
        signingInfos := signingInfos[pos.value := info];
        CursorAdvances(before, signingInfos, start, false, pos, i, ResetSigningInfo);
        pos := Next(false, signingInfos.Keys, pos.value);
        i := i + 1;
      }
      RewrittenAll(signingInfos, start, false, ResetSigningInfo);
      SigningInfosResetExactly(start);
    }

    // ---- The whole preparation ----

    /** The fee-distribution part: withdrawals at the current height, then the rebuild of a snapshot at height zero. */
    method PrepareDistributionState(height: nat, refused: set<Addr>) returns (status: Status)
      requires KeyedByOperator(validators)
      modifies distr
      ensures var prepared := PrepareDistribution(old(distr.Now()), Stakes(validators), Order(validators), delegations,
        height, refused);
        status == prepared.status && (status.Done? ==> distr.Now() == prepared.state)
    {
      ghost var start, order := distr.Now(), Order(validators);
      status := WithdrawCommissionsPass(refused);
      PassesNeverFail(start, Stakes(validators), order, delegations, height, refused);
      if status.Panicked? {
        return;
      }
      var dels := delegations;
      status := WithdrawRewardsPass(height, refused);
      if status.Panicked? {
        return;
      }
      distr.DeleteAllSlashEvents();
      distr.DeleteAllHistoricalRewards();
      ReinitValidatorsPass();
      status := RebuildDelegationsPass(dels, 0);
    }

    /** The staking part, up to the validator-set update. */
    method PrepareStakingState(allowed: seq<string>, codec: Codec) returns (status: Status)
      requires Keyed()
      modifies this`validators, this`redelegations, this`redelegationIndex, this`unbondings, this`unbondingIndex
      ensures status == Done
      ensures validators == ResetValidators(old(validators), allowed, codec)
      ensures redelegations == MapValues(old(redelegations), ResetRedelegation) &&
        redelegationIndex == old(redelegationIndex)
      ensures unbondings == MapValues(old(unbondings), ResetUnbonding) && unbondingIndex == old(unbondingIndex)
    {
      ResetRedelegationsPass();
      ResetUnbondingsPass();
      ghost var visited;
      status, visited := JailPass(allowed, codec);
    }

    /**
     prepForZeroHeightGenesis without the validator-set update. When the validator iterator fails
     to close, the slashing part is not reached.
     */
    method PrepForZeroHeight(allowed: seq<string>, codec: Codec, height: nat, refused: set<Addr>, closeFails: bool)
        returns (status: Status)
      requires Keyed()
      modifies this`validators, this`redelegations, this`redelegationIndex, this`unbondings, this`unbondingIndex,
        this`signingInfos, distr
      ensures var prepared := PrepareDistribution(old(distr.Now()), Stakes(old(validators)), Order(old(validators)),
        delegations, height, refused);
        && (status.Done? <==> AllDecode(allowed, codec) && prepared.status.Done?)
        && (status.Done? ==> distr.Now() == prepared.state)
      ensures status.Done? ==> RecordsZeroed(old(StakingRecords()), StakingRecords(), allowed, codec, closeFails)
      ensures status.Done? ==> StakingRecords() == ResetRecords(old(StakingRecords()), allowed, codec, closeFails)
      ensures status.Done? ==>
        redelegationIndex == old(redelegationIndex) && unbondingIndex == old(unbondingIndex) && Keyed()
    {
      for i := 0 to |allowed|
        invariant forall j :: 0 <= j < i ==> codec.decode(allowed[j]).Some?
      {
        if codec.decode(allowed[i]).None? {
          return Panicked;
        }
      }
      status := PrepareDistributionState(height, refused);
      if !status.Done? {
        return;
      }
      status := PrepareStakingState(allowed, codec);
      RecordsResetExactly(old(StakingRecords()), allowed, codec, closeFails);
      ResetKeepsKeys(old(validators), old(redelegations), redelegationIndex, old(unbondings), unbondingIndex, allowed,
        codec);
      if closeFails {
        return;
      }
      ResetSigningInfosPass();
    }

    /** ExportAppStateAndValidators: the height of the export, and the preparation only for height zero. */
    method ExportHeight(forZeroHeight: bool, allowed: seq<string>, codec: Codec, refused: set<Addr>, closeFails: bool)
      returns (height: nat, status: Status)
      requires Keyed()
      modifies this`validators, this`redelegations, this`redelegationIndex, this`unbondings, this`unbondingIndex,
        this`signingInfos, distr
      ensures height == if forZeroHeight then 0 else lastBlockHeight + 1
      ensures !forZeroHeight ==>
        status == Done && distr.Now() == old(distr.Now()) && StakingRecords() == old(StakingRecords())
      ensures forZeroHeight ==>
        var prepared := PrepareDistribution(old(distr.Now()), Stakes(old(validators)), Order(old(validators)),
          delegations, lastBlockHeight, refused);
        && (status.Done? <==> AllDecode(allowed, codec) && prepared.status.Done?)
        && (status.Done? ==>
          distr.Now() == prepared.state &&
          StakingRecords() == ResetRecords(old(StakingRecords()), allowed, codec, closeFails))
      ensures forZeroHeight && status.Done? ==>
        RecordsZeroed(old(StakingRecords()), StakingRecords(), allowed, codec, closeFails)
      ensures status.Done? ==> redelegationIndex == old(redelegationIndex) && unbondingIndex == old(unbondingIndex)
    {
      height := lastBlockHeight + 1;
      status := Done;
      if forZeroHeight {
        height := 0;
        status := PrepForZeroHeight(allowed, codec, lastBlockHeight, refused, closeFails);
      }
    }
  }

  ghost predicate RedelegationKeyed(m: map<Key, Redelegation>, index: set<Key>, k: Key)
    requires k in m
  {
    k == RedelegationKey(m[k]) && BySourceKey(m[k]) in index && ByDestinationKey(m[k]) in index
  }

  ghost predicate UnbondingKeyed(m: map<Key, Unbonding>, index: set<Key>, k: Key)
    requires k in m
  {
    k == UnbondingKey(m[k]) && ByValidatorKey(m[k]) in index
  }

  /** Resetting changes no key and no index entry of any record. */
  lemma ResetKeepsKeys(validators: map<Key, Validator>, redelegations: map<Key, Redelegation>,
      redelegationIndex: set<Key>, unbondings: map<Key, Unbonding>, unbondingIndex: set<Key>,
      allowed: seq<string>, codec: Codec)
    requires KeyedByOperator(validators)
    requires forall k {:trigger RedelegationKeyed(redelegations, redelegationIndex, k)} ::
      k in redelegations ==> RedelegationKeyed(redelegations, redelegationIndex, k)
    requires forall k {:trigger UnbondingKeyed(unbondings, unbondingIndex, k)} ::
      k in unbondings ==> UnbondingKeyed(unbondings, unbondingIndex, k)
    ensures KeyedByOperator(ResetValidators(validators, allowed, codec))
    ensures var m := MapValues(redelegations, ResetRedelegation);
      forall k {:trigger RedelegationKeyed(m, redelegationIndex, k)} :: k in m ==>
        RedelegationKeyed(m, redelegationIndex, k)
    ensures var m := MapValues(unbondings, ResetUnbonding);
      forall k {:trigger UnbondingKeyed(m, unbondingIndex, k)} :: k in m ==> UnbondingKeyed(m, unbondingIndex, k)
  {
    ResetKeepsStakes(validators, allowed, codec);
    forall k | k in redelegations
      ensures RedelegationKeyed(MapValues(redelegations, ResetRedelegation), redelegationIndex, k)
    {
      assert RedelegationKeyed(redelegations, redelegationIndex, k);
    }
    forall k | k in unbondings ensures UnbondingKeyed(MapValues(unbondings, ResetUnbonding), unbondingIndex, k) {
      assert UnbondingKeyed(unbondings, unbondingIndex, k);
    }
  }

  lemma OperatorUnderCursor(m: map<Key, Validator>, pos: Option<Key>, i: nat)
    requires KeyedByOperator(m) && CursorAt(pos, Visit(false, m.Keys), i) && pos.Some?
    ensures pos.value in m && i < |Order(m)| && Order(m)[i] == m[pos.value].operator
    ensures CursorAt(Next(false, m.Keys, pos.value), Visit(false, m.Keys), i + 1)
  {
    OrderListsValidators(m);
    CursorMoves(false, m.Keys, pos, i);
  }

  lemma OperatorsEnd(m: map<Key, Validator>, i: nat)
    requires KeyedByOperator(m) && i == |Visit(false, m.Keys)|
    ensures i == |Order(m)| && Order(m)[..i] == Order(m)
  {
    OrderListsValidators(m);
  }

  lemma CommissionStep(s: State, order: seq<Addr>, refused: set<Addr>, i: nat)
    requires i < |order| && WithdrawCommissions(s, order[..i], refused).status.Done?
    ensures WithdrawCommissions(s, order[..i + 1], refused) ==
            Ignoring(WithdrawCommission(WithdrawCommissions(s, order[..i], refused).state, order[i], refused))
  {
    assert order[..i + 1][..i] == order[..i];
  }

  lemma RewardsStep(s: State, stakes: map<Key, Stake>, dels: seq<Delegation>, height: nat, refused: set<Addr>, i: nat)
    requires i < |dels| && WithdrawAllRewards(s, stakes, dels[..i], height, refused).status.Done?
    ensures WithdrawAllRewards(s, stakes, dels[..i + 1], height, refused) ==
            Ignoring(WithdrawRewards(WithdrawAllRewards(s, stakes, dels[..i], height, refused).state, stakes, dels[i],
              height, refused))
  {
    assert dels[..i + 1][..i] == dels[..i];
  }

  /** Passes are done or panicked. */
  lemma {:induction false} CommissionsNeverFail(s: State, order: seq<Addr>, refused: set<Addr>)
    ensures !WithdrawCommissions(s, order, refused).status.Failed?
    decreases |order|
  {
    if order != [] { CommissionsNeverFail(s, order[..|order| - 1], refused); }
  }

  lemma {:induction false} RewardsNeverFail(s: State, stakes: map<Key, Stake>, dels: seq<Delegation>, height: nat,
      refused: set<Addr>)
    ensures !WithdrawAllRewards(s, stakes, dels, height, refused).status.Failed?
    decreases |dels|
  {
    if dels != [] { RewardsNeverFail(s, stakes, dels[..|dels| - 1], height, refused); }
  }

  lemma PassesNeverFail(s: State, stakes: map<Key, Stake>, order: seq<Addr>, dels: seq<Delegation>, height: nat,
      refused: set<Addr>)
    ensures !WithdrawCommissions(s, order, refused).status.Failed?
    ensures !WithdrawAllRewards(WithdrawCommissions(s, order, refused).state, stakes, dels, height,
      refused).status.Failed?
  {
    CommissionsNeverFail(s, order, refused);
    RewardsNeverFail(WithdrawCommissions(s, order, refused).state, stakes, dels, height, refused);
  }

  // ---- A panic ends a pass ----

  lemma {:induction false} CommissionsStayPanicked(s: State, order: seq<Addr>, refused: set<Addr>, i: nat)
    requires i <= |order| && WithdrawCommissions(s, order[..i], refused).status.Panicked?
    ensures WithdrawCommissions(s, order, refused).status.Panicked?
    decreases |order|
  {
    if i == |order| {
      assert order[..i] == order;
    } else {
      assert order[..|order| - 1][..i] == order[..i];
      CommissionsStayPanicked(s, order[..|order| - 1], refused, i);
    }
  }

  lemma {:induction false} RewardsStayPanicked(s: State, stakes: map<Key, Stake>, dels: seq<Delegation>, height: nat,
      refused: set<Addr>, i: nat)
    requires i <= |dels| && WithdrawAllRewards(s, stakes, dels[..i], height, refused).status.Panicked?
    ensures WithdrawAllRewards(s, stakes, dels, height, refused).status.Panicked?
    decreases |dels|
  {
    if i == |dels| {
      assert dels[..i] == dels;
    } else {
      assert dels[..|dels| - 1][..i] == dels[..i];
      RewardsStayPanicked(s, stakes, dels[..|dels| - 1], height, refused, i);
    }
  }

  lemma {:induction false} RebuildStaysPanicked(s: State, stakes: map<Key, Stake>, dels: seq<Delegation>, height: nat,
      i: nat)
    requires i <= |dels|
    ensures RebuildDelegations(s, stakes, dels[..i], height).status.Panicked? ==>
      RebuildDelegations(s, stakes, dels, height).status.Panicked?
    decreases |dels|
  {
    if i == |dels| {
      assert dels[..i] == dels;
    } else {
      assert dels[..|dels| - 1][..i] == dels[..i];
      RebuildStaysPanicked(s, stakes, dels[..|dels| - 1], height, i);
    }
  }

  lemma SecondPreparationAt(s: State, stakes: map<Key, Stake>, order: seq<Addr>, dels: seq<Delegation>,
                            height: nat, refused: set<Addr>, later: nat, refusedLater: set<Addr>)
    requires Ready(s, stakes, order, dels, height) && AllKnown(stakes, dels)
    ensures var first := PrepareDistribution(s, stakes, order, dels, height, refused);
      first.status.Done? && PrepareDistribution(first.state, stakes, order, dels, later, refusedLater) == first
  {
    PreparationCompletes(s, stakes, order, dels, height, refused);
    var t := PrepareDistribution(s, stakes, order, dels, height, refused).state;
    Idempotence.PreparationIsIdempotent(t, stakes, order, dels, later, refusedLater);
  }

  /**
   Preparing the application a second time, with the same allow-list, at any height and with any
   accounts refused, changes nothing: no distribution record, validator, entry or signing info.
   */
  lemma SecondPreparation(s: State, r: Records, dels: seq<Delegation>, height: nat, refused: set<Addr>, later: nat,
      refusedLater: set<Addr>, allowed: seq<string>, codec: Codec, closeFails: bool)
    requires KeyedByOperator(r.validators)
    requires Ready(s, Stakes(r.validators), Order(r.validators), dels, height) && AllKnown(Stakes(r.validators), dels)
    ensures var first := PrepareDistribution(s, Stakes(r.validators), Order(r.validators), dels, height, refused);
      var reset := ResetRecords(r, allowed, codec, closeFails);
      && first.status.Done?
      && PrepareDistribution(first.state, Stakes(reset.validators), Order(reset.validators), dels, later,
        refusedLater) == first
      && ResetRecords(reset, allowed, codec, closeFails) == reset
  {
    ResetKeepsStakes(r.validators, allowed, codec);
    ResetIsIdempotent(r, allowed, codec, closeFails);
    SecondPreparationAt(s, Stakes(r.validators), Order(r.validators), dels, height, refused, later, refusedLater);
  }
}
