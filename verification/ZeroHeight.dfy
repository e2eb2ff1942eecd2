/**
 The fee-distribution passes of the zero-height preparation as functions on states. Each fold
 gives the state after a prefix of the validators in store order, or of the delegations
 snapshot, so it is also the value a loop over them holds at that point.
 */
module ZeroHeight {
  import opened Bytes
  import opened DecCoins
  import opened StakingTypes
  import opened FeeDistribution

  /** The error of a step is dropped; only a panic stops the pass. */
  function Ignoring(r: Step): Step
  {
    if r.status.Panicked? then r else Step(r.state, Done)
  }

  function WithdrawCommissions(s: State, order: seq<Addr>, refused: set<Addr>): Step
    decreases |order|
  {
    if order == [] then Step(s, Done)
    else
      var before := WithdrawCommissions(s, order[..|order| - 1], refused);
      if before.status.Panicked? then before
      else Ignoring(WithdrawCommission(before.state, order[|order| - 1], refused))
  }

  function WithdrawAllRewards(s: State, stakes: map<Key, Stake>, dels: seq<Delegation>, height: nat,
      refused: set<Addr>): Step
    decreases |dels|
  {
    if dels == [] then Step(s, Done)
    else
      var before := WithdrawAllRewards(s, stakes, dels[..|dels| - 1], height, refused);
      if before.status.Panicked? then before
      else Ignoring(WithdrawRewards(before.state, stakes, dels[|dels| - 1], height, refused))
  }

  /** Delete every slash event and every historical record. */
  function ClearHistory(s: State): State
  {
    s.(history := map[], slashes := map[])
  }

  /** Donate what v still has outstanding and initialise v afresh. */
  function ReinitValidator(s: State, v: Addr): State
  {
    InitValidator(s.(pool := Add(s.pool, OutstandingOf(s, v))), v)
  }

  function ReinitValidators(s: State, order: seq<Addr>): State
    decreases |order|
  {
    if order == [] then s
    else ReinitValidator(ReinitValidators(s, order[..|order| - 1]), order[|order| - 1])
  }

  /** Both delegation hooks; any error of theirs panics. */
  function RebuildDelegation(s: State, stakes: map<Key, Stake>, del: Delegation, height: nat): Step
  {
    if ValidatorKey(del.validator) !in stakes then Step(s, Panicked)
    else
      var stake := stakes[ValidatorKey(del.validator)];
      var ended := IncrementPeriod(s, del.validator, stake.tokens);
      if !ended.status.Done? then Step(ended.state, Panicked)
      else StartDelegation(ended.state, del, stake, height)
  }

  function RebuildDelegations(s: State, stakes: map<Key, Stake>, dels: seq<Delegation>, height: nat): Step
    decreases |dels|
  {
    if dels == [] then Step(s, Done)
    else
      var before := RebuildDelegations(s, stakes, dels[..|dels| - 1], height);
      if before.status.Panicked? then before
      else RebuildDelegation(before.state, stakes, dels[|dels| - 1], height)
  }

  /** All passes: withdrawals at the current height, the rebuild at height zero. */
  function PrepareDistribution(s: State, stakes: map<Key, Stake>, order: seq<Addr>, dels: seq<Delegation>, height: nat,
      refused: set<Addr>): Step
  {
    var a := WithdrawCommissions(s, order, refused);
    if a.status.Panicked? then a
    else
      var b := WithdrawAllRewards(a.state, stakes, dels, height, refused);
      if b.status.Panicked? then b
      else RebuildDelegations(ReinitValidators(ClearHistory(b.state), order), stakes, dels, 0)
  }

  ghost predicate Unique(order: seq<Addr>)
  {
    forall i, j :: 0 <= i < j < |order| ==> order[i] != order[j]
  }

  /** `order` lists exactly the validators that staking knows, each once. */
  ghost predicate ListsValidators(order: seq<Addr>, stakes: map<Key, Stake>)
  {
    && Unique(order)
    && (forall v: Addr :: v in order <==> ValidatorKey(v) in stakes)
  }
}
