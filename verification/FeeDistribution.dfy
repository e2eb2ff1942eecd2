/**
 The operations of the F1 fee distribution that the zero-height export calls, as functions
 from state to state. A step ends in one of three ways: done, with an error returned (what
 was already written stays written), or with a panic.
 */
module FeeDistribution {
  import opened Bytes
  import opened DecCoins
  import opened StakingTypes

  /** A slashed share of the stake, scaled by 10^18. */
  type Fraction = f: nat | f <= ONE

  datatype Current = Current(rewards: Coins, period: nat)
  datatype Record = Record(ratio: Coins, refs: nat)
  datatype Info = Info(previous: nat, stake: nat, height: nat)
  datatype Slash = Slash(height: nat, period: nat, fraction: Fraction)

  datatype State = State(
    balance: Coins,                            // whole coins of the module account
    pool: Coins,                               // decimal coins of the community pool
    outstanding: map<Addr, Coins>,
    commission: map<Addr, Coins>,
    current: map<Addr, Current>,
    history: map<(Addr, nat), Record>,
    infos: map<(Addr, Addr), Info>,            // by (validator, delegator)
    slashes: map<Addr, seq<Slash>>)            // in store order

  datatype Status = Done | Failed | Panicked
  datatype Step = Step(state: State, status: Status)

  // Reading an absent entry yields the zero value.

  function OutstandingOf(s: State, v: Addr): Coins
  {
    if v in s.outstanding then s.outstanding[v] else ZERO
  }

  function CommissionOf(s: State, v: Addr): Coins
  {
    if v in s.commission then s.commission[v] else ZERO
  }

  function CurrentOf(s: State, v: Addr): Current
  {
    if v in s.current then s.current[v] else Current(ZERO, 0)
  }

  function RecordOf(s: State, v: Addr, p: nat): Record
  {
    if (v, p) in s.history then s.history[(v, p)] else Record(ZERO, 0)
  }

  function SlashesOf(s: State, v: Addr): seq<Slash>
  {
    if v in s.slashes then s.slashes[v] else []
  }

  /** incrementReferenceCount; callers rule out a count above 2, on which it panics. */
  function Retain(s: State, v: Addr, p: nat): State
  {
    s.(history := s.history[(v, p) := Record(RecordOf(s, v, p).ratio, RecordOf(s, v, p).refs + 1)])
  }

  /** decrementReferenceCount; callers rule out a count of 0, on which it panics. */
  function Release(s: State, v: Addr, p: nat): State
    requires RecordOf(s, v, p).refs > 0
  {
    var r := s.history[(v, p)];
    s.(history := if r.refs == 1 then s.history - {(v, p)} else s.history[(v, p) := r.(refs := r.refs - 1)])
  }

  /** initializeValidator. */
  function InitValidator(s: State, v: Addr): State
  {
    s.(history := s.history[(v, 0) := Record(ZERO, 1)],
       current := s.current[v := Current(ZERO, 1)],
       commission := s.commission[v := ZERO],
       outstanding := s.outstanding[v := ZERO])
  }

  /** Rewards of a validator without tokens go to the community pool. */
  function DonateCurrent(s: State, v: Addr): State
    requires Covers(OutstandingOf(s, v), CurrentOf(s, v).rewards)
  {
    s.(pool := Add(s.pool, CurrentOf(s, v).rewards),
       outstanding := s.outstanding[v := Sub(OutstandingOf(s, v), CurrentOf(s, v).rewards)])
  }

  /** What one period adds to the cumulative ratio. */
  function PeriodRatio(rewards: Coins, tokens: nat): Coins
  {
    if tokens == 0 then ZERO else QuoTruncate(rewards, tokens)
  }

  /** Close a period of v at the given cumulative ratio and open the next one. */
  function OpenPeriod(s: State, v: Addr, period: nat, ratio: Coins): State
  {
    s.(history := s.history[(v, period) := Record(ratio, 1)],
       current := s.current[v := Current(ZERO, period + 1)])
  }

  /** IncrementValidatorPeriod, for a validator with the given tokens. */
  function IncrementPeriod(s: State, v: Addr, tokens: nat): Step
  {
    var cur := CurrentOf(s, v);
    if cur.period == 0 then Step(s, Panicked)  // the preceding period wraps to one that never has a record
    else if tokens == 0 && !Covers(OutstandingOf(s, v), cur.rewards) then Step(s, Panicked)
    else
      var s1 := if tokens == 0 then DonateCurrent(s, v) else s;
      var last := RecordOf(s, v, cur.period - 1);
      if last.refs == 0 then Step(s1, Panicked)
      else
        Step(OpenPeriod(Release(s1, v, cur.period - 1), v, cur.period,
          Add(last.ratio, PeriodRatio(cur.rewards, tokens))), Done)
  }

  /** TokensFromSharesTruncated. */
  function StakeTruncated(shares: nat, stake: Stake): nat
    requires stake.shares > 0
  {
    shares * stake.tokens * ONE / stake.shares
  }

  /** TokensFromShares, rounded half to even. */
  function StakeRounded(shares: nat, stake: Stake): nat
    requires stake.shares > 0
  {
    var scaled := shares * stake.tokens * ONE * ONE / stake.shares;
    var low, rest := scaled / ONE, scaled % ONE;
    if 2 * rest < ONE then low
    else if 2 * rest > ONE then low + 1
    else if low % 2 == 0 then low else low + 1
  }

  /** initializeDelegation: track the period just ended. */
  function StartDelegation(s: State, del: Delegation, stake: Stake, height: nat): Step
  {
    var v := del.validator;
    var period := CurrentOf(s, v).period;
    if period == 0 || RecordOf(s, v, period - 1).refs > 2 || stake.shares == 0 then Step(s, Panicked)
    else
      var s1 := Retain(s, v, period - 1);
      Step(s1.(infos := s1.infos[(v, del.delegator) := Info(period - 1, StakeTruncated(del.shares, stake), height)]),
        Done)
  }

  datatype Accrual = Defined(rewards: Coins) | Undefined

  /** calculateDelegationRewardsBetween; undefined where one of its guards panics. */
  function RewardsBetween(s: State, v: Addr, from: nat, to: nat, stake: nat): Accrual
  {
    if from > to || !Covers(RecordOf(s, v, to).ratio, RecordOf(s, v, from).ratio) then Undefined
    else Defined(MulTruncate(Sub(RecordOf(s, v, to).ratio, RecordOf(s, v, from).ratio), stake))
  }

  /** A slash event that splits the reward computation. */
  predicate Splits(e: Slash, from: nat, low: nat, high: nat)
  {
    low <= e.height <= high && e.period > from
  }

  /** The stake that a slash event leaves, truncated. */
  function AfterSlash(stake: nat, e: Slash): nat
  {
    stake * (ONE - e.fraction) / ONE
  }

  const MARGIN: nat := 3

  /** The part of CalculateDelegationRewards after the starting-height shortcut. */
  function Accrue(s: State, v: Addr, from: nat, stake: nat, events: seq<Slash>, low: nat, high: nat, ending: nat,
      owned: nat): Accrual
    decreases |events|
  {
    if events == [] then
      if stake > owned + MARGIN then Undefined
      else RewardsBetween(s, v, from, ending, if stake > owned then owned else stake)
    else
      var e := events[0];
      if !Splits(e, from, low, high) then Accrue(s, v, from, stake, events[1..], low, high, ending, owned)
      else
        match RewardsBetween(s, v, from, e.period, stake)
        case Undefined => Undefined
        case Defined(part) =>
          match Accrue(s, v, e.period, AfterSlash(stake, e), events[1..], low, high, ending, owned)
          case Undefined => Undefined
          case Defined(later) => Defined(Add(part, later))
  }

  /** CalculateDelegationRewards for a delegation that has a starting info. */
  function DelegationRewards(s: State, del: Delegation, stake: Stake, ending: nat, height: nat): Accrual
    requires (del.validator, del.delegator) in s.infos
  {
    var info := s.infos[(del.validator, del.delegator)];
    if info.height == height then Defined(ZERO)
    else if stake.shares == 0 then Undefined
    else Accrue(s, del.validator, info.previous, info.stake, SlashesOf(s, del.validator), info.height, height,
                ending, StakeRounded(del.shares, stake))
  }

  /** Pay out `rewards` of v: whole coins leave the module, dust goes to the pool. */
  function PayRewards(s: State, v: Addr, rewards: Coins): State
    requires Covers(OutstandingOf(s, v), rewards) && Covers(s.balance, Whole(rewards))
  {
    s.(balance := Sub(s.balance, Whole(rewards)),
       outstanding := s.outstanding[v := Sub(OutstandingOf(s, v), rewards)],
       pool := Add(s.pool, Dust(rewards)))
  }

  /** Drop the starting info of a delegation and its reference. */
  function EndDelegation(s: State, del: Delegation): State
    requires (del.validator, del.delegator) in s.infos
    requires RecordOf(s, del.validator, s.infos[(del.validator, del.delegator)].previous).refs > 0
  {
    Release(s, del.validator, s.infos[(del.validator, del.delegator)].previous)
      .(infos := s.infos - {(del.validator, del.delegator)})
  }

  /** The bank rejects what goes to a refused account or exceeds the balance; nothing is sent for zero coins. */
  predicate PayoutFails(s: State, account: Addr, coins: Coins, refused: set<Addr>)
  {
    !IsZero(coins) && (account in refused || !Covers(s.balance, coins))
  }

  /** WithdrawDelegationRewards. */
  function WithdrawRewards(s: State, stakes: map<Key, Stake>, del: Delegation, height: nat, refused: set<Addr>): Step
  {
    var v := del.validator;
    if ValidatorKey(v) !in stakes || (v, del.delegator) !in s.infos then Step(s, Failed)
    else
      var stake := stakes[ValidatorKey(v)];
      var ended := IncrementPeriod(s, v, stake.tokens);
      if ended.status.Panicked? then ended
      else
        var s1 := ended.state;
        match DelegationRewards(s1, del, stake, CurrentOf(s, v).period, height)
        case Undefined => Step(s1, Panicked)
        case Defined(raw) =>
          var rewards := Intersect(raw, OutstandingOf(s1, v));
          if PayoutFails(s1, del.delegator, Whole(rewards), refused) then Step(s1, Failed)
          else
            var s2 := PayRewards(s1, v, rewards);
            if RecordOf(s2, v, s2.infos[(v, del.delegator)].previous).refs == 0 then Step(s2, Panicked)
            else StartDelegation(EndDelegation(s2, del), del, stake, height)
  }

  /** Write the whole coins of v's commission off what is outstanding; the dust stays to be withdrawn later. */
  function WriteOff(s: State, v: Addr): State
    requires Covers(OutstandingOf(s, v), ToDec(Whole(CommissionOf(s, v))))
  {
    s.(commission := s.commission[v := Dust(CommissionOf(s, v))],
       outstanding := s.outstanding[v := Sub(OutstandingOf(s, v), ToDec(Whole(CommissionOf(s, v))))])
  }

  /** WithdrawValidatorCommission. The commission is written off before the bank is asked to pay it. */
  function WithdrawCommission(s: State, v: Addr, refused: set<Addr>): Step
  {
    var c := CommissionOf(s, v);
    if IsZero(c) then Step(s, Failed)
    else if !Covers(OutstandingOf(s, v), ToDec(Whole(c))) then Step(s, Panicked)
    else
      var s1 := WriteOff(s, v);
      if PayoutFails(s1, v, Whole(c), refused) then Step(s1, Failed)
      else Step(s1.(balance := Sub(s1.balance, Whole(c))), Done)
  }
}
