/**
 The distribution keeper: the records as fields that its operations update one store write at a
 time. Each operation is proved to compute the step that FeeDistribution describes.
 */
module DistrKeeper {
  import opened Bytes
  import opened DecCoins
  import opened StakingTypes
  import opened FeeDistribution

  class Keeper {
    var balance: Coins
    var pool: Coins
    var outstanding: map<Addr, Coins>
    var commission: map<Addr, Coins>
    var current: map<Addr, Current>
    var history: map<(Addr, nat), Record>
    var infos: map<(Addr, Addr), Info>
    var slashes: map<Addr, seq<Slash>>

    function Now(): State
      reads this
    {
      State(balance, pool, outstanding, commission, current, history, infos, slashes)
    }

    constructor (s: State)
      ensures Now() == s
    {
      balance, pool, outstanding, commission := s.balance, s.pool, s.outstanding, s.commission;
      current, history, infos, slashes := s.current, s.history, s.infos, s.slashes;
    }

    method IncrementReferenceCount(v: Addr, p: nat) returns (status: Status)
      modifies this`history
      ensures Step(Now(), status) ==
              if RecordOf(old(Now()), v, p).refs > 2 then Step(old(Now()), Panicked)
              else Step(Retain(old(Now()), v, p), Done)
    {
      var record := RecordOf(Now(), v, p);
      if record.refs > 2 {
        return Panicked;
      }
      history := history[(v, p) := record.(refs := record.refs + 1)];
      return Done;
    }

    method DecrementReferenceCount(v: Addr, p: nat) returns (status: Status)
      modifies this`history
      ensures Step(Now(), status) ==
              if RecordOf(old(Now()), v, p).refs == 0 then Step(old(Now()), Panicked)
              else Step(Release(old(Now()), v, p), Done)
    {
      var record := RecordOf(Now(), v, p);
      if record.refs == 0 {
        return Panicked;
      }
      if record.refs - 1 == 0 {
        history := history - {(v, p)};
      } else {
        history := history[(v, p) := record.(refs := record.refs - 1)];
      }
      return Done;
    }

    method InitializeValidator(v: Addr)
      modifies this
      ensures Now() == InitValidator(old(Now()), v)
    {
      history := history[(v, 0) := Record(ZERO, 1)];
      current := current[v := Current(ZERO, 1)];
      commission := commission[v := ZERO];
      outstanding := outstanding[v := ZERO];
    }

    /** The branch of IncrementValidatorPeriod for a validator without tokens. */
    method DonateRewards(v: Addr)
      requires Covers(OutstandingOf(Now(), v), CurrentOf(Now(), v).rewards)
      modifies this`pool, this`outstanding
      ensures Now() == DonateCurrent(old(Now()), v)
    {
      var rewards, owed := CurrentOf(Now(), v).rewards, OutstandingOf(Now(), v);
      pool := Add(pool, rewards);
      outstanding := outstanding[v := Sub(owed, rewards)];
    }

    method SetPeriod(v: Addr, period: nat, ratio: Coins)
      modifies this`history, this`current
      ensures Now() == OpenPeriod(old(Now()), v, period, ratio)
    {
      history := history[(v, period) := Record(ratio, 1)];
      current := current[v := Current(ZERO, period + 1)];
    }

    method IncrementValidatorPeriod(v: Addr, tokens: nat) returns (status: Status)
      modifies this`pool, this`outstanding, this`history, this`current
      ensures Step(Now(), status) == IncrementPeriod(old(Now()), v, tokens)
      ensures !status.Failed?
    {
      var rewards := CurrentOf(Now(), v);
      if rewards.period == 0 {
        return Panicked;
      }
      var ratio := ZERO;
      if tokens == 0 {
        if !Covers(OutstandingOf(Now(), v), rewards.rewards) {
          return Panicked;
        }
        DonateRewards(v);
      } else {
        ratio := QuoTruncate(rewards.rewards, tokens);
      }
      status := ClosePeriod(v, rewards.period, ratio);
    }

    /** Release the record of the preceding period and write that of the one that ends. */
    method ClosePeriod(v: Addr, period: nat, ratio: Coins) returns (status: Status)
      requires period > 0
      modifies this`history, this`current
      ensures status == if RecordOf(old(Now()), v, period - 1).refs == 0 then Panicked else Done
      ensures status.Panicked? ==> Now() == old(Now())
      ensures status.Done? ==>
        Now() == OpenPeriod(Release(old(Now()), v, period - 1), v, period,
          Add(RecordOf(old(Now()), v, period - 1).ratio, ratio))
    {
      var historical := RecordOf(Now(), v, period - 1);
      status := DecrementReferenceCount(v, period - 1);
      if status.Panicked? {
        return;
      }
      SetPeriod(v, period, Add(historical.ratio, ratio));
    }

    method InitializeDelegation(del: Delegation, stake: Stake, height: nat) returns (status: Status)
      modifies this
      ensures status.Done? <==> StartDelegation(old(Now()), del, stake, height).status.Done?
      ensures !status.Failed?
      ensures status.Done? ==> Now() == StartDelegation(old(Now()), del, stake, height).state
    {
      var period := CurrentOf(Now(), del.validator).period;
      if period == 0 {
        return Panicked;
      }
      status := IncrementReferenceCount(del.validator, period - 1);
      if status.Panicked? {
        return;
      }
      if stake.shares == 0 {
        return Panicked;
      }
      infos := infos[(del.validator, del.delegator) := Info(period - 1, StakeTruncated(del.shares, stake), height)];
    }

    /** Walks the slash events between the starting height and now, shrinking the stake at each. */
    method CalculateDelegationRewards(del: Delegation, stake: Stake, ending: nat, height: nat) returns (a: Accrual)
      requires (del.validator, del.delegator) in infos
      ensures a == DelegationRewards(Now(), del, stake, ending, height)
    {
      var v, info := del.validator, infos[(del.validator, del.delegator)];
      if info.height == height {
        return Defined(ZERO);
      }
      if stake.shares == 0 {
        return Undefined;
      }
      var owned := StakeRounded(del.shares, stake);
      var events := SlashesOf(Now(), v);
      var rewards: Coins, from: nat, left: nat := ZERO, info.previous, info.stake;
      ghost var whole := Accrue(Now(), v, from, left, events, info.height, height, ending, owned);
      PrependZero(whole);
      assert events[0..] == events;
      for i := 0 to |events|
        invariant whole == Prepend(rewards,
          Accrue(Now(), v, from, left, events[i..], info.height, height, ending, owned))
      {
        var e := events[i];
        assert events[i..][1..] == events[i + 1..];
        if Splits(e, from, info.height, height) {
          var part := RewardsBetween(Now(), v, from, e.period, left);
          if part.Undefined? {
            return Undefined;
          }
          var shrunk := AfterSlash(left, e);
          PrependTwice(rewards, part.rewards,
            Accrue(Now(), v, e.period, shrunk, events[i + 1..], info.height, height, ending, owned));
          rewards := Add(rewards, part.rewards);
          left := shrunk;
          from := e.period;
        }
      }
      if left > owned {
        if left > owned + MARGIN {
          return Undefined;
        }
        left := owned;
      }
      var last := RewardsBetween(Now(), v, from, ending, left);
      a := Prepend(rewards, last);
    }

    method PayOut(v: Addr, rewards: Coins)
      requires Covers(OutstandingOf(Now(), v), rewards) && Covers(balance, Whole(rewards))
      modifies this`balance, this`outstanding, this`pool
      ensures Now() == PayRewards(old(Now()), v, rewards)
    {
      balance := Sub(balance, Whole(rewards));
      outstanding := outstanding[v := Sub(OutstandingOf(Now(), v), rewards)];
      pool := Add(pool, Dust(rewards));
    }

    method DropStartingInfo(del: Delegation) returns (status: Status)
      requires (del.validator, del.delegator) in infos
      modifies this`history, this`infos
      ensures status.Panicked? || status.Done?
      ensures status.Panicked? <==>
        RecordOf(old(Now()), del.validator, old(infos)[(del.validator, del.delegator)].previous).refs == 0
      ensures status.Done? ==> Now() == EndDelegation(old(Now()), del)
    {
      status := DecrementReferenceCount(del.validator, infos[(del.validator, del.delegator)].previous);
      if status.Done? {
        infos := infos - {(del.validator, del.delegator)};
      }
    }

    method WithdrawDelegationRewards(stakes: map<Key, Stake>, del: Delegation, height: nat, refused: set<Addr>)
        returns (status: Status)
      modifies this
      ensures status == WithdrawRewards(old(Now()), stakes, del, height, refused).status
      ensures !status.Panicked? ==> Now() == WithdrawRewards(old(Now()), stakes, del, height, refused).state
    {
      var v := del.validator;
      if ValidatorKey(v) !in stakes || (v, del.delegator) !in infos {
        return Failed;
      }
      var stake := stakes[ValidatorKey(v)];
      var ending := CurrentOf(Now(), v).period;
      status := IncrementValidatorPeriod(v, stake.tokens);
      if status.Panicked? {
        return;
      }
      var raw := CalculateDelegationRewards(del, stake, ending, height);
      if raw.Undefined? {
        return Panicked;
      }
      var rewards := Intersect(raw.rewards, OutstandingOf(Now(), v));
      if PayoutFails(Now(), del.delegator, Whole(rewards), refused) {
        return Failed;
      }
      CoversUnlessFails(Now(), del.delegator, Whole(rewards), refused);
      PayOut(v, rewards);
      status := DropStartingInfo(del);
      if status.Panicked? {
        return;
      }
      status := InitializeDelegation(del, stake, height);
    }

    method WithdrawValidatorCommission(v: Addr, refused: set<Addr>) returns (status: Status)
      modifies this
      ensures Step(Now(), status) == WithdrawCommission(old(Now()), v, refused)
    {
      var accumulated := CommissionOf(Now(), v);
      if IsZero(accumulated) {
        return Failed;
      }
      var paid, remainder := Whole(accumulated), Dust(accumulated);
      if !Covers(OutstandingOf(Now(), v), ToDec(paid)) {
        return Panicked;
      }
      commission := commission[v := remainder];
      outstanding := outstanding[v := Sub(OutstandingOf(Now(), v), ToDec(paid))];
      if PayoutFails(Now(), v, paid, refused) {
        return Failed;
      }
      CoversUnlessFails(Now(), v, paid, refused);
      balance := Sub(balance, paid);
      return Done;
    }

    method DeleteAllSlashEvents()
      modifies this`slashes
      ensures Now() == old(Now()).(slashes := map[])
    {
      slashes := map[];
    }

    method DeleteAllHistoricalRewards()
      modifies this`history
      ensures Now() == old(Now()).(history := map[])
    {
      history := map[];
    }
  }

  function Prepend(rewards: Coins, a: Accrual): Accrual
  {
    if a.Undefined? then a else Defined(Add(rewards, a.rewards))
  }

  lemma PrependZero(a: Accrual)
    ensures Prepend(ZERO, a) == a
  {
    if a.Defined? { AddZero(a.rewards); }
  }

  lemma PrependTwice(first: Coins, second: Coins, a: Accrual)
    ensures Prepend(first, Prepend(second, a)) == Prepend(Add(first, second), a)
  {
    if a.Defined? { AddAssociates(first, second, a.rewards); }
  }

  lemma AddAssociates(a: Coins, b: Coins, c: Coins)
    ensures Add(Add(a, b), c) == Add(a, Add(b, c))
  {
    var l, r := Add(Add(a, b), c), Add(a, Add(b, c));
    assert l.Keys == r.Keys;
    forall d | d in l ensures l[d] == r[d] { assert Of(l, d) == Of(r, d); }
  }

  lemma CoversUnlessFails(s: State, account: Addr, coins: Coins, refused: set<Addr>)
    requires !PayoutFails(s, account, coins, refused)
    ensures Covers(s.balance, coins)
  {
  }
}
