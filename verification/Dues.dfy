/**
 What delegations have earned, without truncation: over every stretch between two slash events the
 growth of the ratio times the stake that is left. The rewards paid never exceed it.
 */
module Dues {
  import opened DecCoins
  import opened StakingTypes
  import opened FeeDistribution
  import opened FeeInvariant

  ghost function Ratio(s: State, v: Addr, p: nat, d: Denom): nat
  {
    Of(RecordOf(s, v, p).ratio, d)
  }

  /** The stake that is left of one tracked from period `from`, after the slash events that followed. */
  ghost function Left(from: nat, stake: nat, events: seq<Slash>): nat
    decreases |events|
  {
    if events == [] then stake
    else if events[0].period > from then Left(events[0].period, AfterSlash(stake, events[0]), events[1..])
    else Left(from, stake, events[1..])
  }

  /** What a stake earns between two periods. */
  ghost function Stretch(s: State, v: Addr, from: nat, to: nat, stake: nat, d: Denom): int
  {
    (Ratio(s, v, to, d) - Ratio(s, v, from, d)) * stake
  }

  /** What it has earned up to the cumulative ratio `top`, in units of 10^-36. */
  ghost function Earned(s: State, v: Addr, from: nat, stake: nat, events: seq<Slash>, d: Denom, top: int): int
    decreases |events|
  {
    if events == [] then (top - Ratio(s, v, from, d)) * stake
    else
      var p := events[0].period;
      if p > from then
        Stretch(s, v, from, p, stake, d) + Earned(s, v, p, AfterSlash(stake, events[0]), events[1..], d, top)
      else Earned(s, v, from, stake, events[1..], d, top)
  }

  ghost function Due(s: State, del: Delegation, d: Denom, top: int): int
  {
    if (del.validator, del.delegator) in s.infos then
      var info := s.infos[(del.validator, del.delegator)];
      Earned(s, del.validator, info.previous, info.stake, SlashesOf(s, del.validator), d, top)
    else 0
  }

  ghost function StakeOf(s: State, del: Delegation): nat
  {
    if (del.validator, del.delegator) in s.infos then
      var info := s.infos[(del.validator, del.delegator)];
      Left(info.previous, info.stake, SlashesOf(s, del.validator))
    else 0
  }

  /** The slash events of a tracked stake lie between its starting height and now. */
  ghost predicate Timed(events: seq<Slash>, from: nat, low: nat, now: nat)
  {
    forall e :: e in events ==> e.height <= now && (e.period > from ==> low <= e.height)
  }

  // ---- One tracked stake ----

  /** Only the ratios at the start and at the slash events matter. */
  lemma {:induction false} EarnedSame(s: State, t: State, v: Addr, from: nat, stake: nat, events: seq<Slash>, d: Denom,
      top: int)
    requires Ratio(s, v, from, d) == Ratio(t, v, from, d)
    requires forall e :: e in events ==> Ratio(s, v, e.period, d) == Ratio(t, v, e.period, d)
    ensures Earned(s, v, from, stake, events, d, top) == Earned(t, v, from, stake, events, d, top)
    decreases |events|
  {
    if events != [] {
      var e := events[0];
      if e.period > from {
        EarnedSame(s, t, v, e.period, AfterSlash(stake, e), events[1..], d, top);
      } else {
        EarnedSame(s, t, v, from, stake, events[1..], d, top);
      }
    }
  }

  /** Raising the ratio earns that much for each unit of the stake left. */
  lemma {:induction false} EarnedGrows(s: State, v: Addr, from: nat, stake: nat, events: seq<Slash>, d: Denom, top: int,
      q: int)
    ensures Earned(s, v, from, stake, events, d, top + q) ==
      Earned(s, v, from, stake, events, d, top) + q * Left(from, stake, events)
    decreases |events|
  {
    if events == [] {
      var low := Ratio(s, v, from, d);
      assert (top + q - low) * stake == (top - low) * stake + q * stake;
    } else if events[0].period > from {
      EarnedGrows(s, v, events[0].period, AfterSlash(stake, events[0]), events[1..], d, top, q);
    } else {
      EarnedGrows(s, v, from, stake, events[1..], d, top, q);
    }
  }

  /** Events of earlier periods change nothing. */
  lemma {:induction false} EarlierEvents(s: State, v: Addr, from: nat, stake: nat, events: seq<Slash>, d: Denom,
      top: int)
    requires forall e :: e in events ==> e.period <= from
    ensures Left(from, stake, events) == stake
    ensures Earned(s, v, from, stake, events, d, top) == (top - Ratio(s, v, from, d)) * stake
    decreases |events|
  {
    if events != [] { EarlierEvents(s, v, from, stake, events[1..], d, top); }
  }

  /** A slash event at the last period shrinks the stake and leaves what was earned. */
  lemma {:induction false} SlashSnoc(s: State, v: Addr, from: nat, stake: nat, events: seq<Slash>, e: Slash, d: Denom,
      top: int)
    requires from < e.period && forall x :: x in events ==> x.period < e.period
    requires Ratio(s, v, e.period, d) == top
    ensures Left(from, stake, events + [e]) == AfterSlash(Left(from, stake, events), e)
    ensures Earned(s, v, from, stake, events + [e], d, top) == Earned(s, v, from, stake, events, d, top)
    decreases |events|
  {
    var more := events + [e];
    if events == [] {
      assert more == [e] && more[1..] == [];
      LastStretch(s, v, from, stake, e, d, top);
    } else {
      assert more[0] == events[0] && more[1..] == events[1..] + [e];
      if events[0].period > from {
        SlashSnoc(s, v, events[0].period, AfterSlash(stake, events[0]), events[1..], e, d, top);
      } else {
        SlashSnoc(s, v, from, stake, events[1..], e, d, top);
      }
    }
  }

  lemma LastStretch(s: State, v: Addr, from: nat, stake: nat, e: Slash, d: Denom, top: int)
    requires from < e.period && Ratio(s, v, e.period, d) == top
    ensures Earned(s, v, from, stake, [e], d, top) == Earned(s, v, from, stake, [], d, top)
    ensures Left(from, stake, [e]) == AfterSlash(stake, e)
  {
    assert [e][1..] == [];
    assert (top - top) * AfterSlash(stake, e) == 0;
  }

  /** A stake left that is within what is owned passes every check of the reward computation. */
  lemma {:induction false} SoundFromLeft(from: nat, stake: nat, events: seq<Slash>, low: nat, high: nat, owned: nat)
    requires Timed(events, from, low, high) && Left(from, stake, events) <= owned
    ensures StakeSound(from, stake, events, low, high, owned)
    decreases |events|
  {
    if events != [] {
      var e := events[0];
      assert e in events;
      if e.period > from {
        SoundFromLeft(e.period, AfterSlash(stake, e), events[1..], low, high, owned);
      } else {
        SoundFromLeft(from, stake, events[1..], low, high, owned);
      }
    }
  }

  /** With growing ratios nothing earned is negative. */
  lemma {:induction false} EarnedNonNegative(s: State, v: Addr, from: nat, stake: nat, events: seq<Slash>, d: Denom,
      last: nat)
    requires Growing(s, v) && from <= last && (v, from) in s.history && (v, last) in s.history
    requires forall e :: e in events ==> e.period <= last && (v, e.period) in s.history
    ensures Earned(s, v, from, stake, events, d, Ratio(s, v, last, d)) >= 0
    decreases |events|
  {
    if events == [] {
      RatioGrows(s, v, from, last, stake, d);
    } else {
      var e := events[0];
      if e.period > from {
        RatioGrows(s, v, from, e.period, stake, d);
        EarnedNonNegative(s, v, e.period, AfterSlash(stake, e), events[1..], d, last);
      } else {
        EarnedNonNegative(s, v, from, stake, events[1..], d, last);
      }
    }
  }

  lemma RatioGrows(s: State, v: Addr, p: nat, q: nat, stake: nat, d: Denom)
    requires Growing(s, v) && p <= q && (v, p) in s.history && (v, q) in s.history
    ensures Stretch(s, v, p, q, stake, d) >= 0
  {
    CoversMeans(s.history[(v, q)].ratio, s.history[(v, p)].ratio);
    ScaleUp(Ratio(s, v, p, d), Ratio(s, v, q, d), stake);
    assert (Ratio(s, v, q, d) - Ratio(s, v, p, d)) * stake == Ratio(s, v, q, d) * stake - Ratio(s, v, p, d) * stake;
  }

  lemma ScaleUp(a: nat, b: nat, f: nat)
    requires a <= b
    ensures a * f <= b * f
  {
  }

  // ---- What the reward computation pays ----

  /** The reward computation never pays more than was earned, whatever the slash events. */
  lemma {:induction false} AccrueAtMostEarned(s: State, v: Addr, from: nat, stake: nat, events: seq<Slash>, low: nat,
      high: nat, ending: nat, owned: nat, d: Denom)
    requires Timed(events, from, low, high)
    ensures var a := Accrue(s, v, from, stake, events, low, high, ending, owned);
      a.Defined? ==> Of(a.rewards, d) * ONE <= Earned(s, v, from, stake, events, d, Ratio(s, v, ending, d))
    decreases |events|
  {
    if events == [] {
      BetweenAtMost(s, v, from, ending, if stake > owned then owned else stake, stake, d);
    } else {
      var e := events[0];
      assert e in events;
      if e.period > from {
        AccrueAtMostEarned(s, v, e.period, AfterSlash(stake, e), events[1..], low, high, ending, owned, d);
        BetweenAtMost(s, v, from, e.period, stake, stake, d);
        AccrueSplits(s, v, from, stake, events, low, high, ending, owned, d);
        EarnedSplits(s, v, from, stake, events, d, Ratio(s, v, ending, d));
      } else {
        AccrueAtMostEarned(s, v, from, stake, events[1..], low, high, ending, owned, d);
        EarnedSkips(s, v, from, stake, events, d, Ratio(s, v, ending, d));
      }
    }
  }

  lemma EarnedSplits(s: State, v: Addr, from: nat, stake: nat, events: seq<Slash>, d: Denom, top: int)
    requires events != [] && events[0].period > from
    ensures Earned(s, v, from, stake, events, d, top) ==
            Stretch(s, v, from, events[0].period, stake, d) +
            Earned(s, v, events[0].period, AfterSlash(stake, events[0]), events[1..], d, top)
  {
  }

  lemma EarnedSkips(s: State, v: Addr, from: nat, stake: nat, events: seq<Slash>, d: Denom, top: int)
    requires events != [] && events[0].period <= from
    ensures Earned(s, v, from, stake, events, d, top) == Earned(s, v, from, stake, events[1..], d, top)
  {
  }

  lemma AccrueSplits(s: State, v: Addr, from: nat, stake: nat, events: seq<Slash>, low: nat, high: nat, ending: nat,
      owned: nat, d: Denom)
    requires events != [] && Splits(events[0], from, low, high)
    ensures var a := Accrue(s, v, from, stake, events, low, high, ending, owned);
      var part := RewardsBetween(s, v, from, events[0].period, stake);
      var later := Accrue(s, v, events[0].period, AfterSlash(stake, events[0]), events[1..], low, high, ending, owned);
      a.Defined? ==>
        part.Defined? && later.Defined? &&
        Of(a.rewards, d) * ONE == Of(part.rewards, d) * ONE + Of(later.rewards, d) * ONE
  {
  }

  lemma BetweenAtMost(s: State, v: Addr, from: nat, to: nat, used: nat, stake: nat, d: Denom)
    requires used <= stake
    ensures var a := RewardsBetween(s, v, from, to, used);
      a.Defined? ==> Of(a.rewards, d) * ONE <= Stretch(s, v, from, to, stake, d)
  {
    var a := RewardsBetween(s, v, from, to, used);
    if a.Defined? {
      var growth := Sub(RecordOf(s, v, to).ratio, RecordOf(s, v, from).ratio);
      MulAtMost(growth, used, stake, d);
      assert Of(growth, d) == Ratio(s, v, to, d) - Ratio(s, v, from, d);
    }
  }

  /** The stretches that a reward is computed over: one more than the slash events that split it. */
  ghost function Stretches(from: nat, events: seq<Slash>): nat
    decreases |events|
  {
    if events == [] then 1
    else if events[0].period > from then 1 + Stretches(events[0].period, events[1..])
    else Stretches(from, events[1..])
  }

  /** Nor does it fall short of what was earned by as much as the smallest unit for each stretch. */
  lemma {:induction false} AccrueAtLeastEarned(s: State, v: Addr, from: nat, stake: nat, events: seq<Slash>, low: nat,
      high: nat, ending: nat, owned: nat, d: Denom)
    requires Timed(events, from, low, high) && Left(from, stake, events) <= owned
    ensures var a := Accrue(s, v, from, stake, events, low, high, ending, owned);
      a.Defined? ==>
        Earned(s, v, from, stake, events, d, Ratio(s, v, ending, d)) <
        Of(a.rewards, d) * ONE + Stretches(from, events) * ONE
    decreases |events|
  {
    if events == [] {
      BetweenAtLeast(s, v, from, ending, stake, d);
    } else {
      var e := events[0];
      assert e in events;
      if e.period > from {
        AccrueAtLeastEarned(s, v, e.period, AfterSlash(stake, e), events[1..], low, high, ending, owned, d);
        BetweenAtLeast(s, v, from, e.period, stake, d);
        AccrueSplits(s, v, from, stake, events, low, high, ending, owned, d);
        EarnedSplits(s, v, from, stake, events, d, Ratio(s, v, ending, d));
      } else {
        AccrueAtLeastEarned(s, v, from, stake, events[1..], low, high, ending, owned, d);
        EarnedSkips(s, v, from, stake, events, d, Ratio(s, v, ending, d));
      }
    }
  }

  lemma BetweenAtLeast(s: State, v: Addr, from: nat, to: nat, stake: nat, d: Denom)
    ensures var a := RewardsBetween(s, v, from, to, stake);
      a.Defined? ==> Stretch(s, v, from, to, stake, d) < Of(a.rewards, d) * ONE + ONE
  {
    var a := RewardsBetween(s, v, from, to, stake);
    if a.Defined? {
      var growth := Sub(RecordOf(s, v, to).ratio, RecordOf(s, v, from).ratio);
      assert Of(growth, d) == Ratio(s, v, to, d) - Ratio(s, v, from, d);
      assert Of(growth, d) * stake < (Of(MulTruncate(growth, stake), d) + 1) * ONE;
    }
  }

  lemma MulAtMost(growth: Coins, used: nat, stake: nat, d: Denom)
    requires used <= stake
    ensures Of(MulTruncate(growth, used), d) * ONE <= Of(growth, d) * stake
  {
    assert Of(MulTruncate(growth, used), d) * ONE <= Of(growth, d) * used;
    ScaleUp(used, stake, Of(growth, d));
  }

  // ---- Sums over the delegations of a validator ----

  ghost function Owed(s: State, dels: seq<Delegation>, v: Addr, d: Denom, top: int): int
    decreases |dels|
  {
    if dels == [] then 0
    else
      var last := dels[|dels| - 1];
      Owed(s, dels[..|dels| - 1], v, d, top) + if last.validator == v then Due(s, last, d, top) else 0
  }

  ghost function StakeSum(s: State, dels: seq<Delegation>, v: Addr): nat
    decreases |dels|
  {
    if dels == [] then 0
    else
      var last := dels[|dels| - 1];
      StakeSum(s, dels[..|dels| - 1], v) + if last.validator == v then StakeOf(s, last) else 0
  }

  ghost function SharesSum(dels: seq<Delegation>, v: Addr): nat
    decreases |dels|
  {
    if dels == [] then 0
    else SharesSum(dels[..|dels| - 1], v) + if dels[|dels| - 1].validator == v then dels[|dels| - 1].shares else 0
  }

  /** The same dues give the same sum. */
  lemma {:induction false} OwedElsewhere(s: State, t: State, dels: seq<Delegation>, v: Addr, d: Denom, top: int)
    requires forall i :: 0 <= i < |dels| && dels[i].validator == v ==>
      Due(s, dels[i], d, top) == Due(t, dels[i], d, top)
    ensures Owed(s, dels, v, d, top) == Owed(t, dels, v, d, top)
    decreases |dels|
  {
    if dels != [] { OwedElsewhere(s, t, dels[..|dels| - 1], v, d, top); }
  }

  /** A change that concerns one delegation changes the sum by the difference of its own due. */
  lemma {:induction false} OwedChange(s: State, t: State, dels: seq<Delegation>, k: nat, d: Denom, top: int)
    requires Distinct(dels) && k < |dels|
    requires forall i :: 0 <= i < |dels| && i != k && dels[i].validator == dels[k].validator ==>
      Due(s, dels[i], d, top) == Due(t, dels[i], d, top)
    ensures var v := dels[k].validator;
      Owed(t, dels, v, d, top) - Owed(s, dels, v, d, top) == Due(t, dels[k], d, top) - Due(s, dels[k], d, top)
    decreases |dels|
  {
    var n := |dels| - 1;
    if k == n {
      OwedElsewhere(s, t, dels[..n], dels[k].validator, d, top);
    } else {
      assert dels[..n][k] == dels[k];
      OwedChange(s, t, dels[..n], k, d, top);
    }
  }

  /** Raising the ratio raises the sum by that much for each unit of stake. */
  lemma {:induction false} OwedGrows(s: State, dels: seq<Delegation>, v: Addr, d: Denom, top: int, q: int)
    ensures Owed(s, dels, v, d, top + q) == Owed(s, dels, v, d, top) + q * StakeSum(s, dels, v)
    decreases |dels|
  {
    if dels != [] {
      var n := |dels| - 1;
      OwedGrows(s, dels[..n], v, d, top, q);
      if dels[n].validator == v {
        DueGrows(s, dels[n], d, top, q);
        Distribute(q, StakeSum(s, dels[..n], v), StakeOf(s, dels[n]));
      }
    }
  }

  lemma DueGrows(s: State, del: Delegation, d: Denom, top: int, q: int)
    ensures Due(s, del, d, top + q) == Due(s, del, d, top) + q * StakeOf(s, del)
  {
    if (del.validator, del.delegator) in s.infos {
      var info := s.infos[(del.validator, del.delegator)];
      EarnedGrows(s, del.validator, info.previous, info.stake, SlashesOf(s, del.validator), d, top, q);
    }
  }

  lemma Distribute(a: int, b: int, c: int)
    ensures a * (b + c) == a * b + a * c
  {
  }

  /** With the same info, slash events and ratios a delegation is due the same. */
  lemma DueSame(s: State, t: State, del: Delegation, d: Denom, top: int)
    requires SlashesOf(s, del.validator) == SlashesOf(t, del.validator)
    requires (del.validator, del.delegator) in s.infos <==> (del.validator, del.delegator) in t.infos
    requires (del.validator, del.delegator) in s.infos ==>
      var info := s.infos[(del.validator, del.delegator)];
      && t.infos[(del.validator, del.delegator)] == info
      && Ratio(s, del.validator, info.previous, d) == Ratio(t, del.validator, info.previous, d)
      && forall e :: e in SlashesOf(s, del.validator) ==>
        Ratio(s, del.validator, e.period, d) == Ratio(t, del.validator, e.period, d)
    ensures Due(s, del, d, top) == Due(t, del, d, top)
  {
    if (del.validator, del.delegator) in s.infos {
      var info := s.infos[(del.validator, del.delegator)];
      EarnedSame(s, t, del.validator, info.previous, info.stake, SlashesOf(s, del.validator), d, top);
    }
  }

  lemma {:induction false} StakeSumSame(s: State, t: State, dels: seq<Delegation>, v: Addr)
    requires s.infos == t.infos && SlashesOf(s, v) == SlashesOf(t, v)
    ensures StakeSum(s, dels, v) == StakeSum(t, dels, v)
    decreases |dels|
  {
    if dels != [] { StakeSumSame(s, t, dels[..|dels| - 1], v); }
  }

  // ---- Tracked stakes against the validator's tokens ----

  /** The stake left of a delegation is at most what its shares are worth, and its slash events are in time. */
  ghost predicate Tracked(s: State, del: Delegation, stake: Stake, now: nat)
  {
    && stake.shares > 0
    && StakeOf(s, del) <= StakeTruncated(del.shares, stake)
    && ((del.validator, del.delegator) in s.infos ==>
          var info := s.infos[(del.validator, del.delegator)];
          info.height <= now && Timed(SlashesOf(s, del.validator), info.previous, info.height, now))
  }

  ghost predicate AllTracked(s: State, stake: Stake, dels: seq<Delegation>, v: Addr, now: nat)
  {
    forall i {:trigger Tracked(s, dels[i], stake, now)} :: 0 <= i < |dels| && dels[i].validator == v ==>
      Tracked(s, dels[i], stake, now)
  }

  lemma TrackedElsewhere(s: State, t: State, stake: Stake, dels: seq<Delegation>, v: Addr, now: nat)
    requires SameInfos(s.infos, t.infos, v) && SlashesOf(s, v) == SlashesOf(t, v) && AllTracked(s, stake, dels, v, now)
    ensures AllTracked(t, stake, dels, v, now)
  {
    forall i {:trigger Tracked(t, dels[i], stake, now)} | 0 <= i < |dels| && dels[i].validator == v
      ensures Tracked(t, dels[i], stake, now)
    {
      assert Tracked(s, dels[i], stake, now);
    }
  }

  lemma TrackedLater(s: State, stake: Stake, dels: seq<Delegation>, v: Addr, now: nat, later: nat)
    requires AllTracked(s, stake, dels, v, now) && now <= later
    ensures AllTracked(s, stake, dels, v, later)
  {
    forall i {:trigger Tracked(s, dels[i], stake, later)} | 0 <= i < |dels| && dels[i].validator == v
      ensures Tracked(s, dels[i], stake, later)
    {
      assert Tracked(s, dels[i], stake, now);
    }
  }

  /** Tracked stakes keep the well-formedness of a validator, from now on at every height. */
  lemma OkFromTracked(s: State, stake: Stake, dels: seq<Delegation>, v: Addr, height: nat, now: nat)
    requires ValidatorOk(s, stake, dels, v, height) && AllTracked(s, stake, dels, v, now)
    ensures ValidatorOk(s, stake, dels, v, now)
  {
    forall i {:trigger DelegationSound(s, stake, dels[i], now)} | 0 <= i < |dels| && dels[i].validator == v
      ensures DelegationSound(s, stake, dels[i], now)
    {
      SoundFromTracked(s, stake, dels[i], now);
    }
  }

  lemma SoundFromTracked(s: State, stake: Stake, del: Delegation, now: nat)
    requires Tracked(s, del, stake, now)
    ensures DelegationSound(s, stake, del, now)
  {
    TruncatedAtMostRounded(del.shares, stake);
    if (del.validator, del.delegator) in s.infos {
      var info := s.infos[(del.validator, del.delegator)];
      SoundFromLeft(info.previous, info.stake, SlashesOf(s, del.validator), info.height, now,
        StakeRounded(del.shares, stake));
    }
  }

  /** The tracked stakes of a validator together are worth no more than its tokens. */
  lemma {:induction false} StakesWithinTokens(s: State, stake: Stake, dels: seq<Delegation>, v: Addr, now: nat)
    requires stake.shares > 0 && AllTracked(s, stake, dels, v, now)
    ensures stake.shares * StakeSum(s, dels, v) <= SharesSum(dels, v) * (stake.tokens * ONE)
    decreases |dels|
  {
    if dels != [] {
      var n := |dels| - 1;
      forall i {:trigger Tracked(s, dels[..n][i], stake, now)} | 0 <= i < n && dels[..n][i].validator == v
        ensures Tracked(s, dels[..n][i], stake, now)
      {
        assert Tracked(s, dels[i], stake, now);
      }
      StakesWithinTokens(s, stake, dels[..n], v, now);
      if dels[n].validator == v {
        assert Tracked(s, dels[n], stake, now);
        StakeWithinShares(s, dels[n], stake, now);
        AddBounds(stake.shares, stake.tokens * ONE, StakeSum(s, dels[..n], v), SharesSum(dels[..n], v),
          StakeOf(s, dels[n]), dels[n].shares);
      }
    }
  }

  lemma AddBounds(f: nat, g: nat, a: nat, b: nat, c: nat, e: nat)
    requires f * a <= b * g && f * c <= e * g
    ensures f * (a + c) <= (b + e) * g
  {
  }

  lemma StakeWithinShares(s: State, del: Delegation, stake: Stake, now: nat)
    requires Tracked(s, del, stake, now)
    ensures stake.shares * StakeOf(s, del) <= del.shares * (stake.tokens * ONE)
  {
    var x, y := del.shares * stake.tokens * ONE, stake.shares;
    assert x == del.shares * (stake.tokens * ONE);
    FloorBound(x, y);
    ScaleUp(StakeOf(s, del), x / y, y);
  }

  lemma FloorBound(x: nat, y: nat)
    requires y > 0
    ensures 0 <= y * (x / y) <= x
  {
  }

  lemma CancelFactor(f: nat, a: nat, b: nat)
    requires f > 0 && f * a <= f * b
    ensures a <= b
  {
  }

  lemma StakeSumBound(s: State, stake: Stake, dels: seq<Delegation>, v: Addr, now: nat)
    requires SharesSum(dels, v) <= stake.shares && AllTracked(s, stake, dels, v, now)
    ensures StakeSum(s, dels, v) <= stake.tokens * ONE
  {
    if stake.shares == 0 {
      forall i | 0 <= i < |dels| ensures dels[i].validator != v {
        assert Tracked(s, dels[i], stake, now) ==> stake.shares > 0;
      }
      NoStakeAtAll(s, dels, v);
    } else {
      StakesWithinTokens(s, stake, dels, v, now);
      var t := stake.tokens * ONE;
      ScaleUp(SharesSum(dels, v), stake.shares, t);
      CancelFactor(stake.shares, StakeSum(s, dels, v), t);
    }
  }

  lemma {:induction false} NoStakeAtAll(s: State, dels: seq<Delegation>, v: Addr)
    requires forall i :: 0 <= i < |dels| ==> dels[i].validator != v
    ensures StakeSum(s, dels, v) == 0
    decreases |dels|
  {
    if dels != [] { NoStakeAtAll(s, dels[..|dels| - 1], v); }
  }

  // ---- The arithmetic of a slash ----

  /** Rounded up, so that a tracked stake never loses less than its share of the burnt tokens. */
  function BurnFraction(burnt: nat, tokens: nat): (f: Fraction)
    requires tokens > 0 && burnt <= tokens
    ensures f * tokens >= burnt * ONE && f * tokens < burnt * ONE + tokens
  {
    RoundUpBounds(burnt, tokens);
    (burnt * ONE + tokens - 1) / tokens
  }

  lemma RoundUpBounds(burnt: nat, tokens: nat)
    requires tokens > 0 && burnt <= tokens
    ensures var f := (burnt * ONE + tokens - 1) / tokens;
      f <= ONE && burnt * ONE <= f * tokens < burnt * ONE + tokens
  {
    var x := burnt * ONE + tokens - 1;
    var f := x / tokens;
    assert f * tokens <= x < f * tokens + tokens;
    ScaleUp(burnt, tokens, ONE);
    QuotientAtMost(x, tokens, ONE);
  }

  lemma QuotientAtMost(x: nat, y: nat, q: nat)
    requires y > 0 && x < q * y + y
    ensures x / y <= q
  {
    assert x / y * y <= x;
    if q + 1 <= x / y { ScaleUp(q + 1, x / y, y); }
  }

  /** A tracked stake that was worth its shares before the slash is worth them after it. */
  lemma SlashedWithin(left: nat, shares: nat, stake: Stake, burnt: nat, e: Slash)
    requires stake.shares > 0 && stake.tokens > 0 && burnt <= stake.tokens
    requires left <= StakeTruncated(shares, stake) && e.fraction == BurnFraction(burnt, stake.tokens)
    ensures AfterSlash(left, e) <= StakeTruncated(shares, stake.(tokens := stake.tokens - burnt))
  {
    var t, kept, f, total := stake.tokens, stake.tokens - burnt, ONE - e.fraction, stake.shares;
    var after := AfterSlash(left, e);
    FloorBound(shares * t * ONE, total);
    ScaleUp(left, StakeTruncated(shares, stake), total);
    assert left * total <= shares * t * ONE;
    FloorBound(left * f, ONE);
    assert f * t <= kept * ONE by { assert f * t == ONE * t - e.fraction * t; }
    ShrinkTogether(after, left, f, t, kept, total, shares);
    QuotientBound(shares * kept * ONE, total, after);
    assert StakeTruncated(shares, stake.(tokens := kept)) == shares * kept * ONE / total;
  }

  lemma ShrinkTogether(after: nat, left: nat, f: nat, t: nat, kept: nat, total: nat, shares: nat)
    requires t > 0 && ONE * after <= left * f
    requires left * total <= shares * t * ONE && f * t <= kept * ONE
    ensures after * total <= shares * kept * ONE
  {
    var x, y := left * total, f * t;
    Products(x, shares * t * ONE, y, kept * ONE);
    ScaleUp(ONE * after, left * f, total * t);
    assert left * f * (total * t) == x * y;
    assert ONE * after * (total * t) == ONE * t * (after * total);
    assert shares * t * ONE * (kept * ONE) == ONE * t * (shares * kept * ONE);
    CancelFactor(ONE * t, after * total, shares * kept * ONE);
  }

  lemma Products(a: nat, b: nat, c: nat, d: nat)
    requires a <= b && c <= d
    ensures a * c <= b * d
  {
    ScaleUp(a, b, c);
    ScaleUp(c, d, b);
  }
}
