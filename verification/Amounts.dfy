/**
 What the operations do to the stored numbers, said of the numbers alone: how much ratio a closed
 period adds, which stake a started delegation tracks, what a slash leaves of it, and so what the
 delegators earn.
 */
module Amounts {
  import opened DecCoins
  import opened StakingTypes
  import opened Bytes
  import opened FeeDistribution
  import opened FeeInvariant
  import opened ZeroHeight
  import opened Rebuild
  import opened Restart
  import opened Dues
  import opened Overdraft

  // ---- Closing a period ----

  /**
   Closing a period hands all its rewards to the tokens: the ratio grows by the largest amount that does
   not overpay them. A validator without tokens gives them to the pool instead.
   */
  lemma PeriodDistributes(s: State, t: State, v: Addr, tokens: nat, d: Denom)
    requires IncrementPeriod(s, v, tokens) == Step(t, Done)
    ensures var n, rewards := CurrentOf(s, v).period, Of(CurrentOf(s, v).rewards, d);
      && n > 0 && CurrentOf(t, v) == Current(ZERO, n + 1) && (v, n) in t.history
      && var g := Of(t.history[(v, n)].ratio, d) - Of(RecordOf(s, v, n - 1).ratio, d);
      && (tokens > 0 ==> g * tokens <= rewards < (g + 1) * tokens)
      && (tokens > 0 ==> t.pool == s.pool && t.outstanding == s.outstanding)
      && (tokens == 0 ==> g == 0 && Of(t.pool, d) == Of(s.pool, d) + rewards)
      && (tokens == 0 ==> Of(OutstandingOf(t, v), d) == Of(OutstandingOf(s, v), d) - rewards)
  {
    IncrementAt(s, v, tokens, (v, 0));
    IncrementRest(s, v, tokens);
    IncrementFunds(s, v, tokens);
  }

  // ---- Starting a delegation ----

  /** `tracked` is the largest stake that the shares of a delegation are worth. */
  ghost predicate Worth(tracked: nat, shares: nat, stake: Stake)
  {
    tracked * stake.shares <= shares * stake.tokens * ONE < (tracked + 1) * stake.shares
  }

  /** A started delegation tracks what its shares are worth, from the period just ended. */
  lemma StartTracks(s: State, t: State, del: Delegation, stake: Stake, height: nat)
    requires StartDelegation(s, del, stake, height) == Step(t, Done)
    ensures var v, key := del.validator, (del.validator, del.delegator);
      && CurrentOf(s, v).period > 0 && key in t.infos
      && t.infos[key].previous == CurrentOf(s, v).period - 1 && t.infos[key].height == height
      && Worth(t.infos[key].stake, del.shares, stake)
      && t.infos - {key} == s.infos - {key}
  {
    WorthOf(del.shares, stake);
  }

  lemma WorthOf(shares: nat, stake: Stake)
    requires stake.shares > 0
    ensures Worth(StakeTruncated(shares, stake), shares, stake)
  {
    Quotient(shares * stake.tokens * ONE, stake.shares);
  }

  lemma Quotient(x: nat, y: nat)
    requires y > 0
    ensures x / y * y <= x < (x / y + 1) * y
  {
    assert (x / y + 1) * y == x / y * y + y;
  }

  /** So does every delegation after the rebuild, at height zero. */
  lemma FreshTracks(s: State, stakes: map<Key, Stake>, order: seq<Addr>, dels: seq<Delegation>, i: nat)
    requires Fresh(s, stakes, order, dels) && i < |dels|
    ensures var key := (dels[i].validator, dels[i].delegator);
      && ValidatorKey(dels[i].validator) in stakes && key in s.infos
      && s.infos[key].height == 0
      && Worth(s.infos[key].stake, dels[i].shares, stakes[ValidatorKey(dels[i].validator)])
  {
    assert Served(stakes, dels, i);
    WorthOf(dels[i].shares, stakes[ValidatorKey(dels[i].validator)]);
  }

  /** The stake that the margin is checked against is the nearest to the worth of the shares. */
  lemma RoundedIsNearest(shares: nat, stake: Stake)
    requires stake.shares > 0
    ensures var r, x := StakeRounded(shares, stake), shares * stake.tokens * ONE;
      && 2 * r * stake.shares <= 2 * x + stake.shares
      && 2 * x * ONE < (2 * r * ONE + ONE + 2) * stake.shares
  {
    var x, total := shares * stake.tokens * ONE, stake.shares;
    var scaled, r := x * ONE / total, StakeRounded(shares, stake);
    Quotient(x * ONE, total);
    HalfUp(scaled, r);
    NearFromAbove(r, x, total, scaled);
    NearFromBelow(r, x, total, scaled);
  }

  lemma NearFromAbove(r: nat, x: nat, total: nat, scaled: nat)
    requires scaled * total <= x * ONE && 2 * r * ONE <= 2 * scaled + ONE
    ensures 2 * r * total <= 2 * x + total
  {
    ScaleUp(2 * r * ONE, 2 * scaled + ONE, total);
    assert 2 * r * ONE * total == ONE * (2 * r * total);
    assert (2 * scaled + ONE) * total == 2 * (scaled * total) + ONE * total;
    assert ONE * (2 * x + total) == 2 * (x * ONE) + ONE * total;
    CancelFactor(ONE, 2 * r * total, 2 * x + total);
  }

  lemma NearFromBelow(r: nat, x: nat, total: nat, scaled: nat)
    requires x * ONE < (scaled + 1) * total && 2 * scaled <= 2 * r * ONE + ONE
    ensures 2 * x * ONE < (2 * r * ONE + ONE + 2) * total
  {
    ScaleUp(2 * scaled + 2, 2 * r * ONE + ONE + 2, total);
    assert (2 * scaled + 2) * total == 2 * ((scaled + 1) * total);
    assert 2 * x * ONE == 2 * (x * ONE);
  }

  lemma HalfUp(scaled: nat, r: nat)
    requires var low, rest := scaled / ONE, scaled % ONE;
      r == if 2 * rest < ONE then low else if 2 * rest > ONE then low + 1 else if low % 2 == 0 then low else low + 1
    ensures 2 * scaled - ONE <= 2 * r * ONE <= 2 * scaled + ONE
  {
    assert scaled == scaled / ONE * ONE + scaled % ONE;
  }

  /**
   Between slash events a reward is computed on the smaller of the tracked stake and the one owned, and
   not at all when the tracked one is larger by more than three units.
   */
  lemma {:induction false} CappedByOwned(s: State, v: Addr, from: nat, stake: nat, events: seq<Slash>, low: nat,
      high: nat, ending: nat, owned: nat, d: Denom)
    requires forall e :: e in events ==> !Splits(e, from, low, high)
    ensures var a := Accrue(s, v, from, stake, events, low, high, ending, owned);
      var earned := Stretch(s, v, from, ending, if stake <= owned then stake else owned, d);
      && (stake > owned + 3 ==> a.Undefined?)
      && (a.Defined? ==> Of(a.rewards, d) * ONE <= earned < (Of(a.rewards, d) + 1) * ONE)
    decreases |events|
  {
    if events == [] {
      var used := if stake <= owned then stake else owned;
      BetweenAtMost(s, v, from, ending, used, used, d);
      BetweenAtLeast(s, v, from, ending, used, d);
    } else {
      assert !Splits(events[0], from, low, high);
      CappedByOwned(s, v, from, stake, events[1..], low, high, ending, owned, d);
    }
  }

  // ---- Slashing a stake ----

  /** A slash takes the event's fraction of a stake, and less than one unit more. */
  lemma SlashTakes(left: nat, e: Slash)
    ensures AfterSlash(left, e) * ONE <= left * (ONE - e.fraction) < (AfterSlash(left, e) + 1) * ONE
  {
    Quotient(left * (ONE - e.fraction), ONE);
  }

  /** A stake keeps its part of the tokens that are left, up to one unit and a 10^18th of itself. */
  lemma SlashLeaves(left: nat, stake: Stake, burnt: nat, e: Slash)
    requires 0 < stake.tokens && burnt <= stake.tokens && e.fraction == BurnFraction(burnt, stake.tokens)
    ensures left * (stake.tokens - burnt) * ONE <= (AfterSlash(left, e) + 1) * stake.tokens * ONE + left * stake.tokens
  {
    var t, kept, f, after := stake.tokens, stake.tokens - burnt, ONE - e.fraction, AfterSlash(left, e);
    SlashTakes(left, e);
    assert kept * ONE <= f * t + t by { assert f * t == ONE * t - e.fraction * t; }
    LeavesPart(left, f, t, kept, after);
  }

  lemma LeavesPart(left: nat, f: nat, t: nat, kept: nat, after: nat)
    requires left * f <= (after + 1) * ONE && kept * ONE <= f * t + t
    ensures left * kept * ONE <= (after + 1) * t * ONE + left * t
  {
    ScaleUp(kept * ONE, f * t + t, left);
    assert (f * t + t) * left == left * f * t + left * t;
    ScaleUp(left * f, (after + 1) * ONE, t);
    assert kept * ONE * left == left * kept * ONE;
    assert (after + 1) * ONE * t == (after + 1) * t * ONE;
  }

  // ---- What a delegation earns in a period ----

  /** The earnings by the rewards of one period of a delegation's shares, rounded down twice. */
  ghost predicate EarnsShare(due: int, g: nat, tracked: nat, rewards: nat, shares: nat, total: nat)
  {
    && due * total <= rewards * shares * ONE
    && rewards * shares * ONE < (due + g + tracked + 1) * total
  }

  lemma ShareOf(g: nat, tracked: nat, rewards: nat, shares: nat, stake: Stake)
    requires 0 < stake.tokens && g * stake.tokens <= rewards < (g + 1) * stake.tokens
    requires 0 < stake.shares && Worth(tracked, shares, stake)
    ensures EarnsShare(g * tracked, g, tracked, rewards, shares, stake.shares)
  {
    var t, total, x := stake.tokens, stake.shares, shares * stake.tokens * ONE;
    ShareAtMost(g, tracked, rewards, shares, t, total, x);
    ShareAtLeast(g, tracked, rewards, shares, t, total, x);
    assert (g + 1) * (tracked + 1) == g * tracked + g + tracked + 1;
  }

  lemma ShareAtMost(g: nat, tracked: nat, rewards: nat, shares: nat, t: nat, total: nat, x: nat)
    requires t > 0 && g * t <= rewards && tracked * total <= x && x == shares * t * ONE
    ensures g * tracked * total <= rewards * shares * ONE
  {
    Products(g * t, rewards, tracked * total, x);
    Regroup(g, t, tracked, total);
    RewardsOf(rewards, shares, t, x);
    CancelFactor(t, g * tracked * total, rewards * shares * ONE);
  }

  lemma ShareAtLeast(g: nat, tracked: nat, rewards: nat, shares: nat, t: nat, total: nat, x: nat)
    requires t > 0 && rewards < (g + 1) * t && x < (tracked + 1) * total && x == shares * t * ONE
    ensures rewards * shares * ONE < (g + 1) * (tracked + 1) * total
  {
    StrictProducts(rewards, (g + 1) * t, x, (tracked + 1) * total);
    Regroup(g + 1, t, tracked + 1, total);
    RewardsOf(rewards, shares, t, x);
    StrictCancel(t, rewards * shares * ONE, (g + 1) * (tracked + 1) * total);
  }

  lemma Regroup(a: nat, b: nat, c: nat, d: nat)
    ensures a * b * (c * d) == b * (a * c * d)
  {
    assert a * b * (c * d) == b * (a * (c * d)) == b * (a * c * d);
  }

  lemma RewardsOf(rewards: nat, shares: nat, t: nat, x: nat)
    requires x == shares * t * ONE
    ensures rewards * x == t * (rewards * shares * ONE)
  {
    assert shares * t * ONE == t * (shares * ONE);
    Regroup(rewards, 1, t, shares * ONE);
    assert rewards * (t * (shares * ONE)) == t * (rewards * (shares * ONE)) == t * (rewards * shares * ONE);
  }

  lemma StrictProducts(a: nat, b: nat, c: nat, d: nat)
    requires a < b && c < d
    ensures a * c < b * d
  {
    ScaleUp(a, b, c);
    ScaleUp(c + 1, d, b);
    assert b * (c + 1) == b * c + b;
  }

  lemma StrictCancel(f: nat, a: nat, b: nat)
    requires f > 0 && f * a < f * b
    ensures a < b
  {
    if b <= a { ScaleUp(b, a, f); }
  }

  /**
   A delegation that started at the last period earns, when the next one is closed, the part of its
   rewards that its shares are of all shares.
   */
  lemma RestartedEarns(s: State, t: State, stake: Stake, dels: seq<Delegation>, k: nat, now: nat, d: Denom)
    requires k < |dels| && ValidatorOk(s, stake, dels, dels[k].validator, now) && stake.tokens > 0 && stake.shares > 0
    requires IncrementPeriod(s, dels[k].validator, stake.tokens) == Step(t, Done)
    requires var v, key := dels[k].validator, (dels[k].validator, dels[k].delegator);
      && key in s.infos && s.infos[key].previous == CurrentOf(s, v).period - 1
      && Worth(s.infos[key].stake, dels[k].shares, stake)
    ensures var v, key := dels[k].validator, (dels[k].validator, dels[k].delegator);
      && CurrentOf(t, v).period > 0 && Top(t, v, d) >= Top(s, v, d)
      && EarnsShare(Due(t, dels[k], d, Top(t, v, d)), Top(t, v, d) - Top(s, v, d), s.infos[key].stake,
                    Of(CurrentOf(s, v).rewards, d), dels[k].shares, stake.shares)
  {
    var v := dels[k].validator;
    var info := s.infos[(v, dels[k].delegator)];
    var g := Growth(s, t, stake, v, d);
    IncrementKeepsOk(s, stake, dels, v, now);
    IncrementRest(s, v, stake.tokens);
    IncrementSameRatios(s, stake, dels, v, now);
    DueStays(s, t, stake, stake, dels, k, now, d, Top(t, v, d));
    EarlierEvents(s, v, info.previous, info.stake, SlashesOf(s, v), d, Top(t, v, d));
    ShareOf(g, info.stake, Of(CurrentOf(s, v).rewards, d), dels[k].shares, stake);
  }

  lemma Growth(s: State, t: State, stake: Stake, v: Addr, d: Denom) returns (g: nat)
    requires IncrementPeriod(s, v, stake.tokens) == Step(t, Done) && stake.tokens > 0
    ensures CurrentOf(s, v).period > 0 && CurrentOf(t, v).period > 0 && Top(t, v, d) == Top(s, v, d) + g
    ensures g * stake.tokens <= Of(CurrentOf(s, v).rewards, d) < (g + 1) * stake.tokens
  {
    PeriodDistributes(s, t, v, stake.tokens, d);
    var grown := Top(t, v, d) - Top(s, v, d);
    if grown < 0 { NotPositive(grown + 1, stake.tokens); }
    g := grown;
  }

  lemma NotPositive(a: int, b: nat)
    requires a <= 0
    ensures a * b <= 0
  {
  }

  // ---- What all delegations earn in a period ----

  /** The stake left of a delegation is what its shares are worth, but for less than one unit. */
  ghost predicate Tight(s: State, del: Delegation, stake: Stake)
  {
    del.shares * stake.tokens * ONE < (StakeOf(s, del) + 1) * stake.shares
  }

  lemma FreshIsTight(s: State, stakes: map<Key, Stake>, order: seq<Addr>, dels: seq<Delegation>, i: nat)
    requires Fresh(s, stakes, order, dels) && i < |dels|
    ensures ValidatorKey(dels[i].validator) in stakes && Tight(s, dels[i], stakes[ValidatorKey(dels[i].validator)])
  {
    FreshTracks(s, stakes, order, dels, i);
  }

  lemma {:induction false} StakesReachTokens(s: State, stake: Stake, dels: seq<Delegation>, v: Addr)
    requires forall i {:trigger Tight(s, dels[i], stake)} :: 0 <= i < |dels| && dels[i].validator == v ==>
      Tight(s, dels[i], stake)
    ensures SharesSum(dels, v) * (stake.tokens * ONE) <= (StakeSum(s, dels, v) + CountFor(dels, v)) * stake.shares
    decreases |dels|
  {
    if dels != [] {
      var n := |dels| - 1;
      forall i {:trigger Tight(s, dels[..n][i], stake)} | 0 <= i < n && dels[..n][i].validator == v
        ensures Tight(s, dels[..n][i], stake)
      {
        assert Tight(s, dels[i], stake);
      }
      StakesReachTokens(s, stake, dels[..n], v);
      if dels[n].validator == v {
        assert Tight(s, dels[n], stake);
        assert dels[n].shares * stake.tokens * ONE == dels[n].shares * (stake.tokens * ONE);
        AddReached(stake.tokens * ONE, stake.shares, SharesSum(dels[..n], v),
          StakeSum(s, dels[..n], v) + CountFor(dels[..n], v),
                   dels[n].shares, StakeOf(s, dels[n]) + 1);
      }
    }
  }

  lemma AllTokensReached(s: State, stake: Stake, dels: seq<Delegation>, v: Addr)
    requires SharesSum(dels, v) == stake.shares > 0
    requires forall i {:trigger Tight(s, dels[i], stake)} :: 0 <= i < |dels| && dels[i].validator == v ==>
      Tight(s, dels[i], stake)
    ensures stake.tokens * ONE <= StakeSum(s, dels, v) + CountFor(dels, v)
  {
    StakesReachTokens(s, stake, dels, v);
    CancelAcross(stake.shares, stake.tokens * ONE, StakeSum(s, dels, v) + CountFor(dels, v));
  }

  lemma CancelAcross(f: nat, a: nat, b: nat)
    requires f > 0 && f * a <= b * f
    ensures a <= b
  {
    CancelFactor(f, a, b);
  }

  lemma AddReached(f: nat, g: nat, a: nat, b: nat, c: nat, e: nat)
    requires a * f <= b * g && c * f <= e * g
    ensures (a + c) * f <= (b + e) * g
  {
  }

  /**
   When the delegations hold all shares, closing a period leaves the delegators due all its rewards but
   for less than 10^-18 for each token and one unit of the ratio's growth for each delegation.
   */
  lemma PeriodReachesDelegators(s: State, t: State, stake: Stake, dels: seq<Delegation>, v: Addr, now: nat, d: Denom)
    requires ValidatorOk(s, stake, dels, v, now) && stake.tokens > 0 && stake.shares > 0
    requires IncrementPeriod(s, v, stake.tokens) == Step(t, Done) && SharesSum(dels, v) == stake.shares
    requires forall i {:trigger Tight(s, dels[i], stake)} :: 0 <= i < |dels| && dels[i].validator == v ==>
      Tight(s, dels[i], stake)
    ensures CurrentOf(t, v).period > 0
    ensures var grown := Owed(t, dels, v, d, Top(t, v, d)) - Owed(s, dels, v, d, Top(s, v, d));
      Of(CurrentOf(s, v).rewards, d) * ONE <
        grown + stake.tokens * ONE + (Top(t, v, d) - Top(s, v, d)) * CountFor(dels, v)
  {
    var g := PeriodOwes(s, t, stake, dels, v, now, d);
    ReachesDelegators(s, stake, dels, v, Of(CurrentOf(s, v).rewards, d), g);
  }

  lemma ReachesDelegators(s: State, stake: Stake, dels: seq<Delegation>, v: Addr, rewards: nat, g: nat)
    requires SharesSum(dels, v) == stake.shares > 0 && rewards < (g + 1) * stake.tokens
    requires forall i {:trigger Tight(s, dels[i], stake)} :: 0 <= i < |dels| && dels[i].validator == v ==>
      Tight(s, dels[i], stake)
    ensures rewards * ONE < g * StakeSum(s, dels, v) + stake.tokens * ONE + g * CountFor(dels, v)
  {
    AllTokensReached(s, stake, dels, v);
    Reached(g, stake.tokens, rewards, StakeSum(s, dels, v), CountFor(dels, v));
  }

  /** What is owed grows by the growth of the ratio on every stake. */
  lemma PeriodOwes(s: State, t: State, stake: Stake, dels: seq<Delegation>, v: Addr, now: nat, d: Denom)
      returns (g: nat)
    requires ValidatorOk(s, stake, dels, v, now) && stake.tokens > 0
    requires IncrementPeriod(s, v, stake.tokens) == Step(t, Done)
    ensures CurrentOf(s, v).period > 0 && CurrentOf(t, v).period > 0 && Top(t, v, d) - Top(s, v, d) == g
    ensures g * stake.tokens <= Of(CurrentOf(s, v).rewards, d) < (g + 1) * stake.tokens
    ensures Owed(t, dels, v, d, Top(t, v, d)) - Owed(s, dels, v, d, Top(s, v, d)) == g * StakeSum(s, dels, v)
  {
    g := Growth(s, t, stake, v, d);
    IncrementKeepsDues(s, stake, dels, v, now, d, Top(t, v, d));
    OwedGrows(s, dels, v, d, Top(s, v, d), g);
  }

  lemma Reached(g: nat, tokens: nat, rewards: nat, sum: nat, n: nat)
    requires rewards < (g + 1) * tokens && tokens * ONE <= sum + n
    ensures rewards * ONE < g * sum + tokens * ONE + g * n
  {
    ScaleUp(tokens * ONE, sum + n, g);
    assert (sum + n) * g == g * sum + g * n;
    assert (g + 1) * tokens * ONE == tokens * ONE * g + tokens * ONE;
  }
}
