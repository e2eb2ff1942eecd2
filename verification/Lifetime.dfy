/**
 The life of a chain that restarted from the export: blocks pass, rewards are allocated, delegators
 and validators withdraw, the bank refuses some of them, validators are slashed. After any such
 history the chain can be exported again, and its books are known exactly.
 */
module Lifetime {
  import opened Bytes
  import opened DecCoins
  import opened StakingTypes
  import opened FeeDistribution
  import opened FeeInvariant
  import opened ZeroHeight
  import opened Conservation
  import opened Rebuild
  import opened Restart
  import opened Solvency
  import opened CleanRestart
  import opened Dues
  import opened Overdraft

  datatype World = World(state: State, stakes: map<Key, Stake>, height: nat)

  datatype Event =
    | NextBlock
    | Fees(fees: Coins, toPool: Coins)                                  // fees arrive, a part of them for the pool
    | Allocate(validator: Addr, commission: Coins, shared: Coins)       // a validator's part of the fees
    | Withdraw(index: nat, refused: set<Addr>)                          // by the index-th delegation
    | TakeCommission(earner: Addr, refusing: set<Addr>)
    | SlashTokens(guilty: Addr, amount: nat)

  /** AllocateTokensToValidator: commission and shared rewards both become outstanding. */
  function AllocateTo(s: State, v: Addr, commission: Coins, shared: Coins): State
  {
    s.(commission := s.commission[v := Add(CommissionOf(s, v), commission)],
       current := s.current[v := CurrentOf(s, v).(rewards := Add(CurrentOf(s, v).rewards, shared))],
       outstanding := s.outstanding[v := Add(Add(OutstandingOf(s, v), commission), shared)])
  }

  function Happen(w: World, dels: seq<Delegation>, e: Event): World
  {
    match e
    case NextBlock => w.(height := w.height + 1)
    case Fees(fees, toPool) =>
      w.(state := w.state.(balance := Add(w.state.balance, fees), pool := Add(w.state.pool, toPool)))
    case Allocate(v, commission, shared) =>
      if ValidatorKey(v) in w.stakes then w.(state := AllocateTo(w.state, v, commission, shared)) else w
    case Withdraw(i, refused) =>
      if i < |dels| then w.(state := WithdrawRewards(w.state, w.stakes, dels[i], w.height, refused).state) else w
    case TakeCommission(v, refused) =>
      if ValidatorKey(v) in w.stakes then w.(state := WithdrawCommission(w.state, v, refused).state) else w
    case SlashTokens(v, amount) =>
      if ValidatorKey(v) in w.stakes then
        var stake := w.stakes[ValidatorKey(v)];
        World(Slashed(w.state, v, stake, amount, w.height).state,
              w.stakes[ValidatorKey(v) := LessStake(stake, amount)], w.height)
      else w
  }

  function After(w: World, dels: seq<Delegation>, events: seq<Event>): World
    decreases |events|
  {
    if events == [] then w
    else Happen(After(w, dels, events[..|events| - 1]), dels, events[|events| - 1])
  }

  ghost predicate Panics(w: World, dels: seq<Delegation>, e: Event)
  {
    match e
    case NextBlock => false
    case Fees(_, _) => false
    case Allocate(_, _, _) => false
    case Withdraw(i, refused) =>
      i < |dels| && WithdrawRewards(w.state, w.stakes, dels[i], w.height, refused).status.Panicked?
    case TakeCommission(v, refused) =>
      ValidatorKey(v) in w.stakes && WithdrawCommission(w.state, v, refused).status.Panicked?
    case SlashTokens(v, amount) =>
      ValidatorKey(v) in w.stakes && Slashed(w.state, v, w.stakes[ValidatorKey(v)], amount, w.height).status.Panicked?
  }

  /** The delegations of each validator hold no more shares than it has issued. */
  ghost predicate SharesBounded(stakes: map<Key, Stake>, dels: seq<Delegation>)
  {
    forall v: Addr {:trigger SharesSum(dels, v)} :: ValidatorKey(v) in stakes ==>
      SharesSum(dels, v) <= stakes[ValidatorKey(v)].shares
  }

  ghost predicate SolidAt(w: World, dels: seq<Delegation>, v: Addr)
  {
    ValidatorKey(v) in w.stakes ==> SolidValidator(w.state, w.stakes[ValidatorKey(v)], dels, v, w.height)
  }

  /** The invariant of the restarted chain. */
  ghost predicate Solid(w: World, order: seq<Addr>, dels: seq<Delegation>)
  {
    && ListsValidators(order, w.stakes)
    && Distinct(dels)
    && SharesBounded(w.stakes, dels)
    && Closed(w.state, order, dels)
    && forall v: Addr {:trigger SolidAt(w, dels, v)} :: SolidAt(w, dels, v)
  }

  // ---- Every event keeps the invariant ----

  /** Solid records are a well-formed start of the export. */
  lemma SolidIsReady(w: World, order: seq<Addr>, dels: seq<Delegation>)
    requires Solid(w, order, dels)
    ensures Ready(w.state, w.stakes, order, dels, w.height)
  {
    forall v: Addr {:trigger ValidatorOk(w.state, w.stakes[ValidatorKey(v)], dels, v, w.height)}
      | ValidatorKey(v) in w.stakes
      ensures ValidatorOk(w.state, w.stakes[ValidatorKey(v)], dels, v, w.height)
    {
      assert SolidAt(w, dels, v);
    }
    forall v | v in order ensures CommissionBacked(w.state, v) {
      assert SolidAt(w, dels, v);
      SolidBacked(w.state, w.stakes[ValidatorKey(v)], dels, v, w.height);
    }
  }

  /** A step that concerns only the records of v, and leaves v solid, leaves all solid. */
  lemma SolidStep(w: World, t: State, order: seq<Addr>, dels: seq<Delegation>, v: Addr)
    requires Solid(w, order, dels) && Closed(t, order, dels) && SolidAt(w.(state := t), dels, v)
    requires forall u: Addr {:trigger SameFor(w.state, t, u)} :: u != v ==> SameFor(w.state, t, u)
    ensures Solid(w.(state := t), order, dels)
  {
    forall u: Addr {:trigger SolidAt(w.(state := t), dels, u)} ensures SolidAt(w.(state := t), dels, u) {
      assert SolidAt(w, dels, u);
      if u != v && ValidatorKey(u) in w.stakes {
        assert SameFor(w.state, t, u);
        SolidElsewhere(w.state, t, w.stakes[ValidatorKey(u)], dels, u, w.height);
      }
    }
  }

  lemma NextBlockSolid(w: World, order: seq<Addr>, dels: seq<Delegation>)
    requires Solid(w, order, dels)
    ensures Solid(w.(height := w.height + 1), order, dels)
  {
    var x := w.(height := w.height + 1);
    forall v: Addr {:trigger SolidAt(x, dels, v)} ensures SolidAt(x, dels, v) {
      assert SolidAt(w, dels, v);
      if ValidatorKey(v) in w.stakes {
        SolidLater(w.state, w.stakes[ValidatorKey(v)], dels, v, w.height, w.height + 1);
      }
    }
  }

  lemma FeesSolid(w: World, t: State, order: seq<Addr>, dels: seq<Delegation>)
    requires Solid(w, order, dels) && t == w.state.(balance := t.balance, pool := t.pool)
    ensures Solid(w.(state := t), order, dels)
  {
    forall u: Addr {:trigger SolidAt(w.(state := t), dels, u)} ensures SolidAt(w.(state := t), dels, u) {
      assert SolidAt(w, dels, u);
      if ValidatorKey(u) in w.stakes {
        FeesElsewhere(w.state, t, u);
        SolidElsewhere(w.state, t, w.stakes[ValidatorKey(u)], dels, u, w.height);
      }
    }
    FeesClosed(w.state, t, order, dels);
  }

  lemma FeesElsewhere(s: State, t: State, u: Addr)
    requires t == s.(balance := t.balance, pool := t.pool)
    ensures SameFor(s, t, u)
  {
  }

  lemma FeesClosed(s: State, t: State, order: seq<Addr>, dels: seq<Delegation>)
    requires t == s.(balance := t.balance, pool := t.pool) && Closed(s, order, dels)
    ensures Closed(t, order, dels)
  {
  }

  lemma AllocateSolid(w: World, order: seq<Addr>, dels: seq<Delegation>, v: Addr, commission: Coins, shared: Coins)
    requires Solid(w, order, dels) && ValidatorKey(v) in w.stakes
    ensures Solid(w.(state := AllocateTo(w.state, v, commission, shared)), order, dels)
  {
    var t := AllocateTo(w.state, v, commission, shared);
    assert SolidAt(w, dels, v) && v in order;
    AllocateAccrues(w.state, v, commission, shared);
    FundsSolid(w.state, t, w.stakes[ValidatorKey(v)], dels, v, w.height);
    AllocateClosed(w.state, v, commission, shared, order, dels);
    forall u: Addr {:trigger SameFor(w.state, t, u)} | u != v
      ensures SameFor(w.state, t, u)
    {
      AllocateElsewhere(w.state, v, commission, shared, u);
    }
    SolidStep(w, t, order, dels, v);
  }

  lemma AllocateClosed(s: State, v: Addr, commission: Coins, shared: Coins, order: seq<Addr>, dels: seq<Delegation>)
    requires Closed(s, order, dels) && v in order
    ensures Closed(AllocateTo(s, v, commission, shared), order, dels)
  {
  }

  lemma AllocateElsewhere(s: State, v: Addr, commission: Coins, shared: Coins, u: Addr)
    requires u != v
    ensures SameFor(s, AllocateTo(s, v, commission, shared), u)
  {
  }

  lemma AllocateAccrues(s: State, v: Addr, commission: Coins, shared: Coins)
    ensures var t := AllocateTo(s, v, commission, shared);
      forall d :: Of(OutstandingOf(t, v), d) - Of(OutstandingOf(s, v), d) == Accrued(t, v, d) - Accrued(s, v, d)
  {
  }

  lemma CommissionSolid(w: World, order: seq<Addr>, dels: seq<Delegation>, v: Addr, refused: set<Addr>)
    requires Solid(w, order, dels) && ValidatorKey(v) in w.stakes
    ensures Solid(w.(state := WithdrawCommission(w.state, v, refused).state), order, dels)
  {
    var t := WithdrawCommission(w.state, v, refused).state;
    SolidIsReady(w, order, dels);
    assert SolidAt(w, dels, v) && v in order;
    CommissionAccrues(w.state, v, refused);
    FundsSolid(w.state, t, w.stakes[ValidatorKey(v)], dels, v, w.height);
    CommissionKeepsWellFormed(w.state, w.stakes, dels, v, w.height, refused);
    CommissionClosed(w.state, order, dels, v, refused);
    SolidStep(w, t, order, dels, v);
  }

  lemma CommissionAccrues(s: State, v: Addr, refused: set<Addr>)
    requires CommissionBacked(s, v)
    ensures var t := WithdrawCommission(s, v, refused).state;
      && t.history == s.history && t.infos == s.infos && t.slashes == s.slashes && t.current == s.current
      && forall d :: Of(OutstandingOf(t, v), d) - Of(OutstandingOf(s, v), d) == Accrued(t, v, d) - Accrued(s, v, d)
  {
    CommissionCovered(s, v);
    var t := WithdrawCommission(s, v, refused).state;
    if !IsZero(CommissionOf(s, v)) {
      assert t == WriteOff(s, v).(balance := t.balance);
      WriteOffAccrues(s, v);
      BalanceAside(WriteOff(s, v), t, v);
    }
  }

  lemma BalanceAside(s: State, t: State, v: Addr)
    requires t == s.(balance := t.balance)
    ensures OutstandingOf(t, v) == OutstandingOf(s, v) && CommissionOf(t, v) == CommissionOf(s, v) &&
      CurrentOf(t, v) == CurrentOf(s, v)
  {
  }

  lemma WriteOffAccrues(s: State, v: Addr)
    requires Covers(OutstandingOf(s, v), ToDec(Whole(CommissionOf(s, v))))
    ensures var t := WriteOff(s, v);
      && CurrentOf(t, v) == CurrentOf(s, v)
      && forall d ::
        Of(OutstandingOf(t, v), d) - Of(OutstandingOf(s, v), d) == Of(CommissionOf(t, v), d) - Of(CommissionOf(s, v), d)
  {
  }

  lemma WithdrawalSolid(w: World, order: seq<Addr>, dels: seq<Delegation>, k: nat, refused: set<Addr>)
    requires Solid(w, order, dels) && k < |dels|
    ensures Solid(w.(state := WithdrawRewards(w.state, w.stakes, dels[k], w.height, refused).state), order, dels)
  {
    var del, v := dels[k], dels[k].validator;
    if ValidatorKey(v) in w.stakes && (v, del.delegator) in w.state.infos {
      SolidIsReady(w, order, dels);
      assert SolidAt(w, dels, v) && SharesSum(dels, v) <= w.stakes[ValidatorKey(v)].shares;
      WithdrawSolid(w.state, w.stakes, dels, k, w.height, refused);
      WithdrawClosed(w.state, w.stakes, order, dels, k, w.height, refused);
      WithdrawElsewhere(w.state, w.stakes, dels, k, w.height, refused);
      SolidStep(w, WithdrawRewards(w.state, w.stakes, del, w.height, refused).state, order, dels, v);
    }
  }

  // ---- A slash keeps it ----

  lemma SlashSolidWorld(w: World, order: seq<Addr>, dels: seq<Delegation>, v: Addr, amount: nat)
    requires Solid(w, order, dels) && ValidatorKey(v) in w.stakes
    ensures Solid(Happen(w, dels, SlashTokens(v, amount)), order, dels)
  {
    var x := Happen(w, dels, SlashTokens(v, amount));
    forall u: Addr {:trigger SolidAt(x, dels, u)} ensures SolidAt(x, dels, u) {
      assert SolidAt(w, dels, v) && SolidAt(w, dels, u);
      if u == v { SlashHere(w, dels, v, amount); } else { SlashThere(w, dels, v, amount, u); }
    }
    SlashClosed(w, order, dels, v, amount);
    SlashedStakes(w, order, dels, v, amount);
  }

  lemma SlashHere(w: World, dels: seq<Delegation>, v: Addr, amount: nat)
    requires ValidatorKey(v) in w.stakes && SolidAt(w, dels, v) && SharesBounded(w.stakes, dels)
    ensures SolidAt(Happen(w, dels, SlashTokens(v, amount)), dels, v)
  {
    assert SharesSum(dels, v) <= w.stakes[ValidatorKey(v)].shares;
    SlashSolid(w.state, w.stakes[ValidatorKey(v)], dels, v, amount, w.height);
  }

  lemma SlashThere(w: World, dels: seq<Delegation>, v: Addr, amount: nat, u: Addr)
    requires ValidatorKey(v) in w.stakes && SolidAt(w, dels, v) && SolidAt(w, dels, u) && u != v
    ensures SolidAt(Happen(w, dels, SlashTokens(v, amount)), dels, u)
  {
    var stake := w.stakes[ValidatorKey(v)];
    KeyRoundTrip(u);
    KeyRoundTrip(v);
    if ValidatorKey(u) in w.stakes {
      SlashElsewhere(w.state, stake, dels, v, amount, w.height, u);
      SolidElsewhere(w.state, Slashed(w.state, v, stake, amount, w.height).state, w.stakes[ValidatorKey(u)], dels, u,
        w.height);
    }
  }

  lemma SlashClosed(w: World, order: seq<Addr>, dels: seq<Delegation>, v: Addr, amount: nat)
    requires Solid(w, order, dels) && ValidatorKey(v) in w.stakes
    ensures Closed(Slashed(w.state, v, w.stakes[ValidatorKey(v)], amount, w.height).state, order, dels)
  {
    var stake := w.stakes[ValidatorKey(v)];
    assert SolidAt(w, dels, v) && v in order;
    if Burnt(stake, amount) > 0 {
      var ended, event := SlashShape(w.state, stake, dels, v, amount, w.height);
      IncrementClosed(w.state, order, dels, v, stake.tokens);
      MarkedClosed(ended, Slashed(w.state, v, stake, amount, w.height).state, v, event, order, dels);
    }
  }

  lemma MarkedClosed(e: State, t: State, v: Addr, event: Slash, order: seq<Addr>, dels: seq<Delegation>)
    requires Marked(e, t, v, event) && Closed(e, order, dels) && v in order
    ensures Closed(t, order, dels)
  {
  }

  /** A slash changes neither any validator's shares nor which validators there are. */
  lemma SlashedStakes(w: World, order: seq<Addr>, dels: seq<Delegation>, v: Addr, amount: nat)
    requires ListsValidators(order, w.stakes) && SharesBounded(w.stakes, dels) && ValidatorKey(v) in w.stakes
    ensures var stakes := w.stakes[ValidatorKey(v) := LessStake(w.stakes[ValidatorKey(v)], amount)];
      ListsValidators(order, stakes) && SharesBounded(stakes, dels) && stakes.Keys == w.stakes.Keys
  {
    assert SharesSum(dels, v) <= w.stakes[ValidatorKey(v)].shares;
  }

  /** Whatever happens on the restarted chain, it stays solid. */
  lemma HappenSolid(w: World, order: seq<Addr>, dels: seq<Delegation>, e: Event)
    requires Solid(w, order, dels)
    ensures Solid(Happen(w, dels, e), order, dels)
  {
    match e
    case NextBlock => NextBlockSolid(w, order, dels);
    case Fees(fees, toPool) => FeesSolid(w, Happen(w, dels, e).state, order, dels);
    case Allocate(v, commission, shared) =>
      if ValidatorKey(v) in w.stakes { AllocateSolid(w, order, dels, v, commission, shared); }
    case Withdraw(i, refused) =>
      if i < |dels| { WithdrawalSolid(w, order, dels, i, refused); }
    case TakeCommission(v, refused) =>
      if ValidatorKey(v) in w.stakes { CommissionSolid(w, order, dels, v, refused); }
    case SlashTokens(v, amount) =>
      if ValidatorKey(v) in w.stakes { SlashSolidWorld(w, order, dels, v, amount); }
  }

  lemma {:induction false} AfterSolid(w: World, order: seq<Addr>, dels: seq<Delegation>, events: seq<Event>)
    requires Solid(w, order, dels)
    ensures Solid(After(w, dels, events), order, dels)
    decreases |events|
  {
    if events != [] {
      AfterSolid(w, order, dels, events[..|events| - 1]);
      HappenSolid(After(w, dels, events[..|events| - 1]), order, dels, events[|events| - 1]);
    }
  }

  lemma SolidNeverPanics(w: World, order: seq<Addr>, dels: seq<Delegation>, e: Event)
    requires Solid(w, order, dels)
    ensures !Panics(w, dels, e)
  {
    SolidIsReady(w, order, dels);
    match e
    case Withdraw(i, refused) =>
      if i < |dels| { WithdrawKeepsWellFormed(w.state, w.stakes, dels, i, w.height, refused); }
    case TakeCommission(v, refused) =>
      if ValidatorKey(v) in w.stakes { CommissionKeepsWellFormed(w.state, w.stakes, dels, v, w.height, refused); }
    case SlashTokens(v, amount) =>
      if ValidatorKey(v) in w.stakes {
        assert SolidAt(w, dels, v) && SharesSum(dels, v) <= w.stakes[ValidatorKey(v)].shares;
        SlashSolid(w.state, w.stakes[ValidatorKey(v)], dels, v, amount, w.height);
      }
    case _ =>
  }

  // ---- The books over a history ----

  /** What an event adds to the balance beyond what it adds to the pool and to outstanding rewards. */
  ghost function Income(stakes: map<Key, Stake>, e: Event, d: Denom): int
  {
    match e
    case Fees(fees, toPool) => Of(fees, d) * ONE - Of(toPool, d)
    case Allocate(v, commission, shared) =>
      if ValidatorKey(v) in stakes then 0 - (Of(commission, d) + Of(shared, d)) else 0
    case _ => 0
  }

  ghost function TotalIncome(stakes: map<Key, Stake>, events: seq<Event>, d: Denom): int
    decreases |events|
  {
    if events == [] then 0
    else TotalIncome(stakes, events[..|events| - 1], d) + Income(stakes, events[|events| - 1], d)
  }

  /** The commission that an event writes off and the bank then refuses. */
  ghost function Stranded(w: World, e: Event, d: Denom): nat
  {
    match e
    case TakeCommission(v, refused) => if ValidatorKey(v) in w.stakes then Unpaid(w.state, v, refused, d) else 0
    case _ => 0
  }

  ghost function TotalStranded(w: World, dels: seq<Delegation>, events: seq<Event>, d: Denom): nat
    decreases |events|
  {
    if events == [] then 0
    else
      var front := events[..|events| - 1];
      TotalStranded(w, dels, front, d) + Stranded(After(w, dels, front), events[|events| - 1], d)
  }

  lemma FeesGap(s: State, order: seq<Addr>, fees: Coins, toPool: Coins, d: Denom)
    ensures Gap(s.(balance := Add(s.balance, fees), pool := Add(s.pool, toPool)), order, d) ==
            Gap(s, order, d) + Of(fees, d) * ONE - Of(toPool, d)
  {
    SumElsewhere(s, s.(balance := Add(s.balance, fees), pool := Add(s.pool, toPool)), order, d);
  }

  lemma AllocateGap(s: State, order: seq<Addr>, v: Addr, commission: Coins, shared: Coins, d: Denom)
    requires Unique(order) && v in order
    ensures Gap(AllocateTo(s, v, commission, shared), order, d) == Gap(s, order, d) - Of(commission, d) - Of(shared, d)
  {
    SumChange(s, AllocateTo(s, v, commission, shared), order, v, d);
  }

  /** The gap changes by the income of an event and by what it strands, and by nothing else. */
  lemma GapOfEvent(w: World, order: seq<Addr>, dels: seq<Delegation>, e: Event, d: Denom)
    requires Solid(w, order, dels)
    ensures Gap(Happen(w, dels, e).state, order, d) ==
      Gap(w.state, order, d) + Income(w.stakes, e, d) + Stranded(w, e, d)
  {
    match e
    case NextBlock =>
    case Fees(fees, toPool) => FeesGap(w.state, order, fees, toPool, d);
    case Allocate(v, commission, shared) =>
      if ValidatorKey(v) in w.stakes { AllocateGap(w.state, order, v, commission, shared, d); }
    case Withdraw(i, refused) =>
      if i < |dels| {
        SolidIsReady(w, order, dels);
        WithdrawConserves(w.state, w.stakes, order, dels, i, w.height, refused, d);
      }
    case TakeCommission(v, refused) =>
      if ValidatorKey(v) in w.stakes {
        SolidNeverPanics(w, order, dels, e);
        CommissionConserves(w.state, order, v, refused, d);
      }
    case SlashTokens(v, amount) =>
      if ValidatorKey(v) in w.stakes {
        assert SolidAt(w, dels, v) && v in order;
        SlashConserves(w.state, w.stakes[ValidatorKey(v)], order, dels, v, amount, w.height, d);
      }
  }

  lemma {:induction false} StakesStay(w: World, dels: seq<Delegation>, events: seq<Event>)
    ensures After(w, dels, events).stakes.Keys == w.stakes.Keys
    decreases |events|
  {
    if events != [] { StakesStay(w, dels, events[..|events| - 1]); }
  }

  lemma IncomeSame(a: map<Key, Stake>, b: map<Key, Stake>, e: Event, d: Denom)
    requires a.Keys == b.Keys
    ensures Income(a, e, d) == Income(b, e, d)
  {
  }

  /** The books after any history: what came in beyond what was promised, and the commissions stranded. */
  lemma {:induction false} GapAfterHistory(w: World, order: seq<Addr>, dels: seq<Delegation>, events: seq<Event>,
      d: Denom)
    requires Solid(w, order, dels)
    ensures Gap(After(w, dels, events).state, order, d) ==
            Gap(w.state, order, d) + TotalIncome(w.stakes, events, d) + TotalStranded(w, dels, events, d)
    decreases |events|
  {
    if events != [] {
      var front, last := events[..|events| - 1], events[|events| - 1];
      GapAfterHistory(w, order, dels, front, d);
      AfterSolid(w, order, dels, front);
      GapOfEvent(After(w, dels, front), order, dels, last, d);
      StakesStay(w, dels, front);
      IncomeSame(w.stakes, After(w, dels, front).stakes, last, d);
    }
  }

  // ---- From export to export ----

  lemma {:induction false} FreshOwes(s: State, dels: seq<Delegation>, v: Addr, d: Denom)
    requires SlashesOf(s, v) == [] && forall p: nat :: RecordOf(s, v, p).ratio == ZERO
    ensures Owed(s, dels, v, d, 0) == 0
    decreases |dels|
  {
    if dels != [] { FreshOwes(s, dels[..|dels| - 1], v, d); }
  }

  lemma FreshIsSolid(w: World, order: seq<Addr>, dels: seq<Delegation>)
    requires ListsValidators(order, w.stakes) && Distinct(dels) && SharesBounded(w.stakes, dels)
    requires Fresh(w.state, w.stakes, order, dels)
    ensures Solid(w, order, dels)
  {
    FreshIsWellFormed(w.state, w.stakes, order, dels, w.height);
    forall v: Addr {:trigger SolidAt(w, dels, v)} ensures SolidAt(w, dels, v) {
      if ValidatorKey(v) in w.stakes {
        assert ValidatorOk(w.state, w.stakes[ValidatorKey(v)], dels, v, w.height) && v in order;
        FreshNotOverdrawn(w.state, w.stakes, order, dels, v);
        FreshTracked(w.state, w.stakes, order, dels, v, w.height);
      }
    }
  }

  lemma FreshNotOverdrawn(s: State, stakes: map<Key, Stake>, order: seq<Addr>, dels: seq<Delegation>, v: Addr)
    requires Fresh(s, stakes, order, dels) && v in order
    ensures CurrentOf(s, v).period > 0 && forall d {:trigger NotOverdrawn(s, dels, v, d)} :: NotOverdrawn(s, dels, v, d)
  {
    assert dels[..|dels|] == dels;
    assert RebuiltValidator(s, v, CountFor(dels, v));
    FreshRatios(s, stakes, order, dels, v);
    forall d {:trigger NotOverdrawn(s, dels, v, d)} ensures NotOverdrawn(s, dels, v, d) { FreshOwes(s, dels, v, d); }
  }

  lemma FreshTracked(s: State, stakes: map<Key, Stake>, order: seq<Addr>, dels: seq<Delegation>, v: Addr, now: nat)
    requires Fresh(s, stakes, order, dels) && ValidatorKey(v) in stakes
    ensures AllTracked(s, stakes[ValidatorKey(v)], dels, v, now)
  {
    var stake := stakes[ValidatorKey(v)];
    forall i {:trigger Tracked(s, dels[i], stake, now)} | 0 <= i < |dels| && dels[i].validator == v
      ensures Tracked(s, dels[i], stake, now)
    {
      assert Served(stakes, dels, i);
    }
  }

  /**
   A chain restarted from an export can be exported again: after any history of blocks, fees,
   allocations, withdrawals, commissions and slashes, with any accounts refused at any time, the
   preparation completes and gives fresh records once more.
   */
  lemma ExportAfterAnyHistory(start: World, order: seq<Addr>, dels: seq<Delegation>, events: seq<Event>,
      refused: set<Addr>)
    requires ListsValidators(order, start.stakes) && Distinct(dels) && SharesBounded(start.stakes, dels)
    requires Fresh(start.state, start.stakes, order, dels)
    ensures var w := After(start, dels, events);
      var r := PrepareDistribution(w.state, w.stakes, order, dels, w.height, refused);
      r.status.Done? && Fresh(r.state, w.stakes, order, dels)
  {
    var w := After(start, dels, events);
    FreshIsSolid(start, order, dels);
    AfterSolid(start, order, dels, events);
    SolidIsReady(w, order, dels);
    StakesStay(start, dels, events);
    FreshAreKnown(start.state, start.stakes, w.stakes, order, dels);
    PreparationCompletes(w.state, w.stakes, order, dels, w.height, refused);
  }

  lemma FreshAreKnown(s: State, stakes: map<Key, Stake>, later: map<Key, Stake>, order: seq<Addr>,
      dels: seq<Delegation>)
    requires Fresh(s, stakes, order, dels) && later.Keys == stakes.Keys
    ensures AllKnown(later, dels)
  {
    forall del | del in dels ensures ValidatorKey(del.validator) in later {
      var i :| 0 <= i < |dels| && dels[i] == del;
      assert Served(stakes, dels, i);
    }
  }

  /** No guard fires at any point of such a history. */
  lemma HistoryNeverPanics(start: World, order: seq<Addr>, dels: seq<Delegation>, events: seq<Event>, next: Event)
    requires ListsValidators(order, start.stakes) && Distinct(dels) && SharesBounded(start.stakes, dels)
    requires Fresh(start.state, start.stakes, order, dels)
    ensures !Panics(After(start, dels, events), dels, next)
  {
    FreshIsSolid(start, order, dels);
    AfterSolid(start, order, dels, events);
    SolidNeverPanics(After(start, dels, events), order, dels, next);
  }

  /**
   When no more was promised than came in, the second export starts solvent, and then the whole life
   from export to export is accounted for: income, commissions stranded before, and commissions that
   the second export strands.
   */
  lemma BooksFromExportToExport(start: World, order: seq<Addr>, dels: seq<Delegation>, events: seq<Event>,
      refused: set<Addr>)
    requires ListsValidators(order, start.stakes) && Distinct(dels) && SharesBounded(start.stakes, dels)
    requires Fresh(start.state, start.stakes, order, dels) && Solvent(start.state, order)
    requires forall d :: TotalIncome(start.stakes, events, d) >= 0
    ensures var w := After(start, dels, events);
      var t := PrepareDistribution(w.state, w.stakes, order, dels, w.height, refused).state;
      && Solvent(w.state, order)
      && forall d {:trigger Gap(t, order, d)} :: Gap(t, order, d) ==
           Gap(start.state, order, d) + TotalIncome(start.stakes, events, d) + TotalStranded(start, dels, events, d)
           + RefusedCommission(w.state, order, refused, d)
  {
    var w := After(start, dels, events);
    FreshIsSolid(start, order, dels);
    AfterSolid(start, order, dels, events);
    SolidIsReady(w, order, dels);
    StakesStay(start, dels, events);
    FreshAreKnown(start.state, start.stakes, w.stakes, order, dels);
    forall d ensures Gap(w.state, order, d) ==
      Gap(start.state, order, d) + TotalIncome(start.stakes, events, d) + TotalStranded(start, dels, events, d)
    {
      GapAfterHistory(start, order, dels, events, d);
    }
    forall d ensures Gap(w.state, order, d) >= 0 { assert Gap(start.state, order, d) >= 0; }
    ConservationIsExact(w.state, w.stakes, order, dels, w.height, refused);
  }
}
